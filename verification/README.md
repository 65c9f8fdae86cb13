# wrapper-manager: a verified model of the multi-account engine

wrapper-manager serves requests through a set of account instances. It keeps a
registry of them, shuts out an account whose FairPlay calls keep failing, asks
Apple's catalog which storefronts can serve an item, forwards a request with
bounded retry, logs accounts in and out (with a second factor), and restarts,
deactivates and restores instances. This project models that in-memory engine
and proves laws about it: over whole histories of calls for the breaker, the
registry, the once-guard, the port allocator and the probe caches; over every
interleaving for the slots, the login protocol and the instance lifecycle; and
across components for one request from selection to response.

| module | models |
|---|---|
| `Outcomes` | options, results and histories |
| `Breaker` | the FairPlay circuit breaker and the account book it summarises |
| `Registry`, `HealthGuard` | the shared slice of instances, the once-guard of the failure handlers, eligibility |
| `Status` | the aggregated status reply |
| `Slots` | the two-slot semaphore of an instance, and one forwarded call |
| `Ports` | the random port allocator |
| `PortAssignment` | giving registered instances ports of their own |
| `Retry` | the retry loop, its time budget and the one response it writes |
| `ProbeKeys`, `ProbeCache` | cache and flight keys, memoised and shared probes |
| `Selection`, `LyricsChoice`, `LangTags` | choosing instances for an item or for lyrics |
| `Gateway` | registry, breaker, selection and retry put together |
| `Login` | the two-phase login: flags, result channel, waiters, the login table |
| `Lifecycle` | start, ready, exit, restart, deactivation, logout, for objects and processes |
| `Persistence` | the saved file, crashes, and the boot |
| `Readiness` | when the manager calls itself ready |

Where the source mutates state, a class mutates the same fields, and its methods
are tied to what the laws are proved about: a specification function
(`Breaker.Run`, `Registry.Replay`, `HealthGuard.Next`) or the steps of a
transition system (`Slots.Next`, `Login.Next` through `Login.Represents`,
`Lifecycle.Next`). Foreign behaviour is a parameter: clock readings, random draws, probe
replies, what a process or an upstream call did. Times are nanoseconds.

## Where the code and its promises differ

Each of these is proved of the code as it is, with the exact condition under
which the promise holds.

- "Repeated failures" open the circuit, but five in a row need not: a query that
  is the first to see an old trip expire forgets up to four counted failures
  (`Breaker.FiveInARowMayNotTrip`). The fifth opens it iff no such query came
  between them (`Breaker.FifthInARowTripsIff`).
- Two first requests can both create the semaphore of an instance; a token is
  then lost and three calls can be in flight. Accounting holds in every
  interleaving iff the channel existed before or at most one request comes
  (`Slots.AccountedIff`, `Slots.RaceBreaksCap`).
- Key parts are not escaped, so a request whose parts contain a slash can be
  given another request's cached or shared answer. `ProbeKeys.HasAliasIff` says for
  exactly which requests another one has the same key, and
  `ProbeCache.AlwaysRightIff` that exactly those can be answered wrongly. As long as
  regions have no slash, and clients do not choose them, that leaves lyrics
  requests only (`ProbeKeys.HasRegionalAliasIff`, `ProbeCache.RegionallyRightIff`).
- wrapper-manager's own README (lines 130-132) says a request that submits a code
  waits for the outcome.
  The channel holds one value: with two such requests only one learns it, the
  other times out (`Login.CanLearnIff`).
- A code reaches the attempt registered under the account. Resolving an older
  attempt drops the newer registration (`Login.StaysRegisteredIff`).
- All attempts at an account share its data directory. One whose child has exited
  with its tokens keeps them until its service is up iff no other attempt can
  still wipe them (`Login.KeepsTokensIff`); a newer login always can
  (`Login.LaterLoginWipes`).
- A process whose start timed out is not killed. Its later fatal line removes the
  replacement, which then restarts, and it outlives a logout
  (`Lifecycle.StaleLineRestarts`, `Lifecycle.TimedOutSurvivesLogout`; exact in
  `Lifecycle.HandlerFinalIff`, `Lifecycle.LogoutFinalIff`, `Lifecycle.LogoutKillsAllIff`).
- The same README (line 118) says a logout removes the account from the saved
  file. The logout's own save lists it still, unless the exit of the killed
  process or a fatal line was handled before that save
  (`Lifecycle.LogoutSaveListsIff`). The handled exit does remove it, but only of a
  process that had become ready: a logout while the instance is starting leaves
  the account registered and listed for good, with its data wiped
  (`Lifecycle.LogoutRemovesIff`, `Lifecycle.LogoutWhileStarting`).
- A restart does not save. When another account is saved while this one is between
  its exit and its restart, it serves unlisted, and a crash would lose it. That
  can happen iff anything may still start a process for it
  (`Lifecycle.CanServeUnlistedIff`, `Lifecycle.UnlistedIff`).
- The same README (lines 110-111) says `ready` means restoring has finished. The
  test counts every registered instance with a region: restored accounts carry
  their saved region before they are up, an account that logs in after the boot
  counts as well (`Readiness.LoginMakesReady`), and so does one whose process
  reported a region and exited, though its start failed
  (`Readiness.FailedStartMakesReady`). Over all runs "ready" can be relied on only
  where it says nothing (`Readiness.AnyRunReadyMeansUpIff`);
  `Readiness.ReadyMeansUpIff` has the condition when it is known which accounts are
  seen with a region early. An account listed twice has to be made up for by
  another one's login (`Readiness.CanBecomeReadyIff`).
- The comment at `storefront.go:28-30` keeps the capital in `zh-Hant`; the code
  returns `zh-hant`. Normalising is not idempotent on a tag with a blank right
  before the hyphen it is cut at (`LangTags.NormalFormStableIff`).

## Model

| member | source | states |
|---|---|---|
| Breaker.TableMatchesBooks | instance.go:51-107 | over every history with a clock that never goes back, the two fields the code keeps are the summary of a ledger of all trips; trips are a cooldown apart; the counter is below five |
| Breaker.OpenIffRecentTrip | instance.go:51-64 | the code answers "open" iff some trip since the last reset is at most one cooldown old, although it closes lazily |
| Breaker.FifthInARowTripsIff | instance.go:51-87 | with the counter at zero and five failures outside any cooldown, queries anywhere between them, the fifth opens the circuit iff none of those queries is the first of all to come after the last cooldown ended |
| Breaker.FailuresConserved | instance.go:51-87 | reported since the reset = held back + 5 × trips + counter + forgotten; forgotten ≤ 4 × lazy closes ≤ 4 × trips |
| Breaker.TripRateBounded | instance.go:69-87 | any window of length W holds at most W / cooldown + 1 trips of an account |
| Breaker.FiveInARowMayNotTrip | instance.go:58-62 | a concrete run in which the fifth failure in a row does not open the circuit because a query came first |
| Breaker.FiveShutOutFor300s | instance.go:33-36 | four failures do not shut an account out; five at one time do, up to and including 300 s later and not one nanosecond longer, while at that instant failures are counted again |
| Breaker.CircuitTable.CircuitOpen | instance.go:51-64 | refines the ledger: true iff a recent trip exists, and records the query |
| Breaker.CircuitTable.RecordFailure | instance.go:69-87 | true iff the ledger gained exactly this trip, which is iff it was the fifth counted outside a cooldown |
| Breaker.CircuitTable.ResetCircuit | instance.go:103-107 | the account starts over with an empty ledger |
| HealthGuard.EachGuardFiresOnce | wrapper.go:433-441 | handler runs of an account are its guards that have fired, one run each |
| HealthGuard.GuardsFollowInsertions | instance.go:208-213 | an account has no guard before its first insertion, and never more guards than insertions |
| HealthGuard.HandledOncePerLifecycle | wrapper.go:425-442 | over any interleaving of readers, late ones included, and re-insertions, an account's handlers run at most once per insertion |
| HealthGuard.GuardsStand | wrapper.go:433-438 | the guard a reader is given stands for the account's present lifecycle and for no other, so an insertion always brings a new one |
| HealthGuard.RunsAreLifecycles | wrapper.go:425-442 | handler runs of an account are exactly its lifecycles in which a fatal line was seen and acted upon |
| HealthGuard.HandledAgain | instance.go:208-211 | whatever happened before, the first fatal line after an insertion runs the handler |
| Registry.RegistryIsOrderedMap | instance.go:200-251 | after any insertions and removals the registry holds exactly the effective insertions that nothing undid, in their order, with unique ids |
| Registry.CloseGap | instance.go:219-223 | shifting in place removes one entry and keeps the order of the others |
| Registry.InstanceRegistry.Find | instance.go:203-207 | the first entry with the id, or the length iff there is none |
| Registry.InstanceRegistry.InsertInstance | instance.go:200-214 | a present id changes nothing, circuit and guard included; a new one is appended and has neither, and the guards of the others stay |
| Registry.InstanceRegistry.RemoveInstance | instance.go:216-225 | removes the account's entry whichever object holds it, in the same array, and leaves circuits and guards alone |
| Registry.InstanceRegistry.GetInstance | instance.go:242-251 | finds an instance iff the id is registered |
| Registry.InstanceRegistry.SnapshotInstances | instance.go:228-239 | a fresh copy of the whole registry |
| Registry.SnapshotThenRemove | instance.go:216-239 | a snapshot still shows the old registry after an in-place removal |
| Registry.InstanceRegistry.SelectableInstances | region.go:93-103 | exactly the instances of a snapshot without a recent trip when each is asked about, in order, whatever others do to the breaker between the questions |
| Registry.FilteredFacts | region.go:93-103 | an instance is selectable iff it is in the snapshot and eligible when it is asked about; ids stay unique |
| Registry.QueryIsRecorded | region.go:93-103 | everything others report to the breaker between two questions is in the history the later question is judged by |
| Registry.InstanceRegistry.DegradedCount | instance.go:91-99 | degraded + selectable = registered, for the same questions to the breaker |
| Registry.InstanceRegistry.FetchGuard | wrapper.go:433-438 | loads the account's guard or stores a new one |
| Registry.InstanceRegistry.UseGuard | wrapper.go:434-439 | runs the handler iff the guard has never been used |
| Status.DistinctRegions | proxy.go:283-293 | for any way of comparing names: each region once whatever its case, as first spelled and in order of first appearance, none missing |
| Status.HandleStatus | proxy.go:281-302 | count, regions, readiness and degraded all describe the registry at the call; degraded counts exactly those kept from selection |
| Slots.AccountedIff | instance.go:121-146 | tokens equal the calls holding one, never exceed two, and no release blocks, in every interleaving of n requests iff the channel existed before or n ≤ 1 |
| Slots.RaceLosesToken | instance.go:122-126 | the six-step schedule in which a second creation loses a held token |
| Slots.RaceBreaksCap | instance.go:122-126 | with three requests that race puts three calls in flight |
| Slots.QuiescentIsEmpty | instance.go:131-146 | with a channel made beforehand, whenever all requests have ended it is empty, whatever each call did |
| Slots.AnythingMeanwhile | instance.go:121-146 | any run of the other requests can happen between two steps of a call |
| Slots.InstanceSlots.EnsureSem | instance.go:122-126 | whatever the others do between check and set, the request goes on with a channel, and an existing one is kept; the call is a run of the transition system |
| Slots.InstanceSlots.AcquireInstanceSlot | instance.go:131-139 | with the others taking and giving slots meanwhile: granted iff the channel it waits on has room at its last look before the timer, after at most 15 s; otherwise it ends without a token |
| Slots.InstanceSlots.ReleaseInstanceSlot | instance.go:142-146 | takes a token from the channel held by then, or hangs iff that one is empty, which cannot be when the channel existed before or nobody could race |
| Slots.InstanceSlots.FetchFromLite | proxy.go:23-64 | the whole call among the others is a run of the transition system; it ends with its slot given back unless the channel was replaced in a race; a reply iff a slot was granted and the upstream answered within 12 s; it waited as long as the others made it, at most 15 s, and took as long as the upstream, at most 12 s |
| Ports.GuardIsExact | port.go:34-36 | pigeonhole: the size test holds iff every port of the range is used |
| Ports.PortAllocator.GenerateUniquePort | port.go:27-49 | -1 iff all ports are issued; otherwise the first drawn one neither issued nor taken; all ports ever issued are distinct and in range |
| PortAssignment.NextPort | port.go:27-49 | a port no instance holds, never issued before, or -1 iff all are issued |
| PortAssignment.PrepareStart | wrapper.go:546-558 | a start registers the account when absent and gives its instance a never-issued port; until every port is issued all instances given one have different ports |
| PortAssignment.GetInstanceOrNew | wrapper.go:589-600 | a login keeps a known instance and its port; a new one is registered with a port of its own; until exhaustion all are different |
| Retry.EarlierRepliesRetryable | proxy.go:172-196 | a loop that went on from candidate to candidate saw only retryable non-zero replies before its last one, made at most three fetches, and started the last within the budget |
| Retry.LastReplyLogged | proxy.go:193-201 | the last reply of the loop is the last reply in the log of fetches; there is none iff all fetches failed |
| Retry.FinalIsLast | proxy.go:141-149 | a reply with code 0 or 400, or 404 on `/lyrics`, is followed by no other fetch |
| Retry.WhyStopped | proxy.go:172-196 | candidates are left over only after three fetches, 20 s, or such a reply |
| Retry.AllAreTried | proxy.go:176-185 | every candidate looked at has vanished or was fetched from, with its own outcome and time |
| Retry.FetchesTimed | proxy.go:171-175 | the fetches follow one another from the start of the loop to its end |
| Retry.EachIdOnce | proxy.go:172-181 | distinct candidates are fetched from at most once each |
| Retry.Walk | proxy.go:167-201 | looks at exactly the candidates the bounds and the replies allow; the response is the last business reply, or a refusal when there was none |
| Retry.SelectAndProxy | proxy.go:156-202 | one response, the last reply or a refusal iff there was none, cacheable iff a success on one of the four cacheable paths; at most three fetches, none begun after 20 s; a code 0 or 400, or 404 on `/lyrics`, ends the loop and nothing but that, the third fetch or the deadline does while there are candidates; over within 47 s of its start, under the write timeout |
| ProbeKeys.JoinedInjective | region.go:26-32 | joining with slashes loses nothing when only the last part may contain one |
| ProbeKeys.FamiliesDisjoint | region.go:298-302 | song, video and lyrics flights never share a key |
| ProbeKeys.KeyInjective | region.go:26-32 | equal keys mean equal requests when only the item id may contain slashes |
| ProbeKeys.SlashFreeHasNoAlias | region.go:298-302 | a request without slashes is the only one with its key |
| ProbeKeys.SlashGivesAlias | region.go:298-302 | a slash in any part, except a script of one slash alone, gives another request the same key |
| ProbeKeys.LoneSlashScriptHasNoAlias | region.go:295-298 | that exception: an empty script is never part of a key, so a lone slash cannot be split |
| ProbeKeys.HasAliasIff | region.go:292-302 | exactly which requests share their key with another one |
| ProbeKeys.HasRegionalAliasIff | region.go:26-32 | among requests whose regions have no slash: no region probe shares its key, and exactly which lyrics probes do |
| ProbeCache.RunInv | region.go:26-88 | in every run, every remembered or given answer came from a probe of a request with the same key |
| ProbeCache.OnlyDataRemembered | region.go:60-81 | what is remembered about a region was a data reply: neither a failed probe nor a reply that lists errors is; a lyrics probe without a positive reply is remembered as no |
| ProbeCache.AnswersExplained | region.go:60-87 | every answer is what some reply under its key says: data is the answer, a list of errors means no, a failed probe is an error, and about lyrics all but a positive reply means no; or it is the wildcard's yes |
| ProbeCache.RemembersIff | region.go:33-35 | what is in a cache at any time: the last reply worth remembering under the key, unless it was evicted since |
| ProbeCache.NobodyForgotten | region.go:37-38 | every waiting call has a flight, and none waits for one that has landed |
| ProbeCache.AnswersAreProbed | region.go:292-314 | under any interleaving, evictions and errors, when the requests made have distinct keys every answer was given by a probe of that very request (or is the wildcard's) |
| ProbeCache.PlainRequestsAreProbed | region.go:26-88 | the same whenever only item ids contain slashes |
| ProbeCache.CachesTransparent | region.go:26-88 | for an unchanging catalog each non-error answer is the catalog's |
| ProbeCache.StolenAnswer | region.go:302-313 | two requests with one key in one flight: the second is given the first one's answer |
| ProbeCache.AlwaysRightIff | region.go:292-314 | a request is answered by probes of itself in every run iff no other request shares its key |
| ProbeCache.RegionallyRightIff | region.go:26-88 | in all runs with such regions a request is answered by probes of itself iff no other such request shares its key; region probes always are |
| Selection.ProbeMemo.CheckAvailableOnRegion | region.go:26-88 | a non-error answer is the catalog's; an error iff not remembered, not the wildcard and the probe failed; only data replies are remembered |
| Selection.ProbeMemo.HasLyricsCached | region.go:292-314 | the answer is the catalog's for the request with its default script, and is remembered |
| Selection.ProbeSongs | region.go:116-142 | whatever order the workers run in, each slot holds the result for its own instance |
| Selection.CollectHits | region.go:144-149 | the ids of the successful slots, in order |
| Selection.HitsFacts | region.go:144-149 | an id is a hit iff its slot succeeded; distinct instances give distinct hits |
| Selection.VideoIdsFacts | region.go:151-161 | an id is among the videos iff some instance with it has a region with the music video |
| Selection.ProbeVideos | region.go:151-161 | in order, exactly the instances whose region has the video, none left out, or the first error |
| Selection.Shuffle | region.go:163-165 | a permutation in place |
| Selection.SelectFrom | region.go:114-167 | among the eligible instances: an id is selected iff it is a song hit or, when there is no song hit, iff its region has the video, and as often; an error only when no song was found and a video probe failed |
| Selection.SelectInstances | region.go:110-167 | the same for the whole registry; the breaker has seen exactly the questions and what others did meanwhile, and the registry and the lyrics cache are unchanged |
| LyricsChoice.Tiers | region.go:198-207 | the tiers split the eligible instances by language support, each in exactly one |
| LyricsChoice.ProbeOne | region.go:254-264 | yes iff the instance has a music token and the catalog has the lyrics; without a token nothing is probed |
| LyricsChoice.PickLyricsInstanceWithSong | region.go:231-279 | an id with a positive probe, or "" iff no candidate has one |
| LyricsChoice.PickByTier | region.go:209-220 | an id that supports the language if any instance with a positive probe does |
| LyricsChoice.SelectInstanceForLyrics | region.go:192-221 | without a developer token ""; otherwise an id is chosen iff some eligible instance has a music token and lyrics in the wanted script ("en-Latn" by default), and it is one whose storefront supports the language if there is any |
| LangTags.NormalFormStableIff | storefront.go:31-49 | normalising twice is normalising once iff no blank stands right before the cut |
| LangTags.CaseIrrelevant | storefront.go:36-43 | for any lower-casing with the properties of `LangTags.Lowers`, a tag and its lower-case form have the same normal form |
| LangTags.RegionDropped | storefront.go:31-49 | a tag without a script collapses to its lower-case primary language, whatever blanks come before it and whatever follows the hyphen |
| LangTags.ScriptKept | storefront.go:31-43 | a Chinese script is kept in whatever case it is written, whatever blanks come before it and whatever follows |
| LangTags.WholeTagKept | storefront.go:44-48 | a tag without a script and without a hyphen, or with one only in front, is only trimmed and lower-cased |
| LangTags.FamiliarTags | storefront.go:28-30 | `en-US`, `zh-TW`, padded `ja-JP`, `zh-Hant-TW` and `zh-Hans-CN` become `en`, `zh`, `ja`, `zh-hant` and `zh-hans` |
| LangTags.RegionSupportsLang | storefront.go:53-68 | true iff the storefront lists a tag with the same non-empty normal form |
| LangTags.OneTagSupportsIff | storefront.go:53-68 | a storefront that lists one plain language with a region supports a plain language iff the two differ in case only, in whatever case the storefront is asked for |
| LangTags.JapaneseInJapan | storefront.go:53-68 | one listing `ja-JP` supports `ja` for `JP` and `jp`, one listing only `en-US` does not |
| LangTags.NormalisedRequestSameAnswerIff | storefront.go:53-68 | sending the normal form instead gives the same answer for every storefront iff that form is stable |
| Gateway.SelectedAreEntitled | region.go:110-167 | selected ids are distinct, registered when instances were selected, without a trip in the cooldown before their own query, and their region has the item |
| Gateway.SelectEntitled | proxy.go:157-165 | the same for the selection a request makes, which is exact |
| Gateway.Forward | proxy.go:167-202 | the same for the selected ids: only they are asked, none twice |
| Gateway.ServeRequest | proxy.go:156-202 | end to end: only entitled instances are asked, none twice, and all of the above about the response |
| Login.LoginState.ClaimPending2FA | login.go:229-237 | succeeds iff a prompt is pending and unreported, and never again after that |
| Login.LoginTable.StartLogin | login.go:109-136 | a ready account is rejected; a code goes to the registered pending attempt; a request without one registers a fresh attempt in place of any other |
| Login.LoginLaws | login.go:109-296 | every step of every interleaving keeps the laws of every attempt; the wipe before the child starts and the clean-up before a failure is sent are steps of their own |
| Login.RepliesAtMostOnce | login.go:200-237 | at most one code-2 reply and one final outcome per attempt; success only after tokens and service start, failure only after clean-up; a resolved attempt's outcome is in the channel or delivered |
| Login.OutcomeTraced | login.go:153-167 | read off the events: nobody is told of a success unless the child exited with tokens and after that the service came up, nor of a failure unless the data was wiped before |
| Login.NoTokensNoSuccess | login.go:159-167 | an attempt whose child exited without tokens never concludes with success |
| Login.FlagsTraced | login.go:229-249 | pending iff a prompt came while the attempt was registered, reported iff a request has polled since |
| Login.WaiterTraced | login.go:200-219 | a request is told of a timeout iff its timer fired, of the outcome iff it took it, and to send a code iff it was the first to poll after the prompt |
| Login.WaitersArrived | login.go:117-136 | those who wait are exactly those who came: the attempt's own request and each one that submitted a code while it was registered |
| Login.RegisteredIs | login.go:56-88 | the registered attempt is the newest one, unless some attempt was resolved since it began |
| Login.TokensIff | login.go:131-132 | the directory has tokens iff some child has written them since the last wipe |
| Login.CanSucceed | login.go:140-167 | from every state an attempt whose child has not exited can still succeed |
| Login.CanLearnIff | login.go:200-219 | a waiting request can still learn the outcome iff no other one has |
| Login.StaysRegisteredIff | login.go:282-288 | a registered attempt stays reachable until it is resolved iff no older attempt is in flight |
| Login.CanConclude | login.go:140-177 | from any state an unresolved attempt can be brought to its outcome by its own steps, leaving all other attempts alone, and wiping the data if it still could |
| Login.KeepsTokensIff | login.go:131-167 | without a new login, an attempt whose child exited with its tokens has them when its service comes up, in every run, iff no other attempt can still wipe the directory |
| Login.LaterLoginWipes | login.go:127-132 | a new login at that point makes the older one succeed without its tokens |
| Login.BeginLogin | login.go:127-136 | on the table and the `LoginState` objects, a request without a code is the protocol's step `Begin` |
| Login.SubmitCode | login.go:117-125 | a request with a code is let in iff the protocol allows `Submit` and the code could be written; otherwise nothing changes |
| Login.Announce | login.go:240-249 | a 2FA line is the step `Prompt`: it marks the attempt registered now, whichever child printed it |
| Login.Conclude | login.go:282-288 | resolving is the step `Resolve`: it drops whichever attempt is registered and fills this one's channel |
| Login.WaitOnce | login.go:204-218 | a round of waiting is the step `Take` when there is an outcome and `Tick` otherwise, with the reply the protocol gives |
| Lifecycle.FinalIff | wrapper.go:349-410 | no process is ever started before a new login iff no start is scheduled and every process still watched belongs to an object marked not to restart |
| Lifecycle.HandlerFinalIff | wrapper.go:490-508 | handling a fatal line is final iff nothing but the object of the line could bring a restart, or a login's start that the kill ends |
| Lifecycle.LogoutFinalIff | login.go:324-341 | a successful logout is final iff nothing but the registered object could bring a restart, or a login's start that the kill ends |
| Lifecycle.StartNotFinal | wrapper.go:546-574 | a start that has run is never the last one possible |
| Lifecycle.StartFailFinalIff | wrapper.go:561-566 | a failed start is the end of restarts iff it was a login's or its object is marked, and nothing else could restart the account |
| Lifecycle.DownFinalIff | wrapper.go:603-612 | an exit is the end of restarts iff its object is marked and nothing else could restart the account |
| Lifecycle.ReadyFinalIff | wrapper.go:404-410 | becoming ready changes nothing about that |
| Lifecycle.RunKeepsLineage | wrapper.go:546-612 | orderly runs keep at most one watched process or scheduled start, and it is the registered object's own, or a marked one's when nothing is registered |
| Lifecycle.OrderlyDeactivationIsFinal | wrapper.go:490-612 | on every orderly run a fatal line and a successful logout are final until a new login |
| Lifecycle.OrderlyRunServes | wrapper.go:546-574 | an orderly run after which the account serves and can be deactivated and logged out |
| Lifecycle.StaleLineRestarts | wrapper.go:392-394 | a run in which the fatal line of a process that timed out does not deactivate the account |
| Lifecycle.LogoutKillsAllIff | login.go:324-341 | a logout leaves no process alive iff the registered instance's was the only one |
| Lifecycle.AliveIff | wrapper.go:616-630 | a process is alive iff it has not died by itself and was not killed as the registered instance's by a fatal line or a logout |
| Lifecycle.TokensIff | wrapper.go:490-508 | the data directory has tokens iff the last of a spawned login, a dead subscription, the end of a logout and a login that could not start was the login: no exit, restart or invalid session takes them |
| Lifecycle.RegisteredIff | wrapper.go:546-612 | registered iff started or logged in and since then no exit of a ready process and no fatal line was handled |
| Lifecycle.MarkedIff | wrapper.go:490-508 | an object is marked iff the last event about its mark was a fatal line of one of its processes or a logout |
| Lifecycle.StartsConserved | wrapper.go:561-610 | starts scheduled by exits and failed starts of unmarked objects have run or are still to run, none is lost or made up |
| Lifecycle.LogoutsConserved | login.go:324-341 | every logout that killed a process saves once, and no other one does |
| Lifecycle.DownIsLast | wrapper.go:404-408 | an exit is handled only of a dead process, once, and nobody minds the process after that |
| Lifecycle.TimedOutSurvivesLogout | wrapper.go:392-394 | a run in which a process outlives a successful logout |
| Lifecycle.FileFollowsRegistry | wrapper.go:603-612 | once nothing will start, the saved file lists the account iff it is registered, on every further run |
| Lifecycle.UnlistedIff | wrapper.go:546-612 | on every run the account is registered but unlisted iff the last save found it unregistered and it has been registered since, and listed but gone iff it was removed since |
| Lifecycle.CanServeUnlistedIff | wrapper.go:546-574 | an account can come to serve unlisted without a login iff something may still start a process for it |
| Lifecycle.LogoutSaveListsIff | login.go:334-338 | whatever happens between a logout's kill and its save, the save lists the account iff neither the killed process's exit nor a fatal line was handled in between |
| Lifecycle.LogoutRemovesIff | wrapper.go:397-410 | after a successful logout on an orderly run the account can still leave the registry, and a file that was right, without a login or a fatal line, iff its process had become ready |
| Lifecycle.LogoutWhileStarting | wrapper.go:561-566 | an orderly run after which the logged-out account is registered and listed with its data gone, and stays so |
| Lifecycle.Supervisor.WrapperStart | wrapper.go:546-574 | registers when absent and keeps a known instance; a restart stays possible ever after, and the file is not touched |
| Lifecycle.Supervisor.StartFailed | wrapper.go:561-566 | the account stays registered and listed, no process is killed, and restarts end exactly as `StartFailFinalIff` says |
| Lifecycle.Supervisor.BecameReady | login.go:268-277 | a login's start puts the listing right, a restart leaves it; finality is unchanged |
| Lifecycle.Supervisor.WrapperDown | wrapper.go:603-612 | unregisters by id and keeps the data; a marked object leaves the file, any other one is started again; restarts end exactly as `DownFinalIff` says |
| Lifecycle.Supervisor.HandleSubscriptionDead | wrapper.go:490-497 | nothing registered, listed or cached, the line's own object marked, the registered object's process dead and every other one as before; final exactly as `HandlerFinalIff` says |
| Lifecycle.Supervisor.HandleSessionInvalid | wrapper.go:502-508 | the same, with the data as before |
| Lifecycle.Supervisor.StartLogout | login.go:324-336 | up to the kill: the account stays registered, listed and with its data, marked even when the kill fails; only the registered process dies; final exactly as `LogoutFinalIff` says |
| Lifecycle.Supervisor.FinishLogout | login.go:337-338 | the data is gone and the listing agrees with the registry, whatever happened since the kill |
| Lifecycle.Supervisor.FinishLoginSuccess | login.go:264-279 | the account is registered and restartable again, and stays restartable when its process was spawned |
| Persistence.Store.SaveInstances | instance.go:148-178 | stopped after any number of steps, the registry file is the old one unless all steps were done |
| Persistence.Store.LoadInstance | instance.go:180-198 | the decoded list; a file that cannot be decoded is set aside whole and read as empty |
| Persistence.SaveCrashLoad | instance.go:148-198 | a boot after a crash at any point sees the whole old or the whole new registry |
| Persistence.CollectSaved | instance.go:148-161 | what is saved is the whole registry in order |
| Persistence.ShouldStartIff | main.go:82-97 | as many instances are registered as the boot waits for iff no account is listed twice, and then they are the file's |
| Persistence.RestoreOne | main.go:88-96 | registers one saved account unless it is already there |
| Persistence.Restore | main.go:81-101 | the registry becomes the first entries of the file's accounts, in order; ready at once iff the file is empty |
| Persistence.SaveThenBoot | instance.go:148-198 | save, then boot, rebuilds ids, regions and ports in order, and waits for exactly that many |
| Readiness.CountReady | wrapper.go:577-585 | how many different registered accounts have a region |
| Readiness.CountedIff | wrapper.go:577-585 | who is counted, read off the events: an account that left is not, until it is entered again and a region is known |
| Readiness.ReadyIff | wrapper.go:571-573 | ready iff the file was empty or at the end of some start at least as many were counted as it has lines |
| Readiness.BootCount | main.go:88-97 | right after a boot that count is the number of accounts whose first entry in the file has a region |
| Readiness.CanBecomeReadyIff | wrapper.go:571-573 | with the given accounts, of the file or logging in later, the readiness test can succeed in some run iff there are at least as many as the file has lines |
| Readiness.ReadyMeansUpIff | wrapper.go:571-573 | over all runs with the given accounts, of which some may be seen with a region early, "ready" implies that every account of the file has come up iff none can be left out of the count: it is the only account, or the others, plus itself when saved with a region or seen early, are fewer than the lines |
| Readiness.AnyRunReadyMeansUpIff | wrapper.go:383-402 | when any process may report its region and exit: iff ready is never reached, the file is empty, or there is just one account |
| Readiness.FileAccountsOnly | main.go:80-101 | without further logins: ready is reachable iff no account is listed twice; then it means that all are up iff there is at most one, or, if no region is seen before its start has finished, none was saved with a region |
| Readiness.LoginMakesReady | login.go:273-275 | one account in the file, not up, and another one that logs in: "ready" does not mean that all are up |
| Readiness.FailedStartMakesReady | wrapper.go:383-402 | two accounts in the file, one of which reports its region and exits: "ready" does not mean that all are up |
| Readiness.ReadyStays | main.go:26-30 | once ready the manager stays ready |

## Left out

- HTTP servers and clients, the Apple probes and token scraping (`token.go`, `lyrics_probe.go`): their results are parameters, one reply per instance and request.
- Processes, pipes, signals, the file system and zip extraction: only "alive", "tokens present", "in the saved file" and the steps of write-then-rename are kept.
- The LRU, singleflight, JSON, UUID and random libraries: eviction is arbitrary, a key has one leader at a time, decoding inverts encoding, a draw is any number in range.
- Telemetry, log filtering, the qemu launcher, guest files and containers.
- `validateKeyRequest`, `resolveLogoutID`, the signal substring tests, cache-header helpers and endpoint dispatch, including the fallback of `/lyrics` to region selection when no instance has the lyrics.
- Loading and refreshing the storefront language table: it is a parameter, absent or present.
- Concurrent saves: the snapshot and the write are not under one lock, so a single writer is modelled.
- Liveness of the port loop, of restarts and of waiters: nothing bounds them without fairness.
- Readiness.CountReady: the test and the setting of the flag are one step.
- Login.WaitOnce: the loop of a waiting request is modelled round by round, with the rounds and the timer as steps of the protocol.
- LangTags.CaseIrrelevant: lower-casing is a parameter, one character for one; Go's is taken to have the properties listed in `LangTags.Lowers`.
- Ports.PortAllocator.GenerateUniquePort: None stands for a call still drawing; ports of restored instances are not known to the allocator in the source either, and are replaced at the first start.
- Retry.SelectAndProxy: the 47 s are counted from the start of the loop; time spent on probing before it is not bounded.
- Slots.InstanceSlots.AcquireInstanceSlot: a slot that comes free exactly when the timer fires counts as granted; Go chooses either.
- Selection.ProbeMemo.HasLyricsCached: the memo assumes requests with distinct keys and an unchanging catalog; `ProbeCache` covers sharing, evictions, failures and aliasing.
- Selection.SelectInstances: failures, queries and insertions of others are interleaved with the questions to the breaker, the registry itself stays as the snapshot was.
- LyricsChoice.SelectInstanceForLyrics: instance ids are not empty (they are UUIDs), the answer does not depend on which instance's music token is used, and the registry does not change meanwhile.
- Lifecycle.OrderlyDeactivationIsFinal: orderly means a login does not overlap a starting, serving or restarting instance, fatal lines come from the watched process, and a logout does not fall between a failed start and its retry; `Lifecycle.HandlerFinalIff` and `Lifecycle.LogoutFinalIff` are exact without that.
- Lifecycle.Supervisor.WrapperStart: starts and the handlers of fatal lines are single steps, a logout is two, and objects and processes are numbered values of one account, so aliasing is an index and not a reference.
- Lifecycle.Supervisor.FinishLoginSuccess: the wipe at the beginning of a login is a step of `Login`, not of `Lifecycle`.
- Login.KeepsTokensIff: wipes by a logout or a fatal line of an earlier instance are steps of `Lifecycle`, not of `Login`.
- Login.LoginLaws: one account; attempts at different accounts share only the table, whose steps are per id. Clean-up errors are ignored as in the source, and unregistering and sending are one step.
