/**
 Remembering probe answers. Any number of calls look in a cache, join a flight
 for their key or lead a new one, and share its answer; entries may be evicted
 at any time. An answer must come from a probe of the very question asked.
 */
module ProbeCache {
  import opened Outcomes
  import opened ProbeKeys

  /** What one probe got back. A lyrics probe that fails reads as "no". */
  datatype Reply = Failed(msg: string) | Errors | Data(found: bool)

  function Outcome(q: Request, reply: Reply): Result<bool> {
    if q.Lyrics? then Ok(reply == Data(true))
    else if Wildcard(q) then Ok(true)
    else match reply
      case Failed(msg) => Err(msg)
      case Errors => Ok(false)
      case Data(found) => Ok(found)
  }

  /** Whether the flight's answer is remembered. */
  predicate Remembers(q: Request, reply: Reply) {
    q.Lyrics? || (!Wildcard(q) && reply.Data?)
  }

  datatype Phase = Missed | Waiting | Answered(r: Result<bool>)

  datatype Call = Call(q: Request, phase: Phase)

  /** `flights` has the leader's question for every key in flight; `asked` and
      `probed` record what was asked and what probes really answered. */
  datatype State = State(
    regionCache: map<string, bool>,
    lyricsCache: map<string, bool>,
    flights: map<string, Request>,
    calls: seq<Call>,
    asked: set<Request>,
    probed: set<(Request, bool)>)

  const EMPTY := State(map[], map[], map[], [], {}, {})

  datatype Event =
    | Ask(q: Request)                     // a call starts and looks in its cache
    | Join(i: nat)                        // a call that missed joins or leads a flight
    | Land(key: string, reply: Reply)     // a leader's probe ends
    | Evict(lyrics: bool, key: string)    // the LRU or the TTL drops an entry

  function Cached(s: State, q: Request): Option<bool> {
    var m := if q.Lyrics? then s.lyricsCache else s.regionCache;
    if CacheKey(q) in m then Some(m[CacheKey(q)]) else None
  }

  predicate Enabled(s: State, e: Event) {
    match e
    case Join(i) => i < |s.calls| && s.calls[i].phase.Missed?
    case Land(key, _) => key in s.flights
    case _ => true
  }

  function Delivered(c: Call, key: string, r: Result<bool>): Call {
    if c.phase.Waiting? && FlightKey(Target(c.q)) == key then Call(c.q, Answered(r)) else c
  }

  function Next(s: State, e: Event): State
    requires Enabled(s, e)
  {
    match e
    case Ask(raw) =>
      var q := Target(raw);
      var hit := Cached(s, q);
      s.(asked := s.asked + {q},
         calls := s.calls + [Call(raw, if hit.Some? then Answered(Ok(hit.value)) else Missed)])
    case Join(i) =>
      var q := Target(s.calls[i].q);
      s.(flights := if FlightKey(q) in s.flights then s.flights else s.flights[FlightKey(q) := q],
         calls := s.calls[i := Call(s.calls[i].q, Waiting)])
    case Land(key, reply) =>
      var q := s.flights[key];
      var r := Outcome(q, reply);
      s.(regionCache := if q.Region? && Remembers(q, reply) then s.regionCache[CacheKey(q) := r.value] else s.regionCache,
         lyricsCache := if q.Lyrics? && Remembers(q, reply) then s.lyricsCache[CacheKey(q) := r.value] else s.lyricsCache,
         flights := s.flights - {key},
         calls := seq(|s.calls|, i requires 0 <= i < |s.calls| => Delivered(s.calls[i], key, r)),
         probed := if r.Ok? && !Wildcard(q) then s.probed + {(q, r.value)} else s.probed)
    case Evict(lyrics, key) =>
      if lyrics then s.(lyricsCache := s.lyricsCache - {key}) else s.(regionCache := s.regionCache - {key})
  }

  function After(t: Trace<Event>): Option<State> {
    match t
    case Start => Some(EMPTY)
    case Then(before, e) =>
      var s := After(before);
      if s.Some? && Enabled(s.value, e) then Some(Next(s.value, e)) else None
  }

  // ----- where answers come from

  /** `q` was probed and answered `v`, or is the wildcard, which needs no probe. */
  ghost predicate Right(s: State, q: Request, v: bool) {
    (q, v) in s.probed || (Wildcard(q) && v)
  }

  ghost predicate Origin(s: State, key: string, v: bool) {
    exists q :: q in s.asked && FlightKey(q) == key && Right(s, q, v)
  }

  ghost predicate Inv(s: State) {
    && (forall k :: k in s.regionCache ==> Origin(s, k, s.regionCache[k]))
    && (forall k :: k in s.lyricsCache ==> Origin(s, "l:" + k, s.lyricsCache[k]))
    && (forall k :: k in s.flights ==> FlightKey(s.flights[k]) == k && s.flights[k] in s.asked)
    && (forall q :: q in s.asked ==> Target(q) == q)
    && (forall i :: 0 <= i < |s.calls| ==> CallInv(s, s.calls[i]))
  }

  ghost predicate CallInv(s: State, c: Call) {
    && Target(c.q) in s.asked
    && (c.phase.Waiting? ==> FlightKey(Target(c.q)) in s.flights)
    && (c.phase.Answered? && c.phase.r.Ok? ==> Origin(s, FlightKey(Target(c.q)), c.phase.r.value))
  }

  lemma OriginKept(s: State, s': State, key: string, v: bool)
    requires s.asked <= s'.asked && s.probed <= s'.probed && Origin(s, key, v)
    ensures Origin(s', key, v)
  {
    var q :| q in s.asked && FlightKey(q) == key && Right(s, q, v);
    assert q in s'.asked && Right(s', q, v);
  }

  lemma OriginsKept(s: State, s': State)
    requires s.asked <= s'.asked && s.probed <= s'.probed
    ensures forall key, v :: Origin(s, key, v) ==> Origin(s', key, v)
    ensures s.flights.Keys <= s'.flights.Keys ==> forall c :: CallInv(s, c) ==> CallInv(s', c)
  {
    forall key, v | Origin(s, key, v) ensures Origin(s', key, v) {
      OriginKept(s, s', key, v);
    }
  }

  lemma StepInv(s: State, e: Event)
    requires Inv(s) && Enabled(s, e)
    ensures Inv(Next(s, e))
  {
    var s' := Next(s, e);
    OriginsKept(s, s');
    if e.Ask? {
      AskInv(s, e.q);
    } else if e.Land? {
      LandInv(s, e.key, e.reply);
    }
  }

  lemma AskInv(s: State, raw: Request)
    requires Inv(s)
    ensures CallInv(Next(s, Ask(raw)), Next(s, Ask(raw)).calls[|s.calls|])
  {
    var q := Target(raw);
    OriginsKept(s, Next(s, Ask(raw)));
    if Cached(s, q).Some? {
      assert Origin(s, FlightKey(q), Cached(s, q).value);
    }
  }

  lemma LandInv(s: State, key: string, reply: Reply)
    requires Inv(s) && key in s.flights
    ensures Inv(Next(s, Land(key, reply)))
  {
    var s' := Next(s, Land(key, reply));
    var q := s.flights[key];
    var r := Outcome(q, reply);
    OriginsKept(s, s');
    assert r.Ok? ==> Origin(s', key, r.value) by {
      if r.Ok? {
        assert q in s'.asked && FlightKey(q) == key && Right(s', q, r.value);
      }
    }
    forall i | 0 <= i < |s'.calls| ensures CallInv(s', s'.calls[i]) {
      DeliveredInv(s, s', s.calls[i], key, r);
    }
  }

  lemma DeliveredInv(s: State, s': State, c: Call, key: string, r: Result<bool>)
    requires CallInv(s, c) && (r.Ok? ==> Origin(s', key, r.value))
    requires s.asked <= s'.asked && s'.flights.Keys == s.flights.Keys - {key}
    requires forall k, v :: Origin(s, k, v) ==> Origin(s', k, v)
    ensures CallInv(s', Delivered(c, key, r))
  {
  }

  lemma {:induction false} RunInv(t: Trace<Event>)
    requires After(t).Some?
    ensures Inv(After(t).value)
  {
    if t.Start? {
    } else {
      RunInv(t.before);
      StepInv(After(t.before).value, t.last);
    }
  }

  /** A probe under this key got this reply in the run. */
  predicate Landed(t: Trace<Event>, key: string, reply: Reply) {
    t.Then? && (t.last == Land(key, reply) || Landed(t.before, key, reply))
  }

  ghost predicate OnlyData(t: Trace<Event>, s: State) {
    && (forall k :: k in s.regionCache ==> Landed(t, k, Data(s.regionCache[k])))
    && (forall k :: k in s.lyricsCache ==> exists reply :: Landed(t, "l:" + k, reply) && (s.lyricsCache[k] <==> reply == Data(true)))
  }

  lemma LandKeepsData(t: Trace<Event>, s: State, key: string, reply: Reply)
    requires OnlyData(t, s) && Inv(s) && key in s.flights
    ensures OnlyData(Then(t, Land(key, reply)), Next(s, Land(key, reply)))
  {
    var t', s' := Then(t, Land(key, reply)), Next(s, Land(key, reply));
    var q := s.flights[key];
    assert Landed(t', key, reply) && FlightKey(q) == key;
    forall k | k in s'.regionCache ensures Landed(t', k, Data(s'.regionCache[k])) {
      assert k in s.regionCache ==> Landed(t, k, Data(s.regionCache[k]));
    }
    forall k | k in s'.lyricsCache
      ensures exists reply' :: Landed(t', "l:" + k, reply') && (s'.lyricsCache[k] <==> reply' == Data(true))
    {
      if q.Lyrics? && k == CacheKey(q) {
        assert Landed(t', "l:" + k, reply);
      } else {
        var reply' :| Landed(t, "l:" + k, reply') && (s.lyricsCache[k] <==> reply' == Data(true));
        assert Landed(t', "l:" + k, reply');
      }
    }
  }

  lemma EvictKeepsData(t: Trace<Event>, s: State, lyrics: bool, key: string)
    requires OnlyData(t, s)
    ensures OnlyData(Then(t, Evict(lyrics, key)), Next(s, Evict(lyrics, key)))
  {
    forall k, reply | Landed(t, k, reply) ensures Landed(Then(t, Evict(lyrics, key)), k, reply) {
    }
  }

  lemma CallKeepsData(t: Trace<Event>, s: State, e: Event)
    requires OnlyData(t, s) && Enabled(s, e) && (e.Ask? || e.Join?)
    ensures OnlyData(Then(t, e), Next(s, e))
  {
    forall k, reply | Landed(t, k, reply) ensures Landed(Then(t, e), k, reply) {
    }
  }

  /** What the region cache holds came as data from Apple: neither a failed probe
      nor a reply that lists errors is ever remembered, although the latter is
      answered with "no". The lyrics cache remembers any reply that is not a
      positive one as "no". */
  lemma {:induction false} OnlyDataRemembered(t: Trace<Event>)
    requires After(t).Some?
    ensures OnlyData(t, After(t).value)
  {
    if t.Start? {
    } else {
      OnlyDataRemembered(t.before);
      var s, e := After(t.before).value, t.last;
      match e {
        case Land(key, reply) =>
          RunInv(t.before);
          LandKeepsData(t.before, s, key, reply);
        case Evict(lyrics, key) => EvictKeepsData(t.before, s, lyrics, key);
        case _ => CallKeepsData(t.before, s, e);
      }
    }
  }

  /** Nobody waits in vain: every waiting call has a flight, and when that lands
      nobody waits for it any more. */
  lemma NobodyForgotten(t: Trace<Event>, i: nat)
    requires After(t).Some? && i < |After(t).value.calls| && After(t).value.calls[i].phase.Waiting?
    ensures FlightKey(Target(After(t).value.calls[i].q)) in After(t).value.flights
    ensures t.Then? && t.last.Land? ==> FlightKey(Target(After(t).value.calls[i].q)) != t.last.key
  {
    RunInv(t);
    assert CallInv(After(t).value, After(t).value.calls[i]);
  }

  // ----- what the answers mean

  /** What a reply of Apple's says: data is the answer, a list of errors means no,
      and a probe that failed gives an error; about lyrics everything but a
      positive reply means no. */
  function Says(lyrics: bool, reply: Reply): Result<bool> {
    if lyrics then Ok(reply == Data(true))
    else match reply
      case Failed(msg) => Err(msg)
      case Errors => Ok(false)
      case Data(found) => Ok(found)
  }

  ghost predicate WildcardAsked(s: State, key: string) {
    exists q :: q in s.asked && Wildcard(q) && FlightKey(q) == key
  }

  ghost predicate Explained(t: Trace<Event>, s: State, key: string, lyrics: bool, r: Result<bool>) {
    (exists reply :: Landed(t, key, reply) && r == Says(lyrics, reply)) || (r == Ok(true) && WildcardAsked(s, key))
  }

  ghost predicate AllExplained(t: Trace<Event>, s: State) {
    forall i :: 0 <= i < |s.calls| && s.calls[i].phase.Answered? ==>
      Explained(t, s, FlightKey(Target(s.calls[i].q)), s.calls[i].q.Lyrics?, s.calls[i].phase.r)
  }

  lemma ExplainedStill(t: Trace<Event>, s: State, e: Event, key: string, lyrics: bool, r: Result<bool>)
    requires Enabled(s, e) && Explained(t, s, key, lyrics, r)
    ensures Explained(Then(t, e), Next(s, e), key, lyrics, r)
  {
    if WildcardAsked(s, key) {
      var q :| q in s.asked && Wildcard(q) && FlightKey(q) == key;
      assert q in Next(s, e).asked;
    }
    if reply :| Landed(t, key, reply) && r == Says(lyrics, reply) {
      assert Landed(Then(t, e), key, reply);
    }
  }

  lemma HitExplained(t: Trace<Event>, s: State, q: Request)
    requires OnlyData(t, s) && Target(q) == q && Cached(s, q).Some?
    ensures Explained(t, s, FlightKey(q), q.Lyrics?, Ok(Cached(s, q).value))
  {
    if q.Lyrics? {
      var reply :| Landed(t, "l:" + CacheKey(q), reply) && (s.lyricsCache[CacheKey(q)] <==> reply == Data(true));
      assert Landed(t, FlightKey(q), reply) && Ok(Cached(s, q).value) == Says(true, reply);
    } else {
      assert Landed(t, FlightKey(q), Data(Cached(s, q).value));
    }
  }

  lemma LandExplained(t: Trace<Event>, s: State, key: string, reply: Reply, c: Call)
    requires Inv(s) && key in s.flights && c.phase.Waiting? && FlightKey(Target(c.q)) == key
    ensures Explained(Then(t, Land(key, reply)), Next(s, Land(key, reply)), key, c.q.Lyrics?, Outcome(s.flights[key], reply))
  {
    var q := s.flights[key];
    FamiliesDisjoint(q, Target(c.q));
    assert Landed(Then(t, Land(key, reply)), key, reply);
    if Wildcard(q) {
      assert q in Next(s, Land(key, reply)).asked;
    } else {
      assert Outcome(q, reply) == Says(c.q.Lyrics?, reply);
    }
  }

  lemma StepExplained(t: Trace<Event>, s: State, e: Event, i: nat)
    requires Inv(s) && OnlyData(t, s) && AllExplained(t, s) && Enabled(s, e)
    requires i < |Next(s, e).calls| && Next(s, e).calls[i].phase.Answered?
    ensures var c := Next(s, e).calls[i]; Explained(Then(t, e), Next(s, e), FlightKey(Target(c.q)), c.q.Lyrics?, c.phase.r)
  {
    if i == |s.calls| {
      HitExplained(t, s, Target(e.q));
      ExplainedStill(t, s, e, FlightKey(Target(e.q)), e.q.Lyrics?, Next(s, e).calls[i].phase.r);
    } else if s.calls[i].phase.Answered? {
      ExplainedStill(t, s, e, FlightKey(Target(s.calls[i].q)), s.calls[i].q.Lyrics?, s.calls[i].phase.r);
    } else {
      LandExplained(t, s, e.key, e.reply, s.calls[i]);
    }
  }

  /** In every run every answer is what some reply under its key says, error or
      not, or is the wildcard's yes. */
  lemma {:induction false} AnswersExplained(t: Trace<Event>)
    requires After(t).Some?
    ensures AllExplained(t, After(t).value)
  {
    if t.Start? {
    } else {
      AnswersExplained(t.before);
      RunInv(t.before);
      OnlyDataRemembered(t.before);
      var s := After(t.before).value;
      forall i | 0 <= i < |Next(s, t.last).calls| && Next(s, t.last).calls[i].phase.Answered?
        ensures var c := Next(s, t.last).calls[i]; Explained(t, Next(s, t.last), FlightKey(Target(c.q)), c.q.Lyrics?, c.phase.r)
      {
        StepExplained(t.before, s, t.last, i);
      }
    }
  }

  // ----- what is remembered, and for how long

  /** The region cache has what the last data reply under the key said, unless it
      was evicted since; the wildcard is never remembered. */
  function RegionMemory(t: Trace<Event>, key: string): Option<bool>
    requires After(t).Some?
  {
    if t.Start? then None
    else
      match t.last
      case Evict(false, k) => if k == key then None else RegionMemory(t.before, key)
      case Land(k, Data(found)) =>
        if k == key && After(t.before).value.flights[k].Region? && !Wildcard(After(t.before).value.flights[k])
        then Some(found) else RegionMemory(t.before, key)
      case _ => RegionMemory(t.before, key)
  }

  /** The lyrics cache has whether the last reply was positive. */
  function LyricsMemory(t: Trace<Event>, key: string): Option<bool> {
    if t.Start? then None
    else
      match t.last
      case Evict(true, k) => if k == key then None else LyricsMemory(t.before, key)
      case Land(k, reply) => if k == "l:" + key then Some(reply == Data(true)) else LyricsMemory(t.before, key)
      case _ => LyricsMemory(t.before, key)
  }

  function InMap(m: map<string, bool>, key: string): Option<bool> {
    if key in m then Some(m[key]) else None
  }

  lemma {:induction false} RemembersIff(t: Trace<Event>, key: string)
    requires After(t).Some?
    ensures InMap(After(t).value.regionCache, key) == RegionMemory(t, key)
    ensures InMap(After(t).value.lyricsCache, key) == LyricsMemory(t, key)
  {
    if t.Start? {
    } else {
      RemembersIff(t.before, key);
      if t.last.Land? {
        RunInv(t.before);
        LyricsFlight(After(t.before).value.flights[t.last.key]);
      }
    }
  }

  lemma LyricsFlight(q: Request)
    ensures q.Region? ==> forall key: string :: FlightKey(q) != "l:" + key
    ensures q.Lyrics? ==> forall key: string :: FlightKey(q) == "l:" + key <==> CacheKey(q) == key
  {
    if q.Region? {
      assert FlightKey(q)[0] != 'l';
      forall key: string ensures FlightKey(q) != "l:" + key {
        assert ("l:" + key)[0] == 'l';
      }
    } else {
      forall key: string ensures FlightKey(q) == "l:" + key <==> CacheKey(q) == key {
        assert ("l:" + key)[2..] == key && FlightKey(q)[2..] == CacheKey(q);
      }
    }
  }

  /** A remembered question is answered at once, and any other one waits for a
      probe. */
  lemma AskedOnce(s: State, q: Request)
    ensures var c := Next(s, Ask(q)).calls[|s.calls|];
            c == Call(q, match Cached(s, Target(q)) case Some(v) => Answered(Ok(v)) case None => Missed)
  {
  }

  /** No question asked in the run shares its key with another one asked. */
  ghost predicate KeysDistinct(asked: set<Request>) {
    forall q, r :: q in asked && r in asked && FlightKey(q) == FlightKey(r) ==> q == r
  }

  ghost predicate AllRight(s: State) {
    forall i :: 0 <= i < |s.calls| && s.calls[i].phase.Answered? && s.calls[i].phase.r.Ok? ==>
      Right(s, Target(s.calls[i].q), s.calls[i].phase.r.value)
  }

  /** Over any interleaving, evictions and probe errors included: when the
      questions asked have distinct keys, every answer was given by a probe of
      the question itself. */
  lemma AnswersAreProbed(t: Trace<Event>)
    requires After(t).Some? && KeysDistinct(After(t).value.asked)
    ensures AllRight(After(t).value)
  {
    RunInv(t);
    var s := After(t).value;
    forall i | 0 <= i < |s.calls| && s.calls[i].phase.Answered? && s.calls[i].phase.r.Ok?
      ensures Right(s, Target(s.calls[i].q), s.calls[i].phase.r.value)
    {
      assert CallInv(s, s.calls[i]);
    }
  }

  /** In particular when only item ids contain slashes. */
  lemma PlainRequestsAreProbed(t: Trace<Event>)
    requires After(t).Some? && forall q :: q in After(t).value.asked ==> PlainPrefix(Parts(q))
    ensures AllRight(After(t).value)
  {
    forall q, r | q in After(t).value.asked && r in After(t).value.asked && FlightKey(q) == FlightKey(r) ensures q == r {
      KeyInjective(q, r);
    }
    AnswersAreProbed(t);
  }

  /** With a catalog that does not change the caches cannot be observed. */
  lemma CachesTransparent(t: Trace<Event>, catalog: Request -> bool, i: nat)
    requires After(t).Some? && KeysDistinct(After(t).value.asked)
    requires forall q, v :: (q, v) in After(t).value.probed ==> v == catalog(q)
    requires forall q :: Wildcard(q) ==> catalog(q)
    requires i < |After(t).value.calls| && After(t).value.calls[i].phase.Answered? && After(t).value.calls[i].phase.r.Ok?
    ensures After(t).value.calls[i].phase.r.value == catalog(Target(After(t).value.calls[i].q))
  {
    AnswersAreProbed(t);
  }

  // ----- exactly which questions are safe

  ghost predicate AlwaysRight(q: Request) {
    forall t: Trace<Event>, i: nat | After(t).Some? && i < |After(t).value.calls| ::
      RightAt(After(t).value, i, q)
  }

  /** If call `i` asked `q`, its answer is one that a probe of `q` gave. */
  ghost predicate RightAt(s: State, i: nat, q: Request)
    requires i < |s.calls|
  {
    s.calls[i].q == q && s.calls[i].phase.Answered? && s.calls[i].phase.r.Ok? ==>
      Right(s, Target(q), s.calls[i].phase.r.value)
  }

  /** A question can be given another question's answer, in some run, exactly
      when another question shares its key; `HasAliasIff` says when that is. */
  lemma AlwaysRightIff(q: Request)
    ensures AlwaysRight(q) <==> !HasAlias(Target(q))
  {
    if HasAlias(Target(q)) {
      var r :| Target(r) == r && r != Target(q) && FlightKey(r) == FlightKey(Target(q));
      StolenAnswer(q, r);
    } else {
      forall t: Trace<Event>, i: nat | After(t).Some? && i < |After(t).value.calls|
        ensures RightAt(After(t).value, i, q)
      {
        RunInv(t);
        assert CallInv(After(t).value, After(t).value.calls[i]);
      }
    }
  }

  /** All questions asked are about regions without a slash. */
  predicate Regional(s: State) {
    forall q :: q in s.asked ==> SlashFree(q.region)
  }

  ghost predicate RegionallyRight(q: Request) {
    forall t: Trace<Event>, i: nat | After(t).Some? && Regional(After(t).value) && i < |After(t).value.calls| ::
      RightAt(After(t).value, i, q)
  }

  /** Regions come from the instances and not from clients. With regions that have
      no slash the same holds with respect to the other questions of that kind:
      region probes are always right, and `HasRegionalAliasIff` says which lyrics
      probes are. */
  lemma RegionallyRightIff(q: Request)
    requires SlashFree(q.region)
    ensures RegionallyRight(q) <==> !HasRegionalAlias(Target(q))
    ensures q.Region? ==> RegionallyRight(q)
  {
    if HasRegionalAlias(Target(q)) {
      var r :| Target(r) == r && r != Target(q) && SlashFree(r.region) && FlightKey(r) == FlightKey(Target(q));
      StolenAnswer(q, r);
    } else {
      forall t: Trace<Event>, i: nat | After(t).Some? && Regional(After(t).value) && i < |After(t).value.calls|
        ensures RightAt(After(t).value, i, q)
      {
        RunInv(t);
        assert CallInv(After(t).value, After(t).value.calls[i]);
      }
    }
    if q.Region? {
      HasRegionalAliasIff(q);
    }
  }

  function Shared(q: Request, r: Request): Trace<Event> {
    Then(Then(Then(Then(Then(Start, Ask(r)), Join(0)), Ask(q)), Join(1)), Land(FlightKey(r), Data(false)))
  }

  lemma KeyInjectiveOnWildcards(p: Request, r: Request)
    requires Wildcard(p) && Wildcard(r) && FlightKey(p) == FlightKey(r)
    ensures p == r
  {
    FamiliesDisjoint(p, r);
    var k := Joined(Parts(p));
    assert Parts(p)[1..] == ["0"] && Parts(r)[1..] == ["0"];
    assert k == p.region + "/" + "0" && k == r.region + "/" + "0";
    assert p.region == k[..|k| - 2] && r.region == k[..|k| - 2];
  }

  /** Two questions with one key in one flight: the second is given the answer of
      the first. */
  lemma StolenAnswer(q: Request, r: Request)
    requires Target(r) == r && r != Target(q) && FlightKey(r) == FlightKey(Target(q))
    ensures After(Shared(q, r)).Some? && After(Shared(q, r)).value.asked == {r, Target(q)}
    ensures |After(Shared(q, r)).value.calls| == 2 && !RightAt(After(Shared(q, r)).value, 1, q)
  {
    var p := Target(q);
    var key := FlightKey(r);
    var s1 := State(map[], map[], map[], [Call(r, Missed)], {r}, {});
    var s2 := State(map[], map[], map[key := r], [Call(r, Waiting)], {r}, {});
    var s3 := State(map[], map[], map[key := r], [Call(r, Waiting), Call(q, Missed)], {r, p}, {});
    var s4 := State(map[], map[], map[key := r], [Call(r, Waiting), Call(q, Waiting)], {r, p}, {});
    assert Next(EMPTY, Ask(r)) == s1;
    assert Next(s1, Join(0)) == s2;
    assert Next(s2, Ask(q)) == s3;
    assert Next(s3, Join(1)) == s4;
    var t4 := Then(Then(Then(Then(Start, Ask(r)), Join(0)), Ask(q)), Join(1));
    var t2 := Then(Then(Start, Ask(r)), Join(0));
    assert After(Then(Start, Ask(r))) == Some(s1);
    assert After(t2) == Some(s2);
    assert After(Then(t2, Ask(q))) == Some(s3);
    assert After(t4) == Some(s4);
    var s5 := Next(s4, Land(key, Data(false)));
    assert After(Shared(q, r)) == Some(s5);
    assert s5.calls[1] == Call(q, Answered(Outcome(r, Data(false))));
    if Wildcard(r) && Wildcard(p) {
      KeyInjectiveOnWildcards(p, r);
    }
    assert !Right(s5, p, Outcome(r, Data(false)).value);
  }
}
