/**
 When the manager calls itself ready. After a boot every start that finishes,
 a restart's or a login's, counts the registered instances that have a region
 and compares the count with the number of accounts in the saved file. Restored
 instances carry their saved region from the beginning, accounts that log in after
 the boot are counted like any other, and a process that reports its region and
 then exits leaves the region with its instance although the start has failed.
 */
module Readiness {
  import opened Outcomes
  import opened Persistence
  import opened Registry

  /** `regs` has the registered accounts and whether the instance has a region;
      `up` the accounts of which some start has finished since the boot. */
  datatype State = State(regs: map<string, bool>, ready: bool, up: set<string>)

  datatype Event =
    | Entered(id: string)                // an instance without a region is registered
    | Left(id: string)                   // it is removed
    | Reported(id: string)               // its process reports a region; the start may still fail
    | Came(id: string, current: bool)    // a start finishes; current: its instance is the registered one

  function Ids(list: seq<Saved>): set<string> {
    set i | 0 <= i < |list| :: list[i].id
  }

  /** The account's first entry has a region. */
  predicate SavedWithRegion(list: seq<Saved>, id: string) {
    exists i :: 0 <= i < |list| && list[i].id == id && list[i].region != "" && !Listed(list[..i], id)
  }

  function Booted(list: seq<Saved>): State {
    State(map id | id in Ids(list) :: SavedWithRegion(list, id), list == [], {})
  }

  function ReadyOf(regs: map<string, bool>): set<string> {
    set id | id in regs && regs[id]
  }

  predicate Enabled(s: State, e: Event) {
    (e.Came? && e.current) || e.Reported? ==> e.id in s.regs
  }

  function Next(n: nat, s: State, e: Event): State {
    match e
    case Entered(id) => if id in s.regs then s else s.(regs := s.regs[id := false])
    case Left(id) => s.(regs := s.regs - {id})
    case Reported(id) => s.(regs := s.regs[id := true])
    case Came(id, current) =>
      var regs := if current then s.regs[id := true] else s.regs;
      State(regs, s.ready || |ReadyOf(regs)| >= n, s.up + {id})
  }

  /** The state after the events, counting against `n` accounts. */
  function After(n: nat, s: State, t: Trace<Event>): Option<State> {
    match t
    case Start => Some(s)
    case Then(before, e) =>
      var r := After(n, s, before);
      if r.Some? && Enabled(r.value, e) then Some(Next(n, r.value, e)) else None
  }

  /** The account is registered: it was restored or entered, and has not left since. */
  predicate Present(list: seq<Saved>, t: Trace<Event>, id: string) {
    if t.Start? then id in Ids(list)
    else if t.last == Left(id) then false
    else t.last == Entered(id) || Present(list, t.before, id)
  }

  /** Its instance has a region: it was restored with one, or one was reported or a
      start finished, and the account has not left since. */
  predicate Regioned(list: seq<Saved>, t: Trace<Event>, id: string) {
    if t.Start? then SavedWithRegion(list, id)
    else if t.last == Left(id) then false
    else t.last == Reported(id) || t.last == Came(id, true) || Regioned(list, t.before, id)
  }

  /** Who is counted, read off the events: an account that left is not, until it has
      been entered again and a region is known of the new instance. */
  lemma {:induction false} CountedIff(list: seq<Saved>, t: Trace<Event>, id: string)
    requires After(|list|, Booted(list), t).Some?
    ensures id in After(|list|, Booted(list), t).value.regs <==> Present(list, t, id)
    ensures id in ReadyOf(After(|list|, Booted(list), t).value.regs) <==> Regioned(list, t, id)
    ensures Regioned(list, t, id) ==> Present(list, t, id)
  {
    if t.Start? {
    } else {
      CountedIff(list, t.before, id);
    }
  }

  /** The manager is ready iff the file was empty, or at the end of some start at
      least as many were counted as the file has lines. */
  predicate TestPassed(list: seq<Saved>, t: Trace<Event>)
    requires After(|list|, Booted(list), t).Some?
  {
    if t.Start? then list == []
    else TestPassed(list, t.before) || (t.last.Came? && |ReadyOf(After(|list|, Booted(list), t).value.regs)| >= |list|)
  }

  lemma {:induction false} ReadyIff(list: seq<Saved>, t: Trace<Event>)
    requires After(|list|, Booted(list), t).Some?
    ensures After(|list|, Booted(list), t).value.ready <==> TestPassed(list, t)
  {
    if t.Start? {
    } else {
      ReadyIff(list, t.before);
    }
  }

  /** Only these accounts appear, and only those of `early` are seen with a region
      before, or without, a start of theirs finishing. */
  predicate Within(accounts: set<string>, early: set<string>, t: Trace<Event>) {
    t.Start? ||
    (Within(accounts, early, t.before) && t.last.id in accounts && (t.last.Reported? ==> t.last.id in early))
  }

  // ----- what ready means

  /** In every such run the manager is ready only when every account of the file
      has come up. */
  ghost predicate ReadyMeansUp(list: seq<Saved>, accounts: set<string>, early: set<string>) {
    forall t: Trace<Event> :: Within(accounts, early, t) && After(|list|, Booted(list), t).Some? ==>
      Honest(list, After(|list|, Booted(list), t).value)
  }

  predicate Honest(list: seq<Saved>, s: State) {
    s.ready ==> Ids(list) <= s.up
  }

  /** The account can have a region before any start of its has finished. */
  predicate SeenEarly(list: seq<Saved>, early: set<string>, id: string) {
    SavedWithRegion(list, id) || id in early
  }

  /** How many accounts can have a region before `id` has come up. */
  function CountWithout(list: seq<Saved>, accounts: set<string>, early: set<string>, id: string): nat {
    |accounts - {id}| + (if SeenEarly(list, early, id) then 1 else 0)
  }

  predicate Plausible(list: seq<Saved>, accounts: set<string>, early: set<string>, s: State) {
    && s.regs.Keys <= accounts && s.up <= accounts
    && (forall id :: id in s.regs && s.regs[id] ==> id in s.up || SeenEarly(list, early, id))
  }

  lemma StepPlausible(list: seq<Saved>, accounts: set<string>, early: set<string>, s: State, e: Event)
    requires Plausible(list, accounts, early, s) && Enabled(s, e)
    requires e.id in accounts && (e.Reported? ==> e.id in early)
    ensures Plausible(list, accounts, early, Next(|list|, s, e))
  {
  }

  lemma {:induction false} RunPlausible(list: seq<Saved>, accounts: set<string>, early: set<string>, t: Trace<Event>)
    requires Ids(list) <= accounts && Within(accounts, early, t) && After(|list|, Booted(list), t).Some?
    ensures Plausible(list, accounts, early, After(|list|, Booted(list), t).value)
  {
    if t.Start? {
    } else {
      RunPlausible(list, accounts, early, t.before);
      StepPlausible(list, accounts, early, After(|list|, Booted(list), t.before).value, t.last);
    }
  }

  /** While an account has not come up, the count stays below. */
  lemma CountBounded(list: seq<Saved>, accounts: set<string>, early: set<string>, s: State, id: string)
    requires Plausible(list, accounts, early, s) && id !in s.up
    ensures |ReadyOf(s.regs)| <= CountWithout(list, accounts, early, id)
  {
    var ready := ReadyOf(s.regs);
    if id in ready {
      SubsetSize(ready - {id}, accounts - {id});
      assert ready == (ready - {id}) + {id};
    } else {
      SubsetSize(ready, accounts - {id});
    }
  }

  /** The condition: no account of the file can be left out of the count. */
  predicate NoneToSpare(list: seq<Saved>, accounts: set<string>, early: set<string>) {
    forall id :: id in Ids(list) ==> accounts == {id} || CountWithout(list, accounts, early, id) < |list|
  }

  lemma MustBeUp(list: seq<Saved>, accounts: set<string>, early: set<string>, s: State, id: string, x: string)
    requires Plausible(list, accounts, early, s) && NoneToSpare(list, accounts, early)
    requires id in Ids(list) && x in s.up && |ReadyOf(s.regs)| >= |list|
    ensures id in s.up
  {
    if id !in s.up {
      CountBounded(list, accounts, early, s, id);
    }
  }

  lemma {:induction false} HonestRun(list: seq<Saved>, accounts: set<string>, early: set<string>, t: Trace<Event>)
    requires Ids(list) <= accounts && NoneToSpare(list, accounts, early)
    requires Within(accounts, early, t) && After(|list|, Booted(list), t).Some?
    ensures Honest(list, After(|list|, Booted(list), t).value)
  {
    if t.Start? {
    } else {
      HonestRun(list, accounts, early, t.before);
      RunPlausible(list, accounts, early, t);
      var s := After(|list|, Booted(list), t).value;
      if t.last.Came? {
        forall id | id in Ids(list) && |ReadyOf(s.regs)| >= |list| ensures id in s.up {
          MustBeUp(list, accounts, early, s, id, t.last.id);
        }
      }
    }
  }

  lemma ComesUp(n: nat, s: State, x: string) returns (r: State)
    ensures r == Next(n, Next(n, s, Entered(x)), Came(x, true))
    ensures Enabled(Next(n, s, Entered(x)), Came(x, true))
    ensures r.up == s.up + {x} && ReadyOf(r.regs) == ReadyOf(s.regs) + {x}
    ensures |ReadyOf(r.regs)| >= n ==> r.ready
  {
    r := Next(n, Next(n, s, Entered(x)), Came(x, true));
  }

  lemma BringOne(n: nat, s: State, t0: Trace<Event>, s0: State, x: string, accounts: set<string>, early: set<string>)
    returns (t: Trace<Event>, r: State)
    requires Within(accounts, early, t0) && After(n, s, t0) == Some(s0) && x in accounts
    ensures Within(accounts, early, t) && After(n, s, t) == Some(r)
    ensures r.up == s0.up + {x} && ReadyOf(r.regs) == ReadyOf(s0.regs) + {x}
    ensures |ReadyOf(r.regs)| >= n ==> r.ready
  {
    r := ComesUp(n, s0, x);
    var t1 := Then(t0, Entered(x));
    assert After(n, s, t1) == Some(Next(n, s0, Entered(x)));
    t := Then(t1, Came(x, true));
  }

  lemma AddedLater(a: set<string>, rest: set<string>, x: string, ids: set<string>)
    requires ids == rest + {x}
    ensures (a + rest) + {x} == a + ids
  {
  }

  /** The run goes on with exactly the given accounts coming up, one by one. */
  lemma {:induction false} BringUp(n: nat, s: State, t0: Trace<Event>, s0: State, ids: set<string>, accounts: set<string>, early: set<string>)
    returns (t: Trace<Event>, r: State)
    requires Within(accounts, early, t0) && After(n, s, t0) == Some(s0) && ids <= accounts
    ensures Within(accounts, early, t) && After(n, s, t) == Some(r)
    ensures r.up == s0.up + ids && ReadyOf(r.regs) == ReadyOf(s0.regs) + ids
    ensures ids != {} && |ReadyOf(r.regs)| >= n ==> r.ready
    decreases ids
  {
    if ids == {} {
      t, r := t0, s0;
    } else {
      var x :| x in ids;
      var rest := ids - {x};
      var t1, s1 := BringUp(n, s, t0, s0, rest, accounts, early);
      t, r := BringOne(n, s, t1, s1, x, accounts, early);
      assert ids == rest + {x};
      AddedLater(s0.up, rest, x, ids);
      AddedLater(ReadyOf(s0.regs), rest, x, ids);
    }
  }

  /** An account of the file that can be seen early is seen, not having come up. */
  lemma SeenFirst(list: seq<Saved>, accounts: set<string>, early: set<string>, id: string)
    returns (t: Trace<Event>, r: State)
    requires id in Ids(list) && id in accounts
    ensures Within(accounts, early, t) && After(|list|, Booted(list), t) == Some(r)
    ensures r.up == {} && (SeenEarly(list, early, id) ==> id in ReadyOf(r.regs))
  {
    t, r := Start, Booted(list);
    if id in early {
      t, r := Then(Start, Reported(id)), Next(|list|, r, Reported(id));
      assert Enabled(Booted(list), Reported(id));
    }
  }

  lemma ReadyWithout(list: seq<Saved>, accounts: set<string>, early: set<string>, id: string)
    requires id in Ids(list) && Ids(list) <= accounts
    requires accounts != {id} && CountWithout(list, accounts, early, id) >= |list|
    ensures !ReadyMeansUp(list, accounts, early)
  {
    var others := accounts - {id};
    var t0, s0 := SeenFirst(list, accounts, early, id);
    var t, r := BringUp(|list|, Booted(list), t0, s0, others, accounts, early);
    var counted := if SeenEarly(list, early, id) then accounts else others;
    assert accounts == others + {id};
    SubsetSize(counted, ReadyOf(r.regs));
    assert others != {} by { assert others == {} ==> accounts == {id}; }
    assert r.ready && id !in r.up;
  }

  /** "Ready" means that every account of the file has come up, in all runs with
      the given accounts, exactly when they are too few to make up the count
      without any one of the file's. Each start that finishes counts, and so does
      each region that was saved or seen early, and each account that logs in. */
  lemma ReadyMeansUpIff(list: seq<Saved>, accounts: set<string>, early: set<string>)
    requires Ids(list) <= accounts
    ensures ReadyMeansUp(list, accounts, early) <==> NoneToSpare(list, accounts, early)
  {
    if NoneToSpare(list, accounts, early) {
      forall t: Trace<Event> | Within(accounts, early, t) && After(|list|, Booted(list), t).Some?
        ensures Honest(list, After(|list|, Booted(list), t).value)
      {
        HonestRun(list, accounts, early, t);
      }
    } else {
      var id :| id in Ids(list) && accounts != {id} && CountWithout(list, accounts, early, id) >= |list|;
      ReadyWithout(list, accounts, early, id);
    }
  }

  // ----- whether it is ever ready

  ghost predicate CanBecomeReady(list: seq<Saved>, accounts: set<string>) {
    exists t: Trace<Event> ::
      Within(accounts, accounts, t) && After(|list|, Booted(list), t).Some? && After(|list|, Booted(list), t).value.ready
  }

  lemma {:induction false} TooFewNeverReady(list: seq<Saved>, accounts: set<string>, t: Trace<Event>)
    requires Ids(list) <= accounts && |accounts| < |list|
    requires Within(accounts, accounts, t) && After(|list|, Booted(list), t).Some?
    ensures !After(|list|, Booted(list), t).value.ready
  {
    if t.Start? {
    } else {
      TooFewNeverReady(list, accounts, t.before);
      RunPlausible(list, accounts, accounts, t);
      SubsetSize(ReadyOf(After(|list|, Booted(list), t).value.regs), accounts);
    }
  }

  /** The boot waits for one instance per line of the file. It can be satisfied
      exactly when there are as many different accounts, of the file or not. */
  lemma CanBecomeReadyIff(list: seq<Saved>, accounts: set<string>)
    requires Ids(list) <= accounts
    ensures CanBecomeReady(list, accounts) <==> |accounts| >= |list|
  {
    if |accounts| < |list| {
      forall t: Trace<Event> | Within(accounts, accounts, t) && After(|list|, Booted(list), t).Some?
        ensures !After(|list|, Booted(list), t).value.ready
      {
        TooFewNeverReady(list, accounts, t);
      }
    } else {
      var t, r := BringUp(|list|, Booted(list), Start, Booted(list), accounts, accounts, accounts);
      SubsetSize(accounts, ReadyOf(r.regs));
      if accounts == {} {
        assert list == [];
      }
    }
  }

  /** Nothing keeps a process from reporting its region and exiting. So "ready"
      can be relied on, over all runs with the given accounts, only where it says
      nothing: it is never reached, or the file is empty, or there is just one
      account. */
  lemma AnyRunReadyMeansUpIff(list: seq<Saved>, accounts: set<string>)
    requires Ids(list) <= accounts
    ensures ReadyMeansUp(list, accounts, accounts) <==> !CanBecomeReady(list, accounts) || list == [] || |accounts| == 1
  {
    ReadyMeansUpIff(list, accounts, accounts);
    CanBecomeReadyIff(list, accounts);
    forall id | id in Ids(list)
      ensures CountWithout(list, accounts, accounts, id) == |accounts|
      ensures accounts == {id} <==> |accounts| == 1
    {
      assert accounts == (accounts - {id}) + {id};
      assert |accounts - {id}| == 0 ==> accounts - {id} == {};
    }
    if list != [] {
      assert list[0].id in Ids(list);
    }
  }

  lemma IdsOneMore(list: seq<Saved>, n: nat)
    requires n < |list|
    ensures Ids(list[..n + 1]) == Ids(list[..n]) + {list[n].id}
    ensures list[n].id in Ids(list[..n]) <==> exists i :: 0 <= i < n && list[i].id == list[n].id
  {
    var longer, shorter := list[..n + 1], list[..n];
    assert forall i :: 0 <= i < n ==> longer[i] == shorter[i] == list[i];
    assert longer[n] == list[n];
  }

  lemma UniqueOneMore(list: seq<Saved>, n: nat)
    requires n < |list|
    ensures UniqueSaved(list, n + 1) <==> UniqueSaved(list, n) && !(exists i :: 0 <= i < n && list[i].id == list[n].id)
  {
  }

  lemma {:induction false} DistinctIds(list: seq<Saved>, n: nat)
    requires n <= |list|
    ensures |Ids(list[..n])| <= n
    ensures |Ids(list[..n])| == n <==> UniqueSaved(list, n)
  {
    if n == 0 {
      assert Ids(list[..0]) == {};
    } else {
      DistinctIds(list, n - 1);
      IdsOneMore(list, n - 1);
      UniqueOneMore(list, n - 1);
    }
  }

  /** With no accounts but the file's: ready can be reached iff no account is
      listed twice. Then it means that all are up iff there is at most one; or,
      as long as no region is seen before its start has finished, iff in addition
      none was saved with a region. */
  lemma FileAccountsOnly(list: seq<Saved>)
    ensures CanBecomeReady(list, Ids(list)) <==> UniqueSaved(list, |list|)
    ensures UniqueSaved(list, |list|) ==> (ReadyMeansUp(list, Ids(list), Ids(list)) <==> |list| <= 1)
    ensures UniqueSaved(list, |list|) ==>
              (ReadyMeansUp(list, Ids(list), {}) <==> |list| <= 1 || forall id :: id in Ids(list) ==> !SavedWithRegion(list, id))
  {
    var ids := Ids(list);
    assert list[..|list|] == list;
    DistinctIds(list, |list|);
    CanBecomeReadyIff(list, ids);
    AnyRunReadyMeansUpIff(list, ids);
    ReadyMeansUpIff(list, ids, {});
    if UniqueSaved(list, |list|) {
      forall id | id in ids
        ensures |ids - {id}| == |list| - 1
        ensures ids == {id} <==> |list| == 1
      {
        assert ids == (ids - {id}) + {id};
        assert |ids - {id}| == 0 ==> ids - {id} == {};
      }
    }
  }

  /** A login is enough: with one account in the file, not yet up, and another one
      logging in, the manager calls itself ready. */
  lemma LoginMakesReady(id: string, other: string)
    requires id != other
    ensures !ReadyMeansUp([Saved(id, "", 1)], {id, other}, {})
  {
    var list := [Saved(id, "", 1)];
    assert list[0].id == id;
    assert Ids(list) == {id};
    assert {id, other} - {id} == {other};
    assert CountWithout(list, {id, other}, {}, id) >= 1;
    ReadyMeansUpIff(list, {id, other}, {});
  }

  /** So is a start that fails after its process reported a region: two accounts
      saved without one, and only the other one comes up. */
  lemma FailedStartMakesReady(id: string, other: string)
    requires id != other
    ensures !ReadyMeansUp([Saved(id, "", 1), Saved(other, "", 2)], {id, other}, {id})
  {
    var list := [Saved(id, "", 1), Saved(other, "", 2)];
    assert list[0].id == id && list[1].id == other;
    assert Ids(list) == {id, other};
    assert {id, other} - {id} == {other};
    assert CountWithout(list, {id, other}, {id}, id) == 2;
    ReadyMeansUpIff(list, {id, other}, {id});
  }

  /** Once ready the manager stays ready. */
  lemma {:induction false} ReadyStays(n: nat, s: State, t: Trace<Event>)
    requires s.ready && After(n, s, t).Some?
    ensures After(n, s, t).value.ready
  {
    if t.Start? {
    } else {
      ReadyStays(n, s, t.before);
    }
  }

  // ----- the count as the manager makes it

  function ReadyIds(s: seq<WrapperInstance>): set<string>
    reads s
  {
    set i | 0 <= i < |s| && s[i].region != "" :: s[i].id
  }

  /** How many registered accounts have a region. */
  method CountReady(registry: InstanceRegistry) returns (n: nat)
    requires registry.Valid()
    ensures n == |ReadyIds(registry.Contents())|
  {
    var all := registry.SnapshotInstances();
    ghost var was := registry.Contents();
    RegistryIsOrderedMap(registry.ops);
    n := 0;
    for i := 0 to all.Length
      invariant all[..] == registry.Contents() == was
      invariant n == |ReadyIds(was[..i])|
    {
      assert all[..][i] == was[i];
      OneMore(was, i);
      if all[i].region != "" {
        n := n + 1;
      }
    }
    assert was[..|was|] == was;
  }

  lemma OneMore(s: seq<WrapperInstance>, i: nat)
    requires i < |s| && UniqueIds(s)
    ensures ReadyIds(s[..i + 1]) == ReadyIds(s[..i]) + (if s[i].region != "" then {s[i].id} else {})
    ensures s[i].id !in ReadyIds(s[..i])
  {
    assert s[..i + 1] == s[..i] + [s[i]];
  }

  predicate HasRegion(entries: seq<Saved>, id: string) {
    exists k :: 0 <= k < |entries| && entries[k].id == id && entries[k].region != ""
  }

  lemma HasRegionAppend(entries: seq<Saved>, e: Saved, id: string)
    ensures HasRegion(entries + [e], id) <==> HasRegion(entries, id) || (e.id == id && e.region != "")
  {
    var longer := entries + [e];
    assert longer[|entries|] == e && forall k :: 0 <= k < |entries| ==> longer[k] == entries[k];
  }

  lemma {:induction false} FirstEntryRegions(list: seq<Saved>, n: nat, id: string)
    requires n <= |list|
    ensures HasRegion(FirstEntries(list, n), id) <==> SavedWithRegion(list[..n], id)
  {
    if n == 0 {
    } else {
      var last := list[n - 1];
      FirstEntryRegions(list, n - 1, id);
      FirstEntriesIds(list, n - 1, last.id);
      ListedAsIds(list, n - 1, last.id);
      RegionOfOneMore(list, n - 1, id);
      HasRegionAppend(FirstEntries(list, n - 1), last, id);
    }
  }

  lemma ListedAsIds(list: seq<Saved>, n: nat, id: string)
    requires n <= |list|
    ensures Listed(list[..n], id) <==> exists i :: 0 <= i < n && list[i].id == id
  {
    assert forall i :: 0 <= i < n ==> list[..n][i] == list[i];
  }

  lemma RegionOfOneMore(list: seq<Saved>, n: nat, id: string)
    requires n < |list|
    ensures SavedWithRegion(list[..n + 1], id) <==>
              SavedWithRegion(list[..n], id) || (list[n].id == id && list[n].region != "" && !Listed(list[..n], id))
  {
    var longer, shorter := list[..n + 1], list[..n];
    assert forall i :: 0 <= i <= n ==> longer[..i] == list[..i];
    assert forall i :: 0 <= i <= n ==> shorter[..i] == list[..i];
    if SavedWithRegion(shorter, id) {
      var i :| 0 <= i < |shorter| && shorter[i].id == id && shorter[i].region != "" && !Listed(shorter[..i], id);
      assert longer[i] == shorter[i];
    }
    if list[n].id == id && list[n].region != "" && !Listed(shorter, id) {
      assert longer[n] == list[n];
    }
  }

  /** Right after a boot the count is the model's. */
  method BootCount(registry: InstanceRegistry, list: seq<Saved>) returns (n: nat)
    requires registry.Valid() && registry.Contents() == []
    modifies registry, registry.data, registry.circuits
    ensures registry.Valid() && n == |ReadyOf(Booted(list).regs)|
  {
    var shouldStart, ready := Restore(registry, list);
    n := CountReady(registry);
    BootCounted(registry.Contents(), list);
  }

  lemma BootCounted(s: seq<WrapperInstance>, list: seq<Saved>)
    requires SavedOf(s) == FirstEntries(list, |list|)
    ensures ReadyIds(s) == ReadyOf(Booted(list).regs)
  {
    assert list[..|list|] == list;
    forall id ensures id in ReadyIds(s) <==> id in ReadyOf(Booted(list).regs) {
      FirstEntryRegions(list, |list|, id);
      RegionsSaved(s, id);
      if SavedWithRegion(list, id) {
        assert id in Ids(list);
      }
    }
  }

  lemma RegionsSaved(s: seq<WrapperInstance>, id: string)
    ensures id in ReadyIds(s) <==> HasRegion(SavedOf(s), id)
  {
    var saved := SavedOf(s);
    if id in ReadyIds(s) {
      var i :| 0 <= i < |s| && s[i].region != "" && s[i].id == id;
      assert saved[i].id == id;
    }
    if HasRegion(saved, id) {
      var k :| 0 <= k < |saved| && saved[k].id == id && saved[k].region != "";
      assert s[k].id == id;
    }
  }
}
