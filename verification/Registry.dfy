/**
 The global registry of account instances: a slice whose backing array is
 shared, shifted in place and sometimes regrown, standing for an ordered map.
 */
module Registry {
  import opened Outcomes
  import B = Breaker
  import G = HealthGuard

  class WrapperInstance {
    const id: string
    var region: string
    var port: int

    constructor (id: string, region: string, port: int)
      ensures this.id == id && this.region == region && this.port == port
    {
      this.id, this.region, this.port := id, region, port;
    }
  }

  // ----- the ordered map

  datatype Op = Insert(inst: WrapperInstance) | Remove(id: string)

  predicate Has(s: seq<WrapperInstance>, id: string) {
    exists i :: 0 <= i < |s| && s[i].id == id
  }

  predicate UniqueIds(s: seq<WrapperInstance>) {
    forall i, j :: 0 <= i < j < |s| ==> s[i].id != s[j].id
  }

  function Without(s: seq<WrapperInstance>, id: string): seq<WrapperInstance> {
    if s == [] then []
    else Without(s[..|s| - 1], id) + (if s[|s| - 1].id == id then [] else [s[|s| - 1]])
  }

  function Applied(s: seq<WrapperInstance>, op: Op): seq<WrapperInstance> {
    match op
    case Insert(x) => if Has(s, x.id) then s else s + [x]
    case Remove(id) => Without(s, id)
  }

  function Replay(ops: seq<Op>): seq<WrapperInstance> {
    if ops == [] then [] else Applied(Replay(ops[..|ops| - 1]), ops[|ops| - 1])
  }

  /** The insertion at position `i` is the one that put its account where it is
      now: nothing removed it later, and every earlier insertion of the same
      account had been removed before it. */
  ghost predicate Effective(ops: seq<Op>, i: nat)
    requires i < |ops|
  {
    && ops[i].Insert?
    && (forall j :: i < j < |ops| ==> ops[j] != Remove(ops[i].inst.id))
    && (forall k :: 0 <= k < i && ops[k].Insert? && ops[k].inst.id == ops[i].inst.id ==>
          RemovedBetween(ops, k, i, ops[i].inst.id))
  }

  ghost predicate RemovedBetween(ops: seq<Op>, k: nat, i: nat, id: string)
    requires i <= |ops|
  {
    exists j :: k < j < i && ops[j] == Remove(id)
  }

  ghost predicate Live(ops: seq<Op>, id: string) {
    exists k :: 0 <= k < |ops| && ops[k].Insert? && ops[k].inst.id == id && !RemovedBetween(ops, k, |ops|, id)
  }

  /** The instances of the effective insertions, in the order they were made. */
  ghost function Survivors(ops: seq<Op>, n: nat): seq<WrapperInstance>
    requires n <= |ops|
  {
    if n == 0 then []
    else Survivors(ops, n - 1) + (if Effective(ops, n - 1) then [ops[n - 1].inst] else [])
  }

  lemma {:induction false} WithoutDrops(s: seq<WrapperInstance>, id: string)
    ensures forall x :: Has(Without(s, id), x) <==> Has(s, x) && x != id
    ensures UniqueIds(s) ==> UniqueIds(Without(s, id))
    ensures !Has(s, id) ==> Without(s, id) == s
  {
    if s == [] {
    } else {
      var front, last := s[..|s| - 1], s[|s| - 1];
      WithoutDrops(front, id);
      forall x ensures Has(s, x) <==> Has(front, x) || last.id == x {
        AppendHas(front, last, x);
        assert s == front + [last];
      }
      if last.id == id {
        assert Without(s, id) == Without(front, id);
      } else {
        forall x { AppendHas(Without(front, id), last, x); }
        if UniqueIds(s) {
          assert !Has(front, last.id);
        }
      }
    }
  }

  lemma AppendHas(s: seq<WrapperInstance>, x: WrapperInstance, id: string)
    ensures Has(s + [x], id) <==> Has(s, id) || x.id == id
  {
    if Has(s, id) {
      var i :| 0 <= i < |s| && s[i].id == id;
      assert (s + [x])[i].id == id;
    }
    assert (s + [x])[|s|] == x;
  }

  lemma {:induction false} ReplayFacts(ops: seq<Op>, id: string)
    ensures UniqueIds(Replay(ops))
    ensures Has(Replay(ops), id) <==> Live(ops, id)
  {
    if ops == [] {
    } else {
      var front, e := ops[..|ops| - 1], ops[|ops| - 1];
      ReplayFacts(front, id);
      assert ops == front + [e];
      match e {
        case Insert(x) =>
          ReplayFacts(front, x.id);
          AppendHas(Replay(front), x, id);
          LiveAfterInsert(front, x, id);
        case Remove(gone) =>
          WithoutDrops(Replay(front), gone);
          LiveAfterRemove(front, gone, id);
      }
    }
  }

  lemma LiveAfterInsert(ops: seq<Op>, x: WrapperInstance, id: string)
    ensures Live(ops + [Insert(x)], id) <==> Live(ops, id) || x.id == id
  {
    var h := ops + [Insert(x)];
    forall k | 0 <= k < |ops| ensures RemovedBetween(h, k, |h|, id) <==> RemovedBetween(ops, k, |ops|, id) {
      if RemovedBetween(ops, k, |ops|, id) {
        var j :| k < j < |ops| && ops[j] == Remove(id);
        assert h[j] == Remove(id);
      }
    }
    if Live(ops, id) {
      var k :| 0 <= k < |ops| && ops[k].Insert? && ops[k].inst.id == id && !RemovedBetween(ops, k, |ops|, id);
      assert h[k] == ops[k] && !RemovedBetween(h, k, |h|, id);
    }
    if x.id == id {
      assert h[|ops|].Insert? && !RemovedBetween(h, |ops|, |h|, id);
    }
  }

  lemma LiveAfterRemove(ops: seq<Op>, gone: string, id: string)
    ensures Live(ops + [Remove(gone)], id) <==> Live(ops, id) && id != gone
  {
    var h := ops + [Remove(gone)];
    forall k | 0 <= k < |ops|
      ensures RemovedBetween(h, k, |h|, id) <==> RemovedBetween(ops, k, |ops|, id) || id == gone
    {
      if RemovedBetween(ops, k, |ops|, id) {
        var j :| k < j < |ops| && ops[j] == Remove(id);
        assert h[j] == Remove(id);
      }
      if id == gone {
        assert h[|ops|] == Remove(id);
      }
    }
    if Live(ops, id) && id != gone {
      var k :| 0 <= k < |ops| && ops[k].Insert? && ops[k].inst.id == id && !RemovedBetween(ops, k, |ops|, id);
      assert h[k] == ops[k] && !RemovedBetween(h, k, |h|, id);
    }
  }

  lemma EffectiveAfter(ops: seq<Op>, e: Op, i: nat)
    requires i < |ops|
    ensures Effective(ops + [e], i) <==>
            Effective(ops, i) && !(e.Remove? && e.id == ops[i].inst.id)
  {
    var h := ops + [e];
    if ops[i].Insert? {
      var id := ops[i].inst.id;
      forall k | 0 <= k < i ensures RemovedBetween(h, k, i, id) <==> RemovedBetween(ops, k, i, id) {
        if RemovedBetween(ops, k, i, id) {
          var j :| k < j < i && ops[j] == Remove(id);
          assert h[j] == Remove(id);
        }
      }
      if Effective(h, i) {
        assert h[|ops|] != Remove(id);
        forall j | i < j < |ops| ensures ops[j] != Remove(id) { assert h[j] == ops[j]; }
        forall k | 0 <= k < i && ops[k].Insert? && ops[k].inst.id == id
          ensures RemovedBetween(ops, k, i, id) { assert h[k] == ops[k]; }
      }
    }
  }

  lemma WithoutAppend(s: seq<WrapperInstance>, x: WrapperInstance, id: string)
    ensures Without(s + [x], id) == Without(s, id) + (if x.id == id then [] else [x])
  {
    assert (s + [x])[..|s|] == s;
  }

  lemma {:induction false} SurvivorsAfterInsert(ops: seq<Op>, x: WrapperInstance, n: nat)
    requires n <= |ops|
    ensures Survivors(ops + [Insert(x)], n) == Survivors(ops, n)
  {
    if n == 0 {
    } else {
      SurvivorsAfterInsert(ops, x, n - 1);
      EffectiveAfter(ops, Insert(x), n - 1);
    }
  }

  lemma {:induction false} SurvivorsAfterRemove(ops: seq<Op>, id: string, n: nat)
    requires n <= |ops|
    ensures Survivors(ops + [Remove(id)], n) == Without(Survivors(ops, n), id)
  {
    if n == 0 {
    } else {
      SurvivorsAfterRemove(ops, id, n - 1);
      EffectiveAfter(ops, Remove(id), n - 1);
      var s := Survivors(ops, n - 1);
      if Effective(ops, n - 1) {
        WithoutAppend(s, ops[n - 1].inst, id);
      } else {
        assert s + [] == s && Without(s, id) + [] == Without(s, id);
      }
    }
  }

  /** The registry is an insertion-ordered map: after any operations it holds the
      accounts whose latest effective insertion was not undone, each with the
      instance of that insertion, in the order of those insertions. */
  lemma {:induction false} RegistryIsOrderedMap(ops: seq<Op>)
    ensures Replay(ops) == Survivors(ops, |ops|)
    ensures UniqueIds(Replay(ops))
    ensures forall id :: Has(Replay(ops), id) <==> Live(ops, id)
  {
    ReplayFacts(ops, "");
    forall id { ReplayFacts(ops, id); }
    if ops == [] {
    } else {
      var front, e := ops[..|ops| - 1], ops[|ops| - 1];
      assert ops == front + [e];
      RegistryIsOrderedMap(front);
      if e.Remove? {
        SurvivorsAfterRemove(front, e.id, |front|);
      } else {
        SurvivorsAfterInsert(front, e.inst, |front|);
        var id := e.inst.id;
        forall k | 0 <= k < |front| && front[k].Insert? && front[k].inst.id == id
          ensures RemovedBetween(ops, k, |front|, id) <==> RemovedBetween(front, k, |front|, id)
        {
          if RemovedBetween(front, k, |front|, id) {
            var j :| k < j < |front| && front[j] == Remove(id);
            assert ops[j] == Remove(id);
          }
        }
        if Effective(ops, |front|) {
          forall k | 0 <= k < |front| && front[k].Insert? && front[k].inst.id == id
            ensures RemovedBetween(front, k, |front|, id) { assert ops[k] == front[k]; }
          assert !Live(front, id);
        } else {
          assert Live(front, id);
        }
      }
    }
  }

  // ----- the slice

  /** Moves the entries after position `i` one place down, in place. */
  method CloseGap(a: array<WrapperInstance?>, n: nat, i: nat)
    requires i < n <= a.Length
    modifies a
    ensures a[..n - 1] == old(a[..i]) + old(a[i + 1..n])
  {
    for j := i to n - 1
      invariant forall k :: 0 <= k < i ==> a[k] == old(a[k])
      invariant forall k :: i <= k < j ==> a[k] == old(a[k + 1])
      invariant forall k :: j < k < n ==> a[k] == old(a[k])
    {
      a[j] := a[j + 1];
    }
  }

  class InstanceRegistry {
    var data: array<WrapperInstance?>
    var len: nat
    var guards: G.Guards
    const circuits: B.CircuitTable
    ghost var ops: seq<Op>

    ghost predicate Valid()
      reads this, data, circuits
    {
      && len <= data.Length
      && (forall i :: 0 <= i < len ==> data[i] != null)
      && data[..len] == Replay(ops)
      && circuits.Valid()
    }

    ghost function Contents(): (s: seq<WrapperInstance>)
      reads this, data, circuits
      requires Valid()
      ensures |s| == len && s == Replay(ops)
    {
      Replay(ops)
    }

    constructor ()
      ensures Valid() && Contents() == [] && circuits.history == Start
      ensures fresh(data) && fresh(circuits)
    {
      data := new WrapperInstance?[0];
      len := 0;
      guards := G.NO_GUARDS;
      circuits := new B.CircuitTable();
      ops := [];
    }

    /** The scan every registry operation starts with: the position of the
        account's entry, or the length when there is none. */
    method Find(id: string) returns (i: nat)
      requires Valid()
      ensures i <= len && (i < len ==> Contents()[i].id == id)
      ensures forall k :: 0 <= k < i ==> Contents()[k].id != id
      ensures i < len <==> Has(Contents(), id)
    {
      ghost var was := Contents();
      for k := 0 to len
        invariant forall j :: 0 <= j < k ==> was[j].id != id
      {
        assert data[..len][k] == was[k];
        if data[k].id == id {
          return k;
        }
      }
      return len;
    }

    /** Adds an instance unless its account is already registered; a new entry
        starts with no guard and no circuit state. */
    method InsertInstance(instance: WrapperInstance)
      requires Valid()
      modifies this, data, circuits
      ensures Valid() && ops == old(ops) + [Insert(instance)]
      ensures Contents() == Applied(old(Contents()), Insert(instance))
      ensures data == old(data) || fresh(data)
      ensures if Has(old(Contents()), instance.id)
              then circuits.history == old(circuits.history) && guards == old(guards)
                   && data == old(data) && data[..] == old(data[..])
              else circuits.history == Then(old(circuits.history), B.Reset(instance.id))
                   && guards == G.Forget(old(guards), instance.id)
                   && instance.id !in guards.m && guards.fired == old(guards).fired
                   && (forall id :: id != instance.id ==> (id in guards.m <==> id in old(guards).m))
                   && (forall id :: id in guards.m ==> guards.m[id] == old(guards).m[id])
    {
      ghost var was := Contents();
      ghost var now := ops + [Insert(instance)];
      assert now[..|ops|] == ops;
      var i := Find(instance.id);
      if i < len {
        ops := now;
        return;
      }
      guards := G.Forget(guards, instance.id);
      circuits.ResetCircuit(instance.id);
      AppendEntry(instance);
      ops := now;
    }

    /** Go's `append`: in place while there is room, else into a larger array. */
    method AppendEntry(instance: WrapperInstance)
      requires len <= data.Length
      modifies this`data, this`len, data
      ensures data == old(data) || fresh(data)
      ensures len == old(len) + 1 <= data.Length && data[..len] == old(data[..len]) + [instance]
    {
      ghost var was := data[..len];
      if len == data.Length {
        var grown := new WrapperInstance?[2 * len + 1];
        forall k | 0 <= k < len { grown[k] := data[k]; }
        data := grown;
      }
      assert data[..len] == was;
      data[len] := instance;
      assert data[..len + 1] == was + [instance];
      len := len + 1;
    }

    method CutEntry(i: nat)
      requires i < len <= data.Length && forall k :: 0 <= k < len ==> data[k] != null
      modifies this`len, data
      ensures len == old(len) - 1 && data[..len] == old(data[..len])[..i] + old(data[..len])[i + 1..]
      ensures forall k :: 0 <= k < len ==> data[k] != null
    {
      ghost var was := data[..len];
      assert forall k :: 0 <= k < |was| ==> was[k] != null;
      CloseGap(data, len, i);
      len := len - 1;
      ghost var now := was[..i] + was[i + 1..];
      assert data[..len] == now;
      assert forall k :: 0 <= k < |now| ==> now[k] != null;
      forall k | 0 <= k < len ensures data[k] != null {
        assert data[k] == data[..len][k];
      }
    }

    /** Removes the entry of the instance's account, whichever object holds it,
        by shifting the later entries down in the same array. */
    method RemoveInstance(instance: WrapperInstance)
      requires Valid()
      modifies this, data
      ensures Valid() && data == old(data)
      ensures ops == old(ops) + [Remove(instance.id)]
      ensures Contents() == Without(old(Contents()), instance.id)
      ensures circuits.history == old(circuits.history) && guards == old(guards)
    {
      var i := Find(instance.id);
      RemovalShape(ops, instance.id, i);
      if i < len {
        CutEntry(i);
      }
      ops := ops + [Remove(instance.id)];
    }

    method GetInstance(id: string) returns (instance: WrapperInstance?)
      requires Valid()
      ensures instance != null <==> Has(Contents(), id)
      ensures instance != null ==> instance in Contents() && instance.id == id
    {
      var i := Find(id);
      if i < len {
        assert data[..len][i] == Contents()[i];
        return data[i];
      }
      return null;
    }

    /** A private copy: no later insertion or removal can change it, because they
        write only to the registry's own array. */
    method SnapshotInstances() returns (out: array<WrapperInstance?>)
      requires Valid()
      ensures fresh(out) && out[..] == Contents()
    {
      out := new WrapperInstance?[len];
      for i := 0 to len
        invariant out[..i] == data[..i]
      {
        out[i] := data[i];
      }
      assert out[..] == out[..len];
    }

    /** The instances of a snapshot that are eligible when they are asked about, in
        registry order. In between others may report failures, ask for themselves
        or reset accounts by inserting them. */
    method SelectableInstances(asks: seq<Ask>) returns (out: seq<WrapperInstance>)
      requires Valid() && |asks| == |Contents()| && Feasible(circuits.history, Contents(), asks)
      modifies circuits
      ensures Valid() && ops == old(ops) && Contents() == old(Contents())
      ensures circuits.history == Queried(old(circuits.history), Contents(), asks)
      ensures out == Filtered(old(circuits.history), Contents(), asks)
      ensures forall x :: x in out ==> x in Contents()
    {
      ghost var h0 := circuits.history;
      ghost var was := Contents();
      var all := SnapshotInstances();
      out := [];
      for i := 0 to all.Length
        invariant Valid() && ops == old(ops) && Contents() == was == all[..]
        invariant circuits.history == Queried(h0, was[..i], asks[..i])
        invariant out == Filtered(h0, was[..i], asks[..i])
        invariant forall x :: x in out ==> x in was
      {
        assert all[i] == was[i];
        FeasibleSoFar(h0, was, asks, i);
        circuits.Others(asks[i].meanwhile);
        var open := circuits.CircuitOpen(all[i].id, asks[i].now);
        FilteredNext(h0, was, asks, i);
        if !open {
          out := out + [all[i]];
        }
      }
      assert was[..|was|] == was && asks[..|was|] == asks;
    }

    /** How many registered accounts are shut out at the moment. */
    method DegradedCount(asks: seq<Ask>) returns (n: nat)
      requires Valid() && |asks| == |Contents()| && Feasible(circuits.history, Contents(), asks)
      modifies circuits
      ensures Valid() && ops == old(ops) && Contents() == old(Contents())
      ensures circuits.history == Queried(old(circuits.history), Contents(), asks)
      ensures n + |Filtered(old(circuits.history), Contents(), asks)| == |Contents()|
    {
      ghost var h0 := circuits.history;
      ghost var was := Contents();
      n := 0;
      var all := SnapshotInstances();
      for i := 0 to all.Length
        invariant Valid() && ops == old(ops) && Contents() == was == all[..]
        invariant circuits.history == Queried(h0, was[..i], asks[..i])
        invariant n + |Filtered(h0, was[..i], asks[..i])| == i
      {
        assert all[i] == was[i];
        FeasibleSoFar(h0, was, asks, i);
        circuits.Others(asks[i].meanwhile);
        var open := circuits.CircuitOpen(all[i].id, asks[i].now);
        FilteredNext(h0, was, asks, i);
        if open {
          n := n + 1;
        }
      }
      assert was[..|was|] == was && asks[..|was|] == asks;
    }

    /** A reader loads or stores the account's guard ... */
    method FetchGuard(id: string) returns (guard: nat)
      requires Valid()
      modifies this`guards
      ensures Valid() && guards == G.Fetch(old(guards), id)
      ensures id in guards.m && guard == guards.m[id]
    {
      if id !in guards.m {
        guards := guards.(m := guards.m[id := |guards.owners|], owners := guards.owners + [id]);
      }
      guard := guards.m[id];
    }

    /** ... and runs the handler through it unless the guard was used before. */
    method UseGuard(guard: nat) returns (run: bool)
      requires Valid() && G.Enabled(guards, G.Used(guard))
      modifies this`guards
      ensures Valid() && guards == G.Next(old(guards), G.Used(guard))
      ensures run <==> guard !in old(guards).fired
    {
      run := guard !in guards.fired;
      guards := guards.(fired := guards.fired + {guard});
    }
  }

  /** One question to the breaker: what others did to it since the last one, the
      failures they reported and the insertions that reset an account included,
      and when it is asked. */
  datatype Ask = Ask(meanwhile: Trace<B.Event>, now: nat)

  /** The breaker's history once all the instances have been asked about. */
  ghost function Queried(h: Trace<B.Event>, s: seq<WrapperInstance>, asks: seq<Ask>): Trace<B.Event>
    requires |s| == |asks|
  {
    if s == [] then h
    else
      var n := |s| - 1;
      Then(B.Continued(Queried(h, s[..n], asks[..n]), asks[n].meanwhile), B.Query(s[n].id, asks[n].now))
  }

  /** Its history when instance `i` is asked about. */
  ghost function HistoryAt(h: Trace<B.Event>, s: seq<WrapperInstance>, asks: seq<Ask>, i: nat): Trace<B.Event>
    requires i < |s| == |asks|
  {
    B.Continued(Queried(h, s[..i], asks[..i]), asks[i].meanwhile)
  }

  /** Nothing others did is left out: an event is in the history at a query iff it
      was there before, was one of the earlier queries, or came meanwhile. */
  lemma {:induction false} HistoryHas(h: Trace<B.Event>, more: Trace<B.Event>, e: B.Event)
    ensures Occurs(B.Continued(h, more), e) <==> Occurs(h, e) || Occurs(more, e)
  {
    if more.Start? {
    } else {
      HistoryHas(h, more.before, e);
    }
  }

  predicate Occurs(t: Trace<B.Event>, e: B.Event) {
    t.Then? && (t.last == e || Occurs(t.before, e))
  }

  lemma {:induction false} QueryIsRecorded(h: Trace<B.Event>, s: seq<WrapperInstance>, asks: seq<Ask>, i: nat, e: B.Event)
    requires i < |s| == |asks|
    requires Occurs(asks[i].meanwhile, e) || e == B.Query(s[i].id, asks[i].now)
    ensures Occurs(Queried(h, s, asks), e)
    ensures e.Failure? && Occurs(asks[i].meanwhile, e) ==> Occurs(HistoryAt(h, s, asks, i), e)
    decreases |s|
  {
    var n := |s| - 1;
    HistoryHas(Queried(h, s[..n], asks[..n]), asks[n].meanwhile, e);
    if i == n {
    } else {
      QueryIsRecorded(h, s[..n], asks[..n], i, e);
      assert s[..n][..i] == s[..i] && asks[..n][..i] == asks[..i];
    }
  }

  /** The clock never goes back. */
  ghost predicate Feasible(h: Trace<B.Event>, s: seq<WrapperInstance>, asks: seq<Ask>)
    requires |s| == |asks|
  {
    B.Timely(Queried(h, s, asks))
  }

  lemma {:induction false} TimelyBefore(h: Trace<B.Event>, more: Trace<B.Event>)
    requires B.Timely(B.Continued(h, more))
    ensures B.Timely(h)
  {
    if more.Start? {
    } else {
      TimelyBefore(h, more.before);
    }
  }

  lemma {:induction false} FeasibleSoFar(h: Trace<B.Event>, s: seq<WrapperInstance>, asks: seq<Ask>, i: nat)
    requires i < |s| == |asks| && Feasible(h, s, asks)
    ensures B.Timely(Queried(h, s[..i], asks[..i]))
    ensures B.Timely(HistoryAt(h, s, asks, i)) && B.Clock(HistoryAt(h, s, asks, i)) <= asks[i].now
    decreases |s|
  {
    var n := |s| - 1;
    TimelyBefore(Queried(h, s[..n], asks[..n]), asks[n].meanwhile);
    if i == n {
    } else {
      FeasibleSoFar(h, s[..n], asks[..n], i);
      assert s[..n][..i] == s[..i] && asks[..n][..i] == asks[..i];
    }
  }

  ghost predicate Eligible(h: Trace<B.Event>, x: WrapperInstance, now: nat) {
    !B.RecentTrip(B.Book(h, x.id).trips, now)
  }

  /** The instances that are eligible when they are asked about, in order. */
  ghost function Filtered(h: Trace<B.Event>, s: seq<WrapperInstance>, asks: seq<Ask>): seq<WrapperInstance>
    requires |s| == |asks|
  {
    if s == [] then []
    else
      var n := |s| - 1;
      Filtered(h, s[..n], asks[..n]) + (if Eligible(HistoryAt(h, s, asks, n), s[n], asks[n].now) then [s[n]] else [])
  }

  lemma FilteredNext(h: Trace<B.Event>, s: seq<WrapperInstance>, asks: seq<Ask>, i: nat)
    requires i < |s| == |asks|
    ensures Filtered(h, s[..i + 1], asks[..i + 1]) ==
            Filtered(h, s[..i], asks[..i]) + (if Eligible(HistoryAt(h, s, asks, i), s[i], asks[i].now) then [s[i]] else [])
    ensures Queried(h, s[..i + 1], asks[..i + 1]) == Then(HistoryAt(h, s, asks, i), B.Query(s[i].id, asks[i].now))
  {
    assert s[..i + 1][..i] == s[..i] && asks[..i + 1][..i] == asks[..i];
  }

  ghost predicate Kept(h: Trace<B.Event>, s: seq<WrapperInstance>, asks: seq<Ask>, x: WrapperInstance)
    requires |s| == |asks|
  {
    exists i :: 0 <= i < |s| && KeptAt(h, s, asks, x, i)
  }

  /** The account has had no trip in the last 300 s. */
  ghost predicate Rested(h: Trace<B.Event>, id: string, now: nat) {
    var trips := B.Book(h, id).trips;
    forall k :: 0 <= k < |trips| ==> trips[k] + 300_000_000_000 < now
  }

  ghost predicate KeptAt(h: Trace<B.Event>, s: seq<WrapperInstance>, asks: seq<Ask>, x: WrapperInstance, i: nat)
    requires i < |s| == |asks|
  {
    s[i] == x && Rested(HistoryAt(h, s, asks, i), x.id, asks[i].now)
  }

  lemma KeptLast(h: Trace<B.Event>, s: seq<WrapperInstance>, asks: seq<Ask>, x: WrapperInstance)
    requires |s| == |asks| && s != []
    ensures Kept(h, s, asks, x) <==> Kept(h, s[..|s| - 1], asks[..|s| - 1], x) || KeptAt(h, s, asks, x, |s| - 1)
    ensures Eligible(HistoryAt(h, s, asks, |s| - 1), x, asks[|s| - 1].now) <==> Rested(HistoryAt(h, s, asks, |s| - 1), x.id, asks[|s| - 1].now)
  {
    var n := |s| - 1;
    forall i | 0 <= i < n ensures KeptAt(h, s[..n], asks[..n], x, i) <==> KeptAt(h, s, asks, x, i) {
      assert s[..n][..i] == s[..i] && asks[..n][..i] == asks[..i];
    }
    if Kept(h, s[..n], asks[..n], x) {
      var i :| 0 <= i < n && KeptAt(h, s[..n], asks[..n], x, i);
      assert KeptAt(h, s, asks, x, i);
    }
    if Kept(h, s, asks, x) {
      var i :| 0 <= i < |s| && KeptAt(h, s, asks, x, i);
      if i < n {
        assert KeptAt(h, s[..n], asks[..n], x, i);
      }
    }
  }

  lemma {:induction false} FilteredFacts(h: Trace<B.Event>, s: seq<WrapperInstance>, asks: seq<Ask>)
    requires |s| == |asks|
    ensures forall x :: x in Filtered(h, s, asks) <==> Kept(h, s, asks, x)
    ensures UniqueIds(s) ==> UniqueIds(Filtered(h, s, asks))
  {
    if s == [] {
    } else {
      var front, last, ticks := s[..|s| - 1], s[|s| - 1], asks[..|s| - 1];
      FilteredFacts(h, front, ticks);
      forall x ensures x in Filtered(h, s, asks) <==> Kept(h, s, asks, x) {
        KeptLast(h, s, asks, x);
      }
      if UniqueIds(s) {
        forall x | x in Filtered(h, front, ticks) ensures x.id != last.id {
          assert Kept(h, front, ticks, x);
        }
      }
    }
  }

  lemma {:induction false} WithoutOne(s: seq<WrapperInstance>, i: nat)
    requires i < |s| && UniqueIds(s)
    ensures Without(s, s[i].id) == s[..i] + s[i + 1..]
  {
    var front := s[..|s| - 1];
    if i == |s| - 1 {
      WithoutDrops(front, s[i].id);
      assert s[i + 1..] == [];
    } else {
      WithoutOne(front, i);
      assert front[i + 1..] + [s[|s| - 1]] == s[i + 1..];
    }
  }

  lemma RemovalShape(ops: seq<Op>, id: string, i: nat)
    requires i <= |Replay(ops)|
    requires if i < |Replay(ops)| then Replay(ops)[i].id == id else !Has(Replay(ops), id)
    ensures var s := Replay(ops);
            Replay(ops + [Remove(id)]) == Without(s, id) == if i < |s| then s[..i] + s[i + 1..] else s
  {
    assert (ops + [Remove(id)])[..|ops|] == ops;
    RegistryIsOrderedMap(ops);
    if i < |Replay(ops)| {
      WithoutOne(Replay(ops), i);
    } else {
      WithoutDrops(Replay(ops), id);
    }
  }

  /** A snapshot taken before an in-place removal still shows the old registry. */
  method SnapshotThenRemove(registry: InstanceRegistry, instance: WrapperInstance)
    returns (before: array<WrapperInstance?>)
    requires registry.Valid()
    modifies registry, registry.data
    ensures registry.Valid() && before[..] == old(registry.Contents())
    ensures registry.Contents() == Without(old(registry.Contents()), instance.id)
  {
    before := registry.SnapshotInstances();
    registry.RemoveInstance(instance);
  }
}
