/**
 The once-guard in front of the account-failure handlers. Readers of both
 output streams of a process fetch an account's guard (creating it when absent)
 and then, as a separate step, run the handler through it. Inserting the account
 into the registry deletes its guard, so a reader may still hold an older one.
 */
module HealthGuard {
  import opened Outcomes

  /** Guards are numbered in order of creation; `owners[g]` is the account guard
      `g` was created for, and `fired` holds the guards already used. */
  datatype Guards = Guards(m: map<string, nat>, owners: seq<string>, fired: set<nat>)

  const NO_GUARDS := Guards(map[], [], {})

  datatype Event =
    | Inserted(id: string)   // a successful registry insertion
    | Fetched(id: string)    // a reader saw a fatal line and loads or stores the guard
    | Used(guard: nat)       // a reader runs the handler through the guard it holds

  predicate Enabled(s: Guards, e: Event) {
    e.Used? ==> e.guard < |s.owners|
  }

  function Forget(s: Guards, id: string): Guards {
    s.(m := s.m - {id})
  }

  function Fetch(s: Guards, id: string): Guards {
    if id in s.m then s else s.(m := s.m[id := |s.owners|], owners := s.owners + [id])
  }

  function Next(s: Guards, e: Event): Guards {
    match e
    case Inserted(id) => Forget(s, id)
    case Fetched(id) => Fetch(s, id)
    case Used(g) => s.(fired := s.fired + {g})
  }

  function After(h: Trace<Event>): Guards {
    if h.Start? then NO_GUARDS else Next(After(h.before), h.last)
  }

  function Insertions(h: Trace<Event>, id: string): nat {
    if h.Start? then 0
    else Insertions(h.before, id) + (if h.last == Inserted(id) then 1 else 0)
  }

  /** Readers belong to a process, and a process is spawned only for an account
      that has been inserted; it may have been removed again meanwhile. */
  predicate IsRun(h: Trace<Event>) {
    h.Start? ||
    (IsRun(h.before) && Enabled(After(h.before), h.last)
     && (h.last.Fetched? ==> Insertions(h.before, h.last.id) > 0))
  }

  /** How often a handler ran for the account. */
  function HandlerRuns(h: Trace<Event>, id: string): nat {
    if h.Start? then 0
    else
      var s, e := After(h.before), h.last;
      HandlerRuns(h.before, id)
      + (if e.Used? && e.guard < |s.owners| && e.guard !in s.fired && s.owners[e.guard] == id then 1 else 0)
  }

  function Owned(s: Guards, id: string): set<nat> {
    set g: nat | g < |s.owners| && s.owners[g] == id
  }

  function FiredFor(s: Guards, id: string): set<nat> {
    set g: nat | g in s.fired && g < |s.owners| && s.owners[g] == id
  }

  lemma {:induction false} FiredGuardsExist(h: Trace<Event>)
    requires IsRun(h)
    ensures forall g :: g in After(h).fired ==> g < |After(h).owners|
  {
    if h.Start? {
    } else {
      FiredGuardsExist(h.before);
    }
  }

  lemma FiredByStep(s: Guards, e: Event, id: string)
    requires Enabled(s, e) && forall g :: g in s.fired ==> g < |s.owners|
    ensures FiredFor(Next(s, e), id) ==
            FiredFor(s, id) + (if e.Used? && s.owners[e.guard] == id then {e.guard} else {})
  {
  }

  lemma {:induction false} EachGuardFiresOnce(h: Trace<Event>, id: string)
    requires IsRun(h)
    ensures HandlerRuns(h, id) == |FiredFor(After(h), id)|
  {
    if h.Start? {
    } else {
      var fired := FiredFor(After(h.before), id);
      EachGuardFiresOnce(h.before, id);
      FiredGuardsExist(h.before);
      FiredByStep(After(h.before), h.last, id);
      if h.last.Used? {
        assert h.last.guard in fired ==> fired + {h.last.guard} == fired;
      }
    }
  }

  lemma {:induction false} GuardsFollowInsertions(h: Trace<Event>, id: string)
    requires IsRun(h)
    ensures var s := After(h);
            if Insertions(h, id) == 0 then Owned(s, id) == {} && id !in s.m
            else |Owned(s, id)| + (if id in s.m then 0 else 1) <= Insertions(h, id)
  {
    if h.Start? {
    } else {
      var s, e := After(h.before), h.last;
      GuardsFollowInsertions(h.before, id);
      if e == Fetched(id) && id !in s.m {
        assert Owned(After(h), id) == Owned(s, id) + {|s.owners|};
      } else {
        assert Owned(After(h), id) == Owned(s, id);
      }
    }
  }

  /** A burst of fatal lines is handled once per lifecycle: over any interleaving
      of readers, late ones included, and re-insertions, an account's handlers
      run at most once per insertion. */
  lemma HandledOncePerLifecycle(h: Trace<Event>, id: string)
    requires IsRun(h)
    ensures HandlerRuns(h, id) <= Insertions(h, id)
  {
    EachGuardFiresOnce(h, id);
    GuardsFollowInsertions(h, id);
    SubsetSize(FiredFor(After(h), id), Owned(After(h), id));
  }

  // ----- exactly once per lifecycle

  /** The time between two insertions of an account; number 0 is before the first. */
  datatype Lifecycle = Lifecycle(id: string, number: nat)

  /** The lifecycles in which a fatal line was seen, in the order of the first one. */
  function Alarmed(h: Trace<Event>): seq<Lifecycle> {
    if h.Start? then []
    else
      var before := Alarmed(h.before);
      match h.last
      case Fetched(id) => AlarmedBy(before, Lifecycle(id, Insertions(h.before, id)))
      case _ => before
  }

  /** Guards are lifecycles: the guard a reader is given stands for the account's
      present lifecycle, and no two stand for the same one. */
  predicate Stands(s: Guards, alarmed: seq<Lifecycle>, id: string, insertions: nat) {
    && |s.owners| == |alarmed|
    && (forall g :: 0 <= g < |alarmed| ==> s.owners[g] == alarmed[g].id)
    && (forall g, k :: 0 <= g < k < |alarmed| ==> alarmed[g] != alarmed[k])
    && (forall g :: 0 <= g < |alarmed| && alarmed[g].id == id ==> alarmed[g].number <= insertions)
    && (id in s.m <==> Lifecycle(id, insertions) in alarmed)
    && (id in s.m ==> s.m[id] < |alarmed| && alarmed[s.m[id]] == Lifecycle(id, insertions))
  }

  lemma InsertionStands(s: Guards, alarmed: seq<Lifecycle>, id: string, insertions: nat, inserted: string)
    requires Stands(s, alarmed, id, insertions)
    ensures Stands(Forget(s, inserted), alarmed, id, if inserted == id then insertions + 1 else insertions)
  {
  }

  function AlarmedBy(alarmed: seq<Lifecycle>, now: Lifecycle): seq<Lifecycle> {
    if now in alarmed then alarmed else alarmed + [now]
  }

  lemma OwnFetchStands(s: Guards, alarmed: seq<Lifecycle>, id: string, insertions: nat)
    requires Stands(s, alarmed, id, insertions)
    ensures Stands(Fetch(s, id), AlarmedBy(alarmed, Lifecycle(id, insertions)), id, insertions)
  {
  }

  lemma OtherFetchStands(s: Guards, alarmed: seq<Lifecycle>, id: string, insertions: nat, other: string, k: nat)
    requires Stands(s, alarmed, id, insertions) && Stands(s, alarmed, other, k) && other != id
    ensures Stands(Fetch(s, other), AlarmedBy(alarmed, Lifecycle(other, k)), id, insertions)
  {
  }

  lemma {:induction false} GuardsStand(h: Trace<Event>, id: string)
    ensures Stands(After(h), Alarmed(h), id, Insertions(h, id))
  {
    if h.Start? {
    } else {
      GuardsStand(h.before, id);
      var s, alarmed, n := After(h.before), Alarmed(h.before), Insertions(h.before, id);
      match h.last {
        case Inserted(inserted) => InsertionStands(s, alarmed, id, n, inserted);
        case Used(_) =>
        case Fetched(other) =>
          if other == id {
            OwnFetchStands(s, alarmed, id, n);
          } else {
            GuardsStand(h.before, other);
            OtherFetchStands(s, alarmed, id, n, other, Insertions(h.before, other));
          }
      }
    }
  }

  /** The guards used in the run. */
  function UsedIn(h: Trace<Event>): set<nat> {
    if h.Start? then {} else UsedIn(h.before) + (if h.last.Used? then {h.last.guard} else {})
  }

  lemma {:induction false} FiredAreUsed(h: Trace<Event>)
    ensures After(h).fired == UsedIn(h)
  {
    if h.Start? {
    } else {
      FiredAreUsed(h.before);
    }
  }

  /** The lifecycles of the account whose guard was used. */
  function Handled(h: Trace<Event>, id: string): set<Lifecycle> {
    set g: nat | g in UsedIn(h) && g < |Alarmed(h)| && Alarmed(h)[g].id == id :: Alarmed(h)[g]
  }

  lemma {:induction false} SameSize(alarmed: seq<Lifecycle>, gs: set<nat>)
    requires forall g :: g in gs ==> g < |alarmed|
    requires forall g, k :: 0 <= g < k < |alarmed| ==> alarmed[g] != alarmed[k]
    ensures |set g: nat | g in gs :: alarmed[g]| == |gs|
  {
    var image := set g: nat | g in gs :: alarmed[g];
    if gs == {} {
      assert image == {};
    } else {
      var x :| x in gs;
      var rest := set g: nat | g in gs - {x} :: alarmed[g];
      SameSize(alarmed, gs - {x});
      assert image == rest + {alarmed[x]};
      assert alarmed[x] !in rest;
    }
  }

  /** The handlers of an account run exactly as often as it has lifecycles in which
      a fatal line was seen and acted upon: never twice in one, and again in the
      next. */
  lemma RunsAreLifecycles(h: Trace<Event>, id: string)
    requires IsRun(h)
    ensures HandlerRuns(h, id) == |Handled(h, id)|
  {
    EachGuardFiresOnce(h, id);
    FiredGuardsExist(h);
    FiredAreUsed(h);
    GuardsStand(h, id);
    var gs := FiredFor(After(h), id);
    SameSize(Alarmed(h), gs);
    assert Handled(h, id) == set g: nat | g in gs :: Alarmed(h)[g];
  }

  /** Whatever happened before, the first fatal line after an insertion is handled. */
  lemma HandledAgain(h: Trace<Event>, id: string)
    requires IsRun(h)
    ensures var seen := Then(Then(h, Inserted(id)), Fetched(id));
            && id in After(seen).m
            && IsRun(Then(seen, Used(After(seen).m[id])))
            && HandlerRuns(Then(seen, Used(After(seen).m[id])), id) == HandlerRuns(h, id) + 1
  {
    var inserted := Then(h, Inserted(id));
    var seen := Then(inserted, Fetched(id));
    GuardsStand(inserted, id);
    GuardsStand(seen, id);
    GuardsStand(h, id);
    FiredGuardsExist(h);
    assert Insertions(inserted, id) == Insertions(h, id) + 1;
    assert IsRun(inserted) && IsRun(seen);
    assert Lifecycle(id, Insertions(inserted, id)) !in Alarmed(inserted);
    assert HandlerRuns(seen, id) == HandlerRuns(h, id);
    assert After(seen).fired == After(h).fired;
  }
}
