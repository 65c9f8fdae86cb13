/**
 The life of one account's instances: starts, readiness, failed starts, exits,
 restarts, deactivation by a fatal log line, logout and login. Everything the
 manager does for an account looks instances up by account id, while goroutines
 still hold the instance object they were started for; objects and processes are
 numbered here in order of creation. Restarts run in goroutines of their own, so
 a scheduled `WrapperStart` is a count of pending starts.
 */
module Lifecycle {
  import opened Outcomes

  /** Who is waiting for a process: `startLiteService` polling for readiness (for
      a login or for `WrapperStart`), the exit goroutine of a ready process, or
      nobody, which includes a process whose start timed out. */
  datatype Watch = Starting(login: bool) | Serving | Unwatched

  datatype Proc = Proc(obj: nat, watch: Watch, alive: bool)

  datatype Obj = Obj(noRestart: bool, cmd: Option<nat>)

  /** `registered` is the account's registry entry, `saved` whether the saved
      file lists the account, `tokens` whether its data directory has them, and
      `logouts` how many logouts have killed the process and not yet saved. */
  datatype State = State(
    registered: Option<nat>, objs: seq<Obj>, procs: seq<Proc>,
    pending: nat, saved: bool, tokens: bool, logouts: nat)

  /** After a boot that restored the account, and before its first login. */
  const RESTORED := State(Some(0), [Obj(false, None)], [], 1, true, true, 0)
  const UNKNOWN := State(None, [], [], 0, false, false, 0)

  datatype Event =
    | RunStart(ok: bool)               // a pending WrapperStart; ok when a process was spawned
    | Ready(p: nat)                    // the process reported a region
    | StartFail(p: nat)                // it exited before that, or the wait timed out
    | Die(p: nat)
    | Down(p: nat)                     // the exit of a ready process is handled
    | Fatal(p: nat, dead: bool)        // a fatal line of the process is handled; dead: subscription gone
    | Logout(killed: bool)             // a logout marks the instance and tries to kill its process
    | LogoutSave                       // and, when that worked, wipes the data and saves
    | LoginDone(ok: bool)              // tokens were cached and the service is started
    | OtherSave                        // the registry is saved on behalf of another account

  predicate Wf(s: State) {
    && (s.registered.Some? ==> s.registered.value < |s.objs|)
    && (forall p :: 0 <= p < |s.procs| ==> s.procs[p].obj < |s.objs|)
    && (forall o :: 0 <= o < |s.objs| ==> s.objs[o].cmd.Some? ==> s.objs[o].cmd.value < |s.procs|)
  }

  predicate Enabled(s: State, e: Event) {
    match e
    case RunStart(_) => s.pending > 0
    case Ready(p) => p < |s.procs| && s.procs[p].watch.Starting? && s.procs[p].alive
    case StartFail(p) => p < |s.procs| && s.procs[p].watch.Starting?
    case Die(p) => p < |s.procs| && s.procs[p].alive
    case Down(p) => p < |s.procs| && s.procs[p].watch.Serving? && !s.procs[p].alive
    case Fatal(p, _) => p < |s.procs|
    case Logout(_) => s.registered.Some?
    case LogoutSave => s.logouts > 0
    case LoginDone(_) => true
    case OtherSave => true
  }

  function Registered(s: State): (r: State)
    requires Wf(s)
    ensures Wf(r) && r.registered.Some?
  {
    if s.registered.Some? then s
    else s.(registered := Some(|s.objs|), objs := s.objs + [Obj(false, None)])
  }

  function WithNoRestart(s: State, o: nat, v: bool): (r: State)
    requires Wf(s) && o < |s.objs|
    ensures Wf(r)
  {
    s.(objs := s.objs[o := s.objs[o].(noRestart := v)])
  }

  function Spawned(s: State, o: nat, login: bool): (r: State)
    requires Wf(s) && o < |s.objs|
    ensures Wf(r)
  {
    s.(procs := s.procs + [Proc(o, Starting(login), true)],
       objs := s.objs[o := s.objs[o].(cmd := Some(|s.procs|))])
  }

  function Rewatched(s: State, p: nat, w: Watch): (r: State)
    requires Wf(s) && p < |s.procs|
    ensures Wf(r)
  {
    s.(procs := s.procs[p := s.procs[p].(watch := w)])
  }

  function Dead(s: State, p: nat): (r: State)
    requires Wf(s) && p < |s.procs|
    ensures Wf(r)
  {
    s.(procs := s.procs[p := s.procs[p].(alive := false)])
  }

  /** SIGKILL for the process of the registered instance. */
  function Killed(s: State): (r: State)
    requires Wf(s)
    ensures Wf(r)
  {
    if s.registered.Some? && s.objs[s.registered.value].cmd.Some?
    then Dead(s, s.objs[s.registered.value].cmd.value) else s
  }

  predicate LogoutSucceeds(s: State, killed: bool)
    requires Wf(s) && s.registered.Some?
  {
    killed && s.objs[s.registered.value].cmd.Some?
  }

  function Next(s: State, e: Event): (r: State)
    requires Wf(s) && Enabled(s, e)
    ensures Wf(r)
  {
    match e
    case RunStart(ok) =>
      var s1 := Registered(s);
      var s2 := WithNoRestart(s1, s1.registered.value, false);
      if ok then Spawned(s2, s2.registered.value, false).(pending := s.pending - 1) else s2
    case Ready(p) =>
      var s1 := Rewatched(s, p, Serving);
      if s.procs[p].watch.login then s1.(saved := s.registered.Some?) else s1
    case StartFail(p) =>
      var s1 := Rewatched(s, p, Unwatched);
      if s.procs[p].watch.login then s1.(tokens := false)
      else if s.objs[s.procs[p].obj].noRestart then s1
      else s1.(pending := s.pending + 1)
    case Die(p) => Dead(s, p)
    case Down(p) =>
      var s1 := Rewatched(s, p, Unwatched).(registered := None);
      if s.objs[s.procs[p].obj].noRestart then s1.(saved := false) else s1.(pending := s.pending + 1)
    case Fatal(p, dead) =>
      var s1 := WithNoRestart(s, s.procs[p].obj, true);
      Killed(s1).(registered := None, saved := false, tokens := s.tokens && !dead)
    case Logout(killed) =>
      var s1 := WithNoRestart(s, s.registered.value, true);
      if LogoutSucceeds(s, killed) then Killed(s1).(logouts := s.logouts + 1) else s1
    case LogoutSave => s.(tokens := false, saved := s.registered.Some?, logouts := s.logouts - 1)
    case LoginDone(ok) =>
      var s1 := Registered(s);
      var s2 := WithNoRestart(s1, s1.registered.value, false);
      if ok then Spawned(s2, s2.registered.value, true).(tokens := true) else s2.(tokens := false)
    case OtherSave => s.(saved := s.registered.Some?)
  }

  /** The state after continuing from `s`, or None when that is not possible. */
  function After(s: State, t: Trace<Event>): (r: Option<State>)
    requires Wf(s)
    ensures r.Some? ==> Wf(r.value)
  {
    match t
    case Start => Some(s)
    case Then(before, e) =>
      var r := After(s, before);
      if r.Some? && Enabled(r.value, e) then Some(Next(r.value, e)) else None
  }

  // ----- when nothing will be started any more

  predicate NoLogin(t: Trace<Event>) {
    t.Start? || (NoLogin(t.before) && !t.last.LoginDone?)
  }

  /** Until a new login no process is ever started for the account. */
  ghost predicate Final(s: State)
    requires Wf(s)
  {
    forall t: Trace<Event> :: NoLogin(t) && After(s, t).Some? ==> |After(s, t).value.procs| == |s.procs|
  }

  /** Somebody is watching the process who may still schedule a restart. */
  predicate Watched(s: State, p: nat) {
    && p < |s.procs|
    && (s.procs[p].watch.Serving? || (s.procs[p].watch.Starting? && (s.procs[p].watch.login ==> s.procs[p].alive)))
  }

  predicate MayRestart(s: State, p: nat)
    requires Wf(s)
  {
    Watched(s, p) && !s.objs[s.procs[p].obj].noRestart
  }

  predicate Quiet(s: State)
    requires Wf(s)
  {
    s.pending == 0 && forall p :: 0 <= p < |s.procs| ==> !MayRestart(s, p)
  }

  lemma QuietWhenMarked(s: State, e: Event)
    requires Wf(s) && Enabled(s, e) && Quiet(s) && (e.Fatal? || e.Logout?)
    ensures Quiet(Next(s, e)) && |Next(s, e).procs| == |s.procs|
  {
    var s' := Next(s, e);
    forall p: nat | p < |s'.procs| ensures !MayRestart(s', p) {
      assert !MayRestart(s, p);
      assert s.objs[s.procs[p].obj].noRestart ==> s'.objs[s.procs[p].obj].noRestart;
      assert Watched(s', p) ==> Watched(s, p);
    }
  }

  lemma QuietWhenWatched(s: State, e: Event)
    requires Wf(s) && Enabled(s, e) && Quiet(s)
    requires e.Ready? || e.StartFail? || e.Die? || e.Down?
    ensures Quiet(Next(s, e)) && |Next(s, e).procs| == |s.procs|
  {
    assert !MayRestart(s, e.p);
    forall p: nat | p < |s.procs| ensures !MayRestart(Next(s, e), p) {
      assert !MayRestart(s, p);
    }
  }

  lemma QuietStep(s: State, e: Event)
    requires Wf(s) && Enabled(s, e) && Quiet(s) && !e.LoginDone?
    ensures Quiet(Next(s, e)) && |Next(s, e).procs| == |s.procs|
  {
    if e.Fatal? || e.Logout? {
      QuietWhenMarked(s, e);
    } else if !e.OtherSave? && !e.LogoutSave? {
      QuietWhenWatched(s, e);
    } else {
      assert forall p :: 0 <= p < |s.procs| && MayRestart(Next(s, e), p) ==> MayRestart(s, p);
    }
  }

  lemma {:induction false} QuietRun(s: State, t: Trace<Event>)
    requires Wf(s) && Quiet(s) && NoLogin(t) && After(s, t).Some?
    ensures Quiet(After(s, t).value) && |After(s, t).value.procs| == |s.procs|
  {
    if t.Start? {
    } else {
      QuietRun(s, t.before);
      QuietStep(After(s, t.before).value, t.last);
    }
  }

  lemma PendingStarts(s: State, t: Trace<Event>)
    requires Wf(s) && NoLogin(t) && After(s, t).Some?
    requires After(s, t).value.pending > 0 && |After(s, t).value.procs| >= |s.procs|
    ensures !Final(s)
  {
    var t' := Then(t, RunStart(true));
    assert After(s, t') == Some(Next(After(s, t).value, RunStart(true)));
    assert NoLogin(t') && |After(s, t').value.procs| != |s.procs|;
    assert exists u: Trace<Event> :: NoLogin(u) && After(s, u).Some? && |After(s, u).value.procs| != |s.procs|;
  }

  lemma Extended(s: State, t: Trace<Event>, s1: State, e: Event, s2: State) returns (t': Trace<Event>)
    requires Wf(s) && Wf(s1) && After(s, t) == Some(s1) && Enabled(s1, e) && Next(s1, e) == s2
    ensures t' == Then(t, e) && After(s, t') == Some(s2)
  {
    t' := Then(t, e);
  }

  lemma ExitSchedules(s: State, t0: Trace<Event>, s0: State, p: nat) returns (t: Trace<Event>, r: State)
    requires Wf(s) && Wf(s0) && NoLogin(t0) && After(s, t0) == Some(s0)
    requires p < |s0.procs| && s0.procs[p].watch.Serving? && !s0.objs[s0.procs[p].obj].noRestart
    ensures Wf(r) && NoLogin(t) && After(s, t) == Some(r)
    ensures r.pending > 0 && r.registered.None? && |r.procs| == |s0.procs|
  {
    if s0.procs[p].alive {
      var s1 := Next(s0, Die(p));
      var t1 := Extended(s, t0, s0, Die(p), s1);
      r := Next(s1, Down(p));
      t := Extended(s, t1, s1, Down(p), r);
    } else {
      r := Next(s0, Down(p));
      t := Extended(s, t0, s0, Down(p), r);
    }
  }

  /** Where a restart is possible, a start comes to be scheduled in some run. */
  lemma ReachesPending(s: State) returns (t: Trace<Event>, r: State)
    requires Wf(s) && !Quiet(s)
    ensures Wf(r) && NoLogin(t) && After(s, t) == Some(r) && r.pending > 0 && |r.procs| == |s.procs|
  {
    t, r := Start, s;
    if s.pending == 0 {
      var p: nat :| p < |s.procs| && MayRestart(s, p);
      if s.procs[p].watch.Serving? {
        t, r := ExitSchedules(s, t, s, p);
      } else if s.procs[p].watch.login {
        r := Next(s, Ready(p));
        t := Extended(s, t, s, Ready(p), r);
        t, r := ExitSchedules(s, t, r, p);
      } else {
        r := Next(s, StartFail(p));
        t := Extended(s, t, s, StartFail(p), r);
      }
    }
  }

  /** Exactly when no process will be started before the next login: no start is
      scheduled, and every process somebody still watches belongs to an instance
      object that is marked not to restart. */
  lemma FinalIff(s: State)
    requires Wf(s)
    ensures Final(s) <==> Quiet(s)
  {
    if Quiet(s) {
      forall t: Trace<Event> | NoLogin(t) && After(s, t).Some? ensures |After(s, t).value.procs| == |s.procs| {
        QuietRun(s, t);
      }
    } else {
      var t, r := ReachesPending(s);
      PendingStarts(s, t);
    }
  }

  // ----- deactivation and logout

  /** The process of the registered instance, which a handler or a logout kills. */
  predicate IsRegisteredCmd(s: State, q: nat)
    requires Wf(s)
  {
    s.registered.Some? && s.objs[s.registered.value].cmd == Some(q)
  }

  /** No start is scheduled, and every process that could bring a restart belongs
      to the given object, or is a login's start that the kill will end. */
  predicate OnlyOwn(s: State, o: nat)
    requires Wf(s)
  {
    s.pending == 0 && forall q :: 0 <= q < |s.procs| && MayRestart(s, q) ==>
      s.procs[q].obj == o || (s.procs[q].watch == Starting(true) && IsRegisteredCmd(s, q))
  }

  /** Handling a fatal line deactivates the account for good exactly when nothing
      but the object the line came from could bring a restart. */
  lemma HandlerFinalIff(s: State, p: nat, dead: bool)
    requires Wf(s) && Enabled(s, Fatal(p, dead))
    ensures Final(Next(s, Fatal(p, dead))) <==> OnlyOwn(s, s.procs[p].obj)
  {
    var s' := Next(s, Fatal(p, dead));
    FinalIff(s');
    forall q | 0 <= q < |s.procs|
      ensures MayRestart(s', q) <==> MayRestart(s, q) && s.procs[q].obj != s.procs[p].obj
                                     && !(s.procs[q].watch == Starting(true) && IsRegisteredCmd(s, q))
    {
    }
  }

  /** The same for a successful logout, which marks the registered object. */
  lemma LogoutFinalIff(s: State)
    requires Wf(s) && s.registered.Some? && LogoutSucceeds(s, true)
    ensures Final(Next(s, Logout(true))) <==> OnlyOwn(s, s.registered.value)
  {
    var s' := Next(s, Logout(true));
    FinalIff(s');
    forall q | 0 <= q < |s.procs|
      ensures MayRestart(s', q) <==> MayRestart(s, q) && s.procs[q].obj != s.registered.value
                                     && !(s.procs[q].watch == Starting(true) && IsRegisteredCmd(s, q))
    {
    }
  }

  /** Nothing but the process `p` could bring a start. */
  predicate NoOther(s: State, p: nat)
    requires Wf(s)
  {
    s.pending == 0 && forall q :: 0 <= q < |s.procs| && q != p ==> !MayRestart(s, q)
  }

  /** A start that has run, spawned or not, is never the last: the account is
      restartable from then on. */
  lemma StartNotFinal(s: State, ok: bool)
    requires Wf(s) && Enabled(s, RunStart(ok))
    ensures !Final(Next(s, RunStart(ok)))
  {
    var s' := Next(s, RunStart(ok));
    FinalIff(s');
    if ok {
      assert MayRestart(s', |s.procs|);
    }
  }

  lemma LoginNotFinal(s: State)
    requires Wf(s)
    ensures !Final(Next(s, LoginDone(true)))
  {
    var s' := Next(s, LoginDone(true));
    FinalIff(s');
    assert MayRestart(s', |s.procs|);
  }

  /** A start that fails ends the account's restarts exactly when it was a
      login's or its object is marked, and nothing else could restart it. */
  lemma StartFailFinalIff(s: State, p: nat)
    requires Wf(s) && Enabled(s, StartFail(p))
    ensures Final(Next(s, StartFail(p))) <==>
              NoOther(s, p) && (s.procs[p].watch.login || s.objs[s.procs[p].obj].noRestart)
  {
    var s' := Next(s, StartFail(p));
    FinalIff(s');
    forall q | 0 <= q < |s.procs| ensures MayRestart(s', q) <==> q != p && MayRestart(s, q) {
    }
  }

  /** So does the exit of a ready process whose object is marked. */
  lemma DownFinalIff(s: State, p: nat)
    requires Wf(s) && Enabled(s, Down(p))
    ensures Final(Next(s, Down(p))) <==> NoOther(s, p) && s.objs[s.procs[p].obj].noRestart
  {
    var s' := Next(s, Down(p));
    FinalIff(s');
    forall q | 0 <= q < |s.procs| ensures MayRestart(s', q) <==> q != p && MayRestart(s, q) {
    }
  }

  /** Becoming ready changes nothing about that. */
  lemma ReadyFinalIff(s: State, p: nat)
    requires Wf(s) && Enabled(s, Ready(p))
    ensures Final(Next(s, Ready(p))) <==> Final(s)
  {
    var s' := Next(s, Ready(p));
    FinalIff(s);
    FinalIff(s');
    forall q | 0 <= q < |s.procs| ensures MayRestart(s', q) <==> MayRestart(s, q) {
    }
  }

  // ----- the schedules the manager is written for

  function WatchedSet(s: State): set<nat> {
    set p: nat | p < |s.procs| && !s.procs[p].watch.Unwatched?
  }

  /** A login does not overlap an instance that is still starting, serving or due
      to restart; fatal lines come from the process being watched; and a logout
      does not fall between a failed start and its retry. */
  predicate Orderly(s: State, e: Event) {
    match e
    case LoginDone(_) => s.pending == 0 && WatchedSet(s) == {}
    case Fatal(p, _) => p in WatchedSet(s)
    case Logout(_) => s.pending == 0
    case _ => true
  }

  predicate OrderlyRun(s: State, t: Trace<Event>)
    requires Wf(s)
  {
    t.Start? || (OrderlyRun(s, t.before) && (After(s, t.before).Some? ==> Orderly(After(s, t.before).value, t.last)))
  }

  /** At most one process is watched or start scheduled, and a watched process is
      that of the registered object or, when nothing is registered, of one that
      is marked not to restart. */
  predicate OneLineage(s: State)
    requires Wf(s)
  {
    && s.pending + |WatchedSet(s)| <= 1
    && forall p :: p in WatchedSet(s) ==> Attached(s, p)
  }

  predicate Attached(s: State, p: nat)
    requires Wf(s) && p < |s.procs|
  {
    var o := s.procs[p].obj;
    s.objs[o].cmd == Some(p) && if s.registered.None? then s.objs[o].noRestart else s.registered == Some(o)
  }

  lemma OneOnly(s: State, p: nat, q: nat)
    requires Wf(s) && OneLineage(s) && p in WatchedSet(s)
    ensures s.pending == 0 && (q in WatchedSet(s) ==> q == p)
    ensures WatchedSet(s) == {p}
  {
    var rest := WatchedSet(s) - {p};
    assert WatchedSet(s) == rest + {p};
    assert |rest| == 0;
  }

  /** The object a start or a login is for: the registered one, or a new one. */
  function Target(s: State): nat
    requires Wf(s)
  {
    if s.registered.Some? then s.registered.value else |s.objs|
  }

  lemma SpawnShape(s: State, e: Event)
    requires Wf(s) && Enabled(s, e) && (e.RunStart? || e.LoginDone?)
    ensures var s' := Next(s, e);
            && s'.registered == Some(Target(s)) && Target(s) < |s'.objs|
            && s'.procs == (if e.ok then s.procs + [Proc(Target(s), Starting(e.LoginDone?), true)] else s.procs)
            && s'.pending == (if e.RunStart? && e.ok then s.pending - 1 else s.pending)
            && (e.ok ==> s'.objs[Target(s)].cmd == Some(|s.procs|))
  {
  }

  lemma SpawnKeepsLineage(s: State, e: Event)
    requires Wf(s) && OneLineage(s) && Enabled(s, e) && Orderly(s, e)
    requires e.RunStart? || e.LoginDone?
    ensures OneLineage(Next(s, e))
  {
    SpawnShape(s, e);
    assert WatchedSet(s) == {};
    assert WatchedSet(Next(s, e)) == if e.ok then {|s.procs|} else {};
  }

  lemma UnwatchKeepsLineage(s: State, e: Event)
    requires Wf(s) && OneLineage(s) && Enabled(s, e)
    requires e.StartFail? || e.Down?
    ensures OneLineage(Next(s, e))
  {
    OneOnly(s, e.p, e.p);
    forall q | q in WatchedSet(Next(s, e)) ensures q in WatchedSet(s) && q != e.p {
    }
    assert WatchedSet(Next(s, e)) == {};
  }

  lemma SameWatch(s: State, s': State)
    requires |s'.procs| == |s.procs|
    requires forall p :: 0 <= p < |s.procs| ==> s'.procs[p].watch == s.procs[p].watch
    ensures WatchedSet(s') == WatchedSet(s)
  {
  }

  lemma FatalKeepsLineage(s: State, p: nat, dead: bool)
    requires Wf(s) && OneLineage(s) && Enabled(s, Fatal(p, dead)) && p in WatchedSet(s)
    ensures OneLineage(Next(s, Fatal(p, dead)))
  {
    SameWatch(s, Next(s, Fatal(p, dead)));
    OneOnly(s, p, p);
  }

  lemma LogoutKeepsLineage(s: State, killed: bool)
    requires Wf(s) && OneLineage(s) && Enabled(s, Logout(killed))
    ensures OneLineage(Next(s, Logout(killed)))
  {
    SameWatch(s, Next(s, Logout(killed)));
  }

  lemma StepKeepsLineage(s: State, e: Event)
    requires Wf(s) && OneLineage(s) && Enabled(s, e) && Orderly(s, e)
    ensures OneLineage(Next(s, e))
  {
    if e.RunStart? || e.LoginDone? {
      SpawnKeepsLineage(s, e);
    } else if e.StartFail? || e.Down? {
      UnwatchKeepsLineage(s, e);
    } else if e.Fatal? {
      FatalKeepsLineage(s, e.p, e.dead);
    } else if e.Logout? {
      LogoutKeepsLineage(s, e.killed);
    } else {
      assert WatchedSet(Next(s, e)) == WatchedSet(s);
    }
  }

  lemma {:induction false} RunKeepsLineage(s: State, t: Trace<Event>)
    requires Wf(s) && OneLineage(s) && OrderlyRun(s, t) && After(s, t).Some?
    ensures OneLineage(After(s, t).value)
  {
    if t.Start? {
    } else {
      RunKeepsLineage(s, t.before);
      StepKeepsLineage(After(s, t.before).value, t.last);
    }
  }

  lemma QuietAfterLogout(s: State)
    requires Wf(s) && OneLineage(s) && s.pending == 0 && s.registered.Some? && LogoutSucceeds(s, true)
    ensures Final(Next(s, Logout(true))) && Quiet(Next(s, Logout(true)))
  {
    LogoutFinalIff(s);
    forall q: nat | q < |s.procs| && MayRestart(s, q) ensures s.procs[q].obj == s.registered.value {
      assert q in WatchedSet(s);
    }
    FinalIff(Next(s, Logout(true)));
  }

  lemma FinalAfterFatal(s: State, p: nat, dead: bool)
    requires Wf(s) && OneLineage(s) && p in WatchedSet(s)
    ensures Final(Next(s, Fatal(p, dead)))
  {
    HandlerFinalIff(s, p, dead);
    OneOnly(s, p, p);
    forall q: nat | q < |s.procs| && MayRestart(s, q) ensures q == p {
      assert q in WatchedSet(s);
    }
  }

  /** On every orderly run, deactivation by a fatal line and a successful logout
      are final: nothing is started for the account until it logs in again. */
  lemma OrderlyDeactivationIsFinal(s: State, t: Trace<Event>, e: Event)
    requires s == RESTORED || s == UNKNOWN
    requires Wf(s) && OrderlyRun(s, t) && After(s, t).Some?
    requires Enabled(After(s, t).value, e) && Orderly(After(s, t).value, e)
    requires e.Fatal? || (e == Logout(true) && LogoutSucceeds(After(s, t).value, true))
    ensures Final(Next(After(s, t).value, e))
  {
    assert WatchedSet(s) == {};
    RunKeepsLineage(s, t);
    if e.Fatal? {
      FinalAfterFatal(After(s, t).value, e.p, e.dead);
    } else {
      QuietAfterLogout(After(s, t).value);
    }
  }

  /** Such runs exist: a restored account that has come up can be deactivated and
      logged out. */
  lemma OrderlyRunServes() returns (t: Trace<Event>)
    ensures OrderlyRun(RESTORED, t) && After(RESTORED, t).Some?
    ensures var r := After(RESTORED, t).value;
            && Enabled(r, Fatal(0, true)) && Orderly(r, Fatal(0, true))
            && Enabled(r, Logout(true)) && Orderly(r, Logout(true)) && LogoutSucceeds(r, true)
  {
    var s1 := State(Some(0), [Obj(false, Some(0))], [Proc(0, Starting(false), true)], 0, true, true, 0);
    var s2 := s1.(procs := [Proc(0, Serving, true)]);
    var t1 := Extended(RESTORED, Start, RESTORED, RunStart(true), s1);
    t := Extended(RESTORED, t1, s1, Ready(0), s2);
    assert OrderlyRun(RESTORED, t1);
    assert 0 in WatchedSet(s2);
  }

  // ----- runs on which more was promised than holds

  const SECOND_TRY := State(Some(0), [Obj(false, Some(1))], [Proc(0, Unwatched, true), Proc(0, Serving, true)], 0, true, true, 0)

  /** The first start times out, and the retry serves. */
  lemma SecondTryServes() returns (t: Trace<Event>)
    ensures After(RESTORED, t) == Some(SECOND_TRY)
  {
    var up, timedOut := Proc(0, Starting(false), true), Proc(0, Unwatched, true);
    var s1 := State(Some(0), [Obj(false, Some(0))], [up], 0, true, true, 0);
    var s2 := State(Some(0), [Obj(false, Some(0))], [timedOut], 1, true, true, 0);
    var s3 := State(Some(0), [Obj(false, Some(1))], [timedOut, up], 0, true, true, 0);
    t := Extended(RESTORED, Start, RESTORED, RunStart(true), s1);
    t := Extended(RESTORED, t, s1, StartFail(0), s2);
    t := Extended(RESTORED, t, s2, RunStart(true), s3);
    t := Extended(RESTORED, t, s3, Ready(1), SECOND_TRY);
  }

  const REPLACED := State(Some(1), [Obj(false, Some(1)), Obj(false, Some(2))],
                          [Proc(0, Unwatched, true), Proc(0, Unwatched, false), Proc(1, Starting(false), true)], 0, true, true, 0)

  /** Then the serving process exits and is replaced. */
  lemma ReplacedReached() returns (t: Trace<Event>)
    ensures After(RESTORED, t) == Some(REPLACED)
  {
    var old1, timedOut := Proc(0, Unwatched, false), Proc(0, Unwatched, true);
    var s5 := State(Some(0), [Obj(false, Some(1))], [timedOut, Proc(0, Serving, false)], 0, true, true, 0);
    var s6 := State(None, [Obj(false, Some(1))], [timedOut, old1], 1, true, true, 0);
    t := SecondTryServes();
    t := Extended(RESTORED, t, SECOND_TRY, Die(1), s5);
    t := Extended(RESTORED, t, s5, Down(1), s6);
    t := Extended(RESTORED, t, s6, RunStart(true), REPLACED);
  }

  /** A process whose start timed out is not killed. When it reports a dead
      subscription after the instance was replaced, the replacement is killed and
      removed and the data wiped, but its object is not marked, and it restarts. */
  lemma StaleLineRestarts() returns (t: Trace<Event>)
    ensures var s := After(RESTORED, t);
            s.Some? && Enabled(s.value, Fatal(0, true)) && !Final(Next(s.value, Fatal(0, true)))
  {
    t := ReplacedReached();
    NotMarked(REPLACED);
  }

  lemma NotMarked(s: State)
    requires Wf(s) && |s.procs| == 3 && s.procs[0].obj == 0 && s.procs[2] == Proc(1, Starting(false), true)
    requires !s.objs[1].noRestart
    ensures !Final(Next(s, Fatal(0, true)))
  {
    HandlerFinalIff(s, 0, true);
    assert MayRestart(s, 2);
  }

  /** A successful logout leaves no process of the account alive exactly when the
      registered instance's process was the only one alive. */
  lemma LogoutKillsAllIff(s: State)
    requires Wf(s) && s.registered.Some? && LogoutSucceeds(s, true)
    ensures (forall p :: 0 <= p < |s.procs| ==> !Next(s, Logout(true)).procs[p].alive) <==>
            (forall p :: 0 <= p < |s.procs| && s.procs[p].alive ==> IsRegisteredCmd(s, p))
  {
    var s' := Next(s, Logout(true));
    forall p | 0 <= p < |s.procs| ensures s'.procs[p].alive <==> s.procs[p].alive && !IsRegisteredCmd(s, p) {
    }
  }

  /** The process of a timed-out start is one that survives. */
  lemma TimedOutSurvivesLogout() returns (t: Trace<Event>)
    ensures var s := After(RESTORED, t);
            && s.Some? && s.value.registered.Some? && LogoutSucceeds(s.value, true)
            && Next(s.value, Logout(true)).procs[0].alive
  {
    t := SecondTryServes();
  }

  // ----- the state read off the events

  /** The data directory has the tokens iff the last event that decides about them
      was a login whose process was spawned, and not a dead subscription, the end
      of a logout, or a login whose service could not be started. */
  predicate HasTokens(s: State, t: Trace<Event>)
    requires Wf(s) && After(s, t).Some?
  {
    if t.Start? then s.tokens
    else
      match t.last
      case Fatal(_, dead) => !dead && HasTokens(s, t.before)
      case LogoutSave => false
      case LoginDone(ok) => ok
      case StartFail(p) => After(s, t.before).value.procs[p].watch != Starting(true) && HasTokens(s, t.before)
      case _ => HasTokens(s, t.before)
  }

  lemma TokensStep(s: State, e: Event)
    requires Wf(s) && Enabled(s, e)
    ensures Next(s, e).tokens <==>
              e == LoginDone(true) ||
              (s.tokens && !e.LoginDone? && !e.LogoutSave? && !(e.Fatal? && e.dead)
               && !(e.StartFail? && s.procs[e.p].watch == Starting(true)))
  {
  }

  lemma {:induction false} TokensIff(s: State, t: Trace<Event>)
    requires Wf(s) && After(s, t).Some?
    ensures After(s, t).value.tokens <==> HasTokens(s, t)
  {
    if t.Start? {
    } else {
      TokensIff(s, t.before);
      TokensStep(After(s, t.before).value, t.last);
    }
  }

  /** The account is registered iff it was, or was started or logged in, and neither
      the exit of a ready process nor a fatal line has been handled since. */
  predicate IsRegistered(s: State, t: Trace<Event>) {
    if t.Start? then s.registered.Some?
    else
      match t.last
      case RunStart(_) => true
      case LoginDone(_) => true
      case Down(_) => false
      case Fatal(_, _) => false
      case _ => IsRegistered(s, t.before)
  }

  lemma RegisteredStep(s: State, e: Event)
    requires Wf(s) && Enabled(s, e)
    ensures Next(s, e).registered ==
              if e.RunStart? || e.LoginDone? then Some(Target(s))
              else if e.Down? || e.Fatal? then None else s.registered
  {
  }

  lemma {:induction false} RegisteredIff(s: State, t: Trace<Event>)
    requires Wf(s) && After(s, t).Some?
    ensures After(s, t).value.registered.Some? <==> IsRegistered(s, t)
  {
    if t.Start? {
    } else {
      RegisteredIff(s, t.before);
      RegisteredStep(After(s, t.before).value, t.last);
    }
  }

  /** An instance object is marked not to restart iff the last event about its mark
      was a fatal line of one of its processes or a logout, and not a start or a
      login that took the object up again. */
  predicate IsMarked(s: State, t: Trace<Event>, o: nat)
    requires Wf(s) && After(s, t).Some? && o < |s.objs|
  {
    if t.Start? then s.objs[o].noRestart
    else
      var r := After(s, t.before).value;
      match t.last
      case RunStart(_) => Target(r) != o && IsMarked(s, t.before, o)
      case LoginDone(_) => Target(r) != o && IsMarked(s, t.before, o)
      case Fatal(p, _) => r.procs[p].obj == o || IsMarked(s, t.before, o)
      case Logout(_) => r.registered == Some(o) || IsMarked(s, t.before, o)
      case _ => IsMarked(s, t.before, o)
  }

  lemma MarkedBySpawn(s: State, e: Event, o: nat)
    requires Wf(s) && Enabled(s, e) && o < |s.objs| && (e.RunStart? || e.LoginDone?)
    ensures o < |Next(s, e).objs|
    ensures Next(s, e).objs[o].noRestart <==> s.objs[o].noRestart && Target(s) != o
  {
  }

  lemma MarkedByHandler(s: State, e: Event, o: nat)
    requires Wf(s) && Enabled(s, e) && o < |s.objs| && (e.Fatal? || e.Logout?)
    ensures o < |Next(s, e).objs|
    ensures Next(s, e).objs[o].noRestart <==>
              s.objs[o].noRestart || o == if e.Fatal? then s.procs[e.p].obj else s.registered.value
  {
  }

  lemma OtherwiseUnmarked(s: State, e: Event)
    requires Wf(s) && Enabled(s, e) && !e.RunStart? && !e.LoginDone? && !e.Fatal? && !e.Logout?
    ensures Next(s, e).objs == s.objs
  {
  }

  lemma {:induction false} MarkedIff(s: State, t: Trace<Event>, o: nat)
    requires Wf(s) && After(s, t).Some? && o < |s.objs|
    ensures o < |After(s, t).value.objs| && (After(s, t).value.objs[o].noRestart <==> IsMarked(s, t, o))
  {
    if t.Start? {
    } else {
      MarkedIff(s, t.before, o);
      var r, e := After(s, t.before).value, t.last;
      if e.RunStart? || e.LoginDone? {
        MarkedBySpawn(r, e, o);
      } else if e.Fatal? || e.Logout? {
        MarkedByHandler(r, e, o);
      } else {
        OtherwiseUnmarked(r, e);
      }
    }
  }

  /** The event ends the process: it dies by itself, or the account's registered
      instance is killed by a fatal line or a logout that could kill it. */
  predicate Ends(s: State, e: Event, p: nat)
    requires Wf(s) && Enabled(s, e)
  {
    e == Die(p) || ((e.Fatal? || e == Logout(true)) && IsRegisteredCmd(s, p))
  }

  /** A process is alive iff nothing has ended it. */
  predicate IsAlive(s: State, t: Trace<Event>, p: nat)
    requires Wf(s) && After(s, t).Some? && p < |s.procs|
  {
    if t.Start? then s.procs[p].alive
    else !Ends(After(s, t.before).value, t.last, p) && IsAlive(s, t.before, p)
  }

  lemma AliveBySpawn(s: State, e: Event, p: nat)
    requires Wf(s) && Enabled(s, e) && p < |s.procs| && (e.RunStart? || e.LoginDone?)
    ensures p < |Next(s, e).procs| && (Next(s, e).procs[p].alive <==> s.procs[p].alive)
  {
    SpawnShape(s, e);
  }

  lemma AliveByHandler(s: State, e: Event, p: nat)
    requires Wf(s) && Enabled(s, e) && p < |s.procs| && (e.Fatal? || e.Logout?)
    ensures p < |Next(s, e).procs| && (Next(s, e).procs[p].alive <==> s.procs[p].alive && !Ends(s, e, p))
  {
  }

  lemma AliveOtherwise(s: State, e: Event, p: nat)
    requires Wf(s) && Enabled(s, e) && p < |s.procs| && !e.RunStart? && !e.LoginDone? && !e.Fatal? && !e.Logout?
    ensures p < |Next(s, e).procs| && (Next(s, e).procs[p].alive <==> s.procs[p].alive && e != Die(p))
  {
  }

  lemma {:induction false} AliveIff(s: State, t: Trace<Event>, p: nat)
    requires Wf(s) && After(s, t).Some? && p < |s.procs|
    ensures p < |After(s, t).value.procs| && (After(s, t).value.procs[p].alive <==> IsAlive(s, t, p))
  {
    if t.Start? {
    } else {
      AliveIff(s, t.before, p);
      var r, e := After(s, t.before).value, t.last;
      if e.RunStart? || e.LoginDone? {
        AliveBySpawn(r, e, p);
      } else if e.Fatal? || e.Logout? {
        AliveByHandler(r, e, p);
      } else {
        AliveOtherwise(r, e, p);
      }
    }
  }

  predicate Gone(s: State, p: nat) {
    p < |s.procs| && !s.procs[p].alive && s.procs[p].watch.Unwatched?
  }

  lemma GoneBySpawn(s: State, e: Event, p: nat)
    requires Wf(s) && Enabled(s, e) && Gone(s, p) && (e.RunStart? || e.LoginDone?)
    ensures Gone(Next(s, e), p)
  {
    SpawnShape(s, e);
  }

  lemma GoneByHandler(s: State, e: Event, p: nat)
    requires Wf(s) && Enabled(s, e) && Gone(s, p) && (e.Fatal? || e.Logout?)
    ensures Gone(Next(s, e), p)
  {
  }

  lemma GoneOtherwise(s: State, e: Event, p: nat)
    requires Wf(s) && Enabled(s, e) && Gone(s, p) && !e.RunStart? && !e.LoginDone? && !e.Fatal? && !e.Logout?
    ensures Gone(Next(s, e), p) && e != Down(p)
  {
  }

  /** An exit is handled only of a process that is dead, once, and nobody minds the
      process any more. */
  lemma {:induction false} DownIsLast(s: State, t: Trace<Event>, p: nat)
    requires Wf(s) && After(s, t).Some? && Happens(t, Down(p))
    ensures Gone(After(s, t).value, p) && !Enabled(After(s, t).value, Down(p))
  {
    if t.Start? {
    } else {
      var r, e := After(s, t.before).value, t.last;
      if e != Down(p) || Happens(t.before, e) {
        DownIsLast(s, t.before, p);
        if e.RunStart? || e.LoginDone? {
          GoneBySpawn(r, e, p);
        } else if e.Fatal? || e.Logout? {
          GoneByHandler(r, e, p);
        } else {
          GoneOtherwise(r, e, p);
        }
      }
    }
  }

  /** The event schedules a start: an exit of a ready process, or a failed start
      that was not a login's, of an object that is not marked. */
  predicate Schedules(s: State, e: Event)
    requires Wf(s) && Enabled(s, e)
  {
    (e.Down? || (e.StartFail? && s.procs[e.p].watch == Starting(false))) && !s.objs[s.procs[e.p].obj].noRestart
  }

  function Scheduled(s: State, t: Trace<Event>): nat
    requires Wf(s) && After(s, t).Some?
  {
    if t.Start? then 0
    else Scheduled(s, t.before) + (if Schedules(After(s, t.before).value, t.last) then 1 else 0)
  }

  function Spawns(t: Trace<Event>): nat {
    if t.Start? then 0 else Spawns(t.before) + (if t.last == RunStart(true) then 1 else 0)
  }

  lemma PendingStep(s: State, e: Event)
    requires Wf(s) && Enabled(s, e)
    ensures Next(s, e).pending + (if e == RunStart(true) then 1 else 0) == s.pending + (if Schedules(s, e) then 1 else 0)
  {
  }

  /** No start is lost or made up: every one scheduled has run, or is still to run,
      again and again until it could spawn a process. */
  lemma {:induction false} StartsConserved(s: State, t: Trace<Event>)
    requires Wf(s) && After(s, t).Some?
    ensures After(s, t).value.pending + Spawns(t) == s.pending + Scheduled(s, t)
  {
    if t.Start? {
    } else {
      StartsConserved(s, t.before);
      PendingStep(After(s, t.before).value, t.last);
    }
  }

  function Kills(s: State, t: Trace<Event>): nat
    requires Wf(s) && After(s, t).Some?
  {
    if t.Start? then 0
    else
      var r := After(s, t.before).value;
      Kills(s, t.before) + (if t.last == Logout(true) && r.objs[r.registered.value].cmd.Some? then 1 else 0)
  }

  function LogoutSaves(t: Trace<Event>): nat {
    if t.Start? then 0 else LogoutSaves(t.before) + (if t.last.LogoutSave? then 1 else 0)
  }

  lemma LogoutsStep(s: State, e: Event)
    requires Wf(s) && Enabled(s, e)
    ensures Next(s, e).logouts + (if e.LogoutSave? then 1 else 0)
            == s.logouts + (if e == Logout(true) && s.objs[s.registered.value].cmd.Some? then 1 else 0)
  {
  }

  /** Every logout that killed a process saves once, and no other one does. */
  lemma {:induction false} LogoutsConserved(s: State, t: Trace<Event>)
    requires Wf(s) && After(s, t).Some?
    ensures After(s, t).value.logouts + LogoutSaves(t) == s.logouts + Kills(s, t)
  {
    if t.Start? {
    } else {
      LogoutsConserved(s, t.before);
      LogoutsStep(After(s, t.before).value, t.last);
    }
  }

  // ----- the saved file

  predicate FileAgrees(s: State) {
    s.saved <==> s.registered.Some?
  }

  /** The event writes the registry to the file. */
  predicate Saves(s: State, e: Event)
    requires Wf(s) && Enabled(s, e)
  {
    match e
    case Ready(p) => s.procs[p].watch.login
    case Down(p) => s.objs[s.procs[p].obj].noRestart
    case Fatal(_, _) => true
    case LogoutSave => true
    case OtherSave => true
    case _ => false
  }

  /** The run up to the last event that saved, or its start if none did. */
  function UpToLastSave(s: State, t: Trace<Event>): (u: Trace<Event>)
    requires Wf(s) && After(s, t).Some?
    ensures After(s, u).Some?
  {
    if t.Start? || Saves(After(s, t.before).value, t.last) then t else UpToLastSave(s, t.before)
  }

  lemma SaveStep(s: State, e: Event)
    requires Wf(s) && Enabled(s, e)
    ensures Next(s, e).saved <==> if Saves(s, e) then Next(s, e).registered.Some? else s.saved
  {
  }

  /** In every run the file lists the account iff it was registered just after the
      last event that saved. */
  lemma {:induction false} FileShowsLastSave(s: State, t: Trace<Event>)
    requires Wf(s) && FileAgrees(s) && After(s, t).Some?
    ensures After(s, t).value.saved <==> After(s, UpToLastSave(s, t)).value.registered.Some?
  {
    if t.Start? {
    } else {
      FileShowsLastSave(s, t.before);
      SaveStep(After(s, t.before).value, t.last);
    }
  }

  /** So it is registered and unlisted exactly when the last save found it
      unregistered and it has been registered since, and listed but gone exactly
      when it was removed since. */
  lemma UnlistedIff(s: State, t: Trace<Event>)
    requires Wf(s) && FileAgrees(s) && After(s, t).Some?
    ensures var synced, now := After(s, UpToLastSave(s, t)).value.registered, After(s, t).value;
            && (now.registered.Some? && !now.saved <==> synced.None? && now.registered.Some?)
            && (now.registered.None? && now.saved <==> synced.Some? && now.registered.None?)
  {
    FileShowsLastSave(s, t);
  }

  /** Once nothing will be started, the saved file lists the account exactly as
      long as it is registered. */
  lemma {:induction false} FileFollowsRegistry(s: State, t: Trace<Event>)
    requires Wf(s) && Quiet(s) && FileAgrees(s) && NoLogin(t) && After(s, t).Some?
    ensures FileAgrees(After(s, t).value)
  {
    if t.Start? {
    } else {
      FileFollowsRegistry(s, t.before);
      QuietRun(s, t.before);
      var r := After(s, t.before).value;
      if t.last.Down? {
        assert !MayRestart(r, t.last.p);
      }
    }
  }

  /** The account's registered instance serves, and the file does not list it: a
      crash of the manager now would lose the account. */
  predicate ServesUnlisted(s: State)
    requires Wf(s)
  {
    && !s.saved && s.registered.Some?
    && var cmd := s.objs[s.registered.value].cmd;
       cmd.Some? && s.procs[cmd.value] == Proc(s.registered.value, Serving, true)
  }

  ghost predicate CanServeUnlisted(s: State)
    requires Wf(s)
  {
    exists t: Trace<Event> :: NoLogin(t) && After(s, t).Some? && ServesUnlisted(After(s, t).value)
  }

  /** A scheduled start runs and its process becomes ready; nothing is saved. */
  lemma StartServes(s: State, t0: Trace<Event>, s0: State) returns (t: Trace<Event>, r: State)
    requires Wf(s) && Wf(s0) && NoLogin(t0) && After(s, t0) == Some(s0) && s0.pending > 0
    ensures Wf(r) && NoLogin(t) && After(s, t) == Some(r)
    ensures r.saved == s0.saved && r.registered.Some?
    ensures r.objs[r.registered.value] == Obj(false, Some(|s0.procs|)) && |r.procs| == |s0.procs| + 1
    ensures r.procs[|s0.procs|] == Proc(r.registered.value, Serving, true)
  {
    var p := |s0.procs|;
    var s1 := Next(s0, RunStart(true));
    var t1 := Extended(s, t0, s0, RunStart(true), s1);
    r := Next(s1, Ready(p));
    t := Extended(s, t1, s1, Ready(p), r);
  }

  lemma RestartLosesListing(s: State, t0: Trace<Event>, s0: State)
    requires Wf(s) && Wf(s0) && NoLogin(t0) && After(s, t0) == Some(s0) && s0.pending > 0
    ensures CanServeUnlisted(s)
  {
    var t1, s1 := StartServes(s, t0, s0);
    var t2, s2 := ExitSchedules(s, t1, s1, |s0.procs|);
    var s3 := Next(s2, OtherSave);
    var t3 := Extended(s, t2, s2, OtherSave, s3);
    var t4, s4 := StartServes(s, t3, s3);
    assert ServesUnlisted(s4);
  }

  /** A restart does not save. Without a new login, an account whose listing was
      right can come to serve unlisted exactly when something may still start a
      process for it, that is when `Final` does not hold: it exits, another
      account is saved, and it is restarted. */
  lemma CanServeUnlistedIff(s: State)
    requires Wf(s) && FileAgrees(s)
    ensures CanServeUnlisted(s) <==> !Final(s)
  {
    FinalIff(s);
    if Quiet(s) {
      forall t: Trace<Event> | NoLogin(t) && After(s, t).Some? ensures !ServesUnlisted(After(s, t).value) {
        FileFollowsRegistry(s, t);
      }
    } else {
      var t, r := ReachesPending(s);
      RestartLosesListing(s, t, r);
    }
  }

  // ----- what a logout saves

  predicate Happens(t: Trace<Event>, e: Event) {
    t.Then? && (t.last == e || Happens(t.before, e))
  }

  predicate SomeFatal(t: Trace<Event>) {
    t.Then? && (t.last.Fatal? || SomeFatal(t.before))
  }

  lemma NoNewWatch(s: State, e: Event)
    requires Wf(s) && Enabled(s, e) && !e.RunStart? && !e.LoginDone?
    ensures WatchedSet(Next(s, e)) <= WatchedSet(s)
  {
    var s' := Next(s, e);
    forall q: nat | q < |s.procs| ensures s'.procs[q].watch.Unwatched? || !s.procs[q].watch.Unwatched? {
    }
  }

  lemma StepMayRemove(s: State, p: nat, e: Event)
    requires Wf(s) && s.pending == 0 && WatchedSet(s) <= {p} && Enabled(s, e) && !e.LoginDone?
    ensures e.Down? ==> e.p == p
    ensures Next(s, e).registered == if e.Down? || e.Fatal? then None else s.registered
  {
    if e.Down? {
      assert e.p in WatchedSet(s);
    }
  }

  lemma {:induction false} RegisteredUntilExit(s: State, p: nat, t: Trace<Event>)
    requires Wf(s) && Quiet(s) && WatchedSet(s) <= {p} && s.registered.Some? && NoLogin(t) && After(s, t).Some?
    ensures WatchedSet(After(s, t).value) <= {p}
    ensures After(s, t).value.registered.Some? <==> !Happens(t, Down(p)) && !SomeFatal(t)
  {
    if t.Start? {
    } else {
      RegisteredUntilExit(s, p, t.before);
      QuietRun(s, t.before);
      StepMayRemove(After(s, t.before).value, p, t.last);
      NoNewWatch(After(s, t.before).value, t.last);
    }
  }

  /** Between the kill and the save of a logout anything may happen but a login.
      The save lists the account exactly when neither the exit of the killed
      process nor a fatal line has been handled in between. */
  lemma LogoutSaveListsIff(s: State, p: nat, t: Trace<Event>)
    requires Wf(s) && OneLineage(s) && s.pending == 0 && IsRegisteredCmd(s, p)
    requires NoLogin(t) && After(Next(s, Logout(true)), t).Some?
    requires Enabled(After(Next(s, Logout(true)), t).value, LogoutSave)
    ensures Next(After(Next(s, Logout(true)), t).value, LogoutSave).saved <==> !Happens(t, Down(p)) && !SomeFatal(t)
  {
    var s1 := Next(s, Logout(true));
    QuietAfterLogout(s);
    SameWatch(s, s1);
    forall q | q in WatchedSet(s) ensures q == p {
      assert Attached(s, q);
    }
    RegisteredUntilExit(s1, p, t);
  }

  // ----- whether a logout takes the account off the list

  predicate Settled(s: State, p: nat) {
    p < |s.procs| && !s.procs[p].alive && !s.procs[p].watch.Serving?
  }

  lemma SettledBySpawn(s: State, p: nat, e: Event)
    requires Wf(s) && Enabled(s, e) && Settled(s, p) && (e.RunStart? || e.LoginDone?)
    ensures Settled(Next(s, e), p)
  {
    SpawnShape(s, e);
  }

  lemma SettledByKill(s: State, p: nat)
    requires Wf(s) && Settled(s, p)
    ensures Settled(Killed(s), p)
  {
  }

  lemma SettledByMark(s: State, p: nat, e: Event)
    requires Wf(s) && Enabled(s, e) && Settled(s, p) && (e.Fatal? || e.Logout?)
    ensures Settled(Next(s, e), p)
  {
    var o := if e.Fatal? then s.procs[e.p].obj else s.registered.value;
    SettledByKill(WithNoRestart(s, o, true), p);
  }

  lemma SettledStep(s: State, p: nat, e: Event)
    requires Wf(s) && Enabled(s, e) && Settled(s, p)
    ensures Settled(Next(s, e), p) && e != Down(p)
  {
    if e.RunStart? || e.LoginDone? {
      SettledBySpawn(s, p, e);
    } else if e.Fatal? || e.Logout? {
      SettledByMark(s, p, e);
    }
  }

  /** A dead process that was not serving is never handed to the exit handler. */
  lemma {:induction false} NeverDown(s: State, p: nat, t: Trace<Event>)
    requires Wf(s) && Settled(s, p) && After(s, t).Some?
    ensures Settled(After(s, t).value, p) && !Happens(t, Down(p))
  {
    if t.Start? {
    } else {
      NeverDown(s, p, t.before);
      SettledStep(After(s, t.before).value, p, t.last);
    }
  }

  /** A run on which the account neither logs in nor is deactivated. */
  predicate Undisturbed(t: Trace<Event>) {
    NoLogin(t) && !SomeFatal(t)
  }

  ghost predicate Unregisters(s: State)
    requires Wf(s)
  {
    exists t: Trace<Event> :: Undisturbed(t) && After(s, t).Some? && After(s, t).value.registered.None?
  }

  ghost predicate Unlists(s: State)
    requires Wf(s)
  {
    exists t: Trace<Event> :: Undisturbed(t) && After(s, t).Some? && !After(s, t).value.saved
  }

  lemma ExitRemoves(s: State, p: nat)
    requires Wf(s) && Quiet(s) && p < |s.procs| && s.procs[p].watch.Serving? && !s.procs[p].alive
    ensures Unregisters(s) && (FileAgrees(s) ==> Unlists(s))
  {
    var t0: Trace<Event> := Start;
    var t := Then(t0, Down(p));
    assert Undisturbed(t0) && Undisturbed(t);
    assert After(s, t0) == Some(s) && After(s, t) == Some(Next(s, Down(p)));
    if FileAgrees(s) {
      FileFollowsRegistry(s, t);
    }
  }

  /** A successful logout on an orderly run is followed by the account's removal,
      from the registry and from a file that was right, exactly when its process
      had become ready. The exit of a process killed while it was still starting,
      or left over from a start that timed out, removes nothing. */
  lemma LogoutRemovesIff(s: State, p: nat)
    requires Wf(s) && OneLineage(s) && s.pending == 0 && IsRegisteredCmd(s, p)
    ensures Unregisters(Next(s, Logout(true))) <==> s.procs[p].watch.Serving?
    ensures FileAgrees(s) ==> (Unlists(Next(s, Logout(true))) <==> s.procs[p].watch.Serving?)
  {
    var s1 := Next(s, Logout(true));
    QuietAfterLogout(s);
    if s.procs[p].watch.Serving? {
      ExitRemoves(s1, p);
    } else {
      forall t: Trace<Event> | Undisturbed(t) && After(s1, t).Some?
        ensures After(s1, t).value.registered.Some?
        ensures FileAgrees(s) ==> After(s1, t).value.saved
      {
        StaysRegistered(s, p, t);
        if FileAgrees(s) {
          FileFollowsRegistry(s1, t);
        }
      }
    }
  }

  lemma StaysRegistered(s: State, p: nat, t: Trace<Event>)
    requires Wf(s) && OneLineage(s) && s.pending == 0 && IsRegisteredCmd(s, p) && !s.procs[p].watch.Serving?
    requires Undisturbed(t) && After(Next(s, Logout(true)), t).Some?
    ensures After(Next(s, Logout(true)), t).value.registered.Some?
  {
    var s1 := Next(s, Logout(true));
    QuietAfterLogout(s);
    SameWatch(s, s1);
    forall q | q in WatchedSet(s) ensures q == p {
      assert Attached(s, q);
    }
    NeverDown(s1, p, t);
    RegisteredUntilExit(s1, p, t);
  }

  const LEFT_OVER := State(Some(0), [Obj(true, Some(0))], [Proc(0, Unwatched, false)], 0, true, false, 0)

  lemma ExtendedOrderly(s: State, t: Trace<Event>, s1: State, e: Event, s2: State) returns (t': Trace<Event>)
    requires Wf(s) && Wf(s1) && OrderlyRun(s, t) && After(s, t) == Some(s1)
    requires Enabled(s1, e) && Orderly(s1, e) && Next(s1, e) == s2
    ensures OrderlyRun(s, t') && After(s, t') == Some(s2)
  {
    t' := Then(t, e);
  }

  const KILLED_EARLY := State(Some(0), [Obj(true, Some(0))], [Proc(0, Starting(false), false)], 0, true, true, 1)

  lemma KilledWhileStarting() returns (t: Trace<Event>)
    ensures OrderlyRun(RESTORED, t) && After(RESTORED, t) == Some(KILLED_EARLY)
  {
    var s1 := State(Some(0), [Obj(false, Some(0))], [Proc(0, Starting(false), true)], 0, true, true, 0);
    t := ExtendedOrderly(RESTORED, Start, RESTORED, RunStart(true), s1);
    t := ExtendedOrderly(RESTORED, t, s1, Logout(true), KILLED_EARLY);
  }

  /** An orderly run that ends so: a logout while the instance is starting leaves
      the account registered and listed with its data wiped and nothing running,
      and nothing but a login or a fatal line ever changes that. */
  lemma LogoutWhileStarting() returns (t: Trace<Event>)
    ensures OrderlyRun(RESTORED, t) && After(RESTORED, t) == Some(LEFT_OVER)
    ensures !Unregisters(LEFT_OVER) && !Unlists(LEFT_OVER) && Final(LEFT_OVER)
  {
    var s3 := State(Some(0), [Obj(true, Some(0))], [Proc(0, Starting(false), false)], 0, true, false, 0);
    t := KilledWhileStarting();
    t := ExtendedOrderly(RESTORED, t, KILLED_EARLY, LogoutSave, s3);
    LeftOverReached(s3);
    t := ExtendedOrderly(RESTORED, t, s3, StartFail(0), LEFT_OVER);
    LeftOverStays();
  }

  lemma LeftOverReached(s: State)
    requires s == State(Some(0), [Obj(true, Some(0))], [Proc(0, Starting(false), false)], 0, true, false, 0)
    ensures Wf(s) && Enabled(s, StartFail(0)) && Next(s, StartFail(0)) == LEFT_OVER
  {
  }

  lemma LeftOverStays()
    ensures !Unregisters(LEFT_OVER) && !Unlists(LEFT_OVER) && Final(LEFT_OVER)
  {
    FinalIff(LEFT_OVER);
    assert WatchedSet(LEFT_OVER) == {};
    forall t: Trace<Event> | Undisturbed(t) && After(LEFT_OVER, t).Some?
      ensures After(LEFT_OVER, t).value.registered.Some? && After(LEFT_OVER, t).value.saved
    {
      NeverDown(LEFT_OVER, 0, t);
      RegisteredUntilExit(LEFT_OVER, 0, t);
      FileFollowsRegistry(LEFT_OVER, t);
    }
  }

  // ----- the steps as the manager takes them

  /** One account's share of the manager's globals. Every method is one step. */
  class Supervisor {
    var registered: Option<nat>
    var objs: seq<Obj>
    var procs: seq<Proc>
    var pending: nat
    var saved: bool
    var tokens: bool
    var logouts: nat

    ghost function View(): State
      reads this
    {
      State(registered, objs, procs, pending, saved, tokens, logouts)
    }

    constructor (restored: bool)
      ensures View() == if restored then RESTORED else UNKNOWN
    {
      registered := if restored then Some(0) else None;
      objs := if restored then [Obj(false, None)] else [];
      procs := [];
      pending := if restored then 1 else 0;
      saved, tokens, logouts := restored, restored, 0;
    }

    method GetInstanceOrNew() returns (o: nat)
      requires Wf(View())
      modifies this
      ensures View() == Registered(old(View())) && registered == Some(o) && o < |objs|
    {
      if registered.None? {
        registered := Some(|objs|);
        objs := objs + [Obj(false, None)];
      }
      o := registered.value;
    }

    method KillWrapper()
      requires Wf(View())
      modifies this`procs
      ensures View() == Killed(old(View()))
    {
      if registered.Some? && objs[registered.value].cmd.Some? {
        var p := objs[registered.value].cmd.value;
        procs := procs[p := procs[p].(alive := false)];
      }
    }

    method SetNoRestart(o: nat, v: bool)
      requires Wf(View()) && o < |objs|
      modifies this`objs
      ensures View() == WithNoRestart(old(View()), o, v)
    {
      objs := objs[o := objs[o].(noRestart := v)];
    }

    method RemoveInstance()
      modifies this`registered
      ensures View() == old(View()).(registered := None)
    {
      registered := None;
    }

    method SaveInstances()
      modifies this`saved
      ensures View() == old(View()).(saved := registered.Some?)
    {
      saved := registered.Some?;
    }

    method Spawn(o: nat, login: bool)
      requires Wf(View()) && o < |objs|
      modifies this`procs, this`objs
      ensures View() == Spawned(old(View()), o, login)
    {
      objs := objs[o := objs[o].(cmd := Some(|procs|))];
      procs := procs + [Proc(o, Starting(login), true)];
    }

    method Rewatch(p: nat, w: Watch)
      requires Wf(View()) && p < |procs|
      modifies this`procs
      ensures View() == Rewatched(old(View()), p, w)
    {
      procs := procs[p := procs[p].(watch := w)];
    }

    /** A scheduled `WrapperStart` runs: it registers an instance when there is
        none, makes it restartable again and spawns a process for it, or schedules
        itself once more. From then on a restart is always possible. */
    method WrapperStart(spawned: bool)
      requires Wf(View()) && Enabled(View(), RunStart(spawned))
      modifies this
      ensures View() == Next(old(View()), RunStart(spawned))
      ensures registered.Some? && (old(registered).Some? ==> registered == old(registered))
      ensures !Final(View()) && saved == old(saved) && tokens == old(tokens)
    {
      StartNotFinal(View(), spawned);
      pending := pending - 1;
      var o := GetInstanceOrNew();
      SetNoRestart(o, false);
      if !spawned {
        pending := pending + 1;
        return;
      }
      Spawn(o, false);
    }

    /** The wait for readiness ended with an error. The account stays registered
        and listed, the process is not killed, and it is the end of the account's
        restarts exactly for a login or a marked object that was the last hope. */
    method StartFailed(p: nat)
      requires Wf(View()) && Enabled(View(), StartFail(p))
      modifies this
      ensures View() == Next(old(View()), StartFail(p))
      ensures registered == old(registered) && saved == old(saved)
      ensures tokens == (old(tokens) && !old(procs)[p].watch.login)
      ensures forall q :: 0 <= q < |procs| ==> procs[q].alive == old(procs)[q].alive
      ensures Final(View()) <==>
                NoOther(old(View()), p) && (old(procs)[p].watch.login || old(objs)[old(procs)[p].obj].noRestart)
    {
      StartFailFinalIff(View(), p);
      var login := procs[p].watch.login;
      Rewatch(p, Unwatched);
      if login {
        tokens := false;
        return;
      }
      if !objs[procs[p].obj].noRestart {
        pending := pending + 1;
      }
    }

    /** The process is ready. A login puts the account's listing right; a restart
        leaves it as it was. */
    method BecameReady(p: nat)
      requires Wf(View()) && Enabled(View(), Ready(p))
      modifies this
      ensures View() == Next(old(View()), Ready(p))
      ensures if old(procs)[p].watch.login then FileAgrees(View()) else saved == old(saved)
      ensures tokens == old(tokens) && registered == old(registered)
      ensures Final(View()) <==> Final(old(View()))
    {
      ReadyFinalIff(View(), p);
      var login := procs[p].watch.login;
      Rewatch(p, Serving);
      if login {
        SaveInstances();
      }
    }

    /** The exit of a ready process. A marked object is gone for good, from the
        file as well, unless something else restarts the account; any other one
        is always restarted. */
    method WrapperDown(p: nat)
      requires Wf(View()) && Enabled(View(), Down(p))
      modifies this
      ensures View() == Next(old(View()), Down(p))
      ensures registered.None? && tokens == old(tokens)
      ensures if old(objs)[old(procs)[p].obj].noRestart then !saved && pending == old(pending)
              else saved == old(saved) && pending == old(pending) + 1
      ensures Final(View()) <==> NoOther(old(View()), p) && old(objs)[old(procs)[p].obj].noRestart
    {
      DownFinalIff(View(), p);
      Rewatch(p, Unwatched);
      RemoveInstance();
      if !objs[procs[p].obj].noRestart {
        pending := pending + 1;
      } else {
        SaveInstances();
      }
    }

    /** The line's own object is marked, while the process killed is that of the
        registered one; the account is unregistered, unlisted and without data. */
    method HandleSubscriptionDead(p: nat)
      requires Wf(View()) && Enabled(View(), Fatal(p, true))
      modifies this
      ensures View() == Next(old(View()), Fatal(p, true))
      ensures registered.None? && !saved && !tokens && objs[procs[p].obj].noRestart
      ensures OnlyRegisteredKilled(old(View()), View())
      ensures Final(View()) <==> OnlyOwn(old(View()), procs[p].obj)
    {
      HandlerFinalIff(View(), p, true);
      SetNoRestart(procs[p].obj, true);
      KillWrapper();
      RemoveInstance();
      tokens := false;
      SaveInstances();
    }

    /** The same, but the data stays for a later login. */
    method HandleSessionInvalid(p: nat)
      requires Wf(View()) && Enabled(View(), Fatal(p, false))
      modifies this
      ensures View() == Next(old(View()), Fatal(p, false))
      ensures registered.None? && !saved && tokens == old(tokens) && objs[procs[p].obj].noRestart
      ensures OnlyRegisteredKilled(old(View()), View())
      ensures Final(View()) <==> OnlyOwn(old(View()), procs[p].obj)
    {
      HandlerFinalIff(View(), p, false);
      SetNoRestart(procs[p].obj, true);
      KillWrapper();
      RemoveInstance();
      SaveInstances();
    }

    /** A logout up to the kill. It fails for an unknown account and for one
        without a process that can be killed, which is marked all the same. The
        account stays registered, listed and with its data for now. */
    method StartLogout(killed: bool) returns (ok: bool)
      requires Wf(View())
      modifies this
      ensures old(registered).None? ==> !ok && View() == old(View())
      ensures old(registered).Some? ==>
                ok == LogoutSucceeds(old(View()), killed) && View() == Next(old(View()), Logout(killed))
      ensures registered == old(registered) && saved == old(saved) && tokens == old(tokens)
      ensures registered.Some? ==> objs[registered.value].noRestart
      ensures if ok then OnlyRegisteredKilled(old(View()), View()) else procs == old(procs)
      ensures ok ==> (Final(View()) <==> OnlyOwn(old(View()), registered.value))
    {
      if registered.None? {
        return false;
      }
      if LogoutSucceeds(View(), killed) {
        LogoutFinalIff(View());
      }
      SetNoRestart(registered.value, true);
      if objs[registered.value].cmd.None? || !killed {
        return false;
      }
      KillWrapper();
      logouts := logouts + 1;
      return true;
    }

    /** Its end: the data is gone, and the listing is right whatever happened to
        the account since the kill. */
    method FinishLogout()
      requires Wf(View()) && Enabled(View(), LogoutSave)
      modifies this
      ensures View() == Next(old(View()), LogoutSave)
      ensures !tokens && FileAgrees(View()) && registered == old(registered)
    {
      tokens := false;
      SaveInstances();
      logouts := logouts - 1;
    }

    /** Tokens were cached: the account is registered and restartable again, and
        when its process was spawned it stays so. */
    method FinishLoginSuccess(spawned: bool)
      requires Wf(View())
      modifies this
      ensures View() == Next(old(View()), LoginDone(spawned))
      ensures registered.Some? && !objs[registered.value].noRestart && tokens == spawned
      ensures spawned ==> !Final(View())
    {
      LoginNotFinal(View());
      var o := GetInstanceOrNew();
      SetNoRestart(o, false);
      if !spawned {
        tokens := false;
        return;
      }
      tokens := true;
      Spawn(o, true);
    }
  }

  /** The process of the registered object is dead and the others are as before. */
  predicate OnlyRegisteredKilled(before: State, after: State)
    requires Wf(before)
  {
    && |after.procs| == |before.procs|
    && forall q :: 0 <= q < |before.procs| ==>
         after.procs[q] == if IsRegisteredCmd(before, q) then before.procs[q].(alive := false) else before.procs[q]
  }
}
