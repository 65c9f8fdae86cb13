/**
 The two-slot semaphore of an instance, shared by any number of requests. It is
 a channel created on first use by an unsynchronised check-then-set, and a
 release takes its token from whatever channel the instance holds at that time.
 */
module Slots {
  import opened Outcomes
  import R = Retry

  const INSTANCE_CONCURRENCY := 2

  /** Where one forwarded request stands in `fetchFromLite`. */
  datatype Phase =
    | Arriving
    | Creating              // saw no channel, about to store a new one
    | Ready
    | Waiting(ch: nat)      // blocked sending a token to this channel
    | Fetching              // holds a token; the upstream call is running
    | Draining(ch: nat)     // releasing: about to take a token from this channel
    | Finished

  datatype Step =
    | Check(r: nat) | Create(r: nat) | Enter(r: nat) | Send(r: nat)
    | GiveUp(r: nat)        // the slot timer fired
    | Return(r: nat)        // the call ended, in success or in any error
    | Drain(r: nat)

  /** `sem` is the channel the instance holds; `chans` has the tokens in every
      channel ever created. */
  datatype State = State(sem: Option<nat>, chans: seq<nat>, reqs: seq<Phase>)

  predicate Enabled(s: State, e: Step) {
    && e.r < |s.reqs|
    && match e {
         case Check(r) => s.reqs[r].Arriving?
         case Create(r) => s.reqs[r].Creating?
         case Enter(r) => s.reqs[r].Ready? && s.sem.Some?
         case Send(r) => s.reqs[r].Waiting? && s.reqs[r].ch < |s.chans| && s.chans[s.reqs[r].ch] < INSTANCE_CONCURRENCY
         case GiveUp(r) => s.reqs[r].Waiting?
         case Return(r) => s.reqs[r].Fetching?
         case Drain(r) => s.reqs[r].Draining? && s.reqs[r].ch < |s.chans| && s.chans[s.reqs[r].ch] > 0
       }
  }

  function Next(s: State, e: Step): State
    requires Enabled(s, e)
  {
    var p := s.reqs[e.r];
    match e
    case Check(r) => s.(reqs := s.reqs[r := if s.sem.None? then Creating else Ready])
    case Create(r) => State(Some(|s.chans|), s.chans + [0], s.reqs[r := Ready])
    case Enter(r) => s.(reqs := s.reqs[r := Waiting(s.sem.value)])
    case Send(r) => s.(chans := s.chans[p.ch := s.chans[p.ch] + 1], reqs := s.reqs[r := Fetching])
    case GiveUp(r) => s.(reqs := s.reqs[r := Finished])
    case Return(r) => s.(reqs := s.reqs[r := if s.sem.None? then Finished else Draining(s.sem.value)])
    case Drain(r) => s.(chans := s.chans[p.ch := s.chans[p.ch] - 1], reqs := s.reqs[r := Finished])
  }

  function Initial(n: nat, initialised: bool): State {
    if initialised then State(Some(0), [0], seq(n, _ => Arriving))
    else State(None, [], seq(n, _ => Arriving))
  }

  /** The state after a schedule, or None when the schedule is not possible. */
  function After(init: State, t: Trace<Step>): Option<State> {
    match t
    case Start => Some(init)
    case Then(before, e) =>
      var s := After(init, before);
      if s.Some? && Enabled(s.value, e) then Some(Next(s.value, e)) else None
  }

  predicate HoldsToken(p: Phase) {
    p.Fetching? || p.Draining?
  }

  function Holders(reqs: seq<Phase>): set<nat> {
    set r: nat | r < |reqs| && HoldsToken(reqs[r])
  }

  function InFlight(s: State): set<nat> {
    set r: nat | r < |s.reqs| && s.reqs[r].Fetching?
  }

  /** The tokens in the instance's channel are exactly the ones held, there are
      at most two, and no release can block. */
  predicate Accounted(s: State) {
    && |Holders(s.reqs)| <= 2
    && |Holders(s.reqs)| == (if s.sem.Some? && s.sem.value < |s.chans| then s.chans[s.sem.value] else 0)
    && forall r :: 0 <= r < |s.reqs| && s.reqs[r].Draining? ==> Enabled(s, Drain(r))
  }

  ghost predicate AlwaysAccounted(n: nat, initialised: bool) {
    forall t: Trace<Step> ::
      After(Initial(n, initialised), t).Some? ==> Accounted(After(Initial(n, initialised), t).value)
  }

  predicate OneChannel(s: State) {
    && s.sem == Some(0) && |s.chans| == 1
    && s.chans[0] == |Holders(s.reqs)| <= INSTANCE_CONCURRENCY
    && forall r :: 0 <= r < |s.reqs| ==>
         && !s.reqs[r].Creating?
         && (s.reqs[r].Waiting? ==> s.reqs[r].ch == 0)
         && (s.reqs[r].Draining? ==> s.reqs[r].ch == 0)
  }

  predicate NoChannelYet(s: State) {
    s.sem.None? && s.chans == [] && |s.reqs| <= 1 && forall r :: 0 <= r < |s.reqs| ==> s.reqs[r].Arriving? || s.reqs[r].Creating?
  }

  lemma HoldersUpdated(reqs: seq<Phase>, r: nat, p: Phase)
    requires r < |reqs|
    ensures Holders(reqs[r := p]) == if HoldsToken(p) then Holders(reqs) + {r} else Holders(reqs) - {r}
  {
  }

  lemma FirstChannel(s: State, e: Step)
    requires NoChannelYet(s) && Enabled(s, e)
    ensures OneChannel(Next(s, e)) || NoChannelYet(Next(s, e))
  {
    if e.Create? {
      assert Holders(Next(s, e).reqs) == {};
    }
  }

  lemma ChannelKept(s: State, e: Step)
    requires OneChannel(s) && Enabled(s, e)
    ensures OneChannel(Next(s, e))
  {
    var p := Next(s, e).reqs[e.r];
    assert Next(s, e).reqs == s.reqs[e.r := p];
    HoldersUpdated(s.reqs, e.r, p);
    assert HoldsToken(s.reqs[e.r]) <==> e.r in Holders(s.reqs);
  }

  lemma {:induction false} RunKeepsAccount(init: State, t: Trace<Step>)
    requires OneChannel(init) || NoChannelYet(init)
    requires After(init, t).Some?
    ensures OneChannel(After(init, t).value) || NoChannelYet(After(init, t).value)
  {
    if t.Start? {
    } else {
      RunKeepsAccount(init, t.before);
      var s := After(init, t.before).value;
      if OneChannel(s) {
        ChannelKept(s, t.last);
      } else {
        FirstChannel(s, t.last);
      }
    }
  }

  lemma AccountedFollows(s: State)
    requires OneChannel(s) || NoChannelYet(s)
    ensures Accounted(s)
  {
    if NoChannelYet(s) {
      assert Holders(s.reqs) == {};
    } else {
      forall r | 0 <= r < |s.reqs| && s.reqs[r].Draining? ensures Enabled(s, Drain(r)) {
        assert r in Holders(s.reqs);
      }
    }
  }

  /** The schedule in which two first requests both find no channel: the second
      replaces the channel that already holds the first one's token. */
  function Race(): Trace<Step> {
    Then(Then(Then(Then(Then(Then(Start, Check(0)), Check(1)), Create(0)), Enter(0)), Send(0)), Create(1))
  }

  /** Requests 0, 1 and 2 in the given phases, the others still to come. */
  function Phases(n: nat, a: Phase, b: Phase, c: Phase): (reqs: seq<Phase>)
    ensures |reqs| == n
    ensures forall i :: 0 <= i < n ==> reqs[i] == (if i == 0 then a else if i == 1 then b else if i == 2 then c else Arriving)
  {
    seq(n, i => if i == 0 then a else if i == 1 then b else if i == 2 then c else Arriving)
  }

  lemma Extended(init: State, t: Trace<Step>, s: State, e: Step, s': State)
    requires After(init, t) == Some(s) && Enabled(s, e)
    requires Next(s, e).sem == s'.sem && Next(s, e).chans == s'.chans
    requires |s'.reqs| == |s.reqs| && forall i :: 0 <= i < |s.reqs| ==> Next(s, e).reqs[i] == s'.reqs[i]
    ensures After(init, Then(t, e)) == Some(s')
  {
    assert Next(s, e).reqs == s'.reqs;
  }

  lemma RaceLosesToken(n: nat)
    requires n >= 2
    ensures After(Initial(n, false), Race()) == Some(State(Some(1), [1, 0], Phases(n, Fetching, Ready, Arriving)))
    ensures !Accounted(After(Initial(n, false), Race()).value)
  {
    var init := Initial(n, false);
    var s0 := State(None, [], Phases(n, Arriving, Arriving, Arriving));
    var s1 := State(None, [], Phases(n, Creating, Arriving, Arriving));
    var s2 := State(None, [], Phases(n, Creating, Creating, Arriving));
    var s3 := State(Some(0), [0], Phases(n, Ready, Creating, Arriving));
    var s4 := State(Some(0), [0], Phases(n, Waiting(0), Creating, Arriving));
    var s5 := State(Some(0), [1], Phases(n, Fetching, Creating, Arriving));
    var s6 := State(Some(1), [1, 0], Phases(n, Fetching, Ready, Arriving));
    var t0: Trace<Step> := Start;
    assert init == s0;
    Extended(init, t0, s0, Check(0), s1);
    var t1 := Then(t0, Check(0));
    Extended(init, t1, s1, Check(1), s2);
    var t2 := Then(t1, Check(1));
    Extended(init, t2, s2, Create(0), s3);
    var t3 := Then(t2, Create(0));
    Extended(init, t3, s3, Enter(0), s4);
    var t4 := Then(t3, Enter(0));
    Extended(init, t4, s4, Send(0), s5);
    Extended(init, Then(t4, Send(0)), s5, Create(1), s6);
    assert 0 in Holders(s6.reqs);
  }

  /** Slot accounting is right under every interleaving of `n` requests exactly
      when the channel was created beforehand or nobody can race to create it. */
  lemma AccountedIff(n: nat, initialised: bool)
    ensures AlwaysAccounted(n, initialised) <==> initialised || n <= 1
  {
    if initialised || n <= 1 {
      var init := Initial(n, initialised);
      assert Holders(init.reqs) == {};
      forall t: Trace<Step> | After(init, t).Some? ensures Accounted(After(init, t).value) {
        RunKeepsAccount(init, t);
        AccountedFollows(After(init, t).value);
      }
    } else {
      RaceLosesToken(n);
    }
  }

  /** With a channel made beforehand, every schedule that lets all requests end
      leaves it empty, whatever each upstream call did. */
  lemma QuiescentIsEmpty(n: nat, t: Trace<Step>)
    requires var s := After(Initial(n, true), t);
             s.Some? && forall r :: 0 <= r < n ==> r < |s.value.reqs| && s.value.reqs[r].Finished?
    ensures After(Initial(n, true), t).value.chans == [0]
  {
    var init := Initial(n, true);
    assert Holders(init.reqs) == {};
    RunKeepsAccount(init, t);
    RequestsStay(init, t);
    assert Holders(After(init, t).value.reqs) == {};
  }

  lemma {:induction false} RequestsStay(init: State, t: Trace<Step>)
    requires After(init, t).Some?
    ensures |After(init, t).value.reqs| == |init.reqs|
  {
    if t.Start? {
    } else {
      RequestsStay(init, t.before);
    }
  }

  /** After the race three calls can be in flight at once, one over the cap. */
  lemma RaceBreaksCap(n: nat)
    requires n >= 3
    ensures exists t: Trace<Step> ::
              After(Initial(n, false), t).Some? && |InFlight(After(Initial(n, false), t).value)| == 3
  {
    var init := Initial(n, false);
    var s0 := State(Some(1), [1, 0], Phases(n, Fetching, Ready, Arriving));
    var s1 := State(Some(1), [1, 0], Phases(n, Fetching, Waiting(1), Arriving));
    var s2 := State(Some(1), [1, 1], Phases(n, Fetching, Fetching, Arriving));
    var s3 := State(Some(1), [1, 1], Phases(n, Fetching, Fetching, Ready));
    var s4 := State(Some(1), [1, 1], Phases(n, Fetching, Fetching, Waiting(1)));
    var s5 := State(Some(1), [1, 2], Phases(n, Fetching, Fetching, Fetching));
    RaceLosesToken(n);
    Extended(init, Race(), s0, Enter(1), s1);
    var t1 := Then(Race(), Enter(1));
    Extended(init, t1, s1, Send(1), s2);
    var t2 := Then(t1, Send(1));
    Extended(init, t2, s2, Check(2), s3);
    var t3 := Then(t2, Check(2));
    Extended(init, t3, s3, Enter(2), s4);
    var t4 := Then(t3, Enter(2));
    Extended(init, t4, s4, Send(2), s5);
    assert InFlight(s5) == {0, 1, 2};
    assert After(init, Then(t4, Send(2))) == Some(s5);
  }

  // ----- one call among the others

  /** Steps of the other requests while request `r` is between two of its own;
      those that are not possible do not happen. */
  function Meanwhile(s: State, others: Trace<Step>, r: nat): State {
    match others
    case Start => s
    case Then(before, e) =>
      var m := Meanwhile(s, before, r);
      if e.r != r && Enabled(m, e) then Next(m, e) else m
  }

  predicate OfOthers(t: Trace<Step>, r: nat) {
    t.Start? || (t.last.r != r && OfOthers(t.before, r))
  }

  /** Any run of the others can be what happens meanwhile. */
  lemma {:induction false} AnythingMeanwhile(s: State, t: Trace<Step>, r: nat)
    requires After(s, t).Some? && OfOthers(t, r)
    ensures Meanwhile(s, t, r) == After(s, t).value
  {
    if t.Start? {
    } else {
      AnythingMeanwhile(s, t.before, r);
    }
  }

  /** Channels are never taken away, and requests wait on or release into
      channels that exist. */
  predicate Formed(s: State) {
    && (s.sem.Some? ==> s.sem.value < |s.chans|)
    && (forall r :: 0 <= r < |s.reqs| ==> PhaseFormed(s, s.reqs[r]))
  }

  predicate PhaseFormed(s: State, p: Phase) {
    && (p.Waiting? ==> p.ch < |s.chans|)
    && (p.Draining? ==> p.ch < |s.chans|)
    && (p.Ready? || p.Waiting? || p.Fetching? ==> s.sem.Some?)
  }

  lemma StepFormed(s: State, e: Step)
    requires Formed(s) && Enabled(s, e)
    ensures Formed(Next(s, e))
    ensures |Next(s, e).reqs| == |s.reqs| && |s.chans| <= |Next(s, e).chans|
    ensures forall r :: 0 <= r < |s.reqs| && r != e.r ==> Next(s, e).reqs[r] == s.reqs[r]
  {
    var s' := Next(s, e);
    forall r | 0 <= r < |s.reqs| ensures PhaseFormed(s', s'.reqs[r]) {
      assert PhaseFormed(s, s.reqs[r]);
    }
  }

  /** What the others do is a run, and leaves the request where it is. */
  lemma {:induction false} MeanwhileIsRun(init: State, t0: Trace<Step>, s: State, others: Trace<Step>, r: nat)
    returns (t: Trace<Step>)
    requires After(init, t0) == Some(s) && Formed(s) && r < |s.reqs|
    ensures After(init, t) == Some(Meanwhile(s, others, r)) && GoesOn(t0, t)
    ensures var m := Meanwhile(s, others, r); Formed(m) && |m.reqs| == |s.reqs| && m.reqs[r] == s.reqs[r]
  {
    if others.Start? {
      t := t0;
    } else {
      t := MeanwhileIsRun(init, t0, s, others.before, r);
      var m := Meanwhile(s, others.before, r);
      if others.last.r != r && Enabled(m, others.last) {
        StepFormed(m, others.last);
        t := Then(t, others.last);
      }
    }
  }

  /** The run `t` goes on from the run `t0`. */
  predicate GoesOn(t0: Trace<Step>, t: Trace<Step>) {
    t == t0 || (t.Then? && GoesOn(t0, t.before))
  }

  lemma {:induction false} GoesOnFurther(t0: Trace<Step>, t1: Trace<Step>, t: Trace<Step>)
    requires GoesOn(t0, t1) && GoesOn(t1, t)
    ensures GoesOn(t0, t)
  {
    if t == t1 {
    } else {
      GoesOnFurther(t0, t1, t.before);
    }
  }

  /** What the upstream call did once the slot was held, and how long it took. */
  datatype Upstream =
    | BadRequest(why: string)
    | Unreachable(why: string)
    | CutShort(why: string)
    | Answered(reply: R.Reply)

  /** An instance with the requests that use it. The methods are what request `r`
      does; `others` is what the other requests do at that point. `history` is
      the whole run so far in the transition system above. */
  class InstanceSlots {
    var sem: Option<nat>
    var chans: seq<nat>
    var reqs: seq<Phase>
    ghost const initialised: bool
    ghost const n: nat
    ghost var history: Trace<Step>

    ghost function View(): State
      reads this
    {
      State(sem, chans, reqs)
    }

    ghost predicate Valid()
      reads this
    {
      && After(Initial(n, initialised), history) == Some(View())
      && Formed(View()) && |reqs| == n
    }

    constructor (n: nat, initialised: bool)
      ensures Valid() && this.n == n && this.initialised == initialised && history == Start
    {
      this.n, this.initialised := n, initialised;
      sem := if initialised then Some(0) else None;
      chans := if initialised then [0] else [];
      reqs := seq(n, _ => Arriving);
      history := Start;
    }

    method Others(others: Trace<Step>, r: nat)
      requires Valid() && r < n
      modifies this
      ensures Valid() && View() == Meanwhile(old(View()), others, r) && reqs[r] == old(reqs)[r]
      ensures GoesOn(old(history), history)
    {
      history := MeanwhileIsRun(Initial(n, initialised), history, View(), others, r);
      var m := Meanwhile(State(sem, chans, reqs), others, r);
      sem, chans, reqs := m.sem, m.chans, m.reqs;
    }

    ghost method Log(before: State, e: Step)
      requires After(Initial(n, initialised), history) == Some(before) && Formed(before) && |before.reqs| == n
      requires Enabled(before, e) && View() == Next(before, e)
      modifies this`history
      ensures Valid() && history == Then(old(history), e)
    {
      StepFormed(before, e);
      history := Then(history, e);
    }

    /** Check, then set: the others may set it in between. */
    method EnsureSem(r: nat, others: Trace<Step>)
      requires Valid() && r < n && reqs[r].Arriving?
      modifies this
      ensures Valid() && reqs[r].Ready? && sem.Some?
      ensures old(sem).Some? ==> sem == old(sem) && chans == old(chans)
    {
      ghost var before := View();
      if sem == None {
        reqs := reqs[r := Creating];
        Log(before, Check(r));
        Others(others, r);
        before := View();
        sem, chans, reqs := Some(|chans|), chans + [0], reqs[r := Ready];
        Log(before, Create(r));
      } else {
        reqs := reqs[r := Ready];
        Log(before, Check(r));
      }
    }

    /** Starts to wait for a slot of the channel the instance holds by now. */
    method Queue(r: nat, others: Trace<Step>) returns (ch: nat)
      requires Valid() && r < n && reqs[r].Ready?
      modifies this
      ensures Valid() && reqs[r] == Waiting(ch) && ch < |chans|
    {
      assert PhaseFormed(View(), reqs[r]);
      ghost var before := View();
      ch := sem.value;
      reqs := reqs[r := Waiting(ch)];
      Log(before, Enter(r));
      Others(others, r);
      assert PhaseFormed(View(), reqs[r]);
    }

    /** Waits for a slot. `until` is how long the others keep the request waiting
        before it looks for the last time; the timer cuts that short. */
    method AcquireInstanceSlot(r: nat, others: seq<Trace<Step>>, until: nat)
      returns (ok: bool, slotWait: nat, ghost look: State)
      requires Valid() && r < n && reqs[r].Arriving? && |others| == 3
      modifies this
      ensures Valid() && slotWait <= R.SLOT_TIMEOUT
      ensures if ok then reqs[r].Fetching? else reqs[r].Finished? && slotWait == R.SLOT_TIMEOUT
      ensures ok <==> until <= 15_000_000_000 && Enabled(look, Send(r))
      ensures slotWait == if ok then until else 15_000_000_000
      ensures history.Then? && history.last == (if ok then Send(r) else GiveUp(r))
      ensures After(Initial(n, initialised), history.before) == Some(look)
    {
      EnsureSem(r, others[0]);
      Others(others[1], r);
      var ch := Queue(r, others[2]);
      look := View();
      ok := until <= R.SLOT_TIMEOUT && chans[ch] < INSTANCE_CONCURRENCY;
      if ok {
        chans := chans[ch := chans[ch] + 1];
        reqs := reqs[r := Fetching];
        Log(look, Send(r));
        slotWait := until;
      } else {
        reqs := reqs[r := Finished];
        Log(look, GiveUp(r));
        slotWait := R.SLOT_TIMEOUT;
      }
    }

    /** The call has ended and turns to the channel the instance holds by now. */
    method Leave(r: nat, others: Trace<Step>) returns (ch: nat)
      requires Valid() && r < n && reqs[r].Fetching?
      modifies this
      ensures Valid() && reqs[r] == Draining(ch) && ch < |chans| && GoesOn(old(history), history)
    {
      assert PhaseFormed(View(), reqs[r]);
      ghost var before, start := View(), history;
      ch := sem.value;
      reqs := reqs[r := Draining(ch)];
      Log(before, Return(r));
      assert GoesOn(start, history);
      ghost var middle := history;
      Others(others, r);
      GoesOnFurther(start, middle, history);
      assert PhaseFormed(View(), reqs[r]);
    }

    /** Takes a token out of that channel. When it is empty the release never
        returns; `AccountedIff` says when that cannot be. */
    method ReleaseInstanceSlot(r: nat, others: Trace<Step>) returns (done: bool)
      requires Valid() && r < n && reqs[r].Fetching?
      modifies this
      ensures Valid() && if done then reqs[r].Finished? else reqs[r].Draining? && !Enabled(View(), Drain(r))
      ensures GoesOn(old(history), history)
      ensures initialised || n <= 1 ==> done
    {
      var ch := Leave(r, others);
      ghost var before := View();
      done := chans[ch] > 0;
      if initialised || n <= 1 {
        ValidAccounted();
        assert Enabled(before, Drain(r));
      }
      if done {
        chans := chans[ch := chans[ch] - 1];
        reqs := reqs[r := Finished];
        Log(before, Drain(r));
      }
    }

    lemma ValidAccounted()
      requires Valid() && (initialised || n <= 1)
      ensures Accounted(View())
    {
      AccountedIff(n, initialised);
      assert After(Initial(n, initialised), history).Some?;
    }

    /** Forwards one request while the others go on. Whatever they do, the call is
        a run of the transition system. It ends with its slot given back on every
        path, unless the channel was replaced in a race and the release hangs. It
        takes no longer than the two timeouts. A slot is granted exactly when one
        was free at its last look before the timer, and the outcome is a reply
        exactly when a slot was granted and the upstream answered in time. */
    method FetchFromLite(r: nat, others: seq<Trace<Step>>, until: nat, took: nat, upstream: Upstream)
      returns (turn: R.Turn, granted: bool, done: bool, ghost look: State, ghost soFar: Trace<Step>)
      requires Valid() && r < n && reqs[r].Arriving? && |others| == 5
      modifies this
      ensures Valid() && turn.Fetch? && R.Timed(turn)
      ensures done ==> reqs[r].Finished?
      ensures !done ==> reqs[r].Draining? && !Enabled(View(), Drain(r))
      ensures initialised || n <= 1 ==> done && Accounted(View())
      ensures turn.outcome.Ok? <==> granted && upstream.Answered? && took <= 12_000_000_000
      ensures turn.outcome.Ok? ==> turn.outcome.value == upstream.reply
      ensures granted ==> turn.slotWait == until && turn.upstream == if took <= 12_000_000_000 then took else 12_000_000_000
      ensures granted <==> until <= 15_000_000_000 && Enabled(look, Send(r))
      ensures After(Initial(n, initialised), soFar) == Some(look)
      ensures GoesOn(Then(soFar, if granted then Send(r) else GiveUp(r)), history)
      ensures !granted ==> done && turn.slotWait == 15_000_000_000 && turn.upstream == 0
    {
      var slotWait;
      granted, slotWait, look := AcquireInstanceSlot(r, others[..3], until);
      soFar := history.before;
      if !granted {
        turn, done := R.Fetch(slotWait, 0, Err("busy")), true;
      } else {
        ghost var start := history;
        Others(others[3], r);
        ghost var middle := history;
        var outcome: Result<R.Reply>;
        if took > R.UPSTREAM_TIMEOUT {
          outcome := Err("deadline exceeded");
        } else {
          match upstream {
            case BadRequest(why) => outcome := Err(why);
            case Unreachable(why) => outcome := Err(why);
            case CutShort(why) => outcome := Err(why);
            case Answered(reply) => outcome := Ok(reply);
          }
        }
        done := ReleaseInstanceSlot(r, others[4]);
        GoesOnFurther(start, middle, history);
        turn := R.Fetch(slotWait, if took > R.UPSTREAM_TIMEOUT then R.UPSTREAM_TIMEOUT else took, outcome);
      }
      if initialised || n <= 1 {
        ValidAccounted();
      }
    }
  }
}
