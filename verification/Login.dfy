/**
 The two-phase login of one account. Every attempt has a `LoginState` on which
 any number of requests may be waiting; a child process, the service start and
 the waiters act on it in any order. The table of logins is keyed by account, so
 attempts at the same account meet there.
 */
module Login {
  import opened Outcomes

  datatype Outcome = Success | Failure(msg: string)

  // ----- the shared state of one attempt

  /** The two flags and the one-place channel of a `LoginState`. */
  datatype Box = Box(pending2FA: bool, reported2FA: bool, done: Option<Outcome>)

  const NEW_BOX := Box(false, false, None)

  predicate Claimable(b: Box) {
    b.pending2FA && !b.reported2FA
  }

  function Claim(b: Box): Box {
    if Claimable(b) then b.(reported2FA := true) else b
  }

  /** A send that does not block: the value is dropped when the place is taken. */
  function Send(b: Box, o: Outcome): Box {
    if b.done.None? then b.(done := Some(o)) else b
  }

  class LoginState {
    var pending2FA: bool
    var reported2FA: bool
    var done: Option<Outcome>

    ghost function View(): Box
      reads this
    {
      Box(pending2FA, reported2FA, done)
    }

    constructor ()
      ensures View() == NEW_BOX
    {
      pending2FA, reported2FA, done := false, false, None;
    }

    method ClaimPending2FA() returns (claimed: bool)
      modifies this
      ensures claimed <==> Claimable(old(View()))
      ensures View() == Claim(old(View())) && !Claimable(View())
    {
      if pending2FA && !reported2FA {
        reported2FA := true;
        return true;
      }
      return false;
    }

    method Mark2FARequired()
      modifies this
      ensures View() == old(View()).(pending2FA := true)
    {
      pending2FA := true;
    }

    /** Takes the outcome out of the channel when there is one. */
    method Receive() returns (o: Option<Outcome>)
      modifies this`done
      ensures o == old(done) && done == None
    {
      o := done;
      done := None;
    }

    method TrySend(cause: Outcome)
      modifies this
      ensures View() == Send(old(View()), cause)
      ensures done == if old(done).None? then Some(cause) else old(done)
    {
      if done == None {
        done := Some(cause);
      }
    }
  }

  /** What `startLogin` decides to do with a request. */
  datatype Decision =
    | Rejected(msg: string)
    | AwaitPending(st: LoginState)
    | AwaitNew(st: LoginState)

  class LoginTable {
    var m: map<string, LoginState>

    constructor ()
      ensures m == map[]
    {
      m := map[];
    }

    /** A code goes to the pending attempt registered for the account, a request
        without one starts a new attempt in its place, and an account that is
        ready is left alone. */
    method StartLogin(id: string, ready: bool, code: string, writeError: Option<string>) returns (d: Decision)
      modifies this
      ensures ready ==> d == Rejected("already login") && m == old(m)
      ensures !ready && code != "" ==>
                && m == old(m)
                && (d.AwaitPending? <==> id in m && m[id].pending2FA && writeError.None?)
                && (d.AwaitPending? ==> d.st == m[id])
                && !d.AwaitNew?
      ensures !ready && code == "" ==>
                d.AwaitNew? && fresh(d.st) && d.st.View() == NEW_BOX && m == old(m)[id := d.st]
    {
      if ready {
        return Rejected("already login");
      }
      if code != "" {
        if id in m && m[id].pending2FA {
          if writeError.Some? {
            return Rejected(writeError.value);
          }
          return AwaitPending(m[id]);
        }
        return Rejected("no pending login for this account, restart login without code");
      }
      var st := new LoginState();
      m := m[id := st];
      return AwaitNew(st);
    }

    method Login2FARequired(id: string)
      modifies if id in m then {m[id]} else {}
      ensures id in m ==> m[id].View() == old(m[id].View()).(pending2FA := true)
    {
      if id in m {
        m[id].Mark2FARequired();
      }
    }

    /** Drops whatever attempt is registered for the account, then sends. */
    method ResolveLogin(id: string, st: LoginState, cause: Outcome)
      modifies this, st
      ensures m == old(m) - {id}
      ensures st.View() == Send(old(st.View()), cause)
    {
      m := m - {id};
      st.TrySend(cause);
    }
  }

  // ----- all interleavings for one account

  /** Where an attempt stands: a failure is first seen, then the
      account's data is wiped, and only then is the outcome sent. */
  datatype Child =
    | Preparing     // registered; data of earlier attempts is still to be wiped
    | Launching
    | Running
    | StartingService
    | Failing(msg: string)
    | Concluding(o: Outcome)
    | Resolved

  datatype Waiter =
    | Blocked
    | Got(o: Outcome)    // the final outcome, taken from the channel
    | Told2FA            // code 2
    | TimedOut

  /** One attempt; the last three fields record what its goroutine has done. */
  datatype Attempt = Attempt(
    box: Box, child: Child, waiters: seq<Waiter>,
    tokensAtExit: bool, serviceUp: bool, cleaned: bool)

  /** `current` is the attempt registered for the account, and `data` whether its
      data directory, which all attempts share, has the tokens. */
  datatype Account = Account(current: Option<nat>, attempts: seq<Attempt>, data: bool)

  const NO_LOGINS := Account(None, [], false)

  datatype Event =
    | Begin                          // a login request without a code registers its attempt
    | Wipe(n: nat)                   // it wipes the account's data and starts to wait
    | Submit                         // a login request with a code
    | Launched(n: nat)
    | LaunchFailed(n: nat)
    | Prompt                         // a 2FA line: marks the registered attempt
    | Cached(n: nat)                 // the child writes the tokens
    | ChildExit(n: nat, tokens: bool)
    | ServiceStarted(n: nat)
    | ServiceFailed(n: nat)
    | CleanUp(n: nat)                // wipes the data of a failed attempt
    | Resolve(n: nat)                // unregisters the account's login and sends
    | Take(n: nat, w: nat)           // a waiter receives from the channel
    | Tick(n: nat, w: nat)           // a waiter polls for 2FA
    | Expire(n: nat, w: nat)         // a waiter's timer fires

  predicate IsBlocked(s: Account, n: nat, w: nat) {
    n < |s.attempts| && w < |s.attempts[n].waiters| && s.attempts[n].waiters[w].Blocked?
  }

  predicate InChild(s: Account, n: nat, c: Child) {
    n < |s.attempts| && s.attempts[n].child == c
  }

  predicate Enabled(s: Account, e: Event) {
    match e
    case Begin => true
    case Submit => s.current.Some? && s.current.value < |s.attempts| && s.attempts[s.current.value].box.pending2FA
    case Wipe(n) => InChild(s, n, Preparing)
    case Launched(n) => InChild(s, n, Launching)
    case LaunchFailed(n) => InChild(s, n, Launching)
    case Prompt => s.current.Some? ==> s.current.value < |s.attempts|
    case Cached(n) => InChild(s, n, Running)
    case ChildExit(n, tokens) => InChild(s, n, Running) && tokens == s.data
    case ServiceStarted(n) => InChild(s, n, StartingService)
    case ServiceFailed(n) => InChild(s, n, StartingService)
    case CleanUp(n) => n < |s.attempts| && s.attempts[n].child.Failing?
    case Resolve(n) => n < |s.attempts| && s.attempts[n].child.Concluding?
    case Take(n, w) => IsBlocked(s, n, w) && s.attempts[n].box.done.Some?
    case Tick(n, w) => IsBlocked(s, n, w)
    case Expire(n, w) => IsBlocked(s, n, w)
  }

  function Answer(a: Attempt, w: nat, r: Waiter): Attempt
    requires w < |a.waiters|
  {
    a.(waiters := a.waiters[w := r])
  }

  /** What happens to the attempt the event is about. */
  function Changed(a: Attempt, e: Event): Attempt
    requires (e.Take? || e.Tick? || e.Expire?) ==> e.w < |a.waiters|
    requires e.Take? ==> a.box.done.Some?
    requires e.CleanUp? ==> a.child.Failing?
    requires e.Resolve? ==> a.child.Concluding?
  {
    match e
    case Begin => a
    case Submit => a.(waiters := a.waiters + [Blocked])
    case Wipe(_) => a.(child := Launching, waiters := a.waiters + [Blocked])
    case Launched(_) => a.(child := Running)
    case Cached(_) => a
    case LaunchFailed(_) => a.(child := Failing("failed to start login process"))
    case Prompt => a.(box := a.box.(pending2FA := true))
    case ChildExit(_, tokens) =>
      if tokens then a.(child := StartingService, tokensAtExit := true) else a.(child := Failing("login failed"))
    case ServiceStarted(_) => a.(child := Concluding(Success), serviceUp := true)
    case ServiceFailed(_) => a.(child := Failing("failed to start service"))
    case CleanUp(_) => a.(child := Concluding(Failure(a.child.msg)), cleaned := true)
    case Resolve(_) => a.(child := Resolved, box := Send(a.box, a.child.o))
    case Take(_, w) => Answer(a, w, Got(a.box.done.value)).(box := a.box.(done := None))
    case Tick(_, w) => (if Claimable(a.box) then Answer(a, w, Told2FA) else a).(box := Claim(a.box))
    case Expire(_, w) => Answer(a, w, TimedOut)
  }

  /** The tokens appear when some child writes them, and go with every wipe: at the
      start of an attempt and after its failure. */
  function DataAfter(data: bool, e: Event): bool {
    match e
    case Cached(_) => true
    case Wipe(_) => false
    case CleanUp(_) => false
    case _ => data
  }

  function Next(s: Account, e: Event): Account
    requires Enabled(s, e)
  {
    match e
    case Begin =>
      s.(current := Some(|s.attempts|), attempts := s.attempts + [Attempt(NEW_BOX, Preparing, [], false, false, false)])
    case Submit => s.(attempts := s.attempts[s.current.value := Changed(s.attempts[s.current.value], e)])
    case Prompt =>
      if s.current.None? then s
      else s.(attempts := s.attempts[s.current.value := Changed(s.attempts[s.current.value], e)])
    case _ =>
      Account(if e.Resolve? then None else s.current, s.attempts[e.n := Changed(s.attempts[e.n], e)], DataAfter(s.data, e))
  }

  /** The state after continuing from `s`, or None when that is not possible. */
  function After(s: Account, t: Trace<Event>): Option<Account> {
    match t
    case Start => Some(s)
    case Then(before, e) =>
      var r := After(s, before);
      if r.Some? && Enabled(r.value, e) then Some(Next(r.value, e)) else None
  }

  function Told(a: Attempt): set<nat> {
    set w: nat | w < |a.waiters| && a.waiters[w].Told2FA?
  }

  function Served(a: Attempt): set<nat> {
    set w: nat | w < |a.waiters| && a.waiters[w].Got?
  }

  /** The outcome, in the channel or taken from it, is what really happened. */
  predicate Earned(a: Attempt, o: Outcome) {
    if o.Success? then a.tokensAtExit && a.serviceUp else a.cleaned
  }

  predicate Lawful(a: Attempt) {
    && |Told(a)| == (if a.box.reported2FA then 1 else 0)
    && (a.box.reported2FA ==> a.box.pending2FA)
    && |Served(a)| + (if a.box.done.Some? then 1 else 0) == (if a.child.Resolved? then 1 else 0)
    && (a.child.StartingService? ==> a.tokensAtExit)
    && (a.child.Concluding? ==> Earned(a, a.child.o))
    && (a.serviceUp ==> a.child.Resolved? || a.child == Concluding(Success))
    && (a.box.done.Some? ==> Earned(a, a.box.done.value))
    && (forall w :: 0 <= w < |a.waiters| && a.waiters[w].Got? ==> Earned(a, a.waiters[w].o))
  }

  predicate AllLawful(s: Account) {
    && (s.current.Some? ==> s.current.value < |s.attempts|)
    && (forall n :: 0 <= n < |s.attempts| ==> Lawful(s.attempts[n]))
  }

  lemma AnswerSets(a: Attempt, w: nat, r: Waiter)
    requires w < |a.waiters| && a.waiters[w].Blocked?
    ensures Told(Answer(a, w, r)) == if r.Told2FA? then Told(a) + {w} else Told(a)
    ensures Served(Answer(a, w, r)) == if r.Got? then Served(a) + {w} else Served(a)
    ensures w !in Told(a) && w !in Served(a)
  {
  }

  lemma WaiterIsLawful(a: Attempt, e: Event)
    requires Lawful(a) && (e.Submit? || (e.Wipe? && a.child.Preparing?))
    ensures Lawful(Changed(a, e))
  {
    var b := Changed(a, e);
    assert Told(b) == Told(a) && Served(b) == Served(a);
  }

  lemma ChildIsLawful(a: Attempt, e: Event)
    requires Lawful(a) && !a.child.Resolved?
    requires e.Launched? || e.LaunchFailed? || e.Cached? || e.ChildExit? || e.ServiceStarted? || e.ServiceFailed? || e.CleanUp? || e.Resolve?
    requires e.Launched? || e.LaunchFailed? ==> a.child.Launching?
    requires e.Cached? || e.ChildExit? ==> a.child.Running?
    requires e.ServiceStarted? || e.ServiceFailed? ==> a.child.StartingService?
    requires e.CleanUp? ==> a.child.Failing?
    requires e.Resolve? ==> a.child.Concluding?
    ensures Lawful(Changed(a, e))
  {
    assert Served(a) == {};
    assert Told(Changed(a, e)) == Told(a) && Served(Changed(a, e)) == Served(a);
  }

  lemma TakeIsLawful(a: Attempt, n: nat, w: nat)
    requires Lawful(a) && w < |a.waiters| && a.waiters[w].Blocked? && a.box.done.Some?
    ensures Lawful(Changed(a, Take(n, w)))
  {
    AnswerSets(a, w, Got(a.box.done.value));
    var b := Changed(a, Take(n, w));
    assert Told(b) == Told(a) && Served(b) == Served(a) + {w};
  }

  lemma TickIsLawful(a: Attempt, n: nat, w: nat)
    requires Lawful(a) && w < |a.waiters| && a.waiters[w].Blocked?
    ensures Lawful(Changed(a, Tick(n, w)))
  {
    AnswerSets(a, w, Told2FA);
    var b := Changed(a, Tick(n, w));
    assert Told(b) == if Claimable(a.box) then Told(a) + {w} else Told(a);
    assert Served(b) == Served(a);
  }

  lemma ExpireIsLawful(a: Attempt, n: nat, w: nat)
    requires Lawful(a) && w < |a.waiters| && a.waiters[w].Blocked?
    ensures Lawful(Changed(a, Expire(n, w)))
  {
    AnswerSets(a, w, TimedOut);
  }

  lemma StepIsLawful(s: Account, e: Event)
    requires AllLawful(s) && Enabled(s, e)
    ensures AllLawful(Next(s, e))
  {
    if e.Begin? {
      var a := Next(s, e).attempts[|s.attempts|];
      assert Told(a) == {} && Served(a) == {};
    } else if e.Submit? {
      WaiterIsLawful(s.attempts[s.current.value], e);
    } else if e.Wipe? {
      WaiterIsLawful(s.attempts[e.n], e);
    } else if e.Prompt? {
      if s.current.Some? {
        var a := s.attempts[s.current.value];
        assert Told(Changed(a, e)) == Told(a) && Served(Changed(a, e)) == Served(a);
      }
    } else if e.Take? {
      TakeIsLawful(s.attempts[e.n], e.n, e.w);
    } else if e.Tick? {
      TickIsLawful(s.attempts[e.n], e.n, e.w);
    } else if e.Expire? {
      ExpireIsLawful(s.attempts[e.n], e.n, e.w);
    } else {
      ChildIsLawful(s.attempts[e.n], e);
    }
  }

  /** In every interleaving and for every attempt: at most one reply asks for a
      2FA code, and only after lite asked for one; the outcome is delivered at
      most once and never lost; success is reported only after tokens were found
      at the child's exit and the service came up; a failure only after the
      account's data was cleaned up. */
  lemma {:induction false} LoginLaws(s: Account, t: Trace<Event>)
    requires AllLawful(s) && After(s, t).Some?
    ensures AllLawful(After(s, t).value)
  {
    if t.Start? {
    } else {
      LoginLaws(s, t.before);
      StepIsLawful(After(s, t.before).value, t.last);
    }
  }

  /** From nothing, as plain statements about what waiters were told. */
  lemma RepliesAtMostOnce(t: Trace<Event>, n: nat)
    requires After(NO_LOGINS, t).Some? && n < |After(NO_LOGINS, t).value.attempts|
    ensures var a := After(NO_LOGINS, t).value.attempts[n];
            && |Told(a)| <= 1 && |Served(a)| <= 1
            && (forall w :: 0 <= w < |a.waiters| && a.waiters[w] == Got(Success) ==> a.tokensAtExit && a.serviceUp)
            && (forall w :: 0 <= w < |a.waiters| && a.waiters[w].Got? && a.waiters[w].o.Failure? ==> a.cleaned)
            && (a.child.Resolved? <==> a.box.done.Some? || Served(a) != {})
  {
    LoginLaws(NO_LOGINS, t);
    var a := After(NO_LOGINS, t).value.attempts[n];
    assert Lawful(a);
  }

  // ----- the state read off the events

  predicate Happens(t: Trace<Event>, e: Event) {
    t.Then? && (t.last == e || Happens(t.before, e))
  }

  /** The first event happened, and the second one after it. */
  predicate InOrder(t: Trace<Event>, first: Event, second: Event) {
    t.Then? && ((t.last == second && Happens(t.before, first)) || InOrder(t.before, first, second))
  }

  /** The outcome is about to be sent, in the channel, or delivered. */
  predicate Bears(a: Attempt, o: Outcome) {
    a.child == Concluding(o) || a.box.done == Some(o) || Delivered(a, o)
  }

  predicate Delivered(a: Attempt, o: Outcome) {
    exists w :: 0 <= w < |a.waiters| && a.waiters[w] == Got(o)
  }

  lemma BearsStep(a: Attempt, e: Event, o: Outcome)
    requires Applies(a, e)
    requires Bears(Changed(a, e), o)
    ensures Bears(a, o) || (o.Success? && e.ServiceStarted?) || (o.Failure? && e.CleanUp?)
  {
    var b := Changed(a, e);
    if Delivered(b, o) && !Bears(a, o) {
      var w :| 0 <= w < |b.waiters| && b.waiters[w] == Got(o);
      assert w < |a.waiters| ==> a.waiters[w] != Got(o);
    }
  }

  /** The event is about attempt `n`. */
  predicate About(s: Account, e: Event, n: nat) {
    match e
    case Begin => false
    case Submit => s.current == Some(n)
    case Prompt => s.current == Some(n)
    case _ => e.n == n
  }

  predicate Applies(a: Attempt, e: Event) {
    && ((e.Take? || e.Tick? || e.Expire?) ==> e.w < |a.waiters|)
    && (e.Take? ==> a.box.done.Some?)
    && (e.CleanUp? ==> a.child.Failing?)
    && (e.Resolve? ==> a.child.Concluding?)
  }

  lemma AttemptStep(s: Account, e: Event, n: nat)
    requires Enabled(s, e) && n < |Next(s, e).attempts|
    ensures if n == |s.attempts| then e.Begin? && Next(s, e).attempts[n] == Attempt(NEW_BOX, Preparing, [], false, false, false)
            else
              && n < |s.attempts|
              && (About(s, e, n) ==> Applies(s.attempts[n], e))
              && Next(s, e).attempts[n] == if About(s, e, n) then Changed(s.attempts[n], e) else s.attempts[n]
  {
  }

  lemma {:induction false} StartingTraced(t: Trace<Event>, n: nat)
    requires After(NO_LOGINS, t).Some? && InChild(After(NO_LOGINS, t).value, n, StartingService)
    ensures Happens(t, ChildExit(n, true))
  {
    if t.Start? {
    } else {
      var s, e := After(NO_LOGINS, t.before).value, t.last;
      AttemptStep(s, e, n);
      if e != ChildExit(n, true) {
        StartingTraced(t.before, n);
      }
    }
  }

  /** Nobody is told of a success unless the attempt's child exited with the tokens
      in place and after that its service came up, nor of a failure unless the
      account's data was wiped before. */
  lemma {:induction false} OutcomeTraced(t: Trace<Event>, n: nat, o: Outcome)
    requires After(NO_LOGINS, t).Some? && n < |After(NO_LOGINS, t).value.attempts|
    requires Bears(After(NO_LOGINS, t).value.attempts[n], o)
    ensures o.Success? ==> InOrder(t, ChildExit(n, true), ServiceStarted(n))
    ensures o.Failure? ==> Happens(t, CleanUp(n))
  {
    if t.Start? {
    } else {
      var s, e := After(NO_LOGINS, t.before).value, t.last;
      AttemptStep(s, e, n);
      if n < |s.attempts| {
        if Bears(s.attempts[n], o) {
          OutcomeTraced(t.before, n, o);
        } else {
          BearsStep(s.attempts[n], e, o);
          if e.ServiceStarted? {
            StartingTraced(t.before, n);
          }
        }
      }
    }
  }

  /** The child exited without tokens: the attempt is on its way to a failure. */
  predicate Lost(a: Attempt) {
    && (a.child.Failing? || a.child.Concluding? || a.child.Resolved?)
    && !Bears(a, Success)
  }

  lemma LostStep(a: Attempt, e: Event)
    requires Applies(a, e)
    requires Lost(a) && !e.Wipe? && !e.Launched? && !e.LaunchFailed? && !e.ChildExit? && !e.ServiceStarted? && !e.ServiceFailed?
    ensures Lost(Changed(a, e))
  {
    if Bears(Changed(a, e), Success) {
      BearsStep(a, e, Success);
    }
  }

  lemma {:induction false} ExitsExist(t: Trace<Event>, n: nat)
    requires After(NO_LOGINS, t).Some? && Happens(t, ChildExit(n, false))
    ensures n < |After(NO_LOGINS, t).value.attempts|
  {
    if t.Start? {
    } else if t.last != ChildExit(n, false) {
      ExitsExist(t.before, n);
    }
  }

  lemma {:induction false} NotYetExited(t: Trace<Event>, n: nat)
    requires After(NO_LOGINS, t).Some? && n < |After(NO_LOGINS, t).value.attempts|
    ensures After(NO_LOGINS, t).value.attempts[n].child in {Preparing, Launching, Running} ==> !Bears(After(NO_LOGINS, t).value.attempts[n], Success)
  {
    if Bears(After(NO_LOGINS, t).value.attempts[n], Success) {
      LoginLaws(NO_LOGINS, t);
      var a := After(NO_LOGINS, t).value.attempts[n];
      assert Lawful(a);
      if Delivered(a, Success) {
        var w :| 0 <= w < |a.waiters| && a.waiters[w] == Got(Success);
        assert w in Served(a);
      }
    }
  }

  /** An attempt whose child exited without tokens never concludes with success. */
  lemma {:induction false} NoTokensNoSuccess(t: Trace<Event>, n: nat)
    requires After(NO_LOGINS, t).Some? && Happens(t, ChildExit(n, false))
    ensures n < |After(NO_LOGINS, t).value.attempts| && Lost(After(NO_LOGINS, t).value.attempts[n])
  {
    ExitsExist(t, n);
    if t.Start? {
    } else {
      var s, e := After(NO_LOGINS, t.before).value, t.last;
      AttemptStep(s, e, n);
      if Happens(t.before, ChildExit(n, false)) {
        NoTokensNoSuccess(t.before, n);
        if Next(s, e).attempts[n] != s.attempts[n] {
          LostStep(s.attempts[n], e);
        }
      } else {
        NotYetExited(t.before, n);
        if Bears(Next(s, e).attempts[n], Success) {
          BearsStep(s.attempts[n], e, Success);
        }
      }
    }
  }

  function Begins(t: Trace<Event>): nat {
    if t.Start? then 0 else Begins(t.before) + (if t.last.Begin? then 1 else 0)
  }

  /** The newest attempt, unless some attempt was resolved since it began. */
  function Registered(t: Trace<Event>): Option<nat> {
    if t.Start? then None
    else
      match t.last
      case Begin => Some(Begins(t.before))
      case Resolve(_) => None
      case _ => Registered(t.before)
  }

  lemma RegisteredStep(s: Account, e: Event)
    requires Enabled(s, e)
    ensures |Next(s, e).attempts| == |s.attempts| + (if e.Begin? then 1 else 0)
    ensures Next(s, e).current == if e.Begin? then Some(|s.attempts|) else if e.Resolve? then None else s.current
  {
  }

  lemma {:induction false} RegisteredIs(t: Trace<Event>)
    requires After(NO_LOGINS, t).Some?
    ensures |After(NO_LOGINS, t).value.attempts| == Begins(t)
    ensures After(NO_LOGINS, t).value.current == Registered(t)
  {
    if t.Start? {
    } else {
      RegisteredIs(t.before);
      RegisteredStep(After(NO_LOGINS, t.before).value, t.last);
    }
  }

  /** The directory has the tokens iff some child has written them since the last
      wipe, at the start of an attempt or after a failure. */
  predicate HasTokens(t: Trace<Event>) {
    t.Then? && (t.last.Cached? || (!t.last.Wipe? && !t.last.CleanUp? && HasTokens(t.before)))
  }

  lemma {:induction false} TokensIff(t: Trace<Event>)
    requires After(NO_LOGINS, t).Some?
    ensures After(NO_LOGINS, t).value.data <==> HasTokens(t)
  {
    if t.Start? {
    } else {
      TokensIff(t.before);
    }
  }

  /** A 2FA line came while the attempt was registered. */
  predicate Prompted(t: Trace<Event>, n: nat) {
    t.Then? && (Prompted(t.before, n) || (t.last.Prompt? && Registered(t.before) == Some(n)))
  }

  /** Some request waiting on the attempt has polled since. */
  predicate Polled(t: Trace<Event>, n: nat) {
    t.Then? && (Polled(t.before, n) || (t.last.Tick? && t.last.n == n && Prompted(t.before, n)))
  }

  /** And this one was the first to do so. */
  predicate PolledFirst(t: Trace<Event>, n: nat, w: nat) {
    t.Then? && (PolledFirst(t.before, n, w) || (t.last == Tick(n, w) && Prompted(t.before, n) && !Polled(t.before, n)))
  }

  lemma FlagsChanged(a: Attempt, e: Event)
    requires Applies(a, e)
    ensures Changed(a, e).box.pending2FA <==> a.box.pending2FA || e.Prompt?
    ensures Changed(a, e).box.reported2FA <==> a.box.reported2FA || (e.Tick? && a.box.pending2FA)
  {
  }

  lemma FlagsStep(s: Account, e: Event, n: nat)
    requires Enabled(s, e) && n < |s.attempts| && n < |Next(s, e).attempts|
    ensures var a, b := s.attempts[n].box, Next(s, e).attempts[n].box;
            && (b.pending2FA <==> a.pending2FA || (e.Prompt? && s.current == Some(n)))
            && (b.reported2FA <==> a.reported2FA || (e.Tick? && e.n == n && a.pending2FA))
  {
    AttemptStep(s, e, n);
    if About(s, e, n) {
      FlagsChanged(s.attempts[n], e);
    }
  }

  lemma {:induction false} PromptsExist(t: Trace<Event>, n: nat)
    requires Prompted(t, n)
    ensures n < Begins(t)
  {
    if Prompted(t.before, n) {
      PromptsExist(t.before, n);
    } else {
      RegisteredBegan(t.before);
    }
  }

  lemma {:induction false} RegisteredBegan(t: Trace<Event>)
    ensures Registered(t).Some? ==> Registered(t).value < Begins(t)
  {
    if t.Start? {
    } else {
      RegisteredBegan(t.before);
    }
  }

  lemma {:induction false} PolledIsPrompted(t: Trace<Event>, n: nat)
    requires Polled(t, n)
    ensures Prompted(t, n)
  {
    if Polled(t.before, n) {
      PolledIsPrompted(t.before, n);
    }
  }

  /** The two flags of an attempt: prompted, and reported by the first poll after. */
  lemma {:induction false} FlagsTraced(t: Trace<Event>, n: nat)
    requires After(NO_LOGINS, t).Some? && n < |After(NO_LOGINS, t).value.attempts|
    ensures After(NO_LOGINS, t).value.attempts[n].box.pending2FA <==> Prompted(t, n)
    ensures After(NO_LOGINS, t).value.attempts[n].box.reported2FA <==> Polled(t, n)
  {
    if t.Start? {
    } else {
      var s, e := After(NO_LOGINS, t.before).value, t.last;
      RegisteredIs(t.before);
      if n < |s.attempts| {
        FlagsTraced(t.before, n);
        FlagsStep(s, e, n);
      } else {
        AttemptStep(s, e, n);
        if Polled(t.before, n) {
          PolledIsPrompted(t.before, n);
        }
        if Prompted(t.before, n) {
          PromptsExist(t.before, n);
        }
      }
    }
  }

  predicate WaiterIs(s: Account, n: nat, w: nat, r: Waiter) {
    n < |s.attempts| && w < |s.attempts[n].waiters| && s.attempts[n].waiters[w] == r
  }

  lemma WaiterChanged(a: Attempt, e: Event, w: nat)
    requires Applies(a, e) && ((e.Take? || e.Tick? || e.Expire?) ==> a.waiters[e.w].Blocked?)
    requires w < |Changed(a, e).waiters|
    ensures w >= |a.waiters| ==> Changed(a, e).waiters[w].Blocked? && (e.Submit? || e.Wipe?)
    ensures w < |a.waiters| ==>
              var r := Changed(a, e).waiters[w];
              && (r.TimedOut? <==> a.waiters[w].TimedOut? || (e.Expire? && e.w == w))
              && (r.Got? <==> a.waiters[w].Got? || (e.Take? && e.w == w))
              && (r.Told2FA? <==> a.waiters[w].Told2FA? || (e.Tick? && e.w == w && Claimable(a.box)))
  {
  }

  lemma WaitersGrow(s: Account, e: Event, n: nat)
    requires Enabled(s, e) && n < |s.attempts|
    ensures n < |Next(s, e).attempts| && |s.attempts[n].waiters| <= |Next(s, e).attempts[n].waiters|
  {
  }

  lemma WaiterStep(s: Account, e: Event, n: nat, w: nat)
    requires Enabled(s, e)
    ensures WaiterIs(Next(s, e), n, w, TimedOut) <==> WaiterIs(s, n, w, TimedOut) || e == Expire(n, w)
    ensures HasGot(Next(s, e), n, w) <==> HasGot(s, n, w) || e == Take(n, w)
    ensures WaiterIs(Next(s, e), n, w, Told2FA) <==>
              WaiterIs(s, n, w, Told2FA) || (e == Tick(n, w) && Claimable(s.attempts[n].box))
  {
    if n < |s.attempts| {
      WaitersGrow(s, e, n);
    }
    if n < |Next(s, e).attempts| {
      AttemptStep(s, e, n);
      if n < |s.attempts| && About(s, e, n) && w < |Next(s, e).attempts[n].waiters| {
        WaiterChanged(s.attempts[n], e, w);
      }
    }
  }

  predicate HasGot(s: Account, n: nat, w: nat) {
    n < |s.attempts| && w < |s.attempts[n].waiters| && s.attempts[n].waiters[w].Got?
  }

  /** What every waiting request is told: a timeout iff its timer fired first, the
      outcome iff it took it, and code 2 iff it was the first to poll after the
      prompt. */
  lemma {:induction false} WaiterTraced(t: Trace<Event>, n: nat, w: nat)
    requires After(NO_LOGINS, t).Some?
    ensures WaiterIs(After(NO_LOGINS, t).value, n, w, TimedOut) <==> Happens(t, Expire(n, w))
    ensures HasGot(After(NO_LOGINS, t).value, n, w) <==> Happens(t, Take(n, w))
    ensures WaiterIs(After(NO_LOGINS, t).value, n, w, Told2FA) <==> PolledFirst(t, n, w)
  {
    if t.Start? {
    } else {
      var s, e := After(NO_LOGINS, t.before).value, t.last;
      WaiterTraced(t.before, n, w);
      WaiterStep(s, e, n, w);
      if e == Tick(n, w) {
        FlagsTraced(t.before, n);
      }
    }
  }

  /** The requests that came to wait on the attempt: its own, once it has wiped the
      old data, and each one that submitted a code while it was registered. */
  function Arrivals(t: Trace<Event>, n: nat): nat {
    if t.Start? then 0
    else
      Arrivals(t.before, n)
      + (if t.last == Wipe(n) || (t.last.Submit? && Registered(t.before) == Some(n)) then 1 else 0)
  }

  lemma ArrivalStep(s: Account, e: Event, n: nat)
    requires Enabled(s, e) && n < |s.attempts|
    ensures n < |Next(s, e).attempts|
    ensures |Next(s, e).attempts[n].waiters| == |s.attempts[n].waiters| + (if e == Wipe(n) || (e.Submit? && s.current == Some(n)) then 1 else 0)
  {
    WaitersGrow(s, e, n);
    AttemptStep(s, e, n);
  }

  lemma {:induction false} NoneArrived(t: Trace<Event>, n: nat)
    requires After(NO_LOGINS, t).Some? && n >= |After(NO_LOGINS, t).value.attempts|
    ensures Arrivals(t, n) == 0
  {
    if t.Start? {
    } else {
      RegisteredStep(After(NO_LOGINS, t.before).value, t.last);
      RegisteredIs(t.before);
      NoneArrived(t.before, n);
    }
  }

  /** Nobody who came to wait is lost. */
  lemma {:induction false} WaitersArrived(t: Trace<Event>, n: nat)
    requires After(NO_LOGINS, t).Some? && n < |After(NO_LOGINS, t).value.attempts|
    ensures |After(NO_LOGINS, t).value.attempts[n].waiters| == Arrivals(t, n)
  {
    if t.Start? {
    } else {
      var s, e := After(NO_LOGINS, t.before).value, t.last;
      RegisteredIs(t.before);
      if n < |s.attempts| {
        WaitersArrived(t.before, n);
        ArrivalStep(s, e, n);
      } else {
        AttemptStep(s, e, n);
        NoneArrived(t.before, n);
      }
    }
  }

  /** From every state an attempt whose child has not exited can still succeed. */
  lemma CanSucceed(s: Account, n: nat) returns (t: Trace<Event>, r: Account)
    requires Unresolved(s, n) && s.attempts[n].child in {Preparing, Launching, Running}
    ensures After(s, t) == Some(r) && n < |r.attempts| && r.attempts[n].child == Concluding(Success) && r.data
  {
    t, r := Start, s;
    assert After(s, t) == Some(r);
    if s.attempts[n].child.Preparing? {
      t, r := Continued(s, t, r, Wipe(n));
    }
    if r.attempts[n].child.Launching? {
      t, r := Continued(s, t, r, Launched(n));
    }
    t, r := Continued(s, t, r, Cached(n));
    t, r := Continued(s, t, r, ChildExit(n, true));
    t, r := Continued(s, t, r, ServiceStarted(n));
  }

  lemma Continued(s: Account, t0: Trace<Event>, s0: Account, e: Event) returns (t: Trace<Event>, r: Account)
    requires After(s, t0) == Some(s0) && Enabled(s0, e)
    ensures t == Then(t0, e) && r == Next(s0, e) && After(s, t) == Some(r)
  {
    t, r := Then(t0, e), Next(s0, e);
  }

  // ----- who still learns the outcome

  ghost predicate CanLearn(s: Account, n: nat, w: nat) {
    exists t: Trace<Event> :: After(s, t).Some? && HasGot(After(s, t).value, n, w)
  }

  lemma GotStaysOneStep(s: Account, e: Event, n: nat, w: nat)
    requires Enabled(s, e) && HasGot(s, n, w)
    ensures HasGot(Next(s, e), n, w)
  {
  }

  lemma {:induction false} GotStays(s: Account, t: Trace<Event>, n: nat, w: nat)
    requires After(s, t).Some? && HasGot(s, n, w)
    ensures HasGot(After(s, t).value, n, w)
  {
    if t.Start? {
    } else {
      GotStays(s, t.before, n, w);
      GotStaysOneStep(After(s, t.before).value, t.last, n, w);
    }
  }

  predicate NoBegin(t: Trace<Event>) {
    t.Start? || (NoBegin(t.before) && !t.last.Begin?)
  }

  predicate Unresolved(s: Account, n: nat) {
    n < |s.attempts| && !s.attempts[n].child.Resolved?
  }

  /** A way for an unresolved attempt to come closer to its outcome. */
  function Towards(n: nat, c: Child, data: bool): Event
    requires !c.Resolved?
  {
    match c
    case Preparing => Wipe(n)
    case Launching => LaunchFailed(n)
    case Running => ChildExit(n, data)
    case StartingService => ServiceFailed(n)
    case Failing(_) => CleanUp(n)
    case Concluding(_) => Resolve(n)
  }

  function Distance(c: Child): nat {
    match c
    case Failing(_) => 2
    case Concluding(_) => 1
    case Resolved => 0
    case Launching => 3
    case StartingService => 3
    case _ => 4
  }

  /** What such a step makes of the attempt itself. */
  lemma TowardsChanges(a: Attempt, n: nat, data: bool)
    requires !a.child.Resolved?
    ensures var e := Towards(n, a.child, data);
            && a.waiters <= Changed(a, e).waiters
            && Distance(Changed(a, e).child) < Distance(a.child)
            && (Changed(a, e).child.Resolved? <==> e.Resolve?)
            && (Changed(a, e).child.Concluding? <==> e.CleanUp?)
            && (e.Resolve? ==> Changed(a, e).box.done.Some?)
  {
  }

  lemma TowardsStep(s: Account, n: nat)
    requires Unresolved(s, n)
    ensures var e := Towards(n, s.attempts[n].child, s.data);
            && Enabled(s, e) && !e.Begin?
            && Next(s, e).attempts == s.attempts[n := Changed(s.attempts[n], e)]
            && Next(s, e).current == (if e.Resolve? then None else s.current)
            && Next(s, e).data == DataAfter(s.data, e)
  {
  }

  /** The attempt can still wipe the account's data. */
  predicate CanWipe(s: Account, m: nat) {
    m < |s.attempts| && !s.attempts[m].child.Resolved? && !s.attempts[m].child.Concluding?
  }

  /** Every unresolved attempt can be resolved without anybody else's help, and by
      failing, which wipes the data if it still can. */
  lemma {:induction false} CanConclude(s: Account, t0: Trace<Event>, s0: Account, n: nat)
    returns (t: Trace<Event>, r: Account)
    requires After(s, t0) == Some(s0) && NoBegin(t0) && Unresolved(s0, n)
    ensures After(s, t) == Some(r) && NoBegin(t)
    ensures |r.attempts| == |s0.attempts| && r.attempts == s0.attempts[n := r.attempts[n]]
    ensures r.attempts[n].child.Resolved? && s0.attempts[n].waiters <= r.attempts[n].waiters
    ensures r.current.None? && r.attempts[n].box.done.Some?
    ensures CanWipe(s0, n) || !s0.data ==> !r.data
    decreases Distance(s0.attempts[n].child)
  {
    TowardsStep(s0, n);
    TowardsChanges(s0.attempts[n], n, s0.data);
    var e := Towards(n, s0.attempts[n].child, s0.data);
    t, r := Then(t0, e), Next(s0, e);
    assert After(s, t) == Some(r);
    if !r.attempts[n].child.Resolved? {
      t, r := CanConclude(s, t, r, n);
    }
  }

  /** A blocked request can still be told how its login ended exactly as long as
      no other request waiting on it has been told. So of two requests that
      submitted a code only one ever learns that the login succeeded. */
  lemma CanLearnIff(s: Account, n: nat, w: nat)
    requires AllLawful(s) && IsBlocked(s, n, w)
    ensures CanLearn(s, n, w) <==> forall v :: !HasGot(s, n, v)
  {
    if v: nat :| HasGot(s, n, v) {
      forall t: Trace<Event> | After(s, t).Some? ensures !HasGot(After(s, t).value, n, w) {
        GotStays(s, t, n, v);
        LoginLaws(s, t);
        OneIsServed(After(s, t).value, n, v, w);
      }
    } else {
      LearnsNext(s, n, w);
    }
  }

  lemma OneIsServed(s: Account, n: nat, v: nat, w: nat)
    requires AllLawful(s) && HasGot(s, n, v) && v != w
    ensures !HasGot(s, n, w)
  {
    assert Lawful(s.attempts[n]);
    if HasGot(s, n, w) {
      TwoServed(Served(s.attempts[n]), v, w);
    }
  }

  lemma TakeTeaches(s: Account, t: Trace<Event>, s1: Account, n: nat, w: nat)
    requires After(s, t) == Some(s1) && IsBlocked(s1, n, w) && s1.attempts[n].box.done.Some?
    ensures CanLearn(s, n, w)
  {
    assert After(s, Then(t, Take(n, w))) == Some(Next(s1, Take(n, w)));
    assert HasGot(Next(s1, Take(n, w)), n, w);
  }

  lemma LearnsNext(s: Account, n: nat, w: nat)
    requires AllLawful(s) && IsBlocked(s, n, w) && forall v :: !HasGot(s, n, v)
    ensures CanLearn(s, n, w)
  {
    var a := s.attempts[n];
    assert Lawful(a);
    if a.child.Resolved? {
      assert Served(a) == {} by {
        forall v | v in Served(a) ensures false { assert HasGot(s, n, v); }
      }
      TakeTeaches(s, Start, s, n, w);
    } else {
      var t, r := CanConclude(s, Start, s, n);
      TakeTeaches(s, t, r, n, w);
    }
  }

  lemma TwoServed(xs: set<nat>, v: nat, w: nat)
    requires v in xs && w in xs && v != w
    ensures |xs| >= 2
  {
    assert xs == (xs - {v, w}) + {v, w};
  }

  // ----- which attempt a code reaches

  ghost predicate StaysRegistered(s: Account, n: nat) {
    forall t: Trace<Event> :: NoBegin(t) && After(s, t).Some? && Unresolved(After(s, t).value, n) ==>
      After(s, t).value.current == Some(n)
  }

  lemma UnresolvedShrinks(s: Account, e: Event, m: nat)
    requires Enabled(s, e) && !e.Begin? && Unresolved(Next(s, e), m)
    ensures Unresolved(s, m)
    ensures e.Resolve? ==> e.n != m && Unresolved(s, e.n)
  {
  }

  lemma {:induction false} OnlyUnresolved(s: Account, t: Trace<Event>, n: nat)
    requires s.current == Some(n) && Unresolved(s, n)
    requires forall m :: Unresolved(s, m) ==> m == n
    requires NoBegin(t) && After(s, t).Some?
    ensures forall m :: Unresolved(After(s, t).value, m) ==> m == n
    ensures Unresolved(After(s, t).value, n) ==> After(s, t).value.current == Some(n)
  {
    if t.Start? {
    } else {
      OnlyUnresolved(s, t.before, n);
      var r := After(s, t.before).value;
      forall m: nat | Unresolved(Next(r, t.last), m) ensures m == n {
        UnresolvedShrinks(r, t.last, m);
      }
      if Unresolved(Next(r, t.last), n) {
        UnresolvedShrinks(r, t.last, n);
      }
    }
  }

  /** The attempt registered for an account stays reachable for its code until it
      is resolved, as long as nobody starts over, exactly when no older attempt
      is still in flight: resolving that one drops whatever is registered. */
  lemma StaysRegisteredIff(s: Account, n: nat)
    requires s.current == Some(n) && Unresolved(s, n)
    ensures StaysRegistered(s, n) <==> forall m :: Unresolved(s, m) ==> m == n
  {
    if m: nat :| Unresolved(s, m) && m != n {
      var t, r := CanConclude(s, Start, s, m);
      assert Unresolved(r, n);
    } else {
      forall t: Trace<Event> | NoBegin(t) && After(s, t).Some? && Unresolved(After(s, t).value, n)
        ensures After(s, t).value.current == Some(n)
      {
        OnlyUnresolved(s, t, n);
      }
    }
  }

  // ----- whether a login that succeeds still has its tokens

  predicate CameUp(s: Account, n: nat) {
    n < |s.attempts| && s.attempts[n].serviceUp
  }

  /** In every run without a new login, when the attempt's service has come up the
      tokens its child cached are still there. */
  ghost predicate KeepsTokens(s: Account, n: nat) {
    forall t: Trace<Event> :: NoBegin(t) && After(s, t).Some? && CameUp(After(s, t).value, n) ==> After(s, t).value.data
  }

  /** Only attempt `n` can wipe anything, and it has not failed with its tokens. */
  ghost predicate Alone(s: Account, n: nat) {
    && n < |s.attempts| && (forall m :: CanWipe(s, m) ==> m == n)
    && match s.attempts[n].child
       case StartingService => !s.attempts[n].serviceUp && s.data
       case Concluding(_) => s.attempts[n].serviceUp ==> s.data
       case Resolved => s.attempts[n].serviceUp ==> s.data
       case Failing(_) => !s.attempts[n].serviceUp
       case _ => false
  }

  lemma AloneStep(s: Account, e: Event, n: nat)
    requires Alone(s, n) && Enabled(s, e) && !e.Begin?
    ensures Alone(Next(s, e), n)
  {
    var s' := Next(s, e);
    assert (e.Wipe? || e.CleanUp? || e.Cached?) ==> CanWipe(s, e.n);
    forall m | CanWipe(s', m) ensures m == n {
      assert CanWipe(s, m);
    }
  }

  lemma {:induction false} AloneRun(s: Account, t: Trace<Event>, n: nat)
    requires Alone(s, n) && NoBegin(t) && After(s, t).Some?
    ensures Alone(After(s, t).value, n)
  {
    if t.Start? {
    } else {
      AloneRun(s, t.before, n);
      AloneStep(After(s, t.before).value, t.last, n);
    }
  }

  /** An attempt whose child has exited with its tokens keeps them until its service
      is up, whatever else happens but a new login, exactly when no other attempt
      at the account is still in a position to wipe the shared directory. */
  lemma KeepsTokensIff(s: Account, n: nat)
    requires AllLawful(s) && InChild(s, n, StartingService) && s.data
    ensures KeepsTokens(s, n) <==> forall m :: CanWipe(s, m) ==> m == n
  {
    assert Lawful(s.attempts[n]);
    if m: nat :| CanWipe(s, m) && m != n {
      var t, r := CanConclude(s, Start, s, m);
      var t' := Then(t, ServiceStarted(n));
      assert After(s, t') == Some(Next(r, ServiceStarted(n)));
      assert NoBegin(t') && CameUp(Next(r, ServiceStarted(n)), n) && !Next(r, ServiceStarted(n)).data;
    } else {
      forall t: Trace<Event> | NoBegin(t) && After(s, t).Some? && CameUp(After(s, t).value, n)
        ensures After(s, t).value.data
      {
        AloneRun(s, t, n);
      }
    }
  }

  /** A new login always can: the older one succeeds without its tokens. */
  lemma LaterLoginWipes(s: Account, n: nat) returns (t: Trace<Event>, r: Account)
    requires InChild(s, n, StartingService)
    ensures After(s, t) == Some(r) && CameUp(r, n) && r.attempts[n].child == Concluding(Success) && !r.data
  {
    var m := |s.attempts|;
    var s1 := Next(s, Begin);
    var t1: Trace<Event> := Then(Start, Begin);
    assert After(s, Start) == Some(s) && After(s, t1) == Some(s1);
    var s2 := Next(s1, Wipe(m));
    var t2 := Then(t1, Wipe(m));
    assert After(s, t2) == Some(s2);
    t, r := Then(t2, ServiceStarted(n)), Next(s2, ServiceStarted(n));
  }

  // ----- the code's objects take the steps of the protocol

  /** The login table and the `LoginState` objects of one account's attempts are
      in the protocol state `s`. */
  ghost predicate Represents(table: LoginTable, id: string, states: seq<LoginState>, s: Account)
    reads table, states
  {
    && |states| == |s.attempts|
    && (forall i, j :: 0 <= i < j < |states| ==> states[i] != states[j])
    && (forall i :: 0 <= i < |states| ==> states[i].View() == s.attempts[i].box)
    && if s.current.None? then id !in table.m
       else s.current.value < |states| && id in table.m && table.m[id] == states[s.current.value]
  }

  /** A request without a code begins an attempt. */
  method BeginLogin(table: LoginTable, id: string, ghost states: seq<LoginState>, ghost s: Account) returns (st: LoginState)
    requires Represents(table, id, states, s)
    modifies table
    ensures Represents(table, id, states + [st], Next(s, Begin))
  {
    var d := table.StartLogin(id, false, "", None);
    st := d.st;
    assert st !in states;
  }

  /** A request with a code is let in exactly when the protocol allows it and the
      code could be written, and then waits on the registered attempt. */
  method SubmitCode(table: LoginTable, id: string, code: string, writeError: Option<string>,
                    ghost states: seq<LoginState>, ghost s: Account)
    returns (d: Decision)
    requires code != "" && Represents(table, id, states, s)
    modifies table
    ensures d.AwaitPending? <==> Enabled(s, Submit) && writeError.None?
    ensures if d.AwaitPending? then d.st == states[s.current.value] && Represents(table, id, states, Next(s, Submit))
            else Represents(table, id, states, s)
  {
    d := table.StartLogin(id, false, code, writeError);
  }

  /** A 2FA line of whatever child marks the registered attempt. */
  method Announce(table: LoginTable, id: string, ghost states: seq<LoginState>, ghost s: Account)
    requires Represents(table, id, states, s)
    modifies if id in table.m then {table.m[id]} else {}
    ensures Enabled(s, Prompt) && Represents(table, id, states, Next(s, Prompt))
  {
    table.Login2FARequired(id);
  }

  /** The goroutine of attempt `n` resolves it. */
  method Conclude(table: LoginTable, id: string, st: LoginState, cause: Outcome,
                  ghost n: nat, ghost states: seq<LoginState>, ghost s: Account)
    requires Represents(table, id, states, s)
    requires n < |states| && st == states[n] && s.attempts[n].child == Concluding(cause)
    modifies table, st
    ensures Represents(table, id, states, Next(s, Resolve(n)))
  {
    table.ResolveLogin(id, st, cause);
  }

  /** One round of a waiting request: an outcome already in the channel is taken
      at once; otherwise, 200 ms later, the request may be the one to report the
      2FA prompt. */
  method WaitOnce(table: LoginTable, id: string, st: LoginState,
                  ghost n: nat, ghost w: nat, ghost states: seq<LoginState>, ghost s: Account)
    returns (reply: Waiter)
    requires Represents(table, id, states, s)
    requires n < |states| && st == states[n] && IsBlocked(s, n, w)
    modifies st
    ensures var e := if s.attempts[n].box.done.Some? then Take(n, w) else Tick(n, w);
            && Enabled(s, e) && Represents(table, id, states, Next(s, e))
            && reply == Next(s, e).attempts[n].waiters[w]
  {
    var o := st.Receive();
    if o.Some? {
      return Got(o.value);
    }
    var claimed := st.ClaimPending2FA();
    reply := if claimed then Told2FA else Blocked;
  }
}
