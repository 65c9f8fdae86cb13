/** Forwarding one request to the selected candidates with bounded retry. */
module Retry {
  import opened Outcomes

  const MAX_RETRY_ATTEMPTS := 3
  const OVERALL_RETRY_BUDGET := 20 * SECOND
  const SLOT_TIMEOUT := 15 * SECOND
  const UPSTREAM_TIMEOUT := 12 * SECOND
  const WRITE_TIMEOUT := 60 * SECOND

  datatype Reply = Reply(body: string, code: int)

  /** What happens when the loop reaches a candidate: its account has been
      removed, or a fetch runs, taking some time, and ends one way or the other. */
  datatype Turn =
    | Vanished
    | Fetch(slotWait: nat, upstream: nat, outcome: Result<Reply>)

  /** The one response written: a reply passed through, or the manager's own
      error envelope. */
  datatype Response =
    | Passed(reply: Reply, cacheable: bool)
    | Refused(msg: string)

  /** A fetch that was made: from whom, when it began, how long it took, and how
      it ended. */
  datatype Forwarded = Forwarded(id: string, at: nat, took: nat, outcome: Result<Reply>)

  predicate IsCacheablePath(path: string) {
    path == "/m3u8" || path == "/webplayback" || path == "/key" || path == "/lyrics"
  }

  predicate ShouldRetryLiteFailure(path: string, code: int) {
    code != 400 && !(path == "/lyrics" && code == 404)
  }

  /** No other instance could do better than this reply. */
  predicate Decisive(path: string, r: Reply) {
    r.code == 0 || !ShouldRetryLiteFailure(path, r.code)
  }

  predicate Timed(turn: Turn) {
    turn.Fetch? ==> turn.slotWait <= SLOT_TIMEOUT && turn.upstream <= UPSTREAM_TIMEOUT
  }

  function Elapsed(turns: seq<Turn>, n: nat): nat
    requires n <= |turns|
  {
    if n == 0 then 0
    else Elapsed(turns, n - 1) + (if turns[n - 1].Fetch? then turns[n - 1].slotWait + turns[n - 1].upstream else 0)
  }

  /** The fetch made at a turn, if any. */
  function Fetched(id: string, turn: Turn, at: nat): seq<Forwarded> {
    if turn.Fetch? then [Forwarded(id, at, turn.slotWait + turn.upstream, turn.outcome)] else []
  }

  /** The fetches made for the first `n` candidates: one for each still there. */
  function Fetches(ids: seq<string>, turns: seq<Turn>, n: nat, start: nat): seq<Forwarded>
    requires n <= |ids| == |turns|
  {
    if n == 0 then []
    else Fetches(ids, turns, n - 1, start) + Fetched(ids[n - 1], turns[n - 1], start + Elapsed(turns, n - 1))
  }

  predicate HasReply(t: Turn) {
    t.Fetch? && t.outcome.Ok?
  }

  /** The latest business reply received from the first `n` candidates. */
  function LastReply(turns: seq<Turn>, n: nat): Option<Reply>
    requires n <= |turns|
  {
    if n == 0 then None
    else if HasReply(turns[n - 1]) then Some(turns[n - 1].outcome.value)
    else LastReply(turns, n - 1)
  }

  function Attempts(turns: seq<Turn>, n: nat): nat
    requires n <= |turns|
  {
    if n == 0 then 0 else Attempts(turns, n - 1) + (if turns[n - 1].Fetch? then 1 else 0)
  }

  /** The loop may go on to candidate `i`. */
  predicate MayTry(path: string, turns: seq<Turn>, i: nat)
    requires i <= |turns|
  {
    && Attempts(turns, i) < MAX_RETRY_ATTEMPTS
    && Elapsed(turns, i) <= OVERALL_RETRY_BUDGET
    && !Settled(path, LastReply(turns, i))
  }

  predicate Settled(path: string, r: Option<Reply>) {
    r.Some? && Decisive(path, r.value)
  }

  /** Every reply with another one after it was a failure worth another try. */
  predicate EarlierRetryable(path: string, turns: seq<Turn>, n: nat)
    requires n <= |turns|
  {
    forall i, j :: 0 <= i < j < n && HasReply(turns[i]) && HasReply(turns[j]) ==>
      turns[i].outcome.value.code != 0 && ShouldRetryLiteFailure(path, turns[i].outcome.value.code)
  }

  /** What the last of `n` turns adds to the log. */
  lemma LogGrows(ids: seq<string>, turns: seq<Turn>, n: nat, start: nat)
    requires 0 < n <= |ids| == |turns|
    ensures var before, log := Fetches(ids, turns, n - 1, start), Fetches(ids, turns, n, start);
            if turns[n - 1].Fetch?
            then |log| == |before| + 1 && log[..|before|] == before
                 && log[|before|] == Forwarded(ids[n - 1], start + Elapsed(turns, n - 1),
                                               turns[n - 1].slotWait + turns[n - 1].upstream, turns[n - 1].outcome)
            else log == before
  {
  }

  lemma {:induction false} EachIdOnce(ids: seq<string>, turns: seq<Turn>, n: nat, start: nat)
    requires n <= |ids| == |turns|
    requires forall i, j :: 0 <= i < j < |ids| ==> ids[i] != ids[j]
    ensures var log := Fetches(ids, turns, n, start);
            && |log| == Attempts(turns, n)
            && (forall k :: 0 <= k < |log| ==> log[k].id in ids[..n])
            && (forall j, k :: 0 <= j < k < |log| ==> log[j].id != log[k].id)
  {
    if n == 0 {
    } else {
      EachIdOnce(ids, turns, n - 1, start);
      assert ids[..n] == ids[..n - 1] + [ids[n - 1]];
    }
  }

  /** The last reply in a log of fetches. */
  function LastOk(log: seq<Forwarded>): Option<Reply> {
    if log == [] then None
    else if log[|log| - 1].outcome.Ok? then Some(log[|log| - 1].outcome.value)
    else LastOk(log[..|log| - 1])
  }

  lemma {:induction false} LastReplyLogged(ids: seq<string>, turns: seq<Turn>, n: nat, start: nat)
    requires n <= |ids| == |turns|
    ensures LastOk(Fetches(ids, turns, n, start)) == LastReply(turns, n)
  {
    if n == 0 {
    } else {
      LastReplyLogged(ids, turns, n - 1, start);
      var log := Fetches(ids, turns, n - 1, start);
      var more := Fetched(ids[n - 1], turns[n - 1], start + Elapsed(turns, n - 1));
      if turns[n - 1].Fetch? {
        assert (log + more)[..|log|] == log;
      } else {
        assert log + more == log;
      }
    }
  }

  // ----- what the loop promises about its fetches

  /** No other instance could do better than this reply: a success, a request that
      is malformed for everyone, or lyrics that do not exist. */
  predicate Final(path: string, r: Result<Reply>) {
    r.Ok? && (r.value.code == 0 || r.value.code == 400 || (path == "/lyrics" && r.value.code == 404))
  }

  lemma FinalIsDecisive(path: string, r: Result<Reply>)
    ensures Final(path, r) <==> r.Ok? && Decisive(path, r.value)
  {
  }

  /** One fetch follows the other, the first one at the start of the loop, none
      after 20 s, and none takes longer than 27 s. */
  predicate Timely(log: seq<Forwarded>, start: nat, end: nat) {
    && Chained(log, start) && end == EndOf(log, start)
    && (forall k :: 0 <= k < |log| ==> log[k].at <= start + 20_000_000_000 && log[k].took <= 27_000_000_000)
  }

  predicate Chained(log: seq<Forwarded>, start: nat) {
    forall k :: 0 <= k < |log| ==> BeginsAfter(log, start, k)
  }

  predicate BeginsAfter(log: seq<Forwarded>, start: nat, k: nat)
    requires k < |log|
  {
    log[k].at == if k == 0 then start else log[k - 1].at + log[k - 1].took
  }

  function EndOf(log: seq<Forwarded>, start: nat): nat {
    if log == [] then start else log[|log| - 1].at + log[|log| - 1].took
  }

  lemma ChainedNext(log: seq<Forwarded>, f: Forwarded, start: nat)
    requires Chained(log, start) && f.at == EndOf(log, start)
    ensures Chained(log + [f], start) && EndOf(log + [f], start) == f.at + f.took
  {
    var longer := log + [f];
    forall k | 0 <= k < |longer| ensures BeginsAfter(longer, start, k) {
      if k < |log| {
        assert BeginsAfter(log, start, k);
      }
    }
  }

  /** Only the last fetch may have had a final reply. */
  predicate NothingAfterFinal(path: string, log: seq<Forwarded>) {
    forall k :: 0 <= k < |log| - 1 ==> !Final(path, log[k].outcome)
  }

  predicate EndsFinal(path: string, log: seq<Forwarded>) {
    log != [] && Final(path, log[|log| - 1].outcome)
  }

  /** Every candidate looked at has vanished or was fetched from. */
  ghost predicate AllTried(ids: seq<string>, turns: seq<Turn>, looked: nat, log: seq<Forwarded>)
    requires looked <= |ids| == |turns|
  {
    forall i :: 0 <= i < looked && turns[i].Fetch? ==> Tried(ids[i], turns[i], log)
  }

  ghost predicate Tried(id: string, turn: Turn, log: seq<Forwarded>)
    requires turn.Fetch?
  {
    exists k :: 0 <= k < |log| && log[k].id == id && log[k].outcome == turn.outcome
                && log[k].took == turn.slotWait + turn.upstream
  }

  lemma {:induction false} FetchesTimed(ids: seq<string>, turns: seq<Turn>, n: nat, start: nat)
    requires n <= |ids| == |turns|
    ensures var log := Fetches(ids, turns, n, start);
            |log| == Attempts(turns, n) && Chained(log, start) && start + Elapsed(turns, n) == EndOf(log, start)
  {
    if n == 0 {
    } else {
      FetchesTimed(ids, turns, n - 1, start);
      LogGrows(ids, turns, n, start);
      var before, log := Fetches(ids, turns, n - 1, start), Fetches(ids, turns, n, start);
      if turns[n - 1].Fetch? {
        ChainedNext(before, log[|before|], start);
        assert log == before + [log[|before|]];
      }
    }
  }

  lemma {:induction false} FetchesBounded(path: string, ids: seq<string>, turns: seq<Turn>, n: nat, start: nat)
    requires n <= |ids| == |turns| && forall i :: 0 <= i < n ==> MayTry(path, turns, i) && Timed(turns[i])
    ensures var log := Fetches(ids, turns, n, start);
            forall k :: 0 <= k < |log| ==> log[k].at <= start + 20_000_000_000 && log[k].took <= 27_000_000_000
  {
    if n == 0 {
    } else {
      FetchesBounded(path, ids, turns, n - 1, start);
      LogGrows(ids, turns, n, start);
      assert MayTry(path, turns, n - 1) && Timed(turns[n - 1]);
      var before, log := Fetches(ids, turns, n - 1, start), Fetches(ids, turns, n, start);
      forall k | 0 <= k < |log| ensures log[k].at <= start + 20_000_000_000 && log[k].took <= 27_000_000_000 {
        if k < |before| {
          assert log[k] == before[k];
        }
      }
    }
  }

  lemma {:induction false} NoneFinal(path: string, ids: seq<string>, turns: seq<Turn>, n: nat, start: nat)
    requires n <= |ids| == |turns| && forall i :: 0 <= i <= n ==> MayTry(path, turns, i)
    ensures var log := Fetches(ids, turns, n, start);
            forall k :: 0 <= k < |log| ==> !Final(path, log[k].outcome)
  {
    if n == 0 {
    } else {
      NoneFinal(path, ids, turns, n - 1, start);
      LogGrows(ids, turns, n, start);
      assert MayTry(path, turns, n);
      var before, log := Fetches(ids, turns, n - 1, start), Fetches(ids, turns, n, start);
      forall k | 0 <= k < |log| ensures !Final(path, log[k].outcome) {
        if k < |before| {
          assert log[k] == before[k];
        } else {
          FinalIsDecisive(path, log[k].outcome);
        }
      }
    }
  }

  lemma FinalIsLast(path: string, ids: seq<string>, turns: seq<Turn>, n: nat, start: nat)
    requires n <= |ids| == |turns| && forall i :: 0 <= i < n ==> MayTry(path, turns, i)
    ensures NothingAfterFinal(path, Fetches(ids, turns, n, start))
  {
    if n > 0 {
      NoneFinal(path, ids, turns, n - 1, start);
      LogGrows(ids, turns, n, start);
      var before, log := Fetches(ids, turns, n - 1, start), Fetches(ids, turns, n, start);
      forall k | 0 <= k < |log| - 1 ensures !Final(path, log[k].outcome) {
        assert log[k] == before[k];
      }
    }
  }

  lemma {:induction false} LastOkLogged(log: seq<Forwarded>)
    requires LastOk(log).Some?
    ensures exists k :: 0 <= k < |log| && log[k].outcome == Ok(LastOk(log).value)
  {
    if log[|log| - 1].outcome.Ok? {
    } else {
      LastOkLogged(log[..|log| - 1]);
      var k :| 0 <= k < |log| - 1 && log[..|log| - 1][k].outcome == Ok(LastOk(log).value);
      assert log[k] == log[..|log| - 1][k];
    }
  }

  /** The loop gives up early only after three fetches, 20 s or a final reply. */
  lemma WhyStopped(path: string, ids: seq<string>, turns: seq<Turn>, n: nat, start: nat)
    requires n < |ids| == |turns| && !MayTry(path, turns, n) && forall i :: 0 <= i < n ==> MayTry(path, turns, i)
    ensures var log := Fetches(ids, turns, n, start);
            |log| >= 3 || Elapsed(turns, n) > 20_000_000_000 || EndsFinal(path, log)
  {
    var log := Fetches(ids, turns, n, start);
    FetchesTimed(ids, turns, n, start);
    if Settled(path, LastReply(turns, n)) {
      LastReplyLogged(ids, turns, n, start);
      LastOkLogged(log);
      var k :| 0 <= k < |log| && log[k].outcome == Ok(LastOk(log).value);
      FinalIsDecisive(path, log[k].outcome);
      FinalIsLast(path, ids, turns, n, start);
      assert k == |log| - 1;
    }
  }

  lemma TriedStill(id: string, turn: Turn, before: seq<Forwarded>, log: seq<Forwarded>)
    requires turn.Fetch? && before <= log && Tried(id, turn, before)
    ensures Tried(id, turn, log)
  {
    var k :| 0 <= k < |before| && before[k].id == id && before[k].outcome == turn.outcome
             && before[k].took == turn.slotWait + turn.upstream;
    assert log[k] == before[k];
  }

  lemma {:induction false} AllAreTried(ids: seq<string>, turns: seq<Turn>, n: nat, start: nat)
    requires n <= |ids| == |turns|
    ensures AllTried(ids, turns, n, Fetches(ids, turns, n, start))
  {
    if n == 0 {
    } else {
      AllAreTried(ids, turns, n - 1, start);
      LogGrows(ids, turns, n, start);
      var log, before := Fetches(ids, turns, n, start), Fetches(ids, turns, n - 1, start);
      assert turns[n - 1].Fetch? ==> Tried(ids[n - 1], turns[n - 1], log);
      forall i | 0 <= i < n - 1 && turns[i].Fetch? ensures Tried(ids[i], turns[i], log) {
        TriedStill(ids[i], turns[i], before, log);
      }
    }
  }

  /** All that is promised about the loop. */
  ghost predicate Kept(path: string, ids: seq<string>, turns: seq<Turn>, start: nat,
                       resp: Response, log: seq<Forwarded>, looked: nat, end: nat)
    requires |ids| == |turns|
  {
    && looked <= |turns| && |log| <= 3
    && Timely(log, start, end) && end <= start + 47_000_000_000 < start + 60_000_000_000
    && NothingAfterFinal(path, log) && AllTried(ids, turns, looked, log)
    && (looked < |turns| ==> |log| == 3 || end > start + 20_000_000_000 || EndsFinal(path, log))
    && Responds(path, LastOk(log), resp)
  }

  /** The last reply is the response, to be cached iff it is a success on a path
      whose answers are the same for everyone; without any there is a refusal. */
  predicate Responds(path: string, last: Option<Reply>, resp: Response) {
    if last.None? then resp == Refused("no available instance")
    else resp == Passed(last.value, last.value.code == 0 && path in ["/m3u8", "/webplayback", "/key", "/lyrics"])
  }

  lemma EarlierRepliesRetryable(path: string, turns: seq<Turn>, n: nat)
    requires n <= |turns|
    requires forall i :: 0 <= i < n ==> MayTry(path, turns, i)
    ensures EarlierRetryable(path, turns, n)
    ensures Attempts(turns, n) <= MAX_RETRY_ATTEMPTS
    ensures n > 0 ==> Elapsed(turns, n - 1) <= OVERALL_RETRY_BUDGET
  {
    if n > 0 {
      assert MayTry(path, turns, n - 1);
    }
    forall i, j | 0 <= i < j < n && HasReply(turns[i]) && HasReply(turns[j])
      ensures turns[i].outcome.value.code != 0 && ShouldRetryLiteFailure(path, turns[i].outcome.value.code)
    {
      assert MayTry(path, turns, i + 1);
    }
  }

  function Verdict(path: string, last: Option<Reply>): Response {
    if last.None? then Refused("no available instance")
    else Passed(last.value, IsCacheablePath(path) && last.value.code == 0)
  }

  method WriteLiteBody(path: string, body: string, code: int) returns (resp: Response)
    ensures resp == Passed(Reply(body, code), IsCacheablePath(path) && code == 0)
  {
    var public := false;
    if IsCacheablePath(path) {
      public := code == 0;
    }
    resp := Passed(Reply(body, code), public);
  }

  /** The loop over the candidates. `looked` of them are looked at, exactly as
      many as the loop may try, and the last business reply is the response. */
  method Walk(path: string, candidates: seq<string>, turns: seq<Turn>, start: nat)
    returns (resp: Response, log: seq<Forwarded>, looked: nat, end: nat)
    requires |turns| == |candidates|
    ensures looked <= |turns| && log == Fetches(candidates, turns, looked, start)
    ensures forall i :: 0 <= i < looked ==> MayTry(path, turns, i)
    ensures looked < |turns| ==> !MayTry(path, turns, looked)
    ensures end == start + Elapsed(turns, looked)
    ensures resp == Verdict(path, LastReply(turns, looked))
  {
    log, looked, end := [], 0, start;
    var last: Option<Reply> := None;
    var attempts := 0;
    var deadline := start + OVERALL_RETRY_BUDGET;
    for i := 0 to |candidates|
      invariant looked == i && log == Fetches(candidates, turns, i, start)
      invariant forall k :: 0 <= k < i ==> MayTry(path, turns, k)
      invariant attempts == Attempts(turns, i)
      invariant end == start + Elapsed(turns, i)
      invariant last == LastReply(turns, i) && !Settled(path, last)
    {
      if attempts >= MAX_RETRY_ATTEMPTS || end > deadline {
        break;
      }
      looked := i + 1;
      if turns[i].Vanished? {
        continue;
      }
      attempts := attempts + 1;
      log := log + [Forwarded(candidates[i], end, turns[i].slotWait + turns[i].upstream, turns[i].outcome)];
      end := end + turns[i].slotWait + turns[i].upstream;
      if turns[i].outcome.Err? {
        continue;
      }
      var reply := turns[i].outcome.value;
      if reply.code == 0 || i == |candidates| - 1 || !ShouldRetryLiteFailure(path, reply.code) {
        resp := WriteLiteBody(path, reply.body, reply.code);
        return;
      }
      last := Some(reply);
    }
    if last != None {
      resp := WriteLiteBody(path, last.value.body, last.value.code);
      return;
    }
    resp := Refused("no available instance");
  }

  lemma LoopKept(path: string, ids: seq<string>, turns: seq<Turn>, start: nat, looked: nat)
    requires looked <= |ids| == |turns| && forall i :: 0 <= i < |turns| ==> Timed(turns[i])
    requires forall i :: 0 <= i < looked ==> MayTry(path, turns, i)
    requires looked < |turns| ==> !MayTry(path, turns, looked)
    ensures Kept(path, ids, turns, start, Verdict(path, LastReply(turns, looked)),
                 Fetches(ids, turns, looked, start), looked, start + Elapsed(turns, looked))
  {
    var log := Fetches(ids, turns, looked, start);
    FetchesTimed(ids, turns, looked, start);
    FetchesBounded(path, ids, turns, looked, start);
    FinalIsLast(path, ids, turns, looked, start);
    AllAreTried(ids, turns, looked, start);
    LastReplyLogged(ids, turns, looked, start);
    if looked > 0 {
      assert MayTry(path, turns, looked - 1);
    }
    if looked < |turns| {
      WhyStopped(path, ids, turns, looked, start);
    }
  }

  /** Serves one request. Exactly one response is written, the last business
      reply or a refusal when there was none. At most three fetches are made, one
      after the other, none later than 20 s after the start of the loop; a final
      reply ends it, and nothing but that, the third fetch or the deadline does
      while there are candidates. It is over within 47 s, well before the server's
      write timeout. */
  method SelectAndProxy(path: string, selection: Result<seq<string>>, turns: seq<Turn>, start: nat)
    returns (resp: Response, log: seq<Forwarded>, looked: nat, end: nat)
    requires selection.Ok? ==> |turns| == |selection.value|
    requires forall i :: 0 <= i < |turns| ==> Timed(turns[i])
    ensures selection.Err? ==> resp == Refused(selection.msg) && log == [] && looked == 0 && end == start
    ensures selection.Ok? ==> looked <= |turns| && log == Fetches(selection.value, turns, looked, start)
    ensures selection.Ok? ==> Kept(path, selection.value, turns, start, resp, log, looked, end)
    ensures looked <= |turns| && EarlierRetryable(path, turns, looked)
  {
    log, looked, end := [], 0, start;
    if selection.Err? {
      resp := Refused(selection.msg);
      return;
    }
    if |selection.value| == 0 {
      resp := Refused("no available instance");
      return;
    }
    resp, log, looked, end := Walk(path, selection.value, turns, start);
    LoopKept(path, selection.value, turns, start, looked);
    EarlierRepliesRetryable(path, turns, looked);
  }
}
