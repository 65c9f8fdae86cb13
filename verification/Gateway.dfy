/** One resource request from selection to response. */
module Gateway {
  import opened Outcomes
  import opened ProbeKeys
  import opened Registry
  import opened Selection
  import PC = ProbeCache
  import B = Breaker
  import R = Retry

  /** Why an account may be sent this request: it was registered when instances
      were selected, at the moment it was asked about it had not tripped within
      the cooldown since it was last inserted, whatever happened to the breaker
      meanwhile, and its region's catalog has the item. */
  ghost predicate Entitled(memo: ProbeMemo, h: Trace<B.Event>, all: seq<WrapperInstance>, asks: seq<Ask>, adamId: string, id: string)
    reads all
    requires |asks| == |all|
  {
    exists i :: 0 <= i < |all| && all[i].id == id
      && Rested(HistoryAt(h, all, asks, i), id, asks[i].now)
      && (memo.catalog(Region(false, all[i].region, adamId)) || memo.catalog(Region(true, all[i].region, adamId)))
  }

  ghost predicate AllEntitled(memo: ProbeMemo, h: Trace<B.Event>, all: seq<WrapperInstance>, asks: seq<Ask>, adamId: string, ids: seq<string>)
    reads all
    requires |asks| == |all|
  {
    forall id :: id in ids ==> Entitled(memo, h, all, asks, adamId, id)
  }

  lemma NoRepeatsByMultiset(a: seq<string>, b: seq<string>)
    requires multiset(a) == multiset(b) && NoRepeats(b)
    ensures NoRepeats(a)
    ensures forall id :: id in a <==> id in b
  {
    SameMembers(a, b);
    forall i, j | 0 <= i < j < |a| ensures a[i] != a[j] {
      if a[i] == a[j] {
        Twice(a, i, j);
        var k :| 0 <= k < |b| && b[k] == a[i];
        Once(b, k);
      }
    }
  }

  lemma Twice(a: seq<string>, i: nat, j: nat)
    requires i < j < |a| && a[i] == a[j]
    ensures multiset(a)[a[i]] >= 2
  {
    assert a == a[..j] + [a[j]] + a[j + 1..];
    assert a[..j][i] == a[i];
  }

  lemma Once(b: seq<string>, k: nat)
    requires k < |b| && NoRepeats(b)
    ensures multiset(b)[b[k]] == 1
  {
    assert b == b[..k] + [b[k]] + b[k + 1..];
    assert b[k] !in b[..k];
    assert b[k] !in b[k + 1..];
  }

  /** Whatever selection returned is distinct ids of entitled accounts. */
  lemma SelectedAreEntitled(memo: ProbeMemo, h: Trace<B.Event>, all: seq<WrapperInstance>, asks: seq<Ask>, adamId: string,
                            song: string -> PC.Reply, before: map<string, bool>, after: map<string, bool>,
                            songs: seq<Probe>, ids: seq<string>)
    requires |asks| == |all| && UniqueIds(all)
    requires SongResults(memo, Filtered(h, all, asks), adamId, song, before, after, songs)
    requires Selected(memo, Filtered(h, all, asks), adamId, songs, ids)
    ensures NoRepeats(ids)
    ensures AllEntitled(memo, h, all, asks, adamId, ids)
  {
    var xs := Filtered(h, all, asks);
    var hits, videos := Hits(songs, |xs|), VideoIds(memo, xs, adamId, |xs|);
    FilteredFacts(h, all, asks);
    HitsFacts(songs, |xs|);
    VideoIdsFacts(memo, xs, adamId, |xs|);
    NoRepeatsByMultiset(ids, if hits != [] then hits else videos);
    forall id | id in ids ensures Entitled(memo, h, all, asks, adamId, id) {
      if hits != [] {
        assert IsHit(songs, |xs|, id);
        var k :| 0 <= k < |xs| && songs[k].ok && songs[k].id == id;
        assert SongResult(memo, xs[k], adamId, song, before, after, songs[k]);
        EntitledAt(memo, h, all, asks, adamId, xs[k]);
      } else {
        assert IsVideo(memo, xs, adamId, |xs|, id);
        var k :| 0 <= k < |xs| && xs[k].id == id && memo.catalog(Region(true, xs[k].region, adamId));
        EntitledAt(memo, h, all, asks, adamId, xs[k]);
      }
    }
  }

  lemma EntitledAt(memo: ProbeMemo, h: Trace<B.Event>, all: seq<WrapperInstance>, asks: seq<Ask>, adamId: string, x: WrapperInstance)
    requires |asks| == |all| && x in Filtered(h, all, asks)
    requires memo.catalog(Region(false, x.region, adamId)) || memo.catalog(Region(true, x.region, adamId))
    ensures Entitled(memo, h, all, asks, adamId, x.id)
  {
    FilteredFacts(h, all, asks);
    assert Kept(h, all, asks, x);
    var i :| 0 <= i < |all| && KeptAt(h, all, asks, x, i);
    assert all[i].id == x.id && Rested(HistoryAt(h, all, asks, i), x.id, asks[i].now);
  }

  /** Selection for a request: exact, and only entitled accounts, each once. */
  method SelectEntitled(registry: InstanceRegistry, memo: ProbeMemo, adamId: string, asks: seq<Ask>,
                        song: string -> PC.Reply, mv: string -> PC.Reply)
    returns (selection: Result<seq<string>>, ghost songs: seq<Probe>)
    requires registry.Valid() && memo.Valid() && |asks| == |registry.Contents()|
    requires Feasible(registry.circuits.history, registry.Contents(), asks)
    requires Asked(memo, registry.Contents(), adamId, song, mv)
    modifies registry.circuits, memo`regionCache
    ensures registry.Valid() && memo.Valid() && registry.Contents() == old(registry.Contents())
    ensures Exact(memo, Filtered(old(registry.circuits.history), registry.Contents(), asks), adamId, song,
                  old(memo.regionCache), memo.regionCache, songs, selection)
    ensures selection.Ok? ==> NoRepeats(selection.value)
    ensures selection.Ok? ==>
              AllEntitled(memo, old(registry.circuits.history), registry.Contents(), asks, adamId, selection.value)
  {
    selection, songs := SelectInstances(registry, memo, adamId, asks, song, mv);
    if selection.Ok? {
      RegistryIsOrderedMap(registry.ops);
      SelectedAreEntitled(memo, old(registry.circuits.history), registry.Contents(), asks, adamId, song,
                          old(memo.regionCache), memo.regionCache, songs, selection.value);
    }
  }

  /** What `SelectInstances` promises about the eligible instances. */
  ghost predicate Exact(memo: ProbeMemo, xs: seq<WrapperInstance>, adamId: string, song: string -> PC.Reply,
                        before: map<string, bool>, after: map<string, bool>,
                        songs: seq<Probe>, selection: Result<seq<string>>)
    reads xs
  {
    && SongResults(memo, xs, adamId, song, before, after, songs)
    && (selection.Ok? ==> Selected(memo, xs, adamId, songs, selection.value))
    && (selection.Ok? ==> Exactly(memo, xs, adamId, songs, selection.value))
    && (selection.Err? ==> adamId != "0" && Hits(songs, |songs|) == [])
  }

  /** What came of forwarding a request: only selected accounts were asked, none
      twice, and the loop kept all its promises; without a selection nobody was
      asked and its error is the response. */
  ghost predicate Settles(path: string, selection: Result<seq<string>>, turn: string -> R.Turn, start: nat,
                          resp: R.Response, log: seq<R.Forwarded>, looked: nat, end: nat)
  {
    && (forall j, k :: 0 <= j < k < |log| ==> log[j].id != log[k].id)
    && match selection
       case Err(msg) => resp == R.Refused(msg) && log == [] && end == start
       case Ok(ids) =>
         && (forall k :: 0 <= k < |log| ==> log[k].id in ids)
         && R.Kept(path, ids, Turns(ids, turn), start, resp, log, looked, end)
  }

  function Turns(ids: seq<string>, turn: string -> R.Turn): (turns: seq<R.Turn>)
    ensures |turns| == |ids| && forall i :: 0 <= i < |ids| ==> turns[i] == turn(ids[i])
  {
    seq(|ids|, i requires 0 <= i < |ids| => turn(ids[i]))
  }

  method Forward(path: string, selection: Result<seq<string>>, turn: string -> R.Turn, start: nat)
    returns (resp: R.Response, log: seq<R.Forwarded>, looked: nat, end: nat)
    requires selection.Ok? ==> NoRepeats(selection.value)
    requires forall id :: R.Timed(turn(id))
    ensures Settles(path, selection, turn, start, resp, log, looked, end)
  {
    var ids := if selection.Ok? then selection.value else [];
    var turns := Turns(ids, turn);
    resp, log, looked, end := R.SelectAndProxy(path, selection, turns, start);
    if selection.Ok? {
      R.EachIdOnce(ids, turns, looked, start);
    }
  }

  /** End to end: the request is forwarded to entitled instances only, none
      twice, and the response is the last reply received from them, or a refusal
      exactly when there was none. */
  method ServeRequest(registry: InstanceRegistry, memo: ProbeMemo, path: string, adamId: string, asks: seq<Ask>,
                      song: string -> PC.Reply, mv: string -> PC.Reply, turn: string -> R.Turn, start: nat)
    returns (resp: R.Response, log: seq<R.Forwarded>, looked: nat, end: nat,
             ghost selection: Result<seq<string>>, ghost songs: seq<Probe>)
    requires registry.Valid() && memo.Valid() && |asks| == |registry.Contents()|
    requires Feasible(registry.circuits.history, registry.Contents(), asks)
    requires Asked(memo, registry.Contents(), adamId, song, mv)
    requires forall id :: R.Timed(turn(id))
    modifies registry.circuits, memo`regionCache
    ensures registry.Valid() && memo.Valid() && registry.Contents() == old(registry.Contents())
    ensures Exact(memo, Filtered(old(registry.circuits.history), registry.Contents(), asks), adamId, song,
                  old(memo.regionCache), memo.regionCache, songs, selection)
    ensures AllEntitled(memo, old(registry.circuits.history), registry.Contents(), asks, adamId, Ids(log))
    ensures Settles(path, selection, turn, start, resp, log, looked, end)
    ensures resp.Refused? <==> R.LastOk(log).None?
  {
    var chosen;
    chosen, songs := SelectEntitled(registry, memo, adamId, asks, song, mv);
    selection := chosen;
    ghost var all := registry.Contents();
    assert Exact(memo, Filtered(old(registry.circuits.history), all, asks), adamId, song,
                 old(memo.regionCache), memo.regionCache, songs, chosen);
    resp, log, looked, end := Forward(path, chosen, turn, start);
    LogEntitled(memo, old(registry.circuits.history), all, asks, adamId,
                path, chosen, turn, start, resp, log, looked, end);
  }

  /** The accounts a request was forwarded to. */
  function Ids(log: seq<R.Forwarded>): seq<string> {
    seq(|log|, k requires 0 <= k < |log| => log[k].id)
  }

  lemma LogEntitled(memo: ProbeMemo, h: Trace<B.Event>, all: seq<WrapperInstance>, asks: seq<Ask>, adamId: string,
                    path: string, selection: Result<seq<string>>, turn: string -> R.Turn, start: nat,
                    resp: R.Response, log: seq<R.Forwarded>, looked: nat, end: nat)
    requires |asks| == |all|
    requires Settles(path, selection, turn, start, resp, log, looked, end)
    requires selection.Ok? ==> AllEntitled(memo, h, all, asks, adamId, selection.value)
    ensures AllEntitled(memo, h, all, asks, adamId, Ids(log))
    ensures resp.Refused? <==> R.LastOk(log).None?
  {
  }
}
