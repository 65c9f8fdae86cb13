/** Choosing which instances may serve a request. */
module Selection {
  import opened Outcomes
  import opened ProbeKeys
  import opened Registry
  import PC = ProbeCache

  /** The two probe caches, for a catalog that does not change while a request is
      served and requests of which no two share a key. */
  class ProbeMemo {
    var regionCache: map<string, bool>
    var lyricsCache: map<string, bool>
    ghost const catalog: Request -> bool
    ghost const workload: iset<Request>

    ghost function Cached(q: Request): Option<bool>
      reads this
    {
      var m := if q.Lyrics? then lyricsCache else regionCache;
      if CacheKey(q) in m then Some(m[CacheKey(q)]) else None
    }

    ghost predicate Agrees(q: Request)
      reads this
    {
      && (Wildcard(q) ==> catalog(q))
      && (Cached(q).Some? ==> Cached(q).value == catalog(q))
    }

    ghost predicate Valid()
      reads this
    {
      && (forall q, r {:trigger FlightKey(q), FlightKey(r)} ::
            q in workload && r in workload && FlightKey(q) == FlightKey(r) ==> q == r)
      && (forall q {:trigger Agrees(q)} :: q in workload ==> Agrees(q))
    }

    constructor (ghost catalog: Request -> bool, ghost workload: iset<Request>)
      requires forall q, r {:trigger FlightKey(q), FlightKey(r)} ::
                 q in workload && r in workload && FlightKey(q) == FlightKey(r) ==> q == r
      requires forall q {:trigger catalog(q)} :: q in workload && Wildcard(q) ==> catalog(q)
      ensures Valid() && this.catalog == catalog && this.workload == workload
    {
      this.catalog, this.workload := catalog, workload;
      regionCache, lyricsCache := map[], map[];
    }

    /** The reply a probe gets agrees with the catalog, unless it is an error. */
    ghost predicate Truthful(q: Request, reply: PC.Reply) {
      PC.Outcome(q, reply).Ok? ==> PC.Outcome(q, reply).value == catalog(q)
    }

    /** The answer is the catalog's, remembered or not; an error leaves no trace. */
    method CheckAvailableOnRegion(adamId: string, region: string, mv: bool, reply: PC.Reply)
      returns (r: Result<bool>)
      requires Valid() && Region(mv, region, adamId) in workload
      requires Truthful(Region(mv, region, adamId), reply)
      modifies this`regionCache
      ensures Valid()
      ensures r.Ok? ==> r.value == catalog(Region(mv, region, adamId))
      ensures r.Err? <==> old(Cached(Region(mv, region, adamId))).None? && adamId != "0" && reply.Failed?
      ensures regionCache == if old(Cached(Region(mv, region, adamId))).None? && adamId != "0" && reply.Data?
                             then old(regionCache)[CacheKey(Region(mv, region, adamId)) := reply.found] else old(regionCache)
    {
      var cacheKey := if mv then "mv/" + region + "/" + adamId else "song/" + region + "/" + adamId;
      ghost var q := Region(mv, region, adamId);
      KeyOfRegion(q);
      assert Agrees(q);
      if cacheKey in regionCache {
        return Ok(regionCache[cacheKey]);
      }
      if adamId == "0" {
        return Ok(true);
      }
      match reply {
        case Failed(msg) => return Err(msg);
        case Errors => return Ok(false);
        case Data(available) =>
          regionCache := regionCache[cacheKey := available];
          forall r | r in workload ensures Agrees(r) {
            assert old(Agrees(r));
            assert r.Region? && CacheKey(r) == CacheKey(q) ==> FlightKey(r) == FlightKey(q);
          }
          return Ok(available);
      }
    }

    /** Whether a song has lyrics, with an empty script read as the default. */
    method HasLyricsCached(adamId: string, region: string, language: string, script: string, reply: PC.Reply)
      returns (ok: bool)
      requires Valid() && Target(Lyrics(region, language, script, adamId)) in workload
      requires Truthful(Target(Lyrics(region, language, script, adamId)), reply)
      modifies this`lyricsCache
      ensures Valid() && ok == catalog(Target(Lyrics(region, language, script, adamId)))
      ensures ok == catalog(Lyrics(region, language, if script == "" then "en-Latn" else script, adamId))
      ensures lyricsCache == old(lyricsCache)[CacheKey(Target(Lyrics(region, language, script, adamId))) := ok]
    {
      var s := if script == "" then DEFAULT_LYRICS_SCRIPT else script;
      ghost var q := Lyrics(region, language, s, adamId);
      var cacheKey := "lyrics/" + Joined([region, language, s, adamId]);
      assert cacheKey == CacheKey(q);
      assert Agrees(q);
      if cacheKey in lyricsCache {
        ok := lyricsCache[cacheKey];
        assert lyricsCache[cacheKey := ok] == lyricsCache;
        return;
      }
      ok := reply == PC.Data(true);
      lyricsCache := lyricsCache[cacheKey := ok];
      forall r | r in workload ensures Agrees(r) {
        assert old(Agrees(r));
        assert r.Lyrics? && CacheKey(r) == CacheKey(q) ==> FlightKey(r) == FlightKey(q);
      }
    }
  }

  lemma KeyOfRegion(q: Request)
    requires q.Region?
    ensures CacheKey(q) == (if q.mv then "mv/" else "song/") + q.region + "/" + q.adamId
  {
    assert Parts(q)[1..] == [q.adamId];
    assert Joined(Parts(q)) == q.region + "/" + q.adamId;
    assert "mv/" + (q.region + "/" + q.adamId) == "mv/" + q.region + "/" + q.adamId;
    assert "song/" + (q.region + "/" + q.adamId) == "song/" + q.region + "/" + q.adamId;
  }

  datatype Probe = Probe(id: string, ok: bool)

  /** The ids of the first `n` probes that succeeded. */
  function Hits(results: seq<Probe>, n: nat): seq<string>
    requires n <= |results|
  {
    if n == 0 then []
    else Hits(results, n - 1) + (if results[n - 1].ok then [results[n - 1].id] else [])
  }

  predicate NoRepeats(ids: seq<string>) {
    forall i, j :: 0 <= i < j < |ids| ==> ids[i] != ids[j]
  }

  ghost predicate IsHit(results: seq<Probe>, n: nat, id: string)
    requires n <= |results|
  {
    exists i :: 0 <= i < n && results[i].ok && results[i].id == id
  }

  lemma LastHit(results: seq<Probe>, n: nat, id: string)
    requires 0 < n <= |results|
    ensures IsHit(results, n, id) <==> IsHit(results, n - 1, id) || (results[n - 1].ok && results[n - 1].id == id)
  {
  }

  lemma {:induction false} HitsFacts(results: seq<Probe>, n: nat)
    requires n <= |results|
    ensures forall id :: id in Hits(results, n) <==> IsHit(results, n, id)
    ensures (forall i, j :: 0 <= i < j < n ==> results[i].id != results[j].id) ==> NoRepeats(Hits(results, n))
  {
    if n == 0 {
    } else {
      HitsFacts(results, n - 1);
      forall id ensures id in Hits(results, n) <==> IsHit(results, n, id) {
        LastHit(results, n, id);
      }
      if forall i, j :: 0 <= i < j < n ==> results[i].id != results[j].id {
        assert !IsHit(results, n - 1, results[n - 1].id);
      }
    }
  }

  method CollectHits(results: array<Probe>) returns (hit: seq<string>)
    ensures hit == Hits(results[..], results.Length)
  {
    hit := [];
    for i := 0 to results.Length
      invariant hit == Hits(results[..], i)
    {
      if results[i].ok {
        hit := hit + [results[i].id];
      }
    }
  }

  /** `rand.Shuffle` with any random numbers: a permutation, in place. */
  method Shuffle(a: array<string>)
    modifies a
    ensures multiset(a[..]) == multiset(old(a[..]))
  {
    var i := a.Length - 1;
    while i > 0
      invariant multiset(a[..]) == multiset(old(a[..]))
    {
      var j :| 0 <= j <= i;
      a[i], a[j] := a[j], a[i];
      i := i - 1;
    }
  }

  method Shuffled(selected: seq<string>) returns (ids: seq<string>)
    ensures multiset(ids) == multiset(selected)
  {
    var list := new string[|selected|](i requires 0 <= i < |selected| => selected[i]);
    assert list[..] == selected;
    Shuffle(list);
    ids := list[..];
  }

  function SongProbe(x: WrapperInstance, adamId: string): Request
    reads x
  {
    Region(false, x.region, adamId)
  }

  function MvProbe(x: WrapperInstance, adamId: string): Request
    reads x
  {
    Region(true, x.region, adamId)
  }

  /** What the song probes found, given the cache before and after them: a hit is
      true in the catalog; a probe that did not fail, or was not needed, found
      exactly what is there; and a failed one found nothing. */
  ghost predicate SongResults(memo: ProbeMemo, xs: seq<WrapperInstance>, adamId: string, song: string -> PC.Reply,
                              before: map<string, bool>, after: map<string, bool>, results: seq<Probe>)
    reads xs
  {
    && |results| == |xs|
    && before.Keys <= after.Keys
    && forall i :: 0 <= i < |xs| ==> SongResult(memo, xs[i], adamId, song, before, after, results[i])
  }

  ghost predicate SongResult(memo: ProbeMemo, x: WrapperInstance, adamId: string, song: string -> PC.Reply,
                             before: map<string, bool>, after: map<string, bool>, p: Probe)
    reads x
  {
    var q := Region(false, x.region, adamId);
    && p.id == x.id
    && (p.ok ==> memo.catalog(q))
    && (!song(x.id).Failed? || adamId == "0" || CacheKey(q) in before ==> p.ok == memo.catalog(q))
    && (p.ok ==> !song(x.id).Failed? || adamId == "0" || CacheKey(q) in after)
  }

  ghost predicate Asked(memo: ProbeMemo, xs: seq<WrapperInstance>, adamId: string, song: string -> PC.Reply, mv: string -> PC.Reply)
    reads xs
  {
    forall x :: x in xs ==>
      && SongProbe(x, adamId) in memo.workload && memo.Truthful(SongProbe(x, adamId), song(x.id))
      && MvProbe(x, adamId) in memo.workload && memo.Truthful(MvProbe(x, adamId), mv(x.id))
  }

  predicate IsSlot(i: int, n: nat) {
    0 <= i < n
  }

  /** Probes every instance, in whatever order the workers get to them; each
      worker fills its own slot. */
  method ProbeSongs(memo: ProbeMemo, xs: seq<WrapperInstance>, adamId: string, song: string -> PC.Reply, ghost mv: string -> PC.Reply)
    returns (results: array<Probe>)
    requires memo.Valid() && Asked(memo, xs, adamId, song, mv)
    modifies memo`regionCache
    ensures memo.Valid() && fresh(results)
    ensures SongResults(memo, xs, adamId, song, old(memo.regionCache), memo.regionCache, results[..])
  {
    results := new Probe[|xs|](_ => Probe("", false));
    var todo := set i | 0 <= i < |xs| && IsSlot(i, |xs|);
    while todo != {}
      invariant memo.Valid() && forall i :: i in todo ==> IsSlot(i, |xs|)
      invariant old(memo.regionCache).Keys <= memo.regionCache.Keys
      invariant forall i :: 0 <= i < |xs| && i !in todo ==>
                  SongResult(memo, xs[i], adamId, song, old(memo.regionCache), memo.regionCache, results[i])
      decreases todo
    {
      var i :| i in todo;
      var r := memo.CheckAvailableOnRegion(adamId, xs[i].region, false, song(xs[i].id));
      match r {
        case Err(_) => results[i] := Probe(xs[i].id, false);
        case Ok(ok) => results[i] := Probe(xs[i].id, ok);
      }
      todo := todo - {i};
    }
  }

  /** Some of the first `n` instances has the id, and its region the music video. */
  ghost predicate IsVideo(memo: ProbeMemo, xs: seq<WrapperInstance>, adamId: string, n: nat, id: string)
    reads xs
    requires n <= |xs|
  {
    exists i :: 0 <= i < n && xs[i].id == id && memo.catalog(Region(true, xs[i].region, adamId))
  }

  lemma LastVideo(memo: ProbeMemo, xs: seq<WrapperInstance>, adamId: string, n: nat, id: string)
    requires 0 < n <= |xs|
    ensures IsVideo(memo, xs, adamId, n, id) <==>
              IsVideo(memo, xs, adamId, n - 1, id)
              || (xs[n - 1].id == id && memo.catalog(Region(true, xs[n - 1].region, adamId)))
  {
  }

  lemma {:induction false} VideoIdsFacts(memo: ProbeMemo, xs: seq<WrapperInstance>, adamId: string, n: nat)
    requires n <= |xs|
    ensures forall id :: id in VideoIds(memo, xs, adamId, n) <==> IsVideo(memo, xs, adamId, n, id)
    ensures UniqueIds(xs) ==> NoRepeats(VideoIds(memo, xs, adamId, n))
  {
    if n == 0 {
    } else {
      VideoIdsFacts(memo, xs, adamId, n - 1);
      forall id ensures id in VideoIds(memo, xs, adamId, n) <==> IsVideo(memo, xs, adamId, n, id) {
        LastVideo(memo, xs, adamId, n, id);
      }
      if UniqueIds(xs) {
        assert !IsVideo(memo, xs, adamId, n - 1, xs[n - 1].id);
      }
    }
  }

  lemma SameMembers(a: seq<string>, b: seq<string>)
    requires multiset(a) == multiset(b)
    ensures forall id :: id in a <==> id in b
  {
    forall id ensures id in a <==> id in b {
      assert id in a <==> id in multiset(a);
    }
  }

  /** Exactly the instances with a song hit are selected or, when there is no song
      hit, exactly those whose region has the music video. */
  ghost predicate Exactly(memo: ProbeMemo, xs: seq<WrapperInstance>, adamId: string, songs: seq<Probe>, ids: seq<string>)
    reads xs
  {
    if exists i :: 0 <= i < |songs| && songs[i].ok
    then forall id :: id in ids <==> IsHit(songs, |songs|, id)
    else forall id :: id in ids <==> IsVideo(memo, xs, adamId, |xs|, id)
  }

  lemma SelectedExactly(memo: ProbeMemo, xs: seq<WrapperInstance>, adamId: string, songs: seq<Probe>, ids: seq<string>)
    requires |songs| == |xs| && Selected(memo, xs, adamId, songs, ids)
    ensures Exactly(memo, xs, adamId, songs, ids)
  {
    HitsFacts(songs, |xs|);
    VideoIdsFacts(memo, xs, adamId, |xs|);
    SameMembers(ids, if Hits(songs, |xs|) != [] then Hits(songs, |xs|) else VideoIds(memo, xs, adamId, |xs|));
    if i :| 0 <= i < |songs| && songs[i].ok {
      assert IsHit(songs, |songs|, songs[i].id);
    } else if Hits(songs, |xs|) != [] {
      assert IsHit(songs, |xs|, Hits(songs, |xs|)[0]);
    }
  }

  /** The ids of the first `n` instances whose region has the music video. */
  ghost function VideoIds(memo: ProbeMemo, xs: seq<WrapperInstance>, adamId: string, n: nat): seq<string>
    reads xs
    requires n <= |xs|
  {
    if n == 0 then []
    else VideoIds(memo, xs, adamId, n - 1) + (if memo.catalog(MvProbe(xs[n - 1], adamId)) then [xs[n - 1].id] else [])
  }

  /** Asks about music videos one by one; the first error ends the selection. */
  method ProbeVideos(memo: ProbeMemo, xs: seq<WrapperInstance>, adamId: string, ghost song: string -> PC.Reply, mv: string -> PC.Reply)
    returns (r: Result<seq<string>>)
    requires memo.Valid() && Asked(memo, xs, adamId, song, mv)
    modifies memo`regionCache
    ensures memo.Valid() && old(memo.regionCache).Keys <= memo.regionCache.Keys
    ensures r.Ok? ==> r.value == VideoIds(memo, xs, adamId, |xs|)
    ensures r.Ok? ==> forall id :: id in r.value <==> IsVideo(memo, xs, adamId, |xs|, id)
    ensures r.Err? ==> adamId != "0" && exists x :: x in xs && mv(x.id).Failed?
  {
    var selected := [];
    for i := 0 to |xs|
      invariant memo.Valid() && old(memo.regionCache).Keys <= memo.regionCache.Keys
      invariant selected == VideoIds(memo, xs, adamId, i)
    {
      var a := memo.CheckAvailableOnRegion(adamId, xs[i].region, true, mv(xs[i].id));
      if a.Err? {
        assert xs[i] in xs;
        return Err(a.msg);
      }
      if a.value {
        selected := selected + [xs[i].id];
      }
    }
    VideoIdsFacts(memo, xs, adamId, |xs|);
    return Ok(selected);
  }

  /** The selected ids, in any order: the song hits or, without any, the videos. */
  ghost predicate Selected(memo: ProbeMemo, xs: seq<WrapperInstance>, adamId: string, songs: seq<Probe>, ids: seq<string>)
    reads xs
    requires |songs| == |xs|
  {
    if Hits(songs, |xs|) != [] then multiset(ids) == multiset(Hits(songs, |xs|))
    else multiset(ids) == multiset(VideoIds(memo, xs, adamId, |xs|))
  }

  method SelectFrom(memo: ProbeMemo, xs: seq<WrapperInstance>, adamId: string,
                    song: string -> PC.Reply, mv: string -> PC.Reply)
    returns (r: Result<seq<string>>, ghost songs: seq<Probe>)
    requires memo.Valid() && Asked(memo, xs, adamId, song, mv)
    modifies memo`regionCache
    ensures memo.Valid() && SongResults(memo, xs, adamId, song, old(memo.regionCache), memo.regionCache, songs)
    ensures r.Ok? ==> Selected(memo, xs, adamId, songs, r.value) && Exactly(memo, xs, adamId, songs, r.value)
    ensures r.Err? ==> adamId != "0" && Hits(songs, |songs|) == [] && exists x :: x in xs && mv(x.id).Failed?
  {
    songs := [];
    if |xs| == 0 {
      r := Ok([]);
      return;
    }
    var slots := ProbeSongs(memo, xs, adamId, song, mv);
    var selected := CollectHits(slots);
    songs := slots[..];
    if |selected| == 0 {
      ghost var after := memo.regionCache;
      r := ProbeVideos(memo, xs, adamId, song, mv);
      ResultsKept(memo, xs, adamId, song, old(memo.regionCache), after, memo.regionCache, songs);
      if r.Err? {
        return;
      }
      selected := r.value;
    }
    var ids := Shuffled(selected);
    SelectedExactly(memo, xs, adamId, songs, ids);
    r := Ok(ids);
  }

  lemma ResultsKept(memo: ProbeMemo, xs: seq<WrapperInstance>, adamId: string, song: string -> PC.Reply,
                    before: map<string, bool>, after: map<string, bool>, later: map<string, bool>, songs: seq<Probe>)
    requires SongResults(memo, xs, adamId, song, before, after, songs) && after.Keys <= later.Keys
    ensures SongResults(memo, xs, adamId, song, before, later, songs)
  {
    forall i | 0 <= i < |xs| ensures SongResult(memo, xs[i], adamId, song, before, later, songs[i]) {
      assert SongResult(memo, xs[i], adamId, song, before, after, songs[i]);
    }
  }

  /** Selection is exact. Without an error the answer is a permutation of the
      eligible instances whose song probe succeeded or, when there is none, of
      those whose region has the music video; no id is lost or duplicated. An
      error means no song was found and a video probe failed. */
  method SelectInstances(registry: InstanceRegistry, memo: ProbeMemo, adamId: string, asks: seq<Ask>,
                         song: string -> PC.Reply, mv: string -> PC.Reply)
    returns (r: Result<seq<string>>, ghost songs: seq<Probe>)
    requires registry.Valid() && memo.Valid() && |asks| == |registry.Contents()|
    requires Feasible(registry.circuits.history, registry.Contents(), asks)
    requires Asked(memo, registry.Contents(), adamId, song, mv)
    modifies registry.circuits, memo`regionCache
    ensures registry.Valid() && memo.Valid() && registry.Contents() == old(registry.Contents())
    ensures registry.circuits.history == Queried(old(registry.circuits.history), registry.Contents(), asks)
    ensures SongResults(memo, Filtered(old(registry.circuits.history), registry.Contents(), asks), adamId, song,
                        old(memo.regionCache), memo.regionCache, songs)
    ensures r.Ok? ==> Selected(memo, Filtered(old(registry.circuits.history), registry.Contents(), asks), adamId, songs, r.value)
    ensures r.Ok? ==> Exactly(memo, Filtered(old(registry.circuits.history), registry.Contents(), asks), adamId, songs, r.value)
    ensures r.Err? ==> adamId != "0" && Hits(songs, |songs|) == []
                       && exists x :: x in registry.Contents() && mv(x.id).Failed?
  {
    var instances := registry.SelectableInstances(asks);
    r, songs := SelectFrom(memo, instances, adamId, song, mv);
  }
}
