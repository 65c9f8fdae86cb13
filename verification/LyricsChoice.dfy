/** Choosing an instance for a lyrics request, in two tiers. */
module LyricsChoice {
  import opened Outcomes
  import opened ProbeKeys
  import opened Registry
  import opened Selection
  import PC = ProbeCache
  import L = LangTags

  /** What a lyrics request asks for. */
  datatype Query = Query(adamId: string, language: string, script: string)

  function LyricsProbe(x: WrapperInstance, query: Query): Request
    reads x
  {
    Target(Lyrics(x.region, query.language, query.script, query.adamId))
  }

  /** The instance has a music token and the catalog has lyrics for its region. */
  ghost predicate Positive(memo: ProbeMemo, x: WrapperInstance, query: Query, music: string -> bool)
    reads x
  {
    music(x.id) && memo.catalog(LyricsProbe(x, query))
  }

  /** The same said in full. */
  ghost predicate CanServe(memo: ProbeMemo, id: string, region: string, query: Query, music: string -> bool) {
    music(id) && memo.catalog(Lyrics(region, query.language, if query.script == "" then "en-Latn" else query.script, query.adamId))
  }

  /** The instance serves the lyrics, and its storefront is known to support their
      language. */
  ghost predicate Fits(memo: ProbeMemo, x: WrapperInstance, query: Query, langs: Option<L.StorefrontLangs>, music: string -> bool)
    reads x
  {
    && CanServe(memo, x.id, x.region, query, music)
    && langs.Some? && L.Supports(langs.value, x.region, query.language)
  }

  /** An id is chosen iff some instance can serve the lyrics, it is the id of one
      that can, and of one that fits if there is any. */
  ghost predicate WellChosen(memo: ProbeMemo, xs: seq<WrapperInstance>, query: Query, langs: Option<L.StorefrontLangs>,
                             music: string -> bool, id: string)
    reads xs
  {
    && (id != "" <==> exists x :: x in xs && CanServe(memo, x.id, x.region, query, music))
    && (id != "" ==> exists x :: x in xs && x.id == id && CanServe(memo, x.id, x.region, query, music))
    && ((exists x :: x in xs && Fits(memo, x, query, langs, music)) ==> exists x :: x in xs && x.id == id && Fits(memo, x, query, langs, music))
  }

  lemma BestIsWellChosen(memo: ProbeMemo, xs: seq<WrapperInstance>, query: Query, langs: Option<L.StorefrontLangs>,
                         music: string -> bool, id: string)
    requires id == "" <==> forall x :: x in xs ==> !Positive(memo, x, query, music)
    requires id != "" ==> BestChoice(memo, xs, query, langs, music, id)
    ensures WellChosen(memo, xs, query, langs, music, id)
  {
    forall x | x in xs
      ensures Positive(memo, x, query, music) <==> CanServe(memo, x.id, x.region, query, music)
      ensures Fits(memo, x, query, langs, music) <==> Positive(memo, x, query, music) && Prefers(langs, x, query.language)
    {
    }
  }

  ghost predicate Prefers(langs: Option<L.StorefrontLangs>, x: WrapperInstance, language: string)
    reads x
  {
    langs.Some? && L.Supports(langs.value, x.region, language)
  }

  ghost predicate Asked(memo: ProbeMemo, xs: seq<WrapperInstance>, query: Query, lyrics: string -> PC.Reply)
    reads xs
  {
    forall x :: x in xs ==>
      LyricsProbe(x, query) in memo.workload && memo.Truthful(LyricsProbe(x, query), lyrics(x.id))
  }

  /** Whether one instance can serve the lyrics; without a music token it is not
      even probed. */
  method ProbeOne(memo: ProbeMemo, query: Query, inst: WrapperInstance, music: string -> bool, reply: PC.Reply)
    returns (ok: bool)
    requires memo.Valid() && LyricsProbe(inst, query) in memo.workload
    requires memo.Truthful(LyricsProbe(inst, query), reply)
    modifies memo`lyricsCache
    ensures memo.Valid() && (ok <==> Positive(memo, inst, query, music))
    ensures ok <==> CanServe(memo, inst.id, inst.region, query, music)
    ensures !music(inst.id) ==> memo.lyricsCache == old(memo.lyricsCache)
  {
    ok := false;
    if music(inst.id) {
      ok := memo.HasLyricsCached(query.adamId, inst.region, query.language, query.script, reply);
    }
  }

  /** `hit` has exactly those of the first `n` candidates that can serve. */
  ghost predicate Collected(memo: ProbeMemo, candidates: seq<WrapperInstance>, n: nat, query: Query, music: string -> bool,
                            hit: seq<WrapperInstance>)
    reads candidates
    requires n <= |candidates|
  {
    && (forall x :: x in hit ==> x in candidates && Positive(memo, x, query, music))
    && (forall k :: 0 <= k < n && Positive(memo, candidates[k], query, music) ==> candidates[k] in hit)
  }

  lemma CollectOne(memo: ProbeMemo, candidates: seq<WrapperInstance>, n: nat, query: Query, music: string -> bool,
                   hit: seq<WrapperInstance>, ok: bool)
    requires n < |candidates| && Collected(memo, candidates, n, query, music, hit)
    requires ok <==> Positive(memo, candidates[n], query, music)
    ensures Collected(memo, candidates, n + 1, query, music, if ok then hit + [candidates[n]] else hit)
  {
  }

  /** Looks every candidate up again, probes it, and returns a random one among
      those that answered yes; "" when there is none. */
  method PickLyricsInstanceWithSong(registry: InstanceRegistry, memo: ProbeMemo, query: Query, candidates: seq<WrapperInstance>,
                                    music: string -> bool, lyrics: string -> PC.Reply)
    returns (id: string)
    requires registry.Valid() && memo.Valid() && UniqueIds(registry.Contents())
    requires forall x :: x in candidates ==> x in registry.Contents() && x.id != ""
    requires Asked(memo, registry.Contents(), query, lyrics)
    modifies memo`lyricsCache
    ensures memo.Valid()
    ensures id == "" <==> forall x :: x in candidates ==> !Positive(memo, x, query, music)
    ensures id != "" ==> exists x :: x in candidates && x.id == id && Positive(memo, x, query, music)
  {
    var hit: seq<WrapperInstance> := [];
    for i := 0 to |candidates|
      invariant memo.Valid() && Collected(memo, candidates, i, query, music, hit)
    {
      var inst := registry.GetInstance(candidates[i].id);
      SameInstance(registry.Contents(), candidates[i], inst);
      var ok := ProbeOne(memo, query, inst, music, lyrics(inst.id));
      CollectOne(memo, candidates, i, query, music, hit, ok);
      if ok {
        hit := hit + [inst];
      }
    }
    if |hit| != 0 {
      var k :| 0 <= k < |hit|;
      assert hit[k] in hit;
      return hit[k].id;
    }
    return "";
  }

  lemma SameInstance(all: seq<WrapperInstance>, x: WrapperInstance, y: WrapperInstance?)
    requires UniqueIds(all) && x in all
    requires y != null <==> Has(all, x.id)
    requires y != null ==> y in all && y.id == x.id
    ensures y == x
  {
    var i :| 0 <= i < |all| && all[i] == x;
    assert Has(all, x.id);
    var j :| 0 <= j < |all| && all[j] == y;
    assert i == j;
  }

  /** Splits the eligible instances by whether their storefront supports the
      language; each of them is in exactly one tier. */
  method Tiers(xs: seq<WrapperInstance>, langs: Option<L.StorefrontLangs>, language: string)
    returns (tier1: seq<WrapperInstance>, tier2: seq<WrapperInstance>)
    ensures forall x :: x in tier1 <==> x in xs && Prefers(langs, x, language)
    ensures forall x :: x in tier2 <==> x in xs && !Prefers(langs, x, language)
    ensures multiset(tier1) + multiset(tier2) == multiset(xs)
  {
    tier1, tier2 := [], [];
    for i := 0 to |xs|
      invariant forall x :: x in tier1 <==> x in xs[..i] && Prefers(langs, x, language)
      invariant forall x :: x in tier2 <==> x in xs[..i] && !Prefers(langs, x, language)
      invariant multiset(tier1) + multiset(tier2) == multiset(xs[..i])
    {
      var prefers := false;
      if langs.Some? {
        prefers := L.RegionSupportsLang(langs.value, xs[i].region, language);
      }
      assert xs[..i + 1] == xs[..i] + [xs[i]];
      if prefers {
        tier1 := tier1 + [xs[i]];
      } else {
        tier2 := tier2 + [xs[i]];
      }
    }
    assert xs[..|xs|] == xs;
  }

  /** Some eligible instance with the id can serve the lyrics, and it supports
      the language if any instance that can serve them does. */
  ghost predicate BestChoice(memo: ProbeMemo, xs: seq<WrapperInstance>, query: Query, langs: Option<L.StorefrontLangs>,
                             music: string -> bool, id: string)
    reads xs
  {
    exists x :: x in xs && x.id == id && Positive(memo, x, query, music)
      && (Prefers(langs, x, query.language)
          || forall y :: y in xs && Positive(memo, y, query, music) ==> !Prefers(langs, y, query.language))
  }

  method PickByTier(registry: InstanceRegistry, memo: ProbeMemo, query: Query, xs: seq<WrapperInstance>,
                    langs: Option<L.StorefrontLangs>, music: string -> bool, lyrics: string -> PC.Reply)
    returns (id: string)
    requires registry.Valid() && memo.Valid() && UniqueIds(registry.Contents())
    requires forall x :: x in xs ==> x in registry.Contents() && x.id != ""
    requires Asked(memo, registry.Contents(), query, lyrics)
    modifies memo`lyricsCache
    ensures memo.Valid()
    ensures id == "" <==> forall x :: x in xs ==> !Positive(memo, x, query, music)
    ensures id != "" ==> BestChoice(memo, xs, query, langs, music, id)
  {
    var tier1, tier2 := Tiers(xs, langs, query.language);
    if |tier1| > 0 {
      id := PickLyricsInstanceWithSong(registry, memo, query, tier1, music, lyrics);
      if id != "" {
        return;
      }
    }
    id := PickLyricsInstanceWithSong(registry, memo, query, tier2, music, lyrics);
  }

  /** Without a developer token, or when no eligible instance can serve the
      lyrics, the answer is ""; otherwise it is the id of a best choice. */
  method SelectInstanceForLyrics(registry: InstanceRegistry, memo: ProbeMemo, query: Query, asks: seq<Ask>,
                                 langs: Option<L.StorefrontLangs>, token: bool,
                                 music: string -> bool, lyrics: string -> PC.Reply)
    returns (id: string)
    requires registry.Valid() && memo.Valid() && |asks| == |registry.Contents()|
    requires Feasible(registry.circuits.history, registry.Contents(), asks)
    requires Asked(memo, registry.Contents(), query, lyrics)
    requires forall x :: x in registry.Contents() ==> x.id != ""
    modifies registry.circuits, memo`lyricsCache
    ensures registry.Valid() && memo.Valid() && registry.Contents() == old(registry.Contents())
    ensures var xs := Filtered(old(registry.circuits.history), registry.Contents(), asks);
            && (id == "" <==> !token || forall x :: x in xs ==> !Positive(memo, x, query, music))
            && (id != "" ==> BestChoice(memo, xs, query, langs, music, id))
            && if token then WellChosen(memo, xs, query, langs, music, id) else id == ""
  {
    var xs := registry.SelectableInstances(asks);
    if |xs| == 0 || !token {
      return "";
    }
    RegistryIsOrderedMap(registry.ops);
    id := PickByTier(registry, memo, query, xs, langs, music, lyrics);
    BestIsWellChosen(memo, xs, query, langs, music, id);
  }
}
