/**
 The string keys under which probe answers are remembered and probes in flight
 are shared. Parts are joined with slashes and nothing is escaped.
 */
module ProbeKeys {
  const DEFAULT_LYRICS_SCRIPT := "en-Latn"

  /** A question put to Apple's catalog. */
  datatype Request =
    | Region(mv: bool, region: string, adamId: string)
    | Lyrics(region: string, language: string, script: string, adamId: string)

  /** The question actually probed: an empty script stands for the default. */
  function Target(q: Request): Request {
    if q.Lyrics? && q.script == "" then q.(script := DEFAULT_LYRICS_SCRIPT) else q
  }

  /** The catalog's wildcard item, answered without a probe. */
  predicate Wildcard(q: Request) {
    q.Region? && q.adamId == "0"
  }

  function Parts(q: Request): seq<string> {
    if q.Region? then [q.region, q.adamId] else [q.region, q.language, q.script, q.adamId]
  }

  function Joined(parts: seq<string>): string
    requires parts != []
  {
    if |parts| == 1 then parts[0] else parts[0] + "/" + Joined(parts[1..])
  }

  function CacheKey(q: Request): string {
    (if q.Lyrics? then "lyrics/" else if q.mv then "mv/" else "song/") + Joined(Parts(q))
  }

  /** Region and lyrics probes share one group of flights. */
  function FlightKey(q: Request): string {
    if q.Lyrics? then "l:" + CacheKey(q) else CacheKey(q)
  }

  predicate SlashFree(s: string) {
    '/' !in s
  }

  /** No part but the last contains a slash. */
  predicate PlainPrefix(parts: seq<string>) {
    forall i :: 0 <= i < |parts| - 1 ==> SlashFree(parts[i])
  }

  lemma SameHead(a: string, b: string, x: string, y: string)
    requires SlashFree(a) && SlashFree(b) && a + "/" + x == b + "/" + y
    ensures a == b && x == y
  {
    var s := a + "/" + x;
    assert s[|a|] == '/' && s[|b|] == '/';
    assert forall i :: 0 <= i < |a| ==> s[i] == a[i];
    assert forall i :: 0 <= i < |b| ==> s[i] == b[i];
    assert |a| == |b|;
    assert a == s[..|a|] && b == s[..|b|];
    assert x == s[|a| + 1..] && y == s[|b| + 1..];
  }

  lemma {:induction false} JoinedInjective(p: seq<string>, q: seq<string>)
    requires |p| == |q| > 0 && PlainPrefix(p) && PlainPrefix(q)
    requires Joined(p) == Joined(q)
    ensures p == q
  {
    if |p| == 1 {
    } else {
      assert SlashFree(p[0]) && SlashFree(q[0]);
      SameHead(p[0], q[0], Joined(p[1..]), Joined(q[1..]));
      JoinedInjective(p[1..], q[1..]);
      assert p == [p[0]] + p[1..] && q == [q[0]] + q[1..];
    }
  }

  /** The families `song/`, `mv/` and `l:` never meet. */
  lemma FamiliesDisjoint(q: Request, r: Request)
    requires FlightKey(q) == FlightKey(r)
    ensures q.Region? <==> r.Region?
    ensures q.Region? ==> q.mv == r.mv
    ensures Joined(Parts(q)) == Joined(Parts(r)) && CacheKey(q) == CacheKey(r)
  {
    assert FlightKey(q)[0] == if q.Lyrics? then 'l' else if q.mv then 'm' else 's';
    assert FlightKey(r)[0] == if r.Lyrics? then 'l' else if r.mv then 'm' else 's';
    var n := |FlightKey(q)| - |Joined(Parts(q))|;
    assert Joined(Parts(q)) == FlightKey(q)[n..];
    assert Joined(Parts(r)) == FlightKey(r)[n..];
  }

  /** Keys tell requests apart when only the item id may contain a slash. */
  lemma KeyInjective(q: Request, r: Request)
    requires PlainPrefix(Parts(q)) && PlainPrefix(Parts(r)) && FlightKey(q) == FlightKey(r)
    ensures q == r
  {
    FamiliesDisjoint(q, r);
    JoinedInjective(Parts(q), Parts(r));
    assert Parts(q)[0] == Parts(r)[0] && Parts(q)[1] == Parts(r)[1];
    if q.Lyrics? {
      assert Parts(q)[2] == Parts(r)[2] && Parts(q)[3] == Parts(r)[3];
    }
  }

  // ----- which requests can be mistaken for another one

  /** Some other question, as it would be probed, has the same key. */
  ghost predicate HasAlias(q: Request) {
    exists r :: Target(r) == r && r != q && FlightKey(r) == FlightKey(q)
  }

  function Slashes(s: string): nat {
    if s == "" then 0 else Slashes(s[1..]) + (if s[0] == '/' then 1 else 0)
  }

  lemma {:induction false} SlashesAppend(a: string, b: string)
    ensures Slashes(a + b) == Slashes(a) + Slashes(b)
  {
    if a == "" {
      assert a + b == b;
    } else {
      SlashesAppend(a[1..], b);
      assert (a + b)[1..] == a[1..] + b;
    }
  }

  lemma {:induction false} SlashFreeIff(s: string)
    ensures SlashFree(s) <==> Slashes(s) == 0
  {
    if s == "" {
    } else {
      SlashFreeIff(s[1..]);
      assert s == [s[0]] + s[1..];
    }
  }

  function TotalSlashes(parts: seq<string>): nat {
    if parts == [] then 0 else Slashes(parts[0]) + TotalSlashes(parts[1..])
  }

  lemma {:induction false} JoinedSlashes(parts: seq<string>)
    requires parts != []
    ensures Slashes(Joined(parts)) == TotalSlashes(parts) + |parts| - 1
  {
    if |parts| == 1 {
      assert parts[1..] == [];
    } else {
      JoinedSlashes(parts[1..]);
      SlashesAppend(parts[0] + "/", Joined(parts[1..]));
      SlashesAppend(parts[0], "/");
      assert Slashes("/") == 1;
    }
  }

  lemma {:induction false} NoSlashAnywhere(parts: seq<string>)
    ensures TotalSlashes(parts) == 0 <==> forall i :: 0 <= i < |parts| ==> SlashFree(parts[i])
  {
    if parts == [] {
    } else {
      SlashFreeIff(parts[0]);
      NoSlashAnywhere(parts[1..]);
      assert forall i :: 0 < i < |parts| ==> parts[i] == parts[1..][i - 1];
      assert forall i :: 0 <= i < |parts[1..]| ==> parts[1..][i] == parts[i + 1];
    }
  }

  /** A request without any slash is the only one with its key. */
  lemma SlashFreeHasNoAlias(q: Request)
    requires forall i :: 0 <= i < |Parts(q)| ==> SlashFree(Parts(q)[i])
    ensures !HasAlias(q)
  {
    forall r | FlightKey(r) == FlightKey(q) ensures r == q {
      FamiliesDisjoint(q, r);
      JoinedSlashes(Parts(q));
      JoinedSlashes(Parts(r));
      NoSlashAnywhere(Parts(q));
      NoSlashAnywhere(Parts(r));
      KeyInjective(q, r);
    }
  }

  lemma Split(s: string) returns (a: string, b: string)
    requires !SlashFree(s)
    ensures s == a + "/" + b
  {
    var i :| 0 <= i < |s| && s[i] == '/';
    a, b := s[..i], s[i + 1..];
  }

  lemma {:induction false} JoinedMoved(p: seq<string>, q: seq<string>, k: nat, a: string, b: string, c: string)
    requires k + 1 < |p| == |q|
    requires p[k] == a + "/" + b && p[k + 1] == c
    requires q[k] == a && q[k + 1] == b + "/" + c
    requires forall i :: 0 <= i < |p| && i != k && i != k + 1 ==> p[i] == q[i]
    ensures Joined(p) == Joined(q)
  {
    if k > 0 {
      JoinedMoved(p[1..], q[1..], k - 1, a, b, c);
    } else if |p| == 2 {
      assert p[0] + "/" + p[1] == q[0] + "/" + q[1];
    } else {
      assert p[2..] == q[2..];
      assert p[1..][1..] == p[2..] && q[1..][1..] == q[2..];
      var rest := Joined(p[2..]);
      assert p[0] + "/" + (p[1] + "/" + rest) == q[0] + "/" + (q[1] + "/" + rest);
    }
  }

  /** Where the first of two joined strings has no slash, the second one's head
      is the same or goes on after it. */
  lemma HeadOrMore(a: string, x: string, b: string, y: string) returns (t: string)
    requires SlashFree(a) && a + "/" + x == b + "/" + y && !SlashFree(b)
    ensures b == a + "/" + t && x == t + "/" + y && Slashes(b) == Slashes(t) + 1
  {
    var i :| 0 <= i < |b| && b[i] == '/' && SlashFree(b[..i]) by { FirstSlash(b); }
    assert b == b[..i] + "/" + b[i + 1..];
    t := b[i + 1..];
    assert a + "/" + x == b[..i] + "/" + (t + "/" + y);
    SameHead(a, b[..i], x, t + "/" + y);
    SlashesAppend(a + "/", t);
    SlashesAppend(a, "/");
    SlashFreeIff(a);
    assert Slashes("/") == 1;
  }

  lemma {:induction false} FirstSlash(b: string)
    requires !SlashFree(b)
    ensures exists i :: 0 <= i < |b| && b[i] == '/' && SlashFree(b[..i])
  {
    if b[0] == '/' {
      assert SlashFree(b[..0]);
    } else {
      FirstSlash(b[1..]);
      var i :| 0 <= i < |b[1..]| && b[1..][i] == '/' && SlashFree(b[1..][..i]);
      assert b[..i + 1] == [b[0]] + b[1..][..i];
      assert b[i + 1] == '/';
    }
  }

  /** A slash in the region, the language or the item id, or in a script with
      anything else in it, lets another request take the answer. */
  lemma SlashGivesAlias(q: Request) returns (r: Request)
    requires Target(q) == q
    requires !SlashFree(q.region) || !SlashFree(q.adamId)
             || (q.Lyrics? && (!SlashFree(q.language) || (!SlashFree(q.script) && q.script != "/")))
    ensures Target(r) == r && r != q && FlightKey(r) == FlightKey(q)
    ensures q.Lyrics? && SlashFree(q.region) ==> r.region == q.region
  {
    r := q;
    if !SlashFree(q.region) {
      var a, b := Split(q.region);
      r := match q
           case Region(mv, _, id) => Region(mv, a, b + "/" + id)
           case Lyrics(_, language, script, id) => Lyrics(a, b + "/" + language, script, id);
      JoinedMoved(Parts(q), Parts(r), 0, a, b, Parts(q)[1]);
    } else if !SlashFree(q.adamId) {
      var a, b := Split(q.adamId);
      r := match q
           case Region(mv, region, _) => Region(mv, region + "/" + a, b)
           case Lyrics(region, language, script, _) => Lyrics(region, language, script + "/" + a, b);
      var k := |Parts(q)| - 2;
      JoinedMoved(Parts(r), Parts(q), k, Parts(q)[k], a, b);
    } else if !SlashFree(q.language) {
      var a, b := Split(q.language);
      r := q.(language := a, script := b + "/" + q.script);
      JoinedMoved(Parts(q), Parts(r), 1, a, b, q.script);
    } else {
      var a, b := Split(q.script);
      if a != "" {
        r := q.(script := a, adamId := b + "/" + q.adamId);
        JoinedMoved(Parts(q), Parts(r), 2, a, b, q.adamId);
      } else {
        r := q.(language := q.language + "/", script := b);
        assert q.language + "/" + "" == q.language + "/";
        JoinedMoved(Parts(r), Parts(q), 1, q.language, "", b);
      }
    }
  }

  /** A script of one slash and nothing else cannot be read as an empty script,
      because an empty script is never part of a key. */
  lemma LoneSlashScriptHasNoAlias(q: Request)
    requires q.Lyrics? && q.script == "/"
    requires SlashFree(q.region) && SlashFree(q.language) && SlashFree(q.adamId)
    ensures !HasAlias(q)
  {
    forall r | Target(r) == r && FlightKey(r) == FlightKey(q) ensures r == q {
      FamiliesDisjoint(q, r);
      JoinedSlashes(Parts(q));
      JoinedSlashes(Parts(r));
      SlashFreeIff(q.region); SlashFreeIff(q.language); SlashFreeIff(q.adamId);
      SlashFreeIff(r.region); SlashFreeIff(r.language); SlashFreeIff(r.script); SlashFreeIff(r.adamId);
      assert TotalSlashes(Parts(q)) == 1 by { TotalOfFour(q); assert Slashes("/") == 1; }
      TotalOfFour(r);
      FourJoined(q);
      FourJoined(r);
      LoneSlash(q, r);
    }
  }

  lemma TotalOfFour(q: Request)
    requires q.Lyrics?
    ensures TotalSlashes(Parts(q)) == Slashes(q.region) + Slashes(q.language) + Slashes(q.script) + Slashes(q.adamId)
  {
    var p := Parts(q);
    assert p[1..] == [q.language, q.script, q.adamId];
    assert p[1..][1..] == [q.script, q.adamId];
    assert p[1..][1..][1..] == [q.adamId];
    assert TotalSlashes([q.adamId]) == Slashes(q.adamId) by { assert [q.adamId][1..] == []; }
    assert TotalSlashes([q.script, q.adamId]) == Slashes(q.script) + Slashes(q.adamId);
  }

  lemma FourJoined(q: Request)
    requires q.Lyrics?
    ensures Joined(Parts(q)) == q.region + "/" + (q.language + "/" + (q.script + "/" + q.adamId))
  {
    var p := Parts(q);
    assert p[1..] == [q.language, q.script, q.adamId];
    assert p[1..][1..] == [q.script, q.adamId];
    assert p[1..][1..][1..] == [q.adamId];
    assert Joined([q.script, q.adamId]) == q.script + "/" + q.adamId;
    assert Joined(p[1..]) == q.language + "/" + (q.script + "/" + q.adamId);
  }

  lemma LoneSlash(q: Request, r: Request)
    requires q.Lyrics? && r.Lyrics? && q.script == "/" && r.script != ""
    requires SlashFree(q.region) && SlashFree(q.language) && SlashFree(q.adamId)
    requires q.region + "/" + (q.language + "/" + (q.script + "/" + q.adamId))
             == r.region + "/" + (r.language + "/" + (r.script + "/" + r.adamId))
    requires Slashes(r.region) + Slashes(r.language) + Slashes(r.script) + Slashes(r.adamId) == 1
    ensures r == q
  {
    SlashFreeIff(r.region); SlashFreeIff(r.language); SlashFreeIff(r.script); SlashFreeIff(r.adamId);
    var tail := "/" + q.adamId;
    assert q.script + "/" + q.adamId == "" + "/" + tail && tail == "" + "/" + q.adamId;
    if !SlashFree(r.region) {
      var t := HeadOrMore(q.region, q.language + "/" + ("/" + tail), r.region, r.language + "/" + (r.script + "/" + r.adamId));
      SlashFreeIff(t);
      SameHead(q.language, t, "/" + tail, r.language + "/" + (r.script + "/" + r.adamId));
      SameHead("", r.language, tail, r.script + "/" + r.adamId);
      SameHead("", r.script, q.adamId, r.adamId);
    } else {
      SameHead(q.region, r.region, q.language + "/" + ("/" + tail), r.language + "/" + (r.script + "/" + r.adamId));
      if !SlashFree(r.language) {
        var t := HeadOrMore(q.language, "/" + tail, r.language, r.script + "/" + r.adamId);
        SlashFreeIff(t);
        SameHead("", t, tail, r.script + "/" + r.adamId);
        SameHead("", r.script, q.adamId, r.adamId);
      } else {
        SameHead(q.language, r.language, "/" + tail, r.script + "/" + r.adamId);
        if SlashFree(r.script) {
          SameHead("", r.script, tail, r.adamId);
        } else {
          var t := HeadOrMore("", tail, r.script, r.adamId);
          SlashFreeIff(t);
          SameHead("", t, q.adamId, r.adamId);
        }
      }
    }
  }

  /** Exactly the requests whose answer another request can take. */
  lemma HasAliasIff(q: Request)
    requires Target(q) == q
    ensures HasAlias(q) <==>
              || !SlashFree(q.region) || !SlashFree(q.adamId)
              || (q.Lyrics? && (!SlashFree(q.language) || (!SlashFree(q.script) && q.script != "/")))
  {
    if !SlashFree(q.region) || !SlashFree(q.adamId)
       || (q.Lyrics? && (!SlashFree(q.language) || (!SlashFree(q.script) && q.script != "/")))
    {
      var r := SlashGivesAlias(q);
    } else if q.Lyrics? && q.script == "/" {
      LoneSlashScriptHasNoAlias(q);
    } else {
      SlashFreeHasNoAlias(q);
    }
  }

  /** The same when all regions are free of slashes, as storefront codes are. */
  ghost predicate HasRegionalAlias(q: Request) {
    exists r :: Target(r) == r && r != q && SlashFree(r.region) && FlightKey(r) == FlightKey(q)
  }

  /** Then no region probe can be mistaken for another one, and of the lyrics
      probes exactly those with a slash in the language or the item id, or in a
      script with anything else in it. */
  lemma HasRegionalAliasIff(q: Request)
    requires Target(q) == q && SlashFree(q.region)
    ensures HasRegionalAlias(q) <==>
              q.Lyrics? && (!SlashFree(q.language) || !SlashFree(q.adamId) || (!SlashFree(q.script) && q.script != "/"))
  {
    if q.Region? {
      forall r: Request | SlashFree(r.region) && FlightKey(r) == FlightKey(q) ensures r == q {
        FamiliesDisjoint(q, r);
        KeyInjective(q, r);
      }
    } else if !SlashFree(q.language) || !SlashFree(q.adamId) || (!SlashFree(q.script) && q.script != "/") {
      var r := SlashGivesAlias(q);
    } else {
      HasAliasIff(q);
    }
  }
}
