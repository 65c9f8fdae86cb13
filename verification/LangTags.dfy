/** Language tags of requests and storefronts, and when they match. */
module LangTags {

  predicate IsSpace(c: char) {
    c == ' ' || c == '\t' || c == '\n' || c == '\r' || c == '\U{000B}' || c == '\U{000C}' || c == '\U{0085}' || c == '\U{00A0}'
    || c == '\U{1680}' || '\U{2000}' <= c <= '\U{200A}' || c == '\U{2028}' || c == '\U{2029}'
    || c == '\U{202F}' || c == '\U{205F}' || c == '\U{3000}'
  }

  const HANT := "zh-hant"
  const HANS := "zh-hans"

  /** How characters are lower-cased. Only this is asked of it: doing it twice is
      doing it once, blanks and hyphens stay apart from other characters, and
      the script tags are in lower case. */
  type Casing = char -> char

  ghost predicate Lowers(lc: Casing) {
    && (forall c :: lc(lc(c)) == lc(c))
    && (forall c :: IsSpace(lc(c)) <==> IsSpace(c))
    && (forall c :: lc(c) == '-' <==> c == '-')
    && IsLower(lc, HANT) && IsLower(lc, HANS)
  }

  function AsciiLower(c: char): char {
    if 'A' <= c <= 'Z' then c - 'A' + 'a' else c
  }

  lemma AsciiLowerFacts(c: char)
    ensures AsciiLower(AsciiLower(c)) == AsciiLower(c)
    ensures IsSpace(AsciiLower(c)) <==> IsSpace(c)
    ensures AsciiLower(c) == '-' <==> c == '-'
  {
  }

  /** `Lowers` can be met: lower-casing just the letters A to Z does. */
  lemma AsciiLowers()
    ensures Lowers(AsciiLower)
  {
    forall c {
      AsciiLowerFacts(c);
    }
  }

  predicate IsLower(lc: Casing, s: string) {
    forall i :: 0 <= i < |s| ==> lc(s[i]) == s[i]
  }

  function ToLower(lc: Casing, s: string): (r: string)
    ensures |r| == |s| && forall i :: 0 <= i < |s| ==> r[i] == lc(s[i])
  {
    seq(|s|, i requires 0 <= i < |s| => lc(s[i]))
  }

  function TrimLeft(s: string): string {
    if s != "" && IsSpace(s[0]) then TrimLeft(s[1..]) else s
  }

  function TrimRight(s: string): string {
    if s != "" && IsSpace(s[|s| - 1]) then TrimRight(s[..|s| - 1]) else s
  }

  function TrimSpace(s: string): string {
    TrimRight(TrimLeft(s))
  }

  /** Where the first hyphen is; the length of the string when there is none. */
  function FirstHyphen(s: string): (i: nat)
    ensures i <= |s| && '-' !in s[..i] && (i < |s| ==> s[i] == '-')
  {
    if s == "" || s[0] == '-' then 0
    else
      var i := 1 + FirstHyphen(s[1..]);
      assert s[..i] == [s[0]] + s[1..][..i - 1];
      i
  }

  predicate HasScript(low: string) {
    HANT <= low || HANS <= low
  }

  /** Where a lower-case tag without a script is cut: before its first hyphen,
      unless that comes first or there is none. */
  function CutAt(low: string): (i: nat)
    ensures i <= |low|
  {
    var i := FirstHyphen(low);
    if i == 0 then |low| else i
  }

  function NormalizeLangTag(lc: Casing, tag: string): string {
    var trimmed := TrimSpace(tag);
    if trimmed == "" then ""
    else
      var low := ToLower(lc, trimmed);
      if HANT <= low then HANT
      else if HANS <= low then HANS
      else low[..CutAt(low)]
  }

  // ----- trimming

  predicate Bare(s: string) {
    s == "" || (!IsSpace(s[0]) && !IsSpace(s[|s| - 1]))
  }

  predicate Blank(s: string) {
    forall i :: 0 <= i < |s| ==> IsSpace(s[i])
  }

  lemma {:induction false} TrimLeftBare(s: string)
    ensures TrimLeft(s) == "" || !IsSpace(TrimLeft(s)[0])
    ensures |TrimLeft(s)| <= |s|
    ensures s != "" && !IsSpace(s[0]) ==> TrimLeft(s) == s
  {
    if s == "" || !IsSpace(s[0]) {
    } else {
      TrimLeftBare(s[1..]);
    }
  }

  lemma {:induction false} TrimRightBare(s: string)
    ensures var r := TrimRight(s); r == "" || (!IsSpace(r[|r| - 1]) && r[0] == s[0])
    ensures TrimRight(s) <= s
    ensures s != "" && !IsSpace(s[|s| - 1]) ==> TrimRight(s) == s
    ensures s != "" && IsSpace(s[|s| - 1]) ==> |TrimRight(s)| < |s|
  {
    if s == "" || !IsSpace(s[|s| - 1]) {
    } else {
      TrimRightBare(s[..|s| - 1]);
    }
  }

  lemma TrimFacts(s: string)
    ensures Bare(TrimSpace(s)) && |TrimSpace(s)| <= |s|
    ensures Bare(s) ==> TrimSpace(s) == s
    ensures s != "" && !IsSpace(s[0]) && IsSpace(s[|s| - 1]) ==> |TrimSpace(s)| < |s|
  {
    TrimLeftBare(s);
    TrimRightBare(TrimLeft(s));
    TrimRightBare(s);
  }

  lemma TrimmedIsPrefix(n: string)
    requires n != "" && !IsSpace(n[0])
    ensures TrimSpace(n) <= n
  {
    TrimRightBare(n);
  }

  lemma {:induction false} LeadingBlanks(pad: string, s: string)
    requires Blank(pad)
    ensures TrimLeft(pad + s) == TrimLeft(s)
  {
    if pad == "" {
      assert pad + s == s;
    } else {
      LeadingBlanks(pad[1..], s);
      assert (pad + s)[1..] == pad[1..] + s;
    }
  }

  lemma {:induction false} TrimRightKeeps(a: string, c: char, b: string)
    requires !IsSpace(c)
    ensures TrimRight(a + [c] + b) == a + [c] + TrimRight(b)
  {
    var s := a + [c] + b;
    if b == "" {
      assert s == a + [c];
    } else if !IsSpace(b[|b| - 1]) {
    } else {
      TrimRightKeeps(a, c, b[..|b| - 1]);
      assert s[..|s| - 1] == a + [c] + b[..|b| - 1];
    }
  }

  /** Blanks around a tag do not matter: trimming a tag that starts with `a` and
      goes on with a character that is no blank leaves that start. */
  lemma TrimmedStart(pad: string, a: string, c: char, b: string)
    requires Blank(pad) && !IsSpace(c) && (a != "" ==> !IsSpace(a[0]))
    ensures TrimSpace(pad + (a + [c] + b)) == a + [c] + TrimRight(b)
  {
    LeadingBlanks(pad, a + [c] + b);
    TrimLeftBare(a + [c] + b);
    TrimRightKeeps(a, c, b);
  }

  lemma {:induction false} TrimLeftOfLower(lc: Casing, s: string)
    requires Lowers(lc)
    ensures TrimLeft(ToLower(lc, s)) == ToLower(lc, TrimLeft(s))
  {
    if s == "" {
    } else {
      assert ToLower(lc, s)[0] == lc(s[0]);
      assert ToLower(lc, s)[1..] == ToLower(lc, s[1..]);
      TrimLeftOfLower(lc, s[1..]);
    }
  }

  lemma {:induction false} TrimRightOfLower(lc: Casing, s: string)
    requires Lowers(lc)
    ensures TrimRight(ToLower(lc, s)) == ToLower(lc, TrimRight(s))
  {
    if s == "" {
    } else {
      assert ToLower(lc, s)[|s| - 1] == lc(s[|s| - 1]);
      assert ToLower(lc, s)[..|s| - 1] == ToLower(lc, s[..|s| - 1]);
      TrimRightOfLower(lc, s[..|s| - 1]);
    }
  }

  lemma LowerFacts(lc: Casing, s: string)
    requires Lowers(lc)
    ensures IsLower(lc, ToLower(lc, s))
    ensures Bare(ToLower(lc, s)) <==> Bare(s)
  {
  }

  lemma LowerIsItself(lc: Casing, s: string)
    requires IsLower(lc, s)
    ensures ToLower(lc, s) == s
  {
  }

  // ----- the normal form

  /** A blank in front of the hyphen, as in "pt -BR", survives trimming. */
  predicate BlankBeforeHyphen(lc: Casing, tag: string) {
    var low := ToLower(lc, TrimSpace(tag));
    low != "" && !HasScript(low) && IsSpace(low[CutAt(low) - 1])
  }

  lemma NoScript(low: string, n: string)
    requires n <= low && !HasScript(low)
    ensures !HasScript(n)
  {
  }

  lemma NormalNotLonger(lc: Casing, s: string)
    ensures !HasScript(ToLower(lc, TrimSpace(s))) ==> |NormalizeLangTag(lc, s)| <= |TrimSpace(s)|
  {
  }

  /** The part of a bare lower-case tag that is kept is normal iff it is bare. */
  lemma CutIsNormalIff(lc: Casing, low: string)
    requires low != "" && Bare(low) && IsLower(lc, low) && !HasScript(low)
    ensures var n := low[..CutAt(low)];
            NormalizeLangTag(lc, n) == n <==> !IsSpace(n[|n| - 1])
  {
    var n := low[..CutAt(low)];
    LowerIsItself(lc, n);
    TrimFacts(n);
    NoScript(low, n);
    if IsSpace(n[|n| - 1]) {
      TrimmedIsPrefix(n);
      NoScript(n, TrimSpace(n));
      LowerIsItself(lc, TrimSpace(n));
      NormalNotLonger(lc, n);
    } else {
      assert CutAt(n) == |n|;
    }
  }

  lemma ScriptsAreNormal(lc: Casing)
    requires Lowers(lc)
    ensures NormalizeLangTag(lc, HANT) == HANT && NormalizeLangTag(lc, HANS) == HANS
  {
    TrimFacts(HANT);
    TrimFacts(HANS);
    LowerIsItself(lc, HANT);
    LowerIsItself(lc, HANS);
  }

  lemma NoScriptStableIff(lc: Casing, tag: string)
    requires Lowers(lc) && TrimSpace(tag) != "" && !HasScript(ToLower(lc, TrimSpace(tag)))
    ensures NormalizeLangTag(lc, NormalizeLangTag(lc, tag)) == NormalizeLangTag(lc, tag) <==> !BlankBeforeHyphen(lc, tag)
  {
    var low := ToLower(lc, TrimSpace(tag));
    assert NormalizeLangTag(lc, tag) == low[..CutAt(low)];
    TrimFacts(tag);
    LowerFacts(lc, TrimSpace(tag));
    CutIsNormalIff(lc, low);
  }

  /** Normalising twice is normalising once, except for exactly the tags with a
      blank right before the hyphen they are cut at. */
  lemma NormalFormStableIff(lc: Casing, tag: string)
    requires Lowers(lc)
    ensures NormalizeLangTag(lc, NormalizeLangTag(lc, tag)) == NormalizeLangTag(lc, tag) <==> !BlankBeforeHyphen(lc, tag)
  {
    if TrimSpace(tag) == "" {
      TrimFacts("");
    } else if HasScript(ToLower(lc, TrimSpace(tag))) {
      ScriptsAreNormal(lc);
    } else {
      NoScriptStableIff(lc, tag);
    }
  }

  /** Case does not matter. */
  lemma CaseIrrelevant(lc: Casing, tag: string)
    requires Lowers(lc)
    ensures NormalizeLangTag(lc, ToLower(lc, tag)) == NormalizeLangTag(lc, tag)
  {
    TrimLeftOfLower(lc, tag);
    TrimRightOfLower(lc, TrimLeft(tag));
    LowerFacts(lc, TrimSpace(tag));
    LowerIsItself(lc, ToLower(lc, TrimSpace(tag)));
  }

  lemma FirstHyphenIs(s: string, i: nat)
    requires i < |s| && s[i] == '-' && '-' !in s[..i]
    ensures FirstHyphen(s) == i
  {
    var k := FirstHyphen(s);
    assert forall j :: 0 <= j < i ==> s[j] in s[..i];
    assert forall j :: 0 <= j < k ==> s[j] in s[..k];
  }

  lemma CutAfter(lc: Casing, language: string, rest: string)
    requires Lowers(lc) && language != "" && '-' !in language
    ensures var low := ToLower(lc, language + "-" + rest); low[..CutAt(low)] == ToLower(lc, language)
  {
    var low := ToLower(lc, language + "-" + rest);
    assert forall k :: 0 <= k < |language| ==> low[k] == lc(language[k]) && low[k] != '-';
    assert low[..|language|] == ToLower(lc, language);
    assert low[|language|] == lc('-');
    FirstHyphenIs(low, |language|);
  }

  /** Whatever blanks surround the tag and whatever follows the first hyphen, a
      tag without a script collapses to its primary language in lower case. */
  lemma RegionDropped(lc: Casing, pad: string, language: string, rest: string)
    requires Lowers(lc) && Blank(pad)
    requires language != "" && !IsSpace(language[0]) && '-' !in language
    requires !HasScript(ToLower(lc, language + "-" + rest))
    ensures NormalizeLangTag(lc, pad + (language + "-" + rest)) == ToLower(lc, language)
  {
    TrimmedStart(pad, language, '-', rest);
    TrimRightBare(rest);
    var trimmed := language + "-" + TrimRight(rest);
    assert trimmed <= language + "-" + rest;
    assert ToLower(lc, trimmed) <= ToLower(lc, language + "-" + rest);
    NoScript(ToLower(lc, language + "-" + rest), ToLower(lc, trimmed));
    CutAfter(lc, language, TrimRight(rest));
  }

  /** A Chinese script is kept, in whatever case it is written, whatever blanks
      surround the tag and whatever follows the script. */
  lemma ScriptKept(lc: Casing, pad: string, script: string, rest: string)
    requires Lowers(lc) && Blank(pad) && (ToLower(lc, script) == HANT || ToLower(lc, script) == HANS)
    ensures NormalizeLangTag(lc, pad + (script + rest)) == ToLower(lc, script)
  {
    var low, last := ToLower(lc, script), |script| - 1;
    assert !IsSpace(low[0]) && !IsSpace(low[last]);
    assert script == script[..last] + [script[last]];
    TrimmedStart(pad, script[..last], script[last], rest);
    assert script[..last] + [script[last]] + rest == script + rest;
    var trimmed := script + TrimRight(rest);
    assert TrimSpace(pad + (script + rest)) == trimmed;
    assert ToLower(lc, trimmed)[..|script|] == low;
  }

  /** A tag without a script and without a hyphen, or with one only in front, is
      only trimmed and lower-cased. */
  lemma WholeTagKept(lc: Casing, tag: string)
    requires Lowers(lc) && TrimSpace(tag) != "" && !HasScript(ToLower(lc, TrimSpace(tag)))
    requires '-' !in tag || TrimSpace(tag)[0] == '-'
    ensures NormalizeLangTag(lc, tag) == ToLower(lc, TrimSpace(tag))
  {
    var trimmed := TrimSpace(tag);
    var low := ToLower(lc, trimmed);
    if trimmed[0] == '-' {
      assert low[0] == lc('-');
      FirstHyphenIs(low, 0);
    } else {
      TrimmedFrom(tag);
      assert forall k :: 0 <= k < |low| ==> low[k] == lc(trimmed[k]) && trimmed[k] in tag;
      assert '-' !in low;
      assert FirstHyphen(low) == |low|;
    }
    assert low[..|low|] == low;
  }

  lemma {:induction false} TrimLeftFrom(s: string)
    ensures forall c :: c in TrimLeft(s) ==> c in s
  {
    if s == "" || !IsSpace(s[0]) {
    } else {
      TrimLeftFrom(s[1..]);
    }
  }

  lemma TrimmedFrom(s: string)
    ensures forall c :: c in TrimSpace(s) ==> c in s
  {
    TrimLeftFrom(s);
    TrimRightBare(TrimLeft(s));
  }

  // ----- storefronts

  /** The languages of every storefront, and how the manager lower-cases. */
  datatype StorefrontLangs = StorefrontLangs(tags: map<string, seq<string>>, lc: Casing)

  ghost predicate Supports(langs: StorefrontLangs, region: string, language: string) {
    var key, want := ToLower(langs.lc, region), NormalizeLangTag(langs.lc, language);
    key in langs.tags && want != "" && Lists(langs, langs.tags[key], want)
  }

  predicate Lists(langs: StorefrontLangs, tags: seq<string>, want: string) {
    exists i :: 0 <= i < |tags| && NormalizeLangTag(langs.lc, tags[i]) == want
  }

  /** The search through a storefront's tags finds a match iff there is one. */
  method RegionSupportsLang(langs: StorefrontLangs, region: string, language: string) returns (ok: bool)
    ensures ok <==> Supports(langs, region, language)
  {
    var key := ToLower(langs.lc, region);
    if key !in langs.tags || |langs.tags[key]| == 0 {
      return false;
    }
    var tags := langs.tags[key];
    var want := NormalizeLangTag(langs.lc, language);
    if want == "" {
      return false;
    }
    for i := 0 to |tags|
      invariant forall k :: 0 <= k < i ==> NormalizeLangTag(langs.lc, tags[k]) != want
    {
      if NormalizeLangTag(langs.lc, tags[i]) == want {
        return true;
      }
    }
    return false;
  }

  /** A request may be sent already normalised: every storefront gives the same
      answer, exactly when the tag's normal form is stable. */
  lemma NormalisedRequestSameAnswerIff(lc: Casing, language: string)
    requires Lowers(lc)
    ensures (forall tags: map<string, seq<string>>, region ::
               Supports(StorefrontLangs(tags, lc), region, NormalizeLangTag(lc, language))
               <==> Supports(StorefrontLangs(tags, lc), region, language))
            <==> !BlankBeforeHyphen(lc, language)
  {
    NormalFormStableIff(lc, language);
    if BlankBeforeHyphen(lc, language) {
      var tags := map["" := [language]];
      var langs := StorefrontLangs(tags, lc);
      assert ToLower(lc, "") == "" && tags[""][0] == language;
      assert Lists(langs, tags[""], NormalizeLangTag(lc, language));
      assert Supports(langs, "", language);
      assert !Supports(langs, "", NormalizeLangTag(lc, language));
    }
  }

  lemma {:induction false} NoBlanks(s: string)
    requires forall i :: 0 <= i < |s| ==> !IsSpace(s[i])
    ensures TrimSpace(s) == s
  {
    TrimLeftBare(s);
    TrimRightBare(s);
  }

  /** A plain tag: no blanks, and no script in any case. */
  predicate Plain(lc: Casing, language: string) {
    && language != "" && '-' !in language && (forall i :: 0 <= i < |language| ==> !IsSpace(language[i]))
    && |language| < 7
  }

  lemma PlainNormal(lc: Casing, language: string)
    requires Lowers(lc) && Plain(lc, language)
    ensures NormalizeLangTag(lc, language) == ToLower(lc, language)
  {
    NoBlanks(language);
    WholeTagKept(lc, language);
  }

  lemma SupportsOne(langs: StorefrontLangs, region: string, tag: string, wanted: string)
    requires ToLower(langs.lc, region) in langs.tags && langs.tags[ToLower(langs.lc, region)] == [tag]
    ensures Supports(langs, region, wanted) <==>
              NormalizeLangTag(langs.lc, wanted) != "" && NormalizeLangTag(langs.lc, tag) == NormalizeLangTag(langs.lc, wanted)
  {
    assert langs.tags[ToLower(langs.lc, region)][0] == tag;
  }

  /** A storefront that lists one plain language with a region supports a plain
      language exactly when the two differ in case only, whatever the region of
      the tag and in whatever case the storefront is asked for. */
  lemma OneTagSupportsIff(langs: StorefrontLangs, region: string, listed: string, suffix: string, wanted: string)
    requires Lowers(langs.lc) && Plain(langs.lc, listed) && Plain(langs.lc, wanted)
    requires ToLower(langs.lc, region) in langs.tags && langs.tags[ToLower(langs.lc, region)] == [listed + "-" + suffix]
    requires !HasScript(ToLower(langs.lc, listed + "-" + suffix))
    ensures Supports(langs, region, wanted) <==> ToLower(langs.lc, listed) == ToLower(langs.lc, wanted)
  {
    SupportsOne(langs, region, listed + "-" + suffix, wanted);
    PlainNormal(langs.lc, wanted);
    RegionDropped(langs.lc, "", listed, suffix);
    assert "" + (listed + "-" + suffix) == listed + "-" + suffix;
  }

  lemma ShortIsNoScript(lc: Casing, s: string)
    requires |s| < 7
    ensures !HasScript(ToLower(lc, s))
  {
  }

  lemma LowerTwo(lc: Casing, s: string, low: string)
    requires |s| == |low| == 2 && lc(s[0]) == low[0] && lc(s[1]) == low[1]
    ensures ToLower(lc, s) == low
  {
  }

  lemma TwoLettersPlain(lc: Casing, s: string)
    requires |s| == 2 && s[0] != '-' && s[1] != '-' && !IsSpace(s[0]) && !IsSpace(s[1])
    ensures Plain(lc, s)
  {
  }

  /** For instance with tags of a two-letter language and region. */
  lemma TwoLetterTag(langs: StorefrontLangs, region: string, key: string, listed: string, suffix: string, wanted: string)
    requires Lowers(langs.lc) && |region| == |key| == |listed| == |suffix| == |wanted| == 2
    requires ToLower(langs.lc, region) == key && key in langs.tags && langs.tags[key] == [listed + "-" + suffix]
    requires Plain(langs.lc, listed) && Plain(langs.lc, wanted)
    ensures Supports(langs, region, wanted) <==> ToLower(langs.lc, listed) == ToLower(langs.lc, wanted)
  {
    ShortIsNoScript(langs.lc, listed + "-" + suffix);
    OneTagSupportsIff(langs, region, listed, suffix, wanted);
  }

  /** Japan lists Japanese, in any case of "jp", and a storefront that lists only
      American English does not. */
  lemma JapaneseInJapan(japan: StorefrontLangs, usa: StorefrontLangs)
    requires japan == StorefrontLangs(map["jp" := ["ja-JP"]], AsciiLower)
    requires usa == StorefrontLangs(map["us" := ["en-US"]], AsciiLower)
    ensures Supports(japan, "JP", "ja") && Supports(japan, "jp", "JA") && !Supports(usa, "us", "ja")
  {
    AsciiLowers();
    var lc := AsciiLower;
    TwoLettersPlain(lc, "ja");
    TwoLettersPlain(lc, "JA");
    TwoLettersPlain(lc, "en");
    LowerTwo(lc, "JP", "jp");
    LowerTwo(lc, "jp", "jp");
    LowerTwo(lc, "us", "us");
    LowerTwo(lc, "ja", "ja");
    LowerTwo(lc, "JA", "ja");
    LowerTwo(lc, "en", "en");
    assert "ja" + "-" + "JP" == "ja-JP" && "en" + "-" + "US" == "en-US";
    TwoLetterTag(japan, "JP", "jp", "ja", "JP", "ja");
    TwoLetterTag(japan, "jp", "jp", "ja", "JP", "JA");
    TwoLetterTag(usa, "us", "us", "en", "US", "ja");
  }

  lemma ThreeParts(lc: Casing, pad: string, language: string, rest: string, low: string)
    requires Lowers(lc) && Blank(pad) && |language| == |low| == 2 && |language + "-" + rest| < 7
    requires lc(language[0]) == low[0] && lc(language[1]) == low[1]
    requires !IsSpace(language[0]) && language[0] != '-' && language[1] != '-'
    ensures NormalizeLangTag(lc, pad + (language + "-" + rest)) == low
  {
    ShortIsNoScript(lc, language + "-" + rest);
    LowerTwo(lc, language, low);
    RegionDropped(lc, pad, language, rest);
  }

  lemma TraditionalChinese(tag: string)
    requires tag == "zh-Hant-TW"
    ensures NormalizeLangTag(AsciiLower, tag) == "zh-hant"
  {
    AsciiLowers();
    assert ToLower(AsciiLower, "zh-Hant") == "zh-hant";
    ScriptKept(AsciiLower, "", "zh-Hant", "-TW");
    assert "" + ("zh-Hant" + "-TW") == tag;
  }

  lemma SimplifiedChinese(tag: string)
    requires tag == "zh-Hans-CN"
    ensures NormalizeLangTag(AsciiLower, tag) == "zh-hans"
  {
    AsciiLowers();
    assert ToLower(AsciiLower, "zh-Hans") == "zh-hans";
    ScriptKept(AsciiLower, "", "zh-Hans", "-CN");
    assert "" + ("zh-Hans" + "-CN") == tag;
  }

  lemma AmericanEnglish(tag: string)
    requires tag == "en-US"
    ensures NormalizeLangTag(AsciiLower, tag) == "en"
  {
    AsciiLowers();
    ThreeParts(AsciiLower, "", "en", "US", "en");
    assert "" + ("en" + "-" + "US") == tag;
  }

  lemma TaiwaneseWithoutScript(tag: string)
    requires tag == "zh-TW"
    ensures NormalizeLangTag(AsciiLower, tag) == "zh"
  {
    AsciiLowers();
    ThreeParts(AsciiLower, "", "zh", "TW", "zh");
    assert "" + ("zh" + "-" + "TW") == tag;
  }

  lemma PaddedJapanese(tag: string)
    requires tag == " ja-JP\t"
    ensures NormalizeLangTag(AsciiLower, tag) == "ja"
  {
    AsciiLowers();
    assert IsSpace(" "[0]) && Blank(" ");
    ThreeParts(AsciiLower, " ", "ja", "JP\t", "ja");
    assert " " + ("ja" + "-" + "JP\t") == tag;
  }

  /** The tags the manager is written for, and one with blanks around it. */
  lemma FamiliarTags(english: string, chinese: string, japanese: string, traditional: string, simplified: string)
    requires english == "en-US" && chinese == "zh-TW" && japanese == " ja-JP\t"
    requires traditional == "zh-Hant-TW" && simplified == "zh-Hans-CN"
    ensures NormalizeLangTag(AsciiLower, english) == "en"
    ensures NormalizeLangTag(AsciiLower, chinese) == "zh"
    ensures NormalizeLangTag(AsciiLower, japanese) == "ja"
    ensures NormalizeLangTag(AsciiLower, traditional) == "zh-hant"
    ensures NormalizeLangTag(AsciiLower, simplified) == "zh-hans"
  {
    AmericanEnglish(english);
    TaiwaneseWithoutScript(chinese);
    PaddedJapanese(japanese);
    TraditionalChinese(traditional);
    SimplifiedChinese(simplified);
  }
}
