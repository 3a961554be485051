/**
 * The pure helpers at the top of src/translators.py: the protected-token
 * extractor behind the strict check, the script tests that decide which
 * strings bypass the provider, the locale-name lookup and the recovery of a
 * JSON array from a model reply.
 */
module Tokens {
  import opened Wrappers
  import opened TextUtil
  import opened JsonModel

  // ---------- RE_PLACEHOLDER and RE_NAMESPACE of translators.py ----------

  /**
   * `\w`, narrowed to ASCII letters, digits and `_`, plus Cyrillic letters.
   * The source's patterns are `str` patterns, whose `\w` also takes every
   * other Unicode letter and digit (`é`, `ß`, CJK): this model does not.
   */
  predicate IsWordChar(c: char) {
    IsAsciiLetter(c) || IsAsciiDigit(c) || c == '_' || IsCyrillic(c)
  }

  predicate IsWordOrDot(c: char) {
    IsWordChar(c) || c == '.'
  }

  /** `[A-Za-z0-9_.-]`, before the colon */
  predicate IsNsHead(c: char) {
    IsAsciiLetter(c) || IsAsciiDigit(c) || c == '_' || c == '.' || c == '-'
  }

  /** `[A-Za-z0-9_/.-]`, after the colon: this pattern also accepts `/` */
  predicate IsNsTail(c: char) {
    IsNsHead(c) || c == '/'
  }

  /**
   * The rest of `%(?:\d+\$)?-?\d*(?:\.\d+)?[sdifx]` after the `%` at `j - 1`,
   * with `\d` narrowed to the ASCII digits (in a `str` pattern it also takes
   * the other Unicode decimal digits).
   * Every optional part is followed by a character it cannot start with, so
   * the greedy choice at each step is the only one that can succeed.
   */
  function PercentEnd(s: string, j: nat): (r: Option<nat>)
    requires j <= |s|
    ensures r.Some? ==> j < r.value <= |s|
  {
    var d := RunEnd(s, j, IsAsciiDigit);
    var j1 := if d > j && d < |s| && s[d] == '$' then d + 1 else j;
    var j2 := if j1 < |s| && s[j1] == '-' then j1 + 1 else j1;
    var j3 := RunEnd(s, j2, IsAsciiDigit);
    var j4 := if j3 < |s| && s[j3] == '.' && RunEnd(s, j3 + 1, IsAsciiDigit) > j3 + 1
              then RunEnd(s, j3 + 1, IsAsciiDigit) else j3;
    if j4 < |s| && s[j4] in "sdifx" then Some(j4 + 1) else None
  }

  /** The rest of `\{[\w\.]+\}` after the `{` at `j - 1`. */
  function BraceEnd(s: string, j: nat): (r: Option<nat>)
    requires j <= |s|
    ensures r.Some? ==> j < r.value <= |s|
  {
    var e := RunEnd(s, j, IsWordOrDot);
    if e > j && e < |s| && s[e] == '}' then Some(e + 1) else None
  }

  /** The rest of `[A-Za-z0-9_.-]+:[A-Za-z0-9_/.-]+` from its first character at `i`. */
  function NamespaceEnd(s: string, i: nat): (r: Option<nat>)
    requires i <= |s|
    ensures r.Some? ==> i < r.value <= |s|
  {
    var e1 := RunEnd(s, i, IsNsHead);
    if e1 > i && e1 < |s| && s[e1] == ':' then
      var e2 := RunEnd(s, e1 + 1, IsNsTail);
      if e2 > e1 + 1 then Some(e2) else None
    else None
  }

  datatype Pattern = Placeholder | Namespace

  /** Where a match of the pattern that starts at `i` ends, if there is one. */
  function MatchAt(p: Pattern, s: string, i: nat): (r: Option<nat>)
    requires i <= |s|
    ensures r.Some? ==> i < r.value <= |s|
  {
    match p
    case Placeholder =>
      if i < |s| && s[i] == '%' then PercentEnd(s, i + 1)
      else if i < |s| && s[i] == '{' then BraceEnd(s, i + 1)
      else None
    case Namespace => NamespaceEnd(s, i)
  }

  /** `pattern.findall(s[from..])`: leftmost matches, left to right, never overlapping. */
  function FindAll(p: Pattern, s: string, from: nat): (r: seq<string>)
    requires from <= |s|
    ensures forall k :: 0 <= k < |r| ==> |r[k]| > 0
    decreases |s| - from
  {
    if from == |s| then []
    else match MatchAt(p, s, from)
      case Some(e) => [s[from..e]] + FindAll(p, s, e)
      case None => FindAll(p, s, from + 1)
  }

  /** Every protected token of `s`, unsorted: placeholders first, then namespaced ids. */
  function RawTokens(s: string): seq<string> {
    FindAll(Placeholder, s, 0) + FindAll(Namespace, s, 0)
  }

  // ---------- Python's string order and sorted() ----------

  /** Python's `a <= b` on `str`: code-point lexicographic order, a prefix first. */
  predicate StrLe(a: string, b: string)
    decreases |a|
  {
    a == [] || (b != [] && (a[0] < b[0] || (a[0] == b[0] && StrLe(a[1..], b[1..]))))
  }

  lemma {:induction false} StrLeTotal(a: string, b: string)
    ensures StrLe(a, b) || StrLe(b, a)
    decreases |a|
  {
    if a != [] && b != [] && a[0] == b[0] { StrLeTotal(a[1..], b[1..]); }
  }

  lemma {:induction false} StrLeAntisymmetric(a: string, b: string)
    requires StrLe(a, b) && StrLe(b, a)
    ensures a == b
    decreases |a|
  {
    if a != [] {
      StrLeAntisymmetric(a[1..], b[1..]);
      assert a == [a[0]] + a[1..] && b == [b[0]] + b[1..];
    }
  }

  lemma {:induction false} StrLeTransitive(a: string, b: string, c: string)
    requires StrLe(a, b) && StrLe(b, c)
    ensures StrLe(a, c)
    decreases |a|
  {
    if a != [] && a[0] == b[0] && b[0] == c[0] { StrLeTransitive(a[1..], b[1..], c[1..]); }
  }

  ghost predicate Sorted(xs: seq<string>) {
    forall i, j :: 0 <= i < j < |xs| ==> StrLe(xs[i], xs[j])
  }

  /** One step of insertion sort: `x` goes before the first element it does not exceed. */
  function Insert(x: string, xs: seq<string>): seq<string> {
    if xs == [] then [x]
    else if StrLe(x, xs[0]) then [x] + xs
    else [xs[0]] + Insert(x, xs[1..])
  }

  lemma SortedTail(xs: seq<string>)
    requires Sorted(xs) && xs != []
    ensures Sorted(xs[1..])
  {
    forall i, j | 0 <= i < j < |xs| - 1 ensures StrLe(xs[1..][i], xs[1..][j]) {
      assert xs[1..][i] == xs[i + 1] && xs[1..][j] == xs[j + 1];
    }
  }

  /** A head no greater than any element of a sorted tail keeps the sequence sorted. */
  lemma ConsSorted(h: string, rest: seq<string>)
    requires Sorted(rest)
    requires forall k :: 0 <= k < |rest| ==> StrLe(h, rest[k])
    ensures Sorted([h] + rest)
  {
    var r := [h] + rest;
    forall i, j | 0 <= i < j < |r| ensures StrLe(r[i], r[j]) {
      assert r[j] == rest[j - 1];
      if i > 0 {
        assert r[i] == rest[i - 1];
      }
    }
  }

  lemma {:induction false} InsertElems(x: string, xs: seq<string>)
    ensures forall y :: y in Insert(x, xs) <==> y == x || y in xs
  {
    if xs != [] && !StrLe(x, xs[0]) {
      InsertElems(x, xs[1..]);
      assert xs == [xs[0]] + xs[1..];
    }
  }

  lemma {:induction false} InsertMultiset(x: string, xs: seq<string>)
    ensures multiset(Insert(x, xs)) == multiset(xs) + multiset{x}
  {
    if xs != [] && !StrLe(x, xs[0]) {
      InsertMultiset(x, xs[1..]);
      assert xs == [xs[0]] + xs[1..];
    }
  }

  lemma {:induction false} InsertSorted(x: string, xs: seq<string>)
    requires Sorted(xs)
    ensures Sorted(Insert(x, xs))
  {
    if xs == [] {
    } else if StrLe(x, xs[0]) {
      forall k | 0 <= k < |xs| ensures StrLe(x, xs[k]) {
        if k > 0 { StrLeTransitive(x, xs[0], xs[k]); }
      }
      ConsSorted(x, xs);
    } else {
      StrLeTotal(x, xs[0]);
      SortedTail(xs);
      InsertSorted(x, xs[1..]);
      InsertElems(x, xs[1..]);
      var rest := Insert(x, xs[1..]);
      forall k | 0 <= k < |rest| ensures StrLe(xs[0], rest[k]) {
        assert rest[k] in rest;
        if rest[k] != x {
          var m :| 0 <= m < |xs[1..]| && xs[1..][m] == rest[k];
          assert xs[m + 1] == rest[k];
        }
      }
      ConsSorted(xs[0], rest);
    }
  }

  /** Inserting into a sorted sequence keeps it sorted and adds exactly `x`. */
  lemma InsertSpec(x: string, xs: seq<string>)
    requires Sorted(xs)
    ensures Sorted(Insert(x, xs))
    ensures multiset(Insert(x, xs)) == multiset(xs) + multiset{x}
  {
    InsertSorted(x, xs);
    InsertMultiset(x, xs);
  }

  /** `sorted(xs)`, by insertion. */
  function Sort(xs: seq<string>): seq<string> {
    if xs == [] then [] else Insert(xs[0], Sort(xs[1..]))
  }

  lemma {:induction false} SortSpec(xs: seq<string>)
    ensures Sorted(Sort(xs))
    ensures multiset(Sort(xs)) == multiset(xs)
  {
    if xs != [] {
      SortSpec(xs[1..]);
      InsertSpec(xs[0], Sort(xs[1..]));
      assert xs == [xs[0]] + xs[1..];
    }
  }

  /** Two sorted sequences with the same elements start with the same element. */
  lemma SameHead(a: seq<string>, b: seq<string>)
    requires Sorted(a) && Sorted(b) && multiset(a) == multiset(b) && a != []
    ensures b != [] && a[0] == b[0]
  {
    assert a[0] in multiset(b);
    var i :| 0 <= i < |b| && b[i] == a[0];
    assert b[0] in multiset(a);
    var j :| 0 <= j < |a| && a[j] == b[0];
    assert StrLe(b[0], a[0]) by {
      if i == 0 { StrLeTotal(b[0], b[0]); } else { assert StrLe(b[0], b[i]); }
    }
    assert StrLe(a[0], b[0]) by {
      if j == 0 { StrLeTotal(a[0], a[0]); } else { assert StrLe(a[0], a[j]); }
    }
    StrLeAntisymmetric(a[0], b[0]);
  }

  lemma TailMultiset(a: seq<string>)
    requires a != []
    ensures multiset(a[1..]) == multiset(a) - multiset{a[0]}
  {
    assert a == [a[0]] + a[1..];
  }

  /** Two sorted sequences with the same elements are the same sequence. */
  lemma {:induction false} SortedUnique(a: seq<string>, b: seq<string>)
    requires Sorted(a) && Sorted(b) && multiset(a) == multiset(b)
    ensures a == b
    decreases |a|
  {
    if a == [] {
      assert |multiset(b)| == 0;
    } else {
      SameHead(a, b);
      TailMultiset(a);
      TailMultiset(b);
      SortedTail(a);
      SortedTail(b);
      SortedUnique(a[1..], b[1..]);
      assert a == [a[0]] + a[1..] && b == [b[0]] + b[1..];
    }
  }

  /** `_extract_tokens(s)`: the protected tokens of `s` as a sorted tuple. */
  function ExtractTokens(s: string): seq<string> {
    if s == [] then [] else Sort(RawTokens(s))
  }

  /** The extracted tuple is sorted and holds exactly the tokens of `s`. */
  lemma ExtractTokensSpec(s: string)
    ensures Sorted(ExtractTokens(s))
    ensures multiset(ExtractTokens(s)) == multiset(RawTokens(s))
  {
    if s != [] {
      SortSpec(RawTokens(s));
    }
  }

  /** The placeholder check passes: both strings carry the same sorted tokens. */
  predicate SameTokens(src: string, out: string) {
    ExtractTokens(src) == ExtractTokens(out)
  }

  /**
   * Comparing the sorted token tuples, as the strict check does, is comparing
   * the token multisets: order of appearance does not matter, counts do.
   */
  lemma TokensAgreeIffSameMultiset(a: string, b: string)
    ensures ExtractTokens(a) == ExtractTokens(b) <==> multiset(RawTokens(a)) == multiset(RawTokens(b))
  {
    ExtractTokensSpec(a);
    ExtractTokensSpec(b);
    if multiset(RawTokens(a)) == multiset(RawTokens(b)) {
      SortedUnique(ExtractTokens(a), ExtractTokens(b));
    }
  }

  // ---------- script tests ----------

  /** `_has_latin(s)`: some ASCII letter occurs. */
  function HasLatin(s: string): (r: bool)
    ensures r <==> exists i :: 0 <= i < |s| && IsAsciiLetter(s[i])
  {
    SearchClass(s, IsAsciiLetter)
  }

  /** `_looks_russian_only(s)`: some Cyrillic letter and no ASCII letter. */
  function LooksRussianOnly(s: string): (r: bool)
    ensures r ==> !HasLatin(s) && s != []
  {
    SearchClass(s, IsCyrillic) && !HasLatin(s)
  }

  // ---------- locale names ----------

  const LangNames: map<string, string> := map[
    "ru_ru" := "Russian", "en_us" := "English", "de_de" := "German",
    "fr_fr" := "French", "es_es" := "Spanish", "pt_br" := "Brazilian Portuguese",
    "zh_cn" := "Simplified Chinese", "ja_jp" := "Japanese"
  ]

  /**
   * `_lang_name_from_mc_code(code)`: the English name of a known locale,
   * looked up case-insensitively; an unknown code comes back as given.
   */
  function LangNameFromMcCode(code: string): (r: string)
    ensures r == code || r in LangNames.Values
    ensures Lower(code) in LangNames ==> r == LangNames[Lower(code)]
    ensures Lower(code) !in LangNames ==> r == code
  {
    var m := Lower(code);
    if m in LangNames then LangNames[m] else code
  }

  // ---------- _coerce_json_array ----------

  /** `str(x)` of a parsed element: a string is itself, anything else is rendered by `show`. */
  function PyStr(x: Json, show: Json -> string): string {
    if x.JStr? then x.s else show(x)
  }

  /** The reply with surrounding whitespace removed and a Markdown code fence (and a `json` tag) taken off. */
  function FenceStripped(raw: string): string {
    var txt := Strip(raw);
    if StartsWith(txt, "```") then
      var t := Strip(Trim(txt, c => c == '`'));
      if StartsWith(Lower(t), "json") then TrimLeft(t[4..], IsSpace) else t
    else txt
  }

  /** A parse that is a list of the expected length (any length when 0 is expected), as strings. */
  function AcceptArray(v: Option<Json>, expectedLen: int, show: Json -> string): (r: Option<seq<string>>)
    ensures r.Some? <==> v.Some? && v.value.JArr? && (expectedLen == 0 || |v.value.items| == expectedLen)
    ensures r.Some? ==> |r.value| == |v.value.items|
    ensures r.Some? ==> forall k :: 0 <= k < |r.value| ==> r.value[k] == PyStr(v.value.items[k], show)
  {
    if v.Some? && v.value.JArr? && (expectedLen == 0 || |v.value.items| == expectedLen) then
      var xs := v.value.items;
      Some(seq(|xs|, k requires 0 <= k < |xs| => PyStr(xs[k], show)))
    else None
  }

  /** `start` is the first `[` of `txt` and `end` the last `]`, after it. */
  predicate OuterBrackets(txt: string, start: int, end: int) {
    0 <= start < end < |txt| && txt[start] == '[' && '[' !in txt[..start] && txt[end] == ']' && ']' !in txt[end + 1..]
  }

  /** The pair `FindChar`/`RFindChar` report is the only pair of outer brackets, when it is one. */
  lemma OuterBracketsUnique(txt: string, start: int, end: int)
    requires OuterBrackets(txt, start, end)
    ensures FindChar(txt, '[') == Some(start) && RFindChar(txt, ']') == Some(end)
  {
  }

  /** The second attempt of `_coerce_json_array`: the slice from the first `[` to the last `]`, when that is after it. */
  function BracketRetry(txt: string, expectedLen: int, parse: string -> Option<Json>, show: Json -> string)
    : (r: Option<seq<string>>)
    ensures r.Some? ==> exists a, b :: 0 <= a <= b <= |txt| && AcceptArray(parse(txt[a..b]), expectedLen, show) == r
    ensures forall start, end :: OuterBrackets(txt, start, end) ==>
      r == AcceptArray(parse(txt[start..end + 1]), expectedLen, show)
    ensures r.None? <==> forall start, end :: OuterBrackets(txt, start, end) ==>
      AcceptArray(parse(txt[start..end + 1]), expectedLen, show).None?
  {
    forall start, end | OuterBrackets(txt, start, end)
      ensures FindChar(txt, '[') == Some(start) && RFindChar(txt, ']') == Some(end)
    {
      OuterBracketsUnique(txt, start, end);
    }
    match (FindChar(txt, '['), RFindChar(txt, ']'))
    case (Some(start), Some(end)) =>
      if end > start then
        assert OuterBrackets(txt, start, end);
        AcceptArray(parse(txt[start..end + 1]), expectedLen, show)
      else None
    case _ => None
  }

  /**
   * `_coerce_json_array(raw, expected_len)` with `json.loads` given as `parse`;
   * None stands for the RuntimeError raised when nothing usable is found.
   * The whole (fence-stripped) reply is tried first, then the slice from its
   * first `[` to its last `]`.
   */
  function CoerceJsonArray(raw: string, expectedLen: int, parse: string -> Option<Json>, show: Json -> string)
    : (r: Option<seq<string>>)
    ensures r.Some? ==> expectedLen == 0 || |r.value| == expectedLen
    ensures r.Some? ==>
      var txt := FenceStripped(raw);
      exists a, b :: 0 <= a <= b <= |txt| && AcceptArray(parse(txt[a..b]), expectedLen, show) == r
    ensures AcceptArray(parse(FenceStripped(raw)), expectedLen, show).Some? ==>
      r == AcceptArray(parse(FenceStripped(raw)), expectedLen, show)
    ensures var txt := FenceStripped(raw);
      AcceptArray(parse(txt), expectedLen, show).None? ==>
        forall start, end :: OuterBrackets(txt, start, end) ==>
          r == AcceptArray(parse(txt[start..end + 1]), expectedLen, show)
    ensures var txt := FenceStripped(raw);
      r.None? <==>
        && AcceptArray(parse(txt), expectedLen, show).None?
        && forall start, end :: OuterBrackets(txt, start, end) ==>
             AcceptArray(parse(txt[start..end + 1]), expectedLen, show).None?
  {
    var txt := FenceStripped(raw);
    var first := AcceptArray(parse(txt), expectedLen, show);
    if first.Some? then
      assert txt[0..|txt|] == txt;
      first
    else
      BracketRetry(txt, expectedLen, parse, show)
  }
}
