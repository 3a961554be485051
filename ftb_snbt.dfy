/**
 * src/processors/ftb_snbt.py: FTB Quests `.snbt` text is rewritten by a
 * `re.sub` over `key : value` fields whose key is an FTB text key and whose
 * value is a quoted string or a list of quoted strings. The regular
 * expressions are written out as scanners that follow the backtracking order
 * of Python's `re`. The translator is `tr`; `None` stands for an exception.
 */
module FtbSnbt {
  import opened Wrappers
  import opened TextUtil
  import opened Helpers
  import opened Escaping
  import opened Pieces
  import opened Literals
  import Config

  predicate IsQuote(c: char) {
    c == '"' || c == '\''
  }

  // ---------- _escape / _unescape ----------

  /** The delimiter both functions handle: `"` for a double quote, `'` for anything else. */
  function Delimiter(q: char): char {
    if q == '"' then '"' else '\''
  }

  /** `_escape(s, quote)` */
  function Escape(s: string, q: char): string {
    Escaped(s, Delimiter(q))
  }

  /** `_unescape(s, quote)` */
  function Unescape(s: string, q: char): string {
    Unescaped(s, Delimiter(q))
  }

  lemma UnescapeEscape(s: string, q: char)
    ensures Unescape(Escape(s, q), q) == s
  {
    EscapeRoundTrip(s, Delimiter(q));
  }

  // ---------- string literals ----------

  /**
   * The places where `(?:\\.|[^q])*q` can end when it starts at `p`, in the
   * order the greedy loop tries them: first a backslash pair, then any
   * character but `q`, and only then the closing `q`.
   */
  function GreedyBodyEnds(s: string, q: char, p: nat): (ends: seq<nat>)
    requires p <= |s|
    ensures QuotedEndsAfter(s, q, p, ends)
    decreases |s| - p
  {
    if p == |s| then []
    else
      var pair := if s[p] == '\\' && p + 1 < |s| then GreedyBodyEnds(s, q, p + 2) else [];
      var other := if s[p] != q then GreedyBodyEnds(s, q, p + 1) else [];
      var close := if s[p] == q then [p + 1] else [];
      QuotedEndsJoin(s, q, p, pair, other, close);
      pair + other + close
  }

  /** Every place in `ends` lies after `p` and just past a `q`. */
  predicate QuotedEndsAfter(s: string, q: char, p: nat, ends: seq<nat>) {
    forall k :: 0 <= k < |ends| ==> p < ends[k] <= |s| && s[ends[k] - 1] == q
  }

  lemma QuotedEndsJoin(s: string, q: char, p: nat, a: seq<nat>, b: seq<nat>, c: seq<nat>)
    requires QuotedEndsAfter(s, q, p, a) && QuotedEndsAfter(s, q, p, b) && QuotedEndsAfter(s, q, p, c)
    ensures QuotedEndsAfter(s, q, p, a + b + c)
  {
    var e := a + b + c;
    forall k | 0 <= k < |e|
      ensures p < e[k] <= |s| && s[e[k] - 1] == q
    {
      if k < |a| {
        assert e[k] == a[k];
      } else if k < |a| + |b| {
        assert e[k] == b[k - |a|];
      } else {
        assert e[k] == c[k - |a| - |b|];
      }
    }
  }

  /** Ends of `_STR_TOKEN_NC` (a `"…"` or `'…'` literal) starting at `p`, in the order they are tried. */
  function LiteralEnds(s: string, p: nat): (ends: seq<nat>)
    requires p <= |s|
    ensures forall k :: 0 <= k < |ends| ==> p + 1 < ends[k] <= |s|
  {
    if p < |s| && IsQuote(s[p]) then GreedyBodyEnds(s, s[p], p + 1) else []
  }

  /**
   * `(?:\s*,\s*STR)*\s*\]` from `p`: another `, STR` first (each end of the
   * literal in turn), and when no continuation closes the list, the closing
   * bracket after optional whitespace.
   */
  function ListTail(s: string, p: nat): (r: Option<nat>)
    requires p <= |s|
    ensures r.Some? ==> p < r.value <= |s|
    decreases |s| - p, 1
  {
    var a := RunEnd(s, p, IsSpace);
    var more :=
      if a < |s| && s[a] == ',' then
        var b := RunEnd(s, a + 1, IsSpace);
        FirstTail(s, LiteralEnds(s, b), b)
      else None;
    if more.Some? then more
    else if a < |s| && s[a] == ']' then Some(a + 1)
    else None
  }

  /** The first literal end in `ends` from which the rest of the list matches. */
  function FirstTail(s: string, ends: seq<nat>, lo: nat): (r: Option<nat>)
    requires lo <= |s| && forall k :: 0 <= k < |ends| ==> lo < ends[k] <= |s|
    ensures r.Some? ==> lo < r.value <= |s|
    decreases |s| - lo, 0, |ends|
  {
    if ends == [] then None
    else
      var r := ListTail(s, ends[0]);
      if r.Some? then r else FirstTail(s, ends[1..], lo)
  }

  /**
   * `_LIST_OF_STRINGS_NC` at `p`, which holds `[`: the optional group of
   * literals is tried first; without it only whitespace may precede `]`.
   */
  function ListEnd(s: string, p: nat): (r: Option<nat>)
    requires p < |s| && s[p] == '['
    ensures r.Some? ==> p < r.value <= |s|
  {
    var a := RunEnd(s, p + 1, IsSpace);
    var withItems := FirstTail(s, LiteralEnds(s, a), a);
    if withItems.Some? then withItems
    else if a < |s| && s[a] == ']' then Some(a + 1)
    else None
  }

  /** The `val` group: a literal (its first end), else a list of literals. */
  function ValueEnd(s: string, b: nat): (r: Option<nat>)
    requires b <= |s|
    ensures r.Some? ==> b < r.value <= |s| && (IsQuote(s[b]) || s[b] == '[')
  {
    var ends := LiteralEnds(s, b);
    if ends != [] then Some(ends[0])
    else if b < |s| && s[b] == '[' then ListEnd(s, b)
    else None
  }

  /** Whitespace, one colon, whitespace: what `\s*:\s*` matches between a key and its value. */
  predicate ColonGap(g: string) {
    exists j :: 0 <= j < |g| && g[j] == ':' && forall t :: 0 <= t < |g| && t != j ==> IsSpace(g[t])
  }

  /** `\s*:\s*` over `s[lo..hi]`: one colon, whitespace around it. */
  predicate ColonGapAt(s: string, lo: nat, hi: nat)
    requires lo <= hi <= |s|
  {
    exists j :: lo <= j < hi && s[j] == ':' && forall t :: lo <= t < hi && t != j ==> IsSpace(s[t])
  }

  /** `key\s*:\s*(?P<val>…)` at `i` for one key; the result is the start and end of the value. */
  function FieldWithKey(s: string, i: nat, key: string): (r: Option<(nat, nat)>)
    requires i <= |s|
    ensures r.Some? ==>
      && OccursAt(s, key, i) && i + |key| < r.value.0 < r.value.1 <= |s|
      && ColonGapAt(s, i + |key|, r.value.0)
      && (IsQuote(s[r.value.0]) || s[r.value.0] == '[')
  {
    if !OccursAt(s, key, i) then None
    else
      var a := RunEnd(s, i + |key|, IsSpace);
      if a < |s| && s[a] == ':' then
        var b := RunEnd(s, a + 1, IsSpace);
        match ValueEnd(s, b)
        case None => None
        case Some(e) => Some((b, e))
      else None
  }

  /** The gap seen from the kept prefix `s[i..b]`. */
  lemma PrefixShape(s: string, i: nat, b: nat, k: string)
    requires OccursAt(s, k, i) && i + |k| <= b <= |s| && ColonGapAt(s, i + |k|, b)
    ensures StartsWith(s[i..b], k) && ColonGap(s[i..b][|k|..])
  {
    assert s[i..b][..|k|] == s[i..i + |k|];
    var g := s[i..b][|k|..];
    assert g == s[i + |k|..b];
    var j :| i + |k| <= j < b && s[j] == ':' && forall t :: i + |k| <= t < b && t != j ==> IsSpace(s[t]);
    assert g[j - (i + |k|)] == ':';
    forall t | 0 <= t < |g| && t != j - (i + |k|) ensures IsSpace(g[t]) {
      assert g[t] == s[i + |k| + t];
    }
  }

  /** The key alternation, tried in the listed order (the sorted `_KEYS`). */
  function KeyMatch(s: string, i: nat, keys: seq<string>): (r: Option<(nat, nat)>)
    requires i <= |s|
    ensures r.Some? ==> exists k :: k in keys && FieldWithKey(s, i, k) == r
  {
    if keys == [] then None
    else
      var r := FieldWithKey(s, i, keys[0]);
      if r.Some? then r else KeyMatch(s, i, keys[1..])
  }

  /** A match of `_FIELD_PATTERN` starting at `i`. */
  function FieldAt(s: string, i: nat): Option<(nat, nat)>
    requires i <= |s|
  {
    KeyMatch(s, i, Config.FtbTextKeysSorted)
  }

  /** The key of the field found at `i`. */
  lemma KeyFound(s: string, i: nat) returns (k: string)
    requires i <= |s| && FieldAt(s, i).Some?
    ensures k in Config.FtbTextKeys && FieldWithKey(s, i, k) == FieldAt(s, i)
  {
    k :| k in Config.FtbTextKeysSorted && FieldWithKey(s, i, k) == FieldAt(s, i);
    SortedKeysAreTextKeys();
  }

  /** The field found at `i` is shaped like one: an FTB text key, `\s*:\s*`, a quoted or bracketed value. */
  lemma FieldFound(s: string, i: nat)
    requires i <= |s| && FieldAt(s, i).Some?
    ensures var (b, e) := FieldAt(s, i).value; i < b < e <= |s| && FieldShaped(Hole(s[i..b], s[b..e]))
  {
    var k := KeyFound(s, i);
    var (b, e) := FieldAt(s, i).value;
    HoleShaped(s, i, b, e, k);
  }

  lemma HoleShaped(s: string, i: nat, b: nat, e: nat, k: string)
    requires k in Config.FtbTextKeys && OccursAt(s, k, i) && i + |k| < b < e <= |s|
    requires ColonGapAt(s, i + |k|, b) && (IsQuote(s[b]) || s[b] == '[')
    ensures FieldShaped(Hole(s[i..b], s[b..e]))
  {
    PrefixShape(s, i, b, k);
    assert s[b..e][0] == s[b];
  }

  /** One step of the `_FIELD_PATTERN.sub` scan: the field starting at `i`, or the single character there. */
  function NextField(s: string, i: nat): (r: (Piece, nat))
    requires i < |s|
    ensures i < r.1 <= |s| && Source(r.0) == s[i..r.1] && FieldShaped(r.0)
  {
    match FieldAt(s, i)
    case Some((b, e)) =>
      FieldFound(s, i);
      SliceConcat(s, i, b, e);
      (Hole(s[i..b], s[b..e]), e)
    case None => (Kept([s[i]]), i + 1)
  }

  /**
   * The scan of `_FIELD_PATTERN.sub`: a field is a piece whose prefix (key,
   * whitespace, colon, whitespace) is kept and whose body is the value text;
   * where no field starts, one character is kept and the scan moves on.
   */
  function Fields(s: string, i: nat): seq<Piece>
    requires i <= |s|
    decreases |s| - i
  {
    if i == |s| then []
    else
      var (p, n) := NextField(s, i);
      [p] + Fields(s, n)
  }

  // ---------- rewriting one value ----------

  /** `_translate_scalar`: blank strings and strings that do not look like text are not sent. */
  function TranslateScalar(s: string, tr: string -> Option<string>): Option<string> {
    if Strip(s) == [] then Some(s)
    else if !IsProbablyText(s, Config.SafeMaxLen) then Some(s)
    else tr(s)
  }

  /** `_translate_str_token`: unescape, translate, escape again, and keep the quote. */
  function TranslateToken(q: char, raw: string, tr: string -> Option<string>): Option<string> {
    match TranslateScalar(Unescape(raw, q), tr)
    case None => None
    case Some(out) => Some([q] + Escape(out, q) + [q])
  }

  /** One step of the `_STR_IN_LIST.sub` scan: the literal starting at `i`, or the single character there. */
  function NextLiteral(v: string, i: nat): (r: (Piece, nat))
    requires i < |v|
    ensures i < r.1 <= |v| && Source(r.0) == v[i..r.1] && LiteralShaped(r.0)
  {
    if IsQuote(v[i]) && LazyEnd(v, v[i], i + 1).Some? then
      var e := LazyEnd(v, v[i], i + 1).value;
      (Hole([], v[i..e]), e)
    else (Kept([v[i]]), i + 1)
  }

  /** The scan of `_STR_IN_LIST.sub`: every quoted literal is a piece of its own. */
  function ListLiterals(v: string, i: nat): seq<Piece>
    requires i <= |v|
    decreases |v| - i
  {
    if i == |v| then []
    else
      var (p, n) := NextLiteral(v, i);
      [p] + ListLiterals(v, n)
  }

  /** A literal piece of a list: both quotes, the same one at each end. */
  predicate LiteralShaped(h: Piece) {
    h.Hole? ==> |h.body| >= 2 && IsQuote(h.body[0]) && h.body[|h.body| - 1] == h.body[0]
  }

  /** The callback on one literal of a list; every literal the scan finds has both its quotes. */
  function RewriteLiteral(lit: string, tr: string -> Option<string>): Option<string> {
    if |lit| >= 2 then TranslateToken(lit[0], lit[1..|lit| - 1], tr) else Some(lit)
  }

  /** `_translate_list_of_strings` */
  function TranslateList(v: string, tr: string -> Option<string>): Option<string> {
    Substitute(ListLiterals(v, 0), lit => RewriteLiteral(lit, tr))
  }

  /** `_translate_field_value`: one literal, a list of literals, or anything else left alone. */
  function TranslateFieldValue(valText: string, tr: string -> Option<string>): Option<string> {
    var vt := Strip(valText);
    if vt == [] then Some(valText)
    else if (StartsWith(vt, "\"") && EndsWith(vt, "\"")) || (StartsWith(vt, "'") && EndsWith(vt, "'")) then
      if |vt| >= 2 && LiteralBody(vt[1..|vt| - 1], vt[0]) then TranslateToken(vt[0], vt[1..|vt| - 1], tr)
      else Some(valText)
    else if StartsWith(vt, "[") && EndsWith(vt, "]") then TranslateList(valText, tr)
    else Some(valText)
  }

  /** `translate_ftb_snbt_text` */
  function TranslateText(text: string, tr: string -> Option<string>): Option<string> {
    Substitute(Fields(text, 0), v => TranslateFieldValue(v, tr))
  }

  /** `translate_ftb_snbt_file` without the file I/O: an exception leaves the original text. */
  function TranslateFile(data: string, tr: string -> Option<string>): (out: string)
    ensures TranslateText(data, tr).None? ==> out == data
    ensures TranslateText(data, tr).Some? ==> out == TranslateText(data, tr).value
  {
    TranslateText(data, tr).GetOr(data)
  }

  // ---------- properties ----------

  /** The key alternation is exactly the set of FTB text keys. */
  lemma SortedKeysAreTextKeys()
    ensures forall k :: k in Config.FtbTextKeysSorted <==> k in Config.FtbTextKeys
  {
  }

  /** The field scan cuts the text into pieces that put it back together. */
  lemma {:induction false} FieldsJoin(s: string, i: nat)
    requires i <= |s|
    ensures Joined(Fields(s, i)) == s[i..]
    ensures forall h :: h in Fields(s, i) ==> FieldShaped(h)
    decreases |s| - i
  {
    if i < |s| {
      var (p, n) := NextField(s, i);
      FieldsJoin(s, n);
      JoinedCons(p, Fields(s, n));
      SliceJoin(s, i, n);
    }
  }

  /** A field piece: an FTB text key, `\s*:\s*`, and a value starting with a quote or `[`. */
  predicate FieldShaped(h: Piece) {
    h.Hole? ==>
      && (exists k :: k in Config.FtbTextKeys && StartsWith(h.prefix, k) && ColonGap(h.prefix[|k|..]))
      && h.body != [] && (IsQuote(h.body[0]) || h.body[0] == '[')
  }

  /**
   * Only field values change: when every value's rewrite is the value
   * itself, the text comes back unchanged (keys, colons and everything
   * between fields are copied).
   */
  lemma OutsideFieldsUnchanged(s: string, tr: string -> Option<string>)
    requires forall k :: 0 <= k < |Bodies(Fields(s, 0))| ==>
      TranslateFieldValue(Bodies(Fields(s, 0))[k], tr) == Some(Bodies(Fields(s, 0))[k])
    ensures TranslateText(s, tr) == Some(s)
  {
    SubstituteIdentity(Fields(s, 0), v => TranslateFieldValue(v, tr));
    FieldsJoin(s, 0);
  }

  /** The list scan cuts a value into its literals and the brackets, commas and whitespace between them. */
  lemma {:induction false} ListLiteralsJoin(v: string, i: nat)
    requires i <= |v|
    ensures Joined(ListLiterals(v, i)) == v[i..]
    ensures forall h :: h in ListLiterals(v, i) ==> LiteralShaped(h)
    decreases |v| - i
  {
    if i < |v| {
      var (p, n) := NextLiteral(v, i);
      ListLiteralsJoin(v, n);
      JoinedCons(p, ListLiterals(v, n));
      SliceJoin(v, i, n);
    }
  }

  /** A blank string, or one that does not look like text, is returned as it is without calling the translator. */
  lemma ScalarSentIffText(s: string, tr: string -> Option<string>)
    ensures IsProbablyText(s, Config.SafeMaxLen) ==> TranslateScalar(s, tr) == tr(s)
    ensures !IsProbablyText(s, Config.SafeMaxLen) ==> TranslateScalar(s, tr) == Some(s)
  {
    if IsProbablyText(s, Config.SafeMaxLen) {
      var i :| 0 <= i < |s| && IsAsciiLetter(s[i]);
      StripEmptyIffBlank(s);
      assert !IsSpace(s[i]);
    }
  }

  /**
   * A rewritten literal keeps its quote on both ends, and its inside
   * unescapes to the translation.
   */
  lemma TokenKeepsQuote(q: char, raw: string, tr: string -> Option<string>)
    requires TranslateToken(q, raw, tr).Some?
    ensures var out := TranslateToken(q, raw, tr).value;
      && |out| >= 2 && out[0] == q && out[|out| - 1] == q
      && Some(Unescape(out[1..|out| - 1], q)) == TranslateScalar(Unescape(raw, q), tr)
  {
    var t := TranslateScalar(Unescape(raw, q), tr).value;
    var out := [q] + Escape(t, q) + [q];
    assert out[1..|out| - 1] == Escape(t, q);
    UnescapeEscape(t, q);
  }
}
