/**
 * src/processors/kubejs_js.py: in a KubeJS script the first string or
 * template argument of a call to one of a few known functions is rewritten
 * by a `re.sub`; everything else in the script is copied. The regular
 * expression is written out as a scanner that follows the backtracking order
 * of Python's `re`. The translator is `tr`; `None` stands for an exception,
 * which the script rewrite does not catch.
 */
module KubeJs {
  import opened Wrappers
  import opened TextUtil
  import opened Escaping
  import opened Pieces
  import opened Literals

  /** `_FUNCS`, in the order the alternation tries them (the dots are literal). */
  const Funcs: seq<string> := ["Text.of", "tell", "player.tell", "server.tell", "console.log", "sendMessage"]

  predicate IsQuote(c: char) {
    c == '"' || c == '\''
  }

  /** The characters that open the `val` group: the two quotes and the backtick. */
  predicate IsDelim(c: char) {
    IsQuote(c) || c == '`'
  }

  // ---------- _escape / _unescape ----------

  /** `_escape(s, quote)`: backslashes doubled; the delimiter escaped only for the two quotes. */
  function Escape(s: string, q: char): string {
    if IsQuote(q) then Escaped(s, q) else ReplaceAll(s, "\\", "\\\\")
  }

  /** `_unescape(s, quote)` */
  function Unescape(s: string, q: char): string {
    if IsQuote(q) then Unescaped(s, q) else ReplaceAll(s, "\\\\", "\\")
  }

  /** Unescaping undoes escaping for both quote characters. */
  lemma UnescapeEscape(s: string, q: char)
    requires IsQuote(q)
    ensures Unescape(Escape(s, q), q) == s
  {
    EscapeRoundTrip(s, q);
  }

  // ---------- the call pattern ----------

  /**
   * The `val` group at `b`: a `"…"` or `'…'` literal closed lazily, else a
   * template literal closed lazily by a backtick (a quoted literal that does
   * not close cannot be a template one). The result is the index just past
   * the closing delimiter.
   */
  function ArgEnd(s: string, b: nat): (r: Option<nat>)
    requires b <= |s|
    ensures r.Some? ==> b + 2 <= r.value <= |s| && IsDelim(s[b]) && s[r.value - 1] == s[b]
    ensures r.Some? ==> WholeLiteral(s[b..r.value])
  {
    if b < |s| && IsDelim(s[b]) then
      var r := LazyEnd(s, s[b], b + 1);
      if r.Some? then
        LazyEndBody(s, s[b], b + 1);
        LiteralFound(s, b, r.value);
        r
      else None
    else None
  }

  /** `\s*\(\s*` over `s[lo..hi]`: one opening parenthesis, whitespace around it. */
  predicate ParenGapAt(s: string, lo: nat, hi: nat)
    requires lo <= hi <= |s|
  {
    exists j :: lo <= j < hi && s[j] == '(' && forall t :: lo <= t < hi && t != j ==> IsSpace(s[t])
  }

  /** The same gap, as a string of its own. */
  predicate ParenGap(g: string) {
    exists j :: 0 <= j < |g| && g[j] == '(' && forall t :: 0 <= t < |g| && t != j ==> IsSpace(g[t])
  }

  /** `fn\s*\(\s*(?P<val>…)` at `i` for one name; the result is the start and end of the argument. */
  function CallWithName(s: string, i: nat, fn: string): (r: Option<(nat, nat)>)
    requires i <= |s|
    ensures r.Some? ==>
      && OccursAt(s, fn, i) && i + |fn| < r.value.0 && r.value.0 + 2 <= r.value.1 <= |s|
      && ParenGapAt(s, i + |fn|, r.value.0)
      && IsDelim(s[r.value.0]) && s[r.value.1 - 1] == s[r.value.0]
      && WholeLiteral(s[r.value.0..r.value.1])
  {
    if !OccursAt(s, fn, i) then None
    else
      var a := RunEnd(s, i + |fn|, IsSpace);
      if a < |s| && s[a] == '(' then
        var b := RunEnd(s, a + 1, IsSpace);
        match ArgEnd(s, b)
        case None => None
        case Some(e) => Some((b, e))
      else None
  }

  /** The name alternation, tried in the listed order. */
  function NameMatch(s: string, i: nat, names: seq<string>): (r: Option<(nat, nat)>)
    requires i <= |s|
    ensures r.Some? ==> exists fn :: fn in names && CallWithName(s, i, fn) == r
  {
    if names == [] then None
    else
      var r := CallWithName(s, i, names[0]);
      if r.Some? then r else NameMatch(s, i, names[1..])
  }

  /** A match of `_CALL_RE` starting at `i`. */
  function CallAt(s: string, i: nat): Option<(nat, nat)>
    requires i <= |s|
  {
    NameMatch(s, i, Funcs)
  }

  /** The name of the call found at `i`. */
  lemma NameFound(s: string, i: nat) returns (fn: string)
    requires i <= |s| && CallAt(s, i).Some?
    ensures fn in Funcs && CallWithName(s, i, fn) == CallAt(s, i)
  {
    fn :| fn in Funcs && CallWithName(s, i, fn) == CallAt(s, i);
  }

  /** The gap seen from the kept prefix `s[i..b]`. */
  lemma PrefixShape(s: string, i: nat, b: nat, fn: string)
    requires OccursAt(s, fn, i) && i + |fn| <= b <= |s| && ParenGapAt(s, i + |fn|, b)
    ensures StartsWith(s[i..b], fn) && ParenGap(s[i..b][|fn|..])
  {
    assert s[i..b][..|fn|] == s[i..i + |fn|];
    var g := s[i..b][|fn|..];
    assert g == s[i + |fn|..b];
    var j :| i + |fn| <= j < b && s[j] == '(' && forall t :: i + |fn| <= t < b && t != j ==> IsSpace(s[t]);
    assert g[j - (i + |fn|)] == '(';
    forall t | 0 <= t < |g| && t != j - (i + |fn|) ensures IsSpace(g[t]) {
      assert g[t] == s[i + |fn| + t];
    }
  }

  /** A call's kept prefix: a name from `_FUNCS`, then `\s*\(\s*`. */
  predicate CallPrefix(prefix: string) {
    exists fn :: fn in Funcs && StartsWith(prefix, fn) && ParenGap(prefix[|fn|..])
  }

  /** One whole literal, opened and closed by the same delimiter, whose inside the lazy pattern accepts. */
  predicate WholeLiteral(lit: string) {
    |lit| >= 2 && IsDelim(lit[0]) && lit[|lit| - 1] == lit[0] && LiteralBody(lit[1..|lit| - 1], lit[0])
  }

  /** A call piece: its prefix is a call's, its body the first argument's literal and nothing more. */
  predicate CallShaped(h: Piece) {
    h.Hole? ==> CallPrefix(h.prefix) && WholeLiteral(h.body)
  }

  lemma PrefixFound(s: string, i: nat, b: nat, fn: string)
    requires fn in Funcs && OccursAt(s, fn, i) && i + |fn| <= b <= |s| && ParenGapAt(s, i + |fn|, b)
    ensures CallPrefix(s[i..b])
  {
    PrefixShape(s, i, b, fn);
  }

  lemma LiteralFound(s: string, b: nat, e: nat)
    requires b + 2 <= e <= |s| && IsDelim(s[b]) && s[e - 1] == s[b] && LiteralBody(s[b + 1..e - 1], s[b])
    ensures WholeLiteral(s[b..e])
  {
    SliceInSlice(s, b, e, 1, e - b - 1);
  }

  /** The call found at `i` is shaped like one. */
  lemma CallFound(s: string, i: nat)
    requires i <= |s| && CallAt(s, i).Some?
    ensures var (b, e) := CallAt(s, i).value; i < b && b + 2 <= e <= |s| && CallShaped(Hole(s[i..b], s[b..e]))
  {
    var fn := NameFound(s, i);
    var (b, e) := CallAt(s, i).value;
    PrefixFound(s, i, b, fn);
  }

  /** One step of the `_CALL_RE.sub` scan: the call starting at `i`, or the single character there. */
  function NextCall(s: string, i: nat): (r: (Piece, nat))
    requires i < |s|
    ensures i < r.1 <= |s| && Source(r.0) == s[i..r.1] && CallShaped(r.0)
  {
    match CallAt(s, i)
    case Some((b, e)) =>
      CallFound(s, i);
      SliceConcat(s, i, b, e);
      (Hole(s[i..b], s[b..e]), e)
    case None => (Kept([s[i]]), i + 1)
  }

  /**
   * The scan of `_CALL_RE.sub`: a call is a piece whose prefix (name,
   * whitespace, parenthesis, whitespace) is kept and whose body is the
   * first argument's literal; elsewhere one character is kept and the scan
   * moves on.
   */
  function Calls(s: string, i: nat): seq<Piece>
    requires i <= |s|
    decreases |s| - i
  {
    if i == |s| then []
    else
      var (p, n) := NextCall(s, i);
      [p] + Calls(s, n)
  }

  // ---------- rewriting one literal ----------

  /**
   * `re.match(r'^' + _STR + r'$|^' + _TPL + r'$', lit)`: the delimiter and
   * the raw inside, or `None` when the literal does not match. `$` also
   * matches before a final newline.
   */
  function InnerMatch(lit: string): (r: Option<(char, string)>)
    ensures r.Some? ==> |lit| >= 2 && IsDelim(r.value.0) && lit[0] == r.value.0
  {
    if |lit| >= 2 && IsDelim(lit[0]) && lit[|lit| - 1] == lit[0] && LiteralBody(lit[1..|lit| - 1], lit[0]) then
      Some((lit[0], lit[1..|lit| - 1]))
    else if |lit| >= 3 && IsDelim(lit[0]) && lit[|lit| - 1] == '\n' && lit[|lit| - 2] == lit[0]
      && LiteralBody(lit[1..|lit| - 2], lit[0]) then
      Some((lit[0], lit[1..|lit| - 2]))
    else None
  }

  /**
   * `_translate_literal`: a quoted literal is unescaped, translated and
   * escaped again inside its own quote; a template literal holding `${` is
   * returned as it is; another template literal is translated as it stands
   * and has its backslashes and backticks escaped.
   */
  function TranslateLiteral(q: char, raw: string, tr: string -> Option<string>): Option<string> {
    if IsQuote(q) then
      match tr(Unescape(raw, q))
      case None => None
      case Some(out) => Some([q] + Escape(out, q) + [q])
    else if Contains(raw, "${") then Some("`" + raw + "`")
    else
      match tr(raw)
      case None => None
      case Some(out) => Some("`" + Escaped(out, '`') + "`")
  }

  /** The callback `repl` on the argument's literal: a literal the inner match rejects is kept. */
  function RewriteArg(lit: string, tr: string -> Option<string>): Option<string> {
    match InnerMatch(lit)
    case None => Some(lit)
    case Some((q, raw)) => TranslateLiteral(q, raw, tr)
  }

  /** `translate_kubejs_script_text` */
  function TranslateText(text: string, tr: string -> Option<string>): Option<string> {
    Substitute(Calls(text, 0), lit => RewriteArg(lit, tr))
  }

  // ---------- properties ----------

  /**
   * The call scan cuts the script into pieces that put it back together;
   * every call piece keeps a `_FUNCS` name, `(` and the whitespace, and its
   * body is the first argument's literal alone.
   */
  lemma {:induction false} CallsJoin(s: string, i: nat)
    requires i <= |s|
    ensures Joined(Calls(s, i)) == s[i..]
    ensures forall h :: h in Calls(s, i) ==> CallShaped(h)
    decreases |s| - i
  {
    if i < |s| {
      var (p, n) := NextCall(s, i);
      CallsJoin(s, n);
      JoinedCons(p, Calls(s, n));
      SliceJoin(s, i, n);
    }
  }

  /** The inner match always finds the literal the call scan found, with its own delimiter and inside. */
  lemma ScannedLiteralMatches(lit: string)
    requires WholeLiteral(lit)
    ensures InnerMatch(lit) == Some((lit[0], lit[1..|lit| - 1]))
  {
  }

  /**
   * Only call arguments change: when every argument's rewrite is the
   * argument itself, the script comes back unchanged.
   */
  lemma OutsideCallsUnchanged(s: string, tr: string -> Option<string>)
    requires forall k :: 0 <= k < |Bodies(Calls(s, 0))| ==>
      RewriteArg(Bodies(Calls(s, 0))[k], tr) == Some(Bodies(Calls(s, 0))[k])
    ensures TranslateText(s, tr) == Some(s)
  {
    SubstituteIdentity(Calls(s, 0), lit => RewriteArg(lit, tr));
    CallsJoin(s, 0);
  }

  /** A rewritten quoted literal keeps its quote on both ends, and its inside unescapes to the translation. */
  lemma QuotedKeepsQuote(q: char, raw: string, tr: string -> Option<string>)
    requires IsQuote(q) && TranslateLiteral(q, raw, tr).Some?
    ensures var out := TranslateLiteral(q, raw, tr).value;
      && |out| >= 2 && out[0] == q && out[|out| - 1] == q
      && Some(Unescape(out[1..|out| - 1], q)) == tr(Unescape(raw, q))
  {
    var t := tr(Unescape(raw, q)).value;
    var out := [q] + Escape(t, q) + [q];
    assert out[1..|out| - 1] == Escape(t, q);
    UnescapeEscape(t, q);
  }

  /** A template literal holding `${` is returned byte for byte, and the translator is not consulted. */
  lemma PlaceholderTemplateKept(lit: string, tr: string -> Option<string>)
    requires |lit| >= 2 && lit[0] == '`' && lit[|lit| - 1] == '`' && LiteralBody(lit[1..|lit| - 1], '`')
    requires Contains(lit[1..|lit| - 1], "${")
    ensures RewriteArg(lit, tr) == Some(lit)
  {
    assert "`" + lit[1..|lit| - 1] + "`" == lit;
  }

  /**
   * A translated template literal: every backtick inside is escaped by a
   * backslash, and undoing the two replacements gives the translation back.
   */
  lemma TemplateEscaped(raw: string, tr: string -> Option<string>, k: nat)
    requires !Contains(raw, "${") && tr(raw).Some?
    ensures var out := TranslateLiteral('`', raw, tr).value;
      && |out| >= 2 && out[0] == '`' && out[|out| - 1] == '`'
      && Unescaped(out[1..|out| - 1], '`') == tr(raw).value
      && (0 < k < |out| - 1 && out[k] == '`' ==> out[k - 1] == '\\')
  {
    var t := tr(raw).value;
    var e := Escaped(t, '`');
    var out := "`" + e + "`";
    assert out[1..|out| - 1] == e;
    EscapeRoundTrip(t, '`');
    if 0 < k < |out| - 1 && out[k] == '`' {
      assert e[k - 1] == '`';
      EscapedGuardsDelimiter(t, '`', k - 1);
      assert k - 1 > 0;
    }
  }
}
