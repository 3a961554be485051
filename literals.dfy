/**
 * The quoted-literal pattern `(?:\\.|(?!q).)*?q` that src/processors/ftb_snbt.py
 * and src/processors/kubejs_js.py both use: a body of backslash pairs and
 * characters other than the delimiter, closed lazily by the delimiter.
 */
module Literals {
  import opened Wrappers

  /** Whether `(?:\\.|(?!q).)*` matches the whole of `t`. */
  predicate LiteralBody(t: string, q: char)
    decreases |t|
  {
    || t == []
    || (t[0] == '\\' && |t| >= 2 && LiteralBody(t[2..], q))
    || (t[0] != q && LiteralBody(t[1..], q))
  }

  /**
   * The lazy body from `p`: close at the first `q` reachable, a backslash
   * pair taking precedence over a lone character. The result is the index
   * just past the closing `q`.
   */
  function LazyEnd(s: string, q: char, p: nat): (r: Option<nat>)
    requires p <= |s|
    ensures r.Some? ==> p < r.value <= |s| && s[r.value - 1] == q
    decreases |s| - p
  {
    if p == |s| then None
    else if s[p] == q then Some(p + 1)
    else
      var pair := if s[p] == '\\' && p + 1 < |s| then LazyEnd(s, q, p + 2) else None;
      if pair.Some? then pair else LazyEnd(s, q, p + 1)
  }

  /** What the lazy scan passes over before its closing delimiter is a whole literal body. */
  lemma {:induction false} LazyEndBody(s: string, q: char, p: nat)
    requires p <= |s| && LazyEnd(s, q, p).Some?
    ensures LiteralBody(s[p..LazyEnd(s, q, p).value - 1], q)
    decreases |s| - p
  {
    var e := LazyEnd(s, q, p).value;
    var t := s[p..e - 1];
    if s[p] == q {
      assert t == [];
    } else {
      var pair := if s[p] == '\\' && p + 1 < |s| then LazyEnd(s, q, p + 2) else None;
      if pair.Some? {
        LazyEndBody(s, q, p + 2);
        assert t[2..] == s[p + 2..e - 1];
      } else {
        LazyEndBody(s, q, p + 1);
        assert t[1..] == s[p + 1..e - 1];
      }
    }
  }
}
