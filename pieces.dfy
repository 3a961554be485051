/**
 * A text cut by a `re.sub` scan into stretches the substitution keeps and
 * matches it rewrites. A match keeps a prefix (a key and its colon, a call
 * and its parenthesis) and has its body replaced by the callback's answer.
 */
module Pieces {
  import opened Wrappers

  datatype Piece = Kept(text: string) | Hole(prefix: string, body: string)

  /** The text a piece covers in the input. */
  function Source(p: Piece): string {
    match p
    case Kept(t) => t
    case Hole(a, b) => a + b
  }

  /** The input, put back together from its pieces. */
  function Joined(ps: seq<Piece>): string {
    if ps == [] then [] else Source(ps[0]) + Joined(ps[1..])
  }

  lemma JoinedCons(p: Piece, ps: seq<Piece>)
    ensures Joined([p] + ps) == Source(p) + Joined(ps)
  {
    assert ([p] + ps)[1..] == ps;
  }

  lemma SliceJoin(s: string, i: nat, n: nat)
    requires i <= n <= |s|
    ensures s[i..n] + s[n..] == s[i..]
  {
  }

  lemma SliceConcat(s: string, i: nat, b: nat, e: nat)
    requires i <= b <= e <= |s|
    ensures s[i..b] + s[b..e] == s[i..e]
  {
  }

  lemma SliceInSlice(s: string, b: nat, e: nat, x: nat, y: nat)
    requires b <= e <= |s| && x <= y <= e - b
    ensures s[b..e][x..y] == s[b + x..b + y]
  {
    assert forall t :: 0 <= t < y - x ==> s[b..e][x..y][t] == s[b + x..b + y][t];
  }

  /** Consecutive slices of a text put back together. */
  lemma SlicesJoin(s: string, i: nat, b: nat, e: nat)
    requires i <= b <= e <= |s|
    ensures s[i..b] + s[b..e] + s[e..] == s[i..]
  {
  }

  /** The bodies of the matches, in text order: what the callback is applied to. */
  function Bodies(ps: seq<Piece>): (bs: seq<string>)
    ensures |bs| <= |ps|
  {
    if ps == [] then []
    else (if ps[0].Hole? then [ps[0].body] else []) + Bodies(ps[1..])
  }

  /** The output of the substitution: kept stretches and prefixes as they were, the k-th body replaced by `news[k]`. */
  function Splice(ps: seq<Piece>, news: seq<string>): string
    requires |news| == |Bodies(ps)|
  {
    if ps == [] then []
    else match ps[0]
      case Kept(t) => t + Splice(ps[1..], news)
      case Hole(a, _) => a + news[0] + Splice(ps[1..], news[1..])
  }

  /** Answering every match with its own body gives the input back. */
  lemma {:induction false} SpliceOwnBodies(ps: seq<Piece>)
    ensures Splice(ps, Bodies(ps)) == Joined(ps)
  {
    if ps != [] {
      SpliceOwnBodies(ps[1..]);
      if ps[0].Hole? {
        assert Bodies(ps) == [ps[0].body] + Bodies(ps[1..]);
        assert Bodies(ps)[1..] == Bodies(ps[1..]);
      } else {
        assert Bodies(ps) == Bodies(ps[1..]);
      }
    }
  }

  /**
   * The callback applied to every body in turn; `None` (the callback raised)
   * at any body makes the whole substitution fail.
   */
  function MapAll(xs: seq<string>, f: string -> Option<string>): (r: Option<seq<string>>)
    ensures r.Some? ==> |r.value| == |xs| && forall k :: 0 <= k < |xs| ==> f(xs[k]) == Some(r.value[k])
    ensures r.None? <==> exists k :: 0 <= k < |xs| && f(xs[k]).None?
  {
    if xs == [] then Some([])
    else match f(xs[0])
      case None => None
      case Some(y) =>
        match MapAll(xs[1..], f)
        case None =>
          assert exists k :: 0 <= k < |xs| && f(xs[k]).None? by {
            var k :| 0 <= k < |xs| - 1 && f(xs[1..][k]).None?;
            assert f(xs[k + 1]).None?;
          }
          None
        case Some(ys) =>
          assert forall k :: 0 < k < |xs| ==> f(xs[k]) == f(xs[1..][k - 1]);
          Some([y] + ys)
  }

  /** `re.sub` with a callback over the scan `ps`: the callback's answers spliced into the text. */
  function Substitute(ps: seq<Piece>, f: string -> Option<string>): (r: Option<string>)
    ensures r.None? <==> exists k :: 0 <= k < |Bodies(ps)| && f(Bodies(ps)[k]).None?
  {
    var bs := Bodies(ps);
    var answers := MapAll(bs, f);
    if answers.None? then
      var k :| 0 <= k < |bs| && f(bs[k]).None?;
      assert 0 <= k < |Bodies(ps)| && f(Bodies(ps)[k]).None?;
      None
    else Some(Splice(ps, answers.value))
  }

  /** A callback that returns every body unchanged leaves the text unchanged. */
  lemma SubstituteIdentity(ps: seq<Piece>, f: string -> Option<string>)
    requires forall k :: 0 <= k < |Bodies(ps)| ==> f(Bodies(ps)[k]) == Some(Bodies(ps)[k])
    ensures Substitute(ps, f) == Some(Joined(ps))
  {
    var news := MapAll(Bodies(ps), f).value;
    assert news == Bodies(ps);
    SpliceOwnBodies(ps);
  }
}
