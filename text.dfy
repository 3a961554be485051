/**
 * Character classes and the handful of Python `str` operations the translator
 * relies on (`in`, `startswith`, `endswith`, `strip`, `lower`, `replace`,
 * `split`, `os.path.join`, `os.path.dirname`), written out over `seq<char>`.
 */
module TextUtil {
  import opened Wrappers

  // ---------- character classes ----------

  /** `[A-Za-z]` */
  predicate IsAsciiLetter(c: char) {
    'A' <= c <= 'Z' || 'a' <= c <= 'z'
  }

  /** `\d` restricted to ASCII digits */
  predicate IsAsciiDigit(c: char) {
    '0' <= c <= '9'
  }

  /** `[А-Яа-яЁё]` : the range U+0410..U+044F plus Ё and ё */
  predicate IsCyrillic(c: char) {
    'А' <= c <= 'я' || c == 'Ё' || c == 'ё'
  }

  /** Python's `str.isspace()`, which is also the set that `\s` matches in a `str` pattern. */
  predicate IsSpace(c: char) {
    || c == ' '
    || '\t' <= c <= '\r'
    || '\U{1c}' <= c <= '\U{1f}'
    || c == '\U{85}' || c == '\U{a0}' || c == '\U{1680}'
    || '\U{2000}' <= c <= '\U{200a}'
    || c == '\U{2028}' || c == '\U{2029}' || c == '\U{202f}' || c == '\U{205f}' || c == '\U{3000}'
  }

  /** `str.lower()` on one character, for the ASCII letters (the only ones the model compares after lowering). */
  function LowerChar(c: char): char {
    if 'A' <= c <= 'Z' then (c as int + 32) as char else c
  }

  function Lower(s: string): (r: string)
    ensures |r| == |s|
    ensures forall i :: 0 <= i < |s| ==> r[i] == LowerChar(s[i])
  {
    seq(|s|, i requires 0 <= i < |s| => LowerChar(s[i]))
  }

  // ---------- searching ----------

  /** `re.search("[cls]", s)`: scans left to right for a character of the class. */
  function SearchClass(s: string, cls: char -> bool): (r: bool)
    ensures r <==> exists i :: 0 <= i < |s| && cls(s[i])
  {
    if s == [] then false
    else if cls(s[0]) then true
    else
      var r := SearchClass(s[1..], cls);
      assert r ==> exists i :: 0 <= i < |s| && cls(s[i]) by {
        if r { var i :| 0 <= i < |s| - 1 && cls(s[1..][i]); assert cls(s[i + 1]); }
      }
      r
  }

  /** End (exclusive) of the longest run of `cls` characters that starts at `j`. */
  function RunEnd(s: string, j: nat, cls: char -> bool): (e: nat)
    requires j <= |s|
    ensures j <= e <= |s|
    ensures forall k :: j <= k < e ==> cls(s[k])
    ensures e == |s| || !cls(s[e])
    decreases |s| - j
  {
    if j < |s| && cls(s[j]) then RunEnd(s, j + 1, cls) else j
  }

  predicate OccursAt(s: string, sub: string, i: int) {
    0 <= i && i + |sub| <= |s| && s[i..i + |sub|] == sub
  }

  /** Python's `sub in s` */
  predicate Contains(s: string, sub: string) {
    exists i :: 0 <= i <= |s| && OccursAt(s, sub, i)
  }

  predicate StartsWith(s: string, prefix: string) {
    |prefix| <= |s| && s[..|prefix|] == prefix
  }

  predicate EndsWith(s: string, suffix: string) {
    |suffix| <= |s| && s[|s| - |suffix|..] == suffix
  }

  lemma ContainsWitness(s: string, sub: string, i: int)
    requires OccursAt(s, sub, i)
    ensures Contains(s, sub)
  {
  }

  lemma ContainsPrefix(s: string, sub: string)
    requires StartsWith(s, sub)
    ensures Contains(s, sub)
  {
    assert OccursAt(s, sub, 0);
  }

  /** A string lacking one of the characters of `sub` cannot contain `sub`. */
  lemma NotContainsByChar(s: string, sub: string, k: nat)
    requires k < |sub|
    requires forall i :: 0 <= i < |s| ==> s[i] != sub[k]
    ensures !Contains(s, sub)
  {
    forall i | 0 <= i <= |s|
      ensures !OccursAt(s, sub, i)
    {
      if i + |sub| <= |s| {
        assert s[i..i + |sub|][k] == s[i + k];
      }
    }
  }

  /** The first index of `c` in `s` (`str.find`), or None. */
  function FindChar(s: string, c: char): (r: Option<nat>)
    ensures r.Some? ==> r.value < |s| && s[r.value] == c && c !in s[..r.value]
    ensures r.None? ==> c !in s
  {
    if s == [] then None
    else if s[0] == c then Some(0)
    else match FindChar(s[1..], c)
      case None => None
      case Some(k) => assert s[1..][..k] == s[1..k + 1]; Some(k + 1)
  }

  /** The last index of `c` in `s` (`str.rfind`), or None. */
  function RFindChar(s: string, c: char): (r: Option<nat>)
    ensures r.Some? ==> r.value < |s| && s[r.value] == c && c !in s[r.value + 1..]
    ensures r.None? ==> c !in s
  {
    if s == [] then None
    else if s[|s| - 1] == c then Some(|s| - 1)
    else
      assert s == s[..|s| - 1] + [s[|s| - 1]];
      RFindChar(s[..|s| - 1], c)
  }

  /** The first index of `x` in `xs` (Python's `list.index`), or None where Python raises ValueError. */
  function IndexOf<T(==)>(xs: seq<T>, x: T): (r: Option<nat>)
    ensures r.Some? ==> r.value < |xs| && xs[r.value] == x && x !in xs[..r.value]
    ensures r.None? ==> x !in xs
  {
    if xs == [] then None
    else if xs[0] == x then Some(0)
    else match IndexOf(xs[1..], x)
      case None => None
      case Some(k) => assert xs[1..][..k] == xs[1..k + 1]; Some(k + 1)
  }

  // ---------- strip ----------

  /** `s.lstrip(chars)` for the set of characters `drop` */
  function TrimLeft(s: string, drop: char -> bool): (r: string)
    ensures |r| <= |s| && r == s[|s| - |r|..]
    ensures forall k :: 0 <= k < |s| - |r| ==> drop(s[k])
    ensures r == [] || !drop(r[0])
  {
    if s != [] && drop(s[0]) then TrimLeft(s[1..], drop) else s
  }

  /** `s.rstrip(chars)` for the set of characters `drop` */
  function TrimRight(s: string, drop: char -> bool): (r: string)
    ensures |r| <= |s| && r == s[..|r|]
    ensures forall k :: |r| <= k < |s| ==> drop(s[k])
    ensures r == [] || !drop(r[|r| - 1])
  {
    if s != [] && drop(s[|s| - 1]) then TrimRight(s[..|s| - 1], drop) else s
  }

  /** `s.strip(chars)` */
  function Trim(s: string, drop: char -> bool): (r: string) {
    TrimRight(TrimLeft(s, drop), drop)
  }

  /** `s.strip()` with no argument: whitespace on both ends. */
  function Strip(s: string): (r: string) {
    Trim(s, IsSpace)
  }

  /** A stripped string is empty exactly when the original holds only whitespace. */
  lemma StripEmptyIffBlank(s: string)
    ensures Strip(s) == [] <==> forall k :: 0 <= k < |s| ==> IsSpace(s[k])
  {
    var l := TrimLeft(s, IsSpace);
    if l != [] {
      assert !IsSpace(l[0]);
      assert TrimRight(l, IsSpace) != [];
      assert !IsSpace(s[|s| - |l|]);
    }
  }

  // ---------- replace / split ----------

  /** Python's `s.replace(pat, rep)`: left to right, non-overlapping. */
  function ReplaceAll(s: string, pat: string, rep: string): string
    requires |pat| > 0
    decreases |s|
  {
    if |s| < |pat| then s
    else if s[..|pat|] == pat then rep + ReplaceAll(s[|pat|..], pat, rep)
    else [s[0]] + ReplaceAll(s[1..], pat, rep)
  }

  /** Python's `s.split(sep)` for a one-character separator. */
  function Split(s: string, sep: char): (parts: seq<string>)
    ensures |parts| >= 1
    ensures forall k :: 0 <= k < |parts| ==> sep !in parts[k]
  {
    if s == [] then [""]
    else
      var rest := Split(s[1..], sep);
      if s[0] == sep then [""] + rest
      else [[s[0]] + rest[0]] + rest[1..]
  }

  /** `str(n)` for a natural number. */
  function NatToString(n: nat): (r: string)
    ensures |r| >= 1
    ensures forall k :: 0 <= k < |r| ==> IsAsciiDigit(r[k])
  {
    var d := ['0' + (n % 10) as char];
    if n < 10 then d else NatToString(n / 10) + d
  }

  // ---------- POSIX paths ----------

  /** `posixpath.join(a, b)` */
  function PathJoin(a: string, b: string): (r: string)
    ensures StartsWith(b, "/") ==> r == b
    ensures !StartsWith(b, "/") ==> EndsWith(r, b)
    ensures a != [] || b != [] ==> r != []
  {
    if StartsWith(b, "/") then b
    else if a == [] || EndsWith(a, "/") then a + b
    else a + "/" + b
  }

  /** `posixpath.basename(p)`: everything after the last `/`. */
  function BaseName(p: string): (r: string)
    ensures '/' !in r
  {
    match RFindChar(p, '/') case None => p case Some(i) => p[i + 1..]
  }

  /** `posixpath.dirname(p)`: everything before the last `/`, without trailing slashes unless only slashes remain. */
  predicate IsSlash(c: char) {
    c == '/'
  }

  function DirName(p: string): string {
    var head := match RFindChar(p, '/') case None => "" case Some(i) => p[..i + 1];
    var trimmed := TrimRight(head, IsSlash);
    if trimmed == [] then head else trimmed
  }

  /** Joining a relative name onto a directory that does not end in `/` puts one `/` between them. */
  lemma JoinPlain(a: string, b: string)
    requires a != [] && a[|a| - 1] != '/'
    requires b != [] && b[0] != '/'
    ensures PathJoin(a, b) == a + "/" + b
  {
  }

  /** `os.path.join(root, *segs)` */
  function JoinAll(root: string, segs: seq<string>): string
    decreases |segs|
  {
    if segs == [] then root else JoinAll(PathJoin(root, segs[0]), segs[1..])
  }

  lemma JoinTwo(root: string, a: string, b: string)
    ensures JoinAll(root, [a, b]) == PathJoin(PathJoin(root, a), b)
  {
    assert [a, b][1..] == [b];
    assert [b][1..] == [];
    assert JoinAll(root, [a, b]) == JoinAll(PathJoin(root, a), [b]);
    assert JoinAll(PathJoin(root, a), [b]) == JoinAll(PathJoin(PathJoin(root, a), b), []);
  }

  /** Joining a relative name onto a non-empty directory ends the path with `/` and the name. */
  lemma JoinEndsWithName(dir: string, file: string)
    requires dir != [] && file != [] && file[0] != '/'
    ensures EndsWith(PathJoin(dir, file), "/" + file)
  {
    var dst := PathJoin(dir, file);
    if EndsWith(dir, "/") {
      assert dst == dir + file;
      assert dst[|dst| - |file| - 1..] == [dir[|dir| - 1]] + file;
    } else {
      assert dst == dir + "/" + file;
      assert dst[|dst| - |file| - 1..] == "/" + file;
    }
  }

  /** `os.path.join(root, dir, file)` ends with `/` and the file name whatever `dir` is. */
  lemma JoinFileEnds(root: string, dir: string, file: string)
    requires root != [] && file != [] && file[0] != '/'
    ensures EndsWith(JoinAll(root, [dir, file]), "/" + file)
  {
    JoinTwo(root, dir, file);
    JoinEndsWithName(PathJoin(root, dir), file);
  }

  /** The segments, each behind a `/`. */
  function Slashed(segs: seq<string>): string
    decreases |segs|
  {
    if segs == [] then "" else "/" + segs[0] + Slashed(segs[1..])
  }

  /** A path segment: non-empty and without `/`. */
  predicate PlainSegment(seg: string) {
    seg != [] && '/' !in seg
  }

  lemma JoinStep(root: string, seg: string) returns (next: string)
    requires root != [] && root[|root| - 1] != '/'
    requires PlainSegment(seg)
    ensures next == root + "/" + seg == PathJoin(root, seg)
    ensures next != [] && next[|next| - 1] != '/'
  {
    assert seg[0] in seg && seg[|seg| - 1] in seg;
    JoinPlain(root, seg);
    next := root + "/" + seg;
    assert next[|next| - 1] == seg[|seg| - 1];
  }

  /** Joining plain segments onto a root that does not end in `/` puts one `/` before each. */
  lemma {:induction false} JoinAllPlain(root: string, segs: seq<string>)
    requires root != [] && root[|root| - 1] != '/'
    requires forall k :: 0 <= k < |segs| ==> PlainSegment(segs[k])
    ensures JoinAll(root, segs) == root + Slashed(segs)
    decreases |segs|
  {
    if segs != [] {
      var next := JoinStep(root, segs[0]);
      assert forall k :: 0 <= k < |segs[1..]| ==> PlainSegment(segs[1..][k]) by {
        forall k | 0 <= k < |segs[1..]| ensures PlainSegment(segs[1..][k]) {
          assert segs[1..][k] == segs[k + 1];
        }
      }
      JoinAllPlain(next, segs[1..]);
      assert JoinAll(root, segs) == JoinAll(next, segs[1..]);
      assert Slashed(segs) == ("/" + segs[0]) + Slashed(segs[1..]);
      assert next == root + ("/" + segs[0]) by { Associate(root, "/", segs[0]); }
      Associate(root, "/" + segs[0], Slashed(segs[1..]));
    } else {
      assert root + "" == root;
    }
  }

  lemma Associate(a: string, b: string, c: string)
    ensures a + b + c == a + (b + c)
  {
  }
}
