/**
 * The backslash escaping that src/processors/ftb_snbt.py and
 * src/processors/kubejs_js.py apply to a literal's text: every backslash is
 * doubled, then every delimiter `c` gets a backslash in front; unescaping
 * undoes the two `str.replace` calls in the same order.
 */
module Escaping {
  import opened TextUtil

  /** `s.replace('\\', r'\\').replace(c, '\\' + c)` */
  function Escaped(s: string, c: char): string {
    ReplaceAll(ReplaceAll(s, "\\", "\\\\"), [c], ['\\', c])
  }

  /** `s.replace(r'\\', '\\').replace('\\' + c, c)` */
  function Unescaped(s: string, c: char): string {
    ReplaceAll(ReplaceAll(s, "\\\\", "\\"), ['\\', c], [c])
  }

  // ---------- str.replace, one step at a time ----------

  lemma ReplaceSkip(s: string, pat: string, rep: string)
    requires |pat| > 0 && s != [] && !StartsWith(s, pat)
    ensures ReplaceAll(s, pat, rep) == [s[0]] + ReplaceAll(s[1..], pat, rep)
  {
  }

  lemma ReplaceHead(s: string, pat: string, rep: string)
    requires |pat| > 0 && s != [] && s[0] != pat[0]
    ensures ReplaceAll(s, pat, rep) == [s[0]] + ReplaceAll(s[1..], pat, rep)
  {
    if |s| >= |pat| {
      assert s[..|pat|][0] != pat[0];
    }
    ReplaceSkip(s, pat, rep);
  }

  lemma ReplaceMatch(s: string, pat: string, rep: string)
    requires |pat| > 0 && StartsWith(s, pat)
    ensures ReplaceAll(s, pat, rep) == rep + ReplaceAll(s[|pat|..], pat, rep)
  {
  }

  /** With a one-character pattern, `replace` rewrites the first character and goes on with the rest. */
  lemma CharStep(s: string, c: char, rep: string)
    requires s != []
    ensures ReplaceAll(s, [c], rep) == (if s[0] == c then rep else [s[0]]) + ReplaceAll(s[1..], [c], rep)
  {
    if s[0] == c {
      assert s[..1] == [c];
      ReplaceMatch(s, [c], rep);
    } else {
      ReplaceHead(s, [c], rep);
    }
  }

  lemma AppendAssoc(a: string, b: string, c: string)
    ensures (a + b) + c == a + (b + c)
  {
  }

  /** With a one-character pattern, `replace` works character by character. */
  lemma {:induction false} ReplaceCharAppend(a: string, b: string, c: char, rep: string)
    ensures ReplaceAll(a + b, [c], rep) == ReplaceAll(a, [c], rep) + ReplaceAll(b, [c], rep)
    decreases |a|
  {
    if a == [] {
      assert a + b == b;
    } else {
      var t := a[1..];
      var h := if a[0] == c then rep else [a[0]];
      assert (a + b)[1..] == t + b;
      calc {
        ReplaceAll(a + b, [c], rep);
        { CharStep(a + b, c, rep); }
        h + ReplaceAll(t + b, [c], rep);
        { ReplaceCharAppend(t, b, c, rep); }
        h + (ReplaceAll(t, [c], rep) + ReplaceAll(b, [c], rep));
        { AppendAssoc(h, ReplaceAll(t, [c], rep), ReplaceAll(b, [c], rep)); }
        (h + ReplaceAll(t, [c], rep)) + ReplaceAll(b, [c], rep);
        { CharStep(a, c, rep); }
        ReplaceAll(a, [c], rep) + ReplaceAll(b, [c], rep);
      }
    }
  }

  lemma ReplaceCharCons(x: char, r: string, c: char, rep: string)
    ensures ReplaceAll([x] + r, [c], rep) == (if x == c then rep else [x]) + ReplaceAll(r, [c], rep)
  {
    assert ([x] + r)[1..] == r;
    CharStep([x] + r, c, rep);
  }

  /** After the delimiter escape no string begins with a bare delimiter. */
  lemma QuotedHead(r: string, c: char)
    requires c != '\\'
    ensures var t := ReplaceAll(r, [c], ['\\', c]); t == [] || t[0] != c
  {
    if r != [] {
      assert r == [r[0]] + r[1..];
      ReplaceCharCons(r[0], r[1..], c, ['\\', c]);
    }
  }

  /** The escape of one character. */
  function EscapedChar(x: char, c: char): string {
    if x == '\\' then "\\\\" else if x == c then ['\\', c] else [x]
  }

  /** Escaping works character by character. */
  lemma EscapedCons(x: char, r: string, c: char)
    requires c != '\\'
    ensures Escaped([x] + r, c) == EscapedChar(x, c) + Escaped(r, c)
  {
    var d := ReplaceAll(r, "\\", "\\\\");
    ReplaceCharCons(x, r, '\\', "\\\\");
    var d1 := if x == '\\' then "\\\\" else [x];
    ReplaceCharAppend(d1, d, c, ['\\', c]);
    if x == '\\' {
      ReplaceCharAppend("\\", "\\", c, ['\\', c]);
      ReplaceCharCons('\\', [], c, ['\\', c]);
    } else {
      ReplaceCharCons(x, [], c, ['\\', c]);
    }
  }

  lemma UndoDoublingDelim(c: char, er: string)
    requires c != '\\'
    ensures ReplaceAll(['\\', c] + er, "\\\\", "\\") == ['\\', c] + ReplaceAll(er, "\\\\", "\\")
  {
    var t := ['\\', c] + er;
    assert t[..2] == ['\\', c];
    ReplaceSkip(t, "\\\\", "\\");
    assert t[1..] == [c] + er;
    ReplaceHead([c] + er, "\\\\", "\\");
    assert ([c] + er)[1..] == er;
  }

  /** Undoing the backslash doubling on one escaped character and the rest. */
  lemma UndoDoublingStep(x: char, er: string, c: char)
    requires c != '\\'
    ensures ReplaceAll(EscapedChar(x, c) + er, "\\\\", "\\") == (if x == c then ['\\', c] else [x]) + ReplaceAll(er, "\\\\", "\\")
  {
    if x == '\\' {
      ReplaceMatch("\\\\" + er, "\\\\", "\\");
      assert ("\\\\" + er)[2..] == er;
    } else if x == c {
      UndoDoublingDelim(c, er);
    } else {
      ReplaceHead([x] + er, "\\\\", "\\");
      assert ([x] + er)[1..] == er;
    }
  }

  /** Undoing the backslash doubling leaves the delimiter escapes in place. */
  lemma {:induction false} UndoDoubling(s: string, c: char)
    requires c != '\\'
    ensures ReplaceAll(Escaped(s, c), "\\\\", "\\") == ReplaceAll(s, [c], ['\\', c])
    decreases |s|
  {
    if s != [] {
      var x, r := s[0], s[1..];
      assert s == [x] + r;
      EscapedCons(x, r, c);
      UndoDoubling(r, c);
      UndoDoublingStep(x, Escaped(r, c), c);
      ReplaceCharCons(x, r, c, ['\\', c]);
    }
  }

  /** Undoing the delimiter escapes gives the original text back. */
  lemma {:induction false} UndoQuoting(s: string, c: char)
    requires c != '\\'
    ensures ReplaceAll(ReplaceAll(s, [c], ['\\', c]), ['\\', c], [c]) == s
    decreases |s|
  {
    if s != [] {
      var x, r := s[0], s[1..];
      assert s == [x] + r;
      ReplaceCharCons(x, r, c, ['\\', c]);
      var qr := ReplaceAll(r, [c], ['\\', c]);
      UndoQuoting(r, c);
      if x == c {
        ReplaceMatch(['\\', c] + qr, ['\\', c], [c]);
        assert (['\\', c] + qr)[2..] == qr;
      } else if x == '\\' {
        QuotedHead(r, c);
        if qr == [] {
          assert ReplaceAll("\\", ['\\', c], [c]) == "\\";
        } else {
          assert ([x] + qr)[1] == qr[0];
          ReplaceSkip([x] + qr, ['\\', c], [c]);
          assert ([x] + qr)[1..] == qr;
        }
      } else {
        ReplaceHead([x] + qr, ['\\', c], [c]);
        assert ([x] + qr)[1..] == qr;
      }
    }
  }

  /** Unescaping an escaped text restores it, for every delimiter other than the backslash. */
  lemma EscapeRoundTrip(s: string, c: char)
    requires c != '\\'
    ensures Unescaped(Escaped(s, c), c) == s
  {
    UndoDoubling(s, c);
    UndoQuoting(s, c);
  }

  /** In an escaped text every delimiter is preceded by a backslash. */
  lemma EscapedGuardsDelimiter(s: string, c: char, i: nat)
    requires c != '\\' && i < |Escaped(s, c)| && Escaped(s, c)[i] == c
    ensures i > 0 && Escaped(s, c)[i - 1] == '\\'
  {
    EscapedDelims(ReplaceAll(s, "\\", "\\\\"), c, i);
  }

  lemma {:induction false} EscapedDelims(t: string, c: char, i: nat)
    requires c != '\\'
    requires i < |ReplaceAll(t, [c], ['\\', c])| && ReplaceAll(t, [c], ['\\', c])[i] == c
    ensures i > 0 && ReplaceAll(t, [c], ['\\', c])[i - 1] == '\\'
    decreases |t|
  {
    var e := ReplaceAll(t, [c], ['\\', c]);
    assert t != [];
    ReplaceCharCons(t[0], t[1..], c, ['\\', c]);
    assert t == [t[0]] + t[1..];
    var head := if t[0] == c then ['\\', c] else [t[0]];
    var tail := ReplaceAll(t[1..], [c], ['\\', c]);
    assert e == head + tail;
    if i >= |head| {
      assert tail[i - |head|] == c;
      EscapedDelims(t[1..], c, i - |head|);
    }
  }
}
