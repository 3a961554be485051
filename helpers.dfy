/** The "does this look like translatable text" heuristic of src/utils/helpers.py. */
module Helpers {
  import opened TextUtil

  /** `[{}<>$%^\\\[\]|`~]` */
  predicate IsHeavySymbol(c: char) {
    c in "{}<>$%^\\[]|`~"
  }

  /** `[A-Za-z0-9_.-]`, both sides of RE_NAMESPACE in this module (no `/` after the colon). */
  predicate IsIdChar(c: char) {
    IsAsciiLetter(c) || IsAsciiDigit(c) || c == '_' || c == '.' || c == '-'
  }

  /** A `:` with an identifier character on both sides at position `i`. */
  predicate ColonBetweenIds(s: string, i: int) {
    0 < i < |s| - 1 && s[i] == ':' && IsIdChar(s[i - 1]) && IsIdChar(s[i + 1])
  }

  /**
   * `RE_NAMESPACE.search(s)` for `[A-Za-z0-9_.-]+:[A-Za-z0-9_.-]+`: a match exists
   * exactly when some colon has an identifier character on each side, since one
   * character per side already satisfies each `+`.
   */
  function SearchNamespace(s: string, from: nat): (r: bool)
    requires from <= |s|
    ensures r <==> exists i :: from <= i < |s| && ColonBetweenIds(s, i)
    decreases |s| - from
  {
    if from == |s| then false
    else ColonBetweenIds(s, from) || SearchNamespace(s, from + 1)
  }

  /**
   * `is_probably_text(s, max_len)`: a chain of early rejections. The contract
   * states the whole decision as one conjunction of independent conditions.
   */
  function IsProbablyText(s: string, maxLen: int): (r: bool)
    ensures r <==>
      && |s| > 0
      && |s| <= maxLen
      && (exists i :: 0 <= i < |s| && IsAsciiLetter(s[i]))
      && (forall i :: 0 <= i < |s| ==> !IsHeavySymbol(s[i]))
      && (forall i :: 0 <= i < |s| ==> !ColonBetweenIds(s, i))
  {
    if s == [] then false
    else if |s| > maxLen then false
    else if !SearchClass(s, IsAsciiLetter) then false
    else if SearchClass(s, IsHeavySymbol) then false
    else if SearchNamespace(s, 0) then false
    else true
  }

  /** Raising the length limit never turns text into non-text. */
  lemma ProbablyTextMonotone(s: string, a: int, b: int)
    requires a <= b && IsProbablyText(s, a)
    ensures IsProbablyText(s, b)
  {
  }

  /** A namespaced identifier and a placeholder string are rejected. */
  lemma ProbablyTextExamples()
    ensures !IsProbablyText("minecraft:stone", 800)
    ensures !IsProbablyText("Mine %s", 800)
  {
    assert ColonBetweenIds("minecraft:stone", 9);
    assert IsHeavySymbol("Mine %s"[5]);
  }
}
