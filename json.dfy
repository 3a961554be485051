/**
 * Parsed JSON values as the processors see them after `json.load`. An object
 * keeps its members in document order, as a Python dict does; its keys are
 * distinct because a dict's are.
 */
module JsonModel {

  datatype Json =
    | JNull
    | JBool(b: bool)
    | JNum(literal: string)
    | JStr(s: string)
    | JArr(items: seq<Json>)
    | JObj(members: seq<(string, Json)>)

  function Keys(members: seq<(string, Json)>): (ks: seq<string>)
    ensures |ks| == |members|
    ensures forall i :: 0 <= i < |members| ==> ks[i] == members[i].0
  {
    seq(|members|, i requires 0 <= i < |members| => members[i].0)
  }

  predicate DistinctKeys(members: seq<(string, Json)>) {
    forall i, j :: 0 <= i < j < |members| ==> members[i].0 != members[j].0
  }

  /**
   * `a` and `b` have the same tree shape: the same scalars, arrays of equal
   * length, objects with the same keys in the same order, element-wise; only
   * the contents of strings may differ.
   */
  ghost predicate SameShape(a: Json, b: Json)
    decreases a
  {
    match a
    case JStr(_) => b.JStr?
    case JArr(xs) =>
      b.JArr? && |b.items| == |xs| &&
      forall i :: 0 <= i < |xs| ==> SameShape(xs[i], b.items[i])
    case JObj(ms) =>
      b.JObj? && Keys(b.members) == Keys(ms) &&
      forall i :: 0 <= i < |ms| ==> SameShape(ms[i].1, b.members[i].1)
    case _ => b == a
  }
}
