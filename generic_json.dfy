/**
 * src/processors/generic_json.py: a recursive descent over a parsed JSON
 * document that sends a string to the translator when the key it sits under
 * is a known text key or the string itself looks like prose. The translator is
 * the function `tr`.
 */
module GenericJson {
  import opened TextUtil
  import opened JsonModel
  import opened Helpers
  import Config

  /** The test of `_translate_value` for a string leaf under the (lower-cased) key `hint`. */
  predicate Translatable(s: string, hint: string) {
    hint in Config.GenericTextKeys || IsProbablyText(s, Config.SafeMaxLen)
  }

  /**
   * `_translate_value(val, key_hint, translator)`: strings by the test above,
   * lists element by element with the same hint, objects through
   * `_translate_obj`, and every other value as it is.
   */
  function TranslateValue(val: Json, hint: string, tr: string -> string): (r: Json)
    ensures SameShape(val, r)
    decreases val, 1
  {
    match val
    case JStr(s) => if Translatable(s, hint) then JStr(tr(s)) else val
    case JArr(xs) =>
      var ys := seq(|xs|, i requires 0 <= i < |xs| => TranslateValue(xs[i], hint, tr));
      assert forall i :: 0 <= i < |xs| ==> SameShape(xs[i], ys[i]);
      JArr(ys)
    case JObj(ms) => JObj(TranslateObj(ms, tr))
    case _ => val
  }

  /**
   * `_translate_obj(obj, translator)`: a fresh object with the same keys in
   * the same order, each value translated under its lower-cased key.
   */
  function TranslateObj(ms: seq<(string, Json)>, tr: string -> string): (r: seq<(string, Json)>)
    ensures Keys(r) == Keys(ms)
    ensures forall i :: 0 <= i < |ms| ==> SameShape(ms[i].1, r[i].1)
    decreases JObj(ms), 0
  {
    seq(|ms|, i requires 0 <= i < |ms| => (ms[i].0, TranslateValue(ms[i].1, Lower(ms[i].0), tr)))
  }

  /** A string leaf is replaced by the translator's answer exactly when it passes the test. */
  lemma StringLeaf(s: string, hint: string, tr: string -> string)
    ensures Translatable(s, hint) ==> TranslateValue(JStr(s), hint, tr) == JStr(tr(s))
    ensures !Translatable(s, hint) ==> TranslateValue(JStr(s), hint, tr) == JStr(s)
  {
  }

  /** The translator sees a string leaf only when it is `Translatable` under its hint. */
  ghost predicate AgreeOnRequests(val: Json, hint: string, tr1: string -> string, tr2: string -> string)
    decreases val
  {
    match val
    case JStr(s) => Translatable(s, hint) ==> tr1(s) == tr2(s)
    case JArr(xs) => forall i :: 0 <= i < |xs| ==> AgreeOnRequests(xs[i], hint, tr1, tr2)
    case JObj(ms) => forall i :: 0 <= i < |ms| ==> AgreeOnRequests(ms[i].1, Lower(ms[i].0), tr1, tr2)
    case _ => true
  }

  /**
   * Two translators that answer alike on every string the descent may send
   * give the same document: strings failing the test are never sent.
   */
  lemma {:induction false} OnlyRequestsMatter(val: Json, hint: string, tr1: string -> string, tr2: string -> string)
    requires AgreeOnRequests(val, hint, tr1, tr2)
    ensures TranslateValue(val, hint, tr1) == TranslateValue(val, hint, tr2)
    decreases val
  {
    match val
    case JStr(_) =>
    case JArr(xs) =>
      forall i | 0 <= i < |xs|
        ensures TranslateValue(xs[i], hint, tr1) == TranslateValue(xs[i], hint, tr2)
      {
        OnlyRequestsMatter(xs[i], hint, tr1, tr2);
      }
      assert TranslateValue(val, hint, tr1).items == TranslateValue(val, hint, tr2).items;
    case JObj(ms) =>
      forall i | 0 <= i < |ms|
        ensures TranslateValue(ms[i].1, Lower(ms[i].0), tr1) == TranslateValue(ms[i].1, Lower(ms[i].0), tr2)
      {
        OnlyRequestsMatter(ms[i].1, Lower(ms[i].0), tr1, tr2);
      }
      assert TranslateObj(ms, tr1) == TranslateObj(ms, tr2);
    case _ =>
  }

  /** With the identity translator the document comes back unchanged. */
  lemma {:induction false} IdentityTranslator(val: Json, hint: string)
    ensures TranslateValue(val, hint, s => s) == val
    decreases val
  {
    match val
    case JStr(_) =>
    case JArr(xs) =>
      forall i | 0 <= i < |xs|
        ensures TranslateValue(xs[i], hint, s => s) == xs[i]
      {
        IdentityTranslator(xs[i], hint);
      }
      assert TranslateValue(val, hint, s => s).items == xs;
    case JObj(ms) =>
      forall i | 0 <= i < |ms|
        ensures TranslateValue(ms[i].1, Lower(ms[i].0), s => s) == ms[i].1
      {
        IdentityTranslator(ms[i].1, Lower(ms[i].0));
      }
      assert TranslateObj(ms, s => s) == ms;
    case _ =>
  }

  /** An object inside a list ignores the list's hint: its members use their own keys. */
  lemma ObjectIgnoresHint(ms: seq<(string, Json)>, h1: string, h2: string, tr: string -> string)
    ensures TranslateValue(JArr([JObj(ms)]), h1, tr) == TranslateValue(JArr([JObj(ms)]), h2, tr)
    ensures TranslateValue(JArr([JObj(ms)]), h1, tr) == JArr([JObj(TranslateObj(ms, tr))])
  {
  }

  /** A list passes its hint to its string elements: a text key translates every string in its list. */
  lemma ListUsesHint(xs: seq<Json>, hint: string, tr: string -> string, i: nat)
    requires hint in Config.GenericTextKeys && i < |xs| && xs[i].JStr?
    ensures TranslateValue(JArr(xs), hint, tr).items[i] == JStr(tr(xs[i].s))
  {
    assert TranslateValue(JArr(xs), hint, tr).items[i] == TranslateValue(xs[i], hint, tr);
    StringLeaf(xs[i].s, hint, tr);
  }

  /** Numbers, booleans and null are returned as they are, whatever the translator. */
  lemma ScalarsUnchanged(val: Json, hint: string, tr: string -> string)
    requires val.JNull? || val.JBool? || val.JNum?
    ensures TranslateValue(val, hint, tr) == val
  {
  }
}
