/**
 * src/processors/lang_json.py: an `en_us.json` lang dictionary is translated
 * by collecting its string values in dictionary order, sending them to
 * `translate_many` in one call, and writing the i-th answer back under the
 * i-th string key of a copy of the dictionary.
 */
module LangJson {
  import opened Wrappers
  import opened TextUtil
  import opened JsonModel
  import opened Engine
  import opened Cache
  import opened Provider

  /** The keys of the string-valued members, in dictionary order (the `keys` list). */
  function StringKeys(ms: seq<(string, Json)>): (ks: seq<string>)
    ensures |ks| <= |ms|
  {
    if ms == [] then []
    else (if ms[0].1.JStr? then [ms[0].0] else []) + StringKeys(ms[1..])
  }

  /** The string values, in dictionary order (the `values` list). */
  function StringValues(ms: seq<(string, Json)>): (vs: seq<string>)
    ensures |vs| == |StringKeys(ms)|
  {
    if ms == [] then []
    else (if ms[0].1.JStr? then [ms[0].1.s] else []) + StringValues(ms[1..])
  }

  /** How many string members come before member `j`: its index in `keys` and `values` when it is a string. */
  function Rank(ms: seq<(string, Json)>, j: nat): nat
    requires j <= |ms|
  {
    |StringKeys(ms[..j])|
  }

  /**
   * The dictionary after `out_data[k] = translated` for every pair of
   * `zip(keys, outs)`: the string member of rank `q` holds `outs[q]` when `q`
   * is below `|outs|` (zip stops at the shorter list); every other member is
   * the one copied by `dict(obj)`.
   */
  function Rewritten(ms: seq<(string, Json)>, outs: seq<string>): (r: seq<(string, Json)>)
    ensures Keys(r) == Keys(ms)
  {
    seq(|ms|, j requires 0 <= j < |ms| =>
      if ms[j].1.JStr? && Rank(ms, j) < |outs| then (ms[j].0, JStr(outs[Rank(ms, j)])) else ms[j])
  }

  /** Python's `d[k] = v`: an existing key keeps its place, a new key goes last. */
  function SetKey(ms: seq<(string, Json)>, k: string, v: Json): (r: seq<(string, Json)>)
    ensures k in Keys(ms) ==> |r| == |ms| && Keys(r) == Keys(ms)
    ensures k !in Keys(ms) ==> r == ms + [(k, v)]
    ensures forall j :: 0 <= j < |ms| && ms[j].0 != k ==> r[j] == ms[j]
    ensures exists j :: 0 <= j < |r| && r[j] == (k, v)
  {
    match IndexOf(Keys(ms), k)
    case None =>
      assert (ms + [(k, v)])[|ms|] == (k, v);
      ms + [(k, v)]
    case Some(j) =>
      var r := ms[j := (k, v)];
      assert Keys(r) == Keys(ms);
      assert r[j] == (k, v);
      r
  }

  // ---------- the collected lists ----------

  lemma {:induction false} StringsAppend(a: seq<(string, Json)>, b: seq<(string, Json)>)
    ensures StringKeys(a + b) == StringKeys(a) + StringKeys(b)
    ensures StringValues(a + b) == StringValues(a) + StringValues(b)
  {
    if a != [] {
      assert (a + b)[1..] == a[1..] + b;
      StringsAppend(a[1..], b);
    } else {
      assert a + b == b;
    }
  }

  /** Each string member sits at its rank in `keys`, and its text at the same place in `values`. */
  lemma RankSpec(ms: seq<(string, Json)>, j: nat)
    requires j < |ms| && ms[j].1.JStr?
    ensures Rank(ms, j) < |StringKeys(ms)|
    ensures StringKeys(ms)[Rank(ms, j)] == ms[j].0
    ensures StringValues(ms)[Rank(ms, j)] == ms[j].1.s
  {
    assert ms == ms[..j] + ms[j..];
    StringsAppend(ms[..j], ms[j..]);
    assert ms[j..][1..] == ms[j + 1..];
  }

  /** Every place in `keys` is the rank of some string member. */
  lemma {:induction false} RankOnto(ms: seq<(string, Json)>, q: nat)
    requires q < |StringKeys(ms)|
    ensures exists j :: 0 <= j < |ms| && ms[j].1.JStr? && Rank(ms, j) == q
  {
    var n := |ms| - 1;
    var init := ms[..n];
    assert ms == init + [ms[n]];
    StringsAppend(init, [ms[n]]);
    assert StringKeys([ms[n]]) == (if ms[n].1.JStr? then [ms[n].0] else []);
    if q < |StringKeys(init)| {
      RankOnto(init, q);
      var j :| 0 <= j < |init| && init[j].1.JStr? && Rank(init, j) == q;
      assert ms[..j] == init[..j];
      assert ms[j] == init[j];
    } else {
      assert ms[n].1.JStr? && ms[..n] == init;
    }
  }

  /** Under distinct keys the member holding the q-th string key is the string member of rank q. */
  lemma KeyOfRank(ms: seq<(string, Json)>, q: nat) returns (j: nat)
    requires DistinctKeys(ms) && q < |StringKeys(ms)|
    ensures j < |ms| && ms[j].1.JStr? && Rank(ms, j) == q && ms[j].0 == StringKeys(ms)[q]
    ensures forall i :: 0 <= i < |ms| && ms[i].0 == StringKeys(ms)[q] ==> i == j
  {
    RankOnto(ms, q);
    j :| 0 <= j < |ms| && ms[j].1.JStr? && Rank(ms, j) == q;
    RankSpec(ms, j);
  }

  // ---------- properties of the rewrite ----------

  /** Only string members change, and only into strings: the rewrite keeps the shape of the dictionary. */
  lemma RewrittenShape(ms: seq<(string, Json)>, outs: seq<string>)
    ensures SameShape(JObj(ms), JObj(Rewritten(ms, outs)))
    ensures forall j :: 0 <= j < |ms| && !ms[j].1.JStr? ==> Rewritten(ms, outs)[j] == ms[j]
  {
    var r := Rewritten(ms, outs);
    forall j | 0 <= j < |ms|
      ensures SameShape(ms[j].1, r[j].1)
    {
      if !ms[j].1.JStr? {
        SameShapeRefl(ms[j].1);
      }
    }
  }

  lemma SameShapeRefl(a: Json)
    ensures SameShape(a, a)
    decreases a
  {
    match a
    case JArr(xs) =>
      forall i | 0 <= i < |xs| ensures SameShape(xs[i], xs[i]) { SameShapeRefl(xs[i]); }
    case JObj(ms) =>
      forall i | 0 <= i < |ms| ensures SameShape(ms[i].1, ms[i].1) { SameShapeRefl(ms[i].1); }
    case _ =>
  }

  /**
   * The i-th answer is stored under the i-th string key, for every i that
   * `zip` reaches; with as many answers as strings, every string member is
   * replaced.
   */
  lemma AnswerUnderKey(ms: seq<(string, Json)>, outs: seq<string>, q: nat)
    requires DistinctKeys(ms) && q < |StringKeys(ms)| && q < |outs|
    ensures exists j :: 0 <= j < |ms| && Rewritten(ms, outs)[j] == (StringKeys(ms)[q], JStr(outs[q]))
  {
    var j := KeyOfRank(ms, q);
    assert Rewritten(ms, outs)[j] == (StringKeys(ms)[q], JStr(outs[q]));
  }

  /** Answers equal to the collected values give the dictionary back: the rewrite undoes the collection. */
  lemma RewrittenOwnValues(ms: seq<(string, Json)>)
    ensures Rewritten(ms, StringValues(ms)) == ms
  {
    forall j | 0 <= j < |ms| && ms[j].1.JStr?
      ensures Rewritten(ms, StringValues(ms))[j] == ms[j]
    {
      RankSpec(ms, j);
    }
  }

  /** With no answers at all the dictionary is copied unchanged. */
  lemma RewrittenNothing(ms: seq<(string, Json)>)
    ensures Rewritten(ms, []) == ms
  {
  }

  // ---------- the loops ----------

  /** The `for k, v in obj.items()` loop that fills `keys` and `values`. */
  method CollectStrings(obj: seq<(string, Json)>) returns (keys: seq<string>, values: seq<string>)
    ensures keys == StringKeys(obj) && values == StringValues(obj)
  {
    keys, values := [], [];
    for i := 0 to |obj|
      invariant keys == StringKeys(obj[..i]) && values == StringValues(obj[..i])
    {
      assert obj[..i + 1] == obj[..i] + [obj[i]];
      StringsAppend(obj[..i], [obj[i]]);
      if obj[i].1.JStr? {
        keys := keys + [obj[i].0];
        values := values + [obj[i].1.s];
      }
    }
    assert obj[..|obj|] == obj;
  }

  /** `for k, translated in zip(keys, outs): out_data[k] = translated` over the copy `out_data`. */
  method StoreAnswers(obj: seq<(string, Json)>, keys: seq<string>, outs: seq<string>)
    returns (outData: seq<(string, Json)>)
    requires DistinctKeys(obj) && keys == StringKeys(obj)
    ensures outData == Rewritten(obj, outs)
  {
    outData := obj;
    var i := 0;
    while i < |keys| && i < |outs|
      invariant 0 <= i <= |keys| && i <= |outs|
      invariant outData == Rewritten(obj, outs[..i])
    {
      var j := KeyOfRank(obj, i);
      var next := SetKey(outData, keys[i], JStr(outs[i]));
      assert IndexOf(Keys(outData), keys[i]) == Some(j) by {
        assert Keys(outData)[j] == keys[i];
        DistinctKeysFirst(obj, j);
      }
      forall p | 0 <= p < |obj|
        ensures next[p] == Rewritten(obj, outs[..i + 1])[p]
      {
        if p != j && obj[p].1.JStr? && Rank(obj, p) == i {
          RankSpec(obj, p);
        }
      }
      assert next == Rewritten(obj, outs[..i + 1]);
      outData := next;
      i := i + 1;
    }
    assert outs[..i] == outs || i == |keys|;
    RewrittenPrefix(obj, outs, i);
  }

  lemma DistinctKeysFirst(ms: seq<(string, Json)>, j: nat)
    requires DistinctKeys(ms) && j < |ms|
    ensures ms[j].0 !in Keys(ms)[..j]
  {
    forall a | 0 <= a < j ensures Keys(ms)[..j][a] != ms[j].0 { }
  }

  /** Answers beyond the number of strings are never read. */
  lemma RewrittenPrefix(ms: seq<(string, Json)>, outs: seq<string>, n: nat)
    requires n <= |outs| && (n == |outs| || n == |StringKeys(ms)|)
    ensures Rewritten(ms, outs[..n]) == Rewritten(ms, outs)
  {
    forall j | 0 <= j < |ms| && ms[j].1.JStr?
      ensures Rank(ms, j) < |outs[..n]| <==> Rank(ms, j) < |outs|
    {
      RankSpec(ms, j);
    }
  }

  /**
   * `translate_lang_obj` (and the dictionary work of `translate_lang_json`):
   * the string values go to `translate_many` once, in dictionary order, and
   * its answers replace them in a copy; no call is made when there are none.
   */
  method TranslateLangObj(obj: seq<(string, Json)>, t: Translator, lang: string)
    returns (outData: seq<(string, Json)>, ghost outs: seq<string>, ghost outputs: map<string, string>,
             ghost chunks: seq<seq<string>>, ghost answers: seq<Option<seq<string>>>, ghost valss: seq<seq<string>>,
             ghost firsts: seq<string>)
    requires DistinctKeys(obj) && t.Valid()
    modifies t.cache, t.single, t.batch
    ensures outData == Rewritten(obj, outs)
    ensures |outs| == |StringValues(obj)|
    ensures StringValues(obj) == [] ==>
      && t.cache.data == old(t.cache.data) && t.cache.disk == old(t.cache.disk)
      && t.single.sent == old(t.single.sent) && t.batch.sent == old(t.batch.sent)
    ensures StringValues(obj) != [] ==>
      t.ManyState(StringValues(obj), lang, outs, outputs, chunks, answers, valss,
                  old(t.cache.data), old(t.single.sent), old(t.batch.script), old(t.batch.sent),
                  t.cache.data, t.single.sent, t.batch.script, t.batch.sent)
    ensures StringValues(obj) != [] ==>
      t.ManySingles(StringValues(obj), lang, outs, chunks, answers, valss, old(t.cache.data), old(t.single.sent),
                    old(t.single.script), firsts, t.single.script, t.single.sent)
  {
    var keys, values := CollectStrings(obj);
    outData := obj;
    outs, outputs, chunks, answers, valss, firsts := [], map[], [], [], [], [];
    if values != [] {
      var answered;
      answered, outputs, chunks, answers, valss, firsts := t.TranslateMany(values, lang);
      outs := answered;
      outData := StoreAnswers(obj, keys, answered);
    } else {
      RewrittenNothing(obj);
    }
  }
}
