/**
 * src/snbt_structured.py, the older structured SNBT translator, as written:
 * String tags of an NBT tree are rewritten in place; a string shaped like a
 * JSON object is treated as a chat component whose `text` fields are
 * translated in place, at any depth. The translator is the total function
 * `tr`; the JSON parser and serialiser are parameters.
 */
module SnbtLegacy {
  import opened Wrappers
  import opened TextUtil
  import opened JsonModel
  import opened Helpers
  import Config

  /** `json.loads` and `json.dumps`; `parse` is `None` where `json.loads` raises. */
  datatype JsonCodec = JsonCodec(parse: string -> Option<Json>, dump: Json -> string)

  // ---------- the chat component walk ----------

  /** The position of the `text` member of a dict, when there is one. */
  function TextIndex(ms: seq<(string, Json)>): (r: Option<nat>)
    ensures r.Some? ==> r.value < |ms| && ms[r.value].0 == "text"
    ensures r.None? ==> forall k :: 0 <= k < |ms| ==> ms[k].0 != "text"
  {
    IndexOf(Keys(ms), "text")
  }

  /** Whether `walk` translates the `text` member of this dict: a string that looks like text. */
  predicate TextTranslated(ms: seq<(string, Json)>) {
    match TextIndex(ms)
    case None => false
    case Some(j) => ms[j].1.JStr? && IsProbablyText(ms[j].1.s, Config.SafeMaxLen)
  }

  /** Whether walking `o` sets the `changed` flag: some dict at some depth has its `text` translated. */
  predicate Changes(o: Json)
    decreases o
  {
    match o
    case JObj(ms) => TextTranslated(ms) || exists k :: 0 <= k < |ms| && Changes(ms[k].1)
    case JArr(xs) => exists i :: 0 <= i < |xs| && Changes(xs[i])
    case _ => false
  }

  /** Member `k` of a dict after `walk`: the translated `text`, or the value walked in turn. */
  function WalkedMember(ms: seq<(string, Json)>, k: nat, tr: string -> string): (r: (string, Json))
    requires k < |ms|
    ensures r.0 == ms[k].0 && SameShape(ms[k].1, r.1)
    decreases JObj(ms), 0
  {
    if TextTranslated(ms) && TextIndex(ms) == Some(k) then ("text", JStr(tr(ms[k].1.s)))
    else (ms[k].0, Walked(ms[k].1, tr))
  }

  /**
   * The tree `walk` leaves behind: in every dict the `text` member, when
   * translated, holds the translation; every other value is walked in turn.
   */
  function Walked(o: Json, tr: string -> string): (r: Json)
    ensures SameShape(o, r)
    decreases o, 1
  {
    match o
    case JObj(ms) =>
      var ns := seq(|ms|, k requires 0 <= k < |ms| => WalkedMember(ms, k, tr));
      assert forall k :: 0 <= k < |ms| ==> ns[k].0 == ms[k].0 && SameShape(ms[k].1, ns[k].1);
      assert Keys(ns) == Keys(ms);
      JObj(ns)
    case JArr(xs) =>
      var ys := seq(|xs|, i requires 0 <= i < |xs| => Walked(xs[i], tr));
      assert forall i :: 0 <= i < |xs| ==> SameShape(xs[i], ys[i]);
      JArr(ys)
    case _ => o
  }

  /**
   * `walk(o)` with its `changed` flag: the `text` member first, then every
   * value of the dict (or element of the list), each replaced by its walk.
   */
  method WalkChat(o: Json, tr: string -> string) returns (r: Json, changed: bool)
    ensures r == Walked(o, tr) && changed == Changes(o)
    decreases o, 1
  {
    match o {
      case JObj(ms) =>
        var ns;
        ns, changed := WalkObject(ms, tr);
        r := JObj(ns);
      case JArr(xs) =>
        var items := xs;
        changed := false;
        for i := 0 to |xs|
          invariant |items| == |xs|
          invariant forall t :: 0 <= t < i ==> items[t] == Walked(xs[t], tr)
          invariant forall t :: i <= t < |xs| ==> items[t] == xs[t]
          invariant changed == exists t :: 0 <= t < i && Changes(xs[t])
        {
          var v2, c := WalkChat(items[i], tr);
          items := items[i := v2];
          changed := changed || c;
        }
        r := JArr(items);
      case _ =>
        r, changed := o, false;
    }
  }

  /** The first step of the dict branch: `o["text"]` replaced when it is a string that looks like text. */
  method TranslateTextMember(ms: seq<(string, Json)>, tr: string -> string) returns (ns: seq<(string, Json)>, changed: bool)
    ensures changed == TextTranslated(ms) && |ns| == |ms|
    ensures forall t :: 0 <= t < |ms| ==> ns[t] == ms[t] || ns[t] == WalkedMember(ms, t, tr)
    ensures forall t :: 0 <= t < |ms| && ns[t].1.JStr? ==> ns[t] == WalkedMember(ms, t, tr)
    ensures forall t :: 0 <= t < |ms| && !ns[t].1.JStr? ==> ns[t] == ms[t]
  {
    ns := ms;
    changed := false;
    var j := IndexOf(Keys(ms), "text");
    if j.Some? && ns[j.value].1.JStr? && IsProbablyText(ns[j.value].1.s, Config.SafeMaxLen) {
      ns := ns[j.value := ("text", JStr(tr(ns[j.value].1.s)))];
      changed := true;
    }
  }

  /** The dict branch of `walk`. */
  method WalkObject(ms: seq<(string, Json)>, tr: string -> string) returns (ns: seq<(string, Json)>, changed: bool)
    ensures |ns| == |ms| && forall k :: 0 <= k < |ms| ==> ns[k] == WalkedMember(ms, k, tr)
    ensures changed == Changes(JObj(ms))
    decreases JObj(ms), 0
  {
    ns, changed := TranslateTextMember(ms, tr);
    ghost var start := ns;
    for k := 0 to |ns|
      invariant |ns| == |ms|
      invariant forall t :: 0 <= t < k ==> ns[t] == WalkedMember(ms, t, tr)
      invariant forall t :: k <= t < |ms| ==> ns[t] == start[t]
      invariant changed == (TextTranslated(ms) || MemberChanges(ms, k))
    {
      MemberChangesStep(ms, k);
      var (key, v) := ns[k];
      if !v.JStr? {
        // the walk of a string does nothing
        assert ns[k] == ms[k];
        var v2, c := WalkChat(v, tr);
        ns := ns[k := (key, v2)];
        changed := changed || c;
      } else {
        assert SameShape(ms[k].1, ns[k].1);
      }
    }
  }

  /** Some value among the first `k` members of a dict sets the `changed` flag. */
  ghost predicate MemberChanges(ms: seq<(string, Json)>, k: nat)
    requires k <= |ms|
  {
    exists t :: 0 <= t < k && Changes(ms[t].1)
  }

  lemma MemberChangesStep(ms: seq<(string, Json)>, k: nat)
    requires k < |ms|
    ensures MemberChanges(ms, k + 1) == (MemberChanges(ms, k) || Changes(ms[k].1))
  {
    if MemberChanges(ms, k + 1) && !Changes(ms[k].1) {
      var t :| 0 <= t < k + 1 && Changes(ms[t].1);
      assert t < k;
    }
  }

  /**
   * `_translate_chat_component(raw)`: the text as it is when it does not
   * parse or when no `text` field was translated, otherwise the walked tree
   * serialised.
   */
  function ChatComponent(raw: string, tr: string -> string, json: JsonCodec): string {
    match json.parse(raw)
    case None => raw
    case Some(obj) => if Changes(obj) then json.dump(Walked(obj, tr)) else raw
  }

  /**
   * The flag is exact: when no `text` field was translated the walk left the
   * tree as it was, so returning `raw` loses nothing.
   */
  lemma {:induction false} NoChangeNoEdit(o: Json, tr: string -> string)
    requires !Changes(o)
    ensures Walked(o, tr) == o
    decreases o
  {
    match o
    case JObj(ms) =>
      forall k | 0 <= k < |ms| ensures WalkedMember(ms, k, tr) == ms[k] {
        NoChangeNoEdit(ms[k].1, tr);
      }
      assert Walked(o, tr).members == ms;
    case JArr(xs) =>
      forall i | 0 <= i < |xs| ensures Walked(xs[i], tr) == xs[i] {
        NoChangeNoEdit(xs[i], tr);
      }
      assert Walked(o, tr).items == xs;
    case _ =>
  }

  /** The strings `walk` sends: the `text` strings that look like text, at any depth. */
  ghost predicate AgreeOnTexts(o: Json, tr1: string -> string, tr2: string -> string)
    decreases o
  {
    match o
    case JObj(ms) =>
      && (TextTranslated(ms) ==> tr1(ms[TextIndex(ms).value].1.s) == tr2(ms[TextIndex(ms).value].1.s))
      && forall k :: 0 <= k < |ms| ==> AgreeOnTexts(ms[k].1, tr1, tr2)
    case JArr(xs) => forall i :: 0 <= i < |xs| ==> AgreeOnTexts(xs[i], tr1, tr2)
    case _ => true
  }

  /**
   * Only `text` strings that pass the text test are translated: two
   * translators that agree on those give the same tree.
   */
  lemma {:induction false} OnlyTextFieldsMatter(o: Json, tr1: string -> string, tr2: string -> string)
    requires AgreeOnTexts(o, tr1, tr2)
    ensures Walked(o, tr1) == Walked(o, tr2)
    decreases o
  {
    match o
    case JObj(ms) =>
      forall k | 0 <= k < |ms| ensures WalkedMember(ms, k, tr1) == WalkedMember(ms, k, tr2) {
        OnlyTextFieldsMatter(ms[k].1, tr1, tr2);
      }
      assert Walked(o, tr1).members == Walked(o, tr2).members;
    case JArr(xs) =>
      forall i | 0 <= i < |xs| ensures Walked(xs[i], tr1) == Walked(xs[i], tr2) {
        OnlyTextFieldsMatter(xs[i], tr1, tr2);
      }
      assert Walked(o, tr1).items == Walked(o, tr2).items;
    case _ =>
  }

  /** The translator that returns its input. */
  function Same(s: string): string {
    s
  }

  /** With the identity translator the walk gives the tree back. */
  lemma {:induction false} IdentityWalk(o: Json)
    ensures Walked(o, Same) == o
    decreases o
  {
    match o
    case JObj(ms) =>
      forall k | 0 <= k < |ms| ensures WalkedMember(ms, k, Same) == ms[k] {
        IdentityWalk(ms[k].1);
      }
      assert Walked(o, Same).members == ms;
    case JArr(xs) =>
      forall i | 0 <= i < |xs| ensures Walked(xs[i], Same) == xs[i] {
        IdentityWalk(xs[i]);
      }
      assert Walked(o, Same).items == xs;
    case _ =>
  }

  /** A text that does not parse, or in which nothing was translated, comes back as it is. */
  lemma ChatKeepsRaw(raw: string, tr: string -> string, json: JsonCodec)
    requires json.parse(raw).None? || !Changes(json.parse(raw).value)
    ensures ChatComponent(raw, tr, json) == raw
  {
  }

  // ---------- the NBT walk ----------

  /** A String tag: its `py_data` is assigned in place. */
  class StringTag {
    var data: string

    constructor (d: string)
      ensures data == d
    {
      data := d;
    }
  }

  /** An NBT tag: a string tag object, a list, a compound, or any other tag. */
  datatype Tag =
    | TString(cell: StringTag)
    | TList(items: seq<Tag>)
    | TCompound(entries: seq<(string, Tag)>)
    | TOther(literal: string)

  /** The String tag objects of a tree. */
  function Cells(t: Tag): set<StringTag>
    decreases t
  {
    match t
    case TString(c) => {c}
    case TList(xs) => set i, c | 0 <= i < |xs| && c in Cells(xs[i]) :: c
    case TCompound(es) => set k, c | 0 <= k < |es| && c in Cells(es[k].1) :: c
    case TOther(_) => {}
  }

  /** A tree as `snbt.loads` builds it: no String tag object appears twice. */
  ghost predicate Unshared(t: Tag)
    decreases t
  {
    match t
    case TString(_) => true
    case TList(xs) =>
      && (forall i, j :: 0 <= i < j < |xs| ==> Cells(xs[i]) !! Cells(xs[j]))
      && forall i :: 0 <= i < |xs| ==> Unshared(xs[i])
    case TCompound(es) =>
      && (forall i, j :: 0 <= i < j < |es| ==> Cells(es[i].1) !! Cells(es[j].1))
      && forall i :: 0 <= i < |es| ==> Unshared(es[i].1)
    case TOther(_) => true
  }

  /**
   * What one String tag becomes: a `{…}` string goes only through the chat
   * path; any other string is translated when it looks like text.
   */
  function NewString(text: string, tr: string -> string, json: JsonCodec): string {
    if StartsWith(text, "{") && EndsWith(text, "}") then ChatComponent(text, tr, json)
    else if IsProbablyText(text, Config.SafeMaxLen) then tr(text)
    else text
  }

  /**
   * `_walk_and_translate`: every String tag of the tree holds its new
   * string; lists and compounds are walked, other tags are not touched.
   */
  method WalkAndTranslate(tag: Tag, tr: string -> string, json: JsonCodec)
    requires Unshared(tag)
    modifies Cells(tag)
    ensures forall c :: c in Cells(tag) && old(allocated(c)) ==> c.data == NewString(old(c.data), tr, json)
    decreases tag, 1
  {
    match tag {
      case TString(c) =>
        var text := c.data;
        if StartsWith(text, "{") && EndsWith(text, "}") {
          c.data := ChatComponent(text, tr, json);
          return;
        }
        if IsProbablyText(text, Config.SafeMaxLen) {
          c.data := tr(text);
        }
      case TList(xs) =>
        WalkList(xs, tr, json);
      case TCompound(es) =>
        WalkCompound(es, tr, json);
      case TOther(_) =>
    }
  }

  /** `for item in tag: _walk_and_translate(item)` */
  method WalkList(xs: seq<Tag>, tr: string -> string, json: JsonCodec)
    requires Unshared(TList(xs))
    modifies Cells(TList(xs))
    ensures forall c :: c in Cells(TList(xs)) && old(allocated(c)) ==> c.data == NewString(old(c.data), tr, json)
    decreases TList(xs), 0
  {
    for i := 0 to |xs|
      invariant forall j, c :: 0 <= j < i && c in Cells(xs[j]) && old(allocated(c)) ==> c.data == NewString(old(c.data), tr, json)
      invariant forall j, c :: i <= j < |xs| && c in Cells(xs[j]) && old(allocated(c)) ==> c.data == old(c.data)
    {
      WalkAndTranslate(xs[i], tr, json);
    }
  }

  /** `for k in tag: _walk_and_translate(tag[k])` */
  method WalkCompound(es: seq<(string, Tag)>, tr: string -> string, json: JsonCodec)
    requires Unshared(TCompound(es))
    modifies Cells(TCompound(es))
    ensures forall c :: c in Cells(TCompound(es)) && old(allocated(c)) ==> c.data == NewString(old(c.data), tr, json)
    decreases TCompound(es), 0
  {
    for k := 0 to |es|
      invariant forall j, c :: 0 <= j < k && c in Cells(es[j].1) && old(allocated(c)) ==> c.data == NewString(old(c.data), tr, json)
      invariant forall j, c :: k <= j < |es| && c in Cells(es[j].1) && old(allocated(c)) ==> c.data == old(c.data)
    {
      WalkAndTranslate(es[k].1, tr, json);
    }
  }

  /**
   * A `{…}` string goes only through the chat path and is never sent whole;
   * any other string is sent exactly when it looks like text.
   */
  lemma NewStringRoutes(text: string, tr: string -> string, json: JsonCodec)
    ensures StartsWith(text, "{") && EndsWith(text, "}") ==> NewString(text, tr, json) == ChatComponent(text, tr, json)
    ensures !(StartsWith(text, "{") && EndsWith(text, "}")) && IsProbablyText(text, Config.SafeMaxLen) ==>
      NewString(text, tr, json) == tr(text)
    ensures !(StartsWith(text, "{") && EndsWith(text, "}")) && !IsProbablyText(text, Config.SafeMaxLen) ==>
      NewString(text, tr, json) == text
  {
  }
}
