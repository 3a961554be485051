/**
 * src/processors/snbt_structured.py: an SNBT document is parsed into an NBT
 * tree and every String tag is translated by rules that look at the path of
 * keys and indices leading to it. A string that looks like a JSON chat
 * component is parsed and walked instead. The translator is `tr`; `None`
 * stands for an exception. The JSON and SNBT parsers and serialisers are
 * parameters.
 */
module SnbtStructured {
  import opened Wrappers
  import opened TextUtil
  import opened JsonModel
  import opened Helpers
  import Config

  // ---------- Minecraft formatting codes ----------

  /**
   * Where the run of `(?:§.)+` that starts at `i` ends: pairs of `§` and one
   * character other than a newline, as many as there are.
   */
  function FormatRunEnd(t: string, i: nat): (e: nat)
    requires i <= |t|
    ensures i <= e <= |t|
    ensures forall k :: i <= k < e ==> ((k - i) % 2 == 0 ==> t[k] == '§') && ((k - i) % 2 == 1 ==> t[k] != '\n')
    ensures (e - i) % 2 == 0
    ensures !(e + 1 < |t| && t[e] == '§' && t[e + 1] != '\n')
    decreases |t| - i
  {
    if i + 1 < |t| && t[i] == '§' && t[i + 1] != '\n' then FormatRunEnd(t, i + 2) else i
  }

  /** A string of formatting codes: `§` and a character other than a newline, pair after pair. */
  predicate FormatCodes(p: string) {
    && |p| % 2 == 0
    && forall k :: 0 <= k < |p| ==> (k % 2 == 0 ==> p[k] == '§') && (k % 2 == 1 ==> p[k] != '\n')
  }

  /**
   * `_split_minecraft_formatting`: the leading formatting codes and the rest.
   * The two parts put the text back together, and the codes are the longest
   * leading run (no code follows them).
   */
  function SplitFormatting(t: string): (r: (string, string))
    ensures r.0 + r.1 == t
    ensures FormatCodes(r.0)
    ensures !(|r.1| >= 2 && r.1[0] == '§' && r.1[1] != '\n')
  {
    var e := FormatRunEnd(t, 0);
    assert t[..e] + t[e..] == t;
    (t[..e], t[e..])
  }

  // ---------- paths ----------

  /** A path segment that stands for a list index: `[` … `]`. */
  predicate IsIndexSeg(seg: string) {
    StartsWith(seg, "[") && EndsWith(seg, "]")
  }

  /** The segment `f"[{i}]"` that a list element adds to the path. */
  function IndexSeg(i: nat): (seg: string)
    ensures IsIndexSeg(seg)
  {
    var seg := "[" + NatToString(i) + "]";
    assert seg[..1] == "[" && seg[|seg| - 1..] == "]";
    seg
  }

  /** Where `_last_semantic_key` stops: the last segment that is not an index. */
  function LastSemanticIndex(path: seq<string>): (r: Option<nat>)
    ensures r.Some? ==> r.value < |path| && !IsIndexSeg(path[r.value])
    ensures r.Some? ==> forall t :: r.value < t < |path| ==> IsIndexSeg(path[t])
    ensures r.None? ==> forall j :: 0 <= j < |path| ==> IsIndexSeg(path[j])
  {
    if path == [] then None
    else if !IsIndexSeg(path[|path| - 1]) then Some(|path| - 1)
    else
      var r := LastSemanticIndex(path[..|path| - 1]);
      assert forall j :: 0 <= j < |path| - 1 ==> path[..|path| - 1][j] == path[j];
      r
  }

  /**
   * `_last_semantic_key`: the last segment that is not an index, or `None`
   * when every segment is one.
   */
  function LastSemanticKey(path: seq<string>): (r: Option<string>)
    ensures r.None? <==> forall j :: 0 <= j < |path| ==> IsIndexSeg(path[j])
    ensures r.Some? ==> !IsIndexSeg(r.value)
  {
    match LastSemanticIndex(path)
    case None => None
    case Some(j) => Some(path[j])
  }

  /** The loop of `_last_semantic_key`: segments from the last backwards, skipping indices. */
  method FindLastSemanticKey(path: seq<string>) returns (r: Option<string>)
    ensures r == LastSemanticKey(path)
  {
    var n := |path|;
    assert path[..n] == path;
    while n > 0
      invariant 0 <= n <= |path|
      invariant LastSemanticKey(path) == LastSemanticKey(path[..n])
    {
      var seg := path[n - 1];
      LastSemanticStep(path, n);
      if !IsIndexSeg(seg) {
        return Some(seg);
      }
      n := n - 1;
    }
    return None;
  }

  /** The last segment of the first `n` decides, unless it is an index. */
  lemma LastSemanticStep(path: seq<string>, n: nat)
    requires 0 < n <= |path|
    ensures LastSemanticKey(path[..n]) ==
      if IsIndexSeg(path[n - 1]) then LastSemanticKey(path[..n - 1]) else Some(path[n - 1])
  {
    var p := path[..n];
    assert p[n - 1] == path[n - 1];
    assert p[..n - 1] == path[..n - 1];
  }

  /** Keys whose strings are text even when short (`_FORCED_TEXT_KEYS`). */
  const ForcedTextKeys: set<string> :=
    {"title", "subtitle", "description", "desc", "text", "message", "lore", "name", "hover", "hover_text", "chapter_title"}

  /** Containers anywhere on the path that make a string text. */
  const TextContainers: set<string> := {"lore", "pages", "description", "subtitle", "title", "name"}

  /** Keys whose strings are never translated. */
  const TechnicalKeys: set<string> :=
    {"id", "filename", "group", "icon", "order_index", "quest_links", "x", "y", "z", "pos", "size", "color",
     "background", "shape", "dimension"}

  /** `_is_path_force_text` */
  predicate IsPathForceText(path: seq<string>) {
    match LastSemanticKey(path)
    case None => false
    case Some(last) =>
      && last != []
      && (Lower(last) in ForcedTextKeys || exists j :: 0 <= j < |path| && Lower(path[j]) in TextContainers)
  }

  /** The key `_is_path_technical` looks at: the last segment, or the one before a trailing index. */
  function TechnicalKey(path: seq<string>): string
    requires path != []
  {
    var last := path[|path| - 1];
    if IsIndexSeg(last) && |path| >= 2 then path[|path| - 2] else last
  }

  /** `_is_path_technical` */
  predicate IsPathTechnical(path: seq<string>) {
    if path == [] then false
    else
      var key := Lower(TechnicalKey(path));
      key in TechnicalKeys || (key == "type" && exists j :: 0 <= j < |path| && Lower(path[j]) == "tasks")
  }

  /** A character of `[a-z0-9_./:-]`. */
  predicate IsResourceChar(c: char) {
    'a' <= c <= 'z' || '0' <= c <= '9' || c == '_' || c == '.' || c == '/' || c == ':' || c == '-'
  }

  /** `_RES_PATH_RE.fullmatch(s)`: a resource location or identifier. */
  predicate IsResourcePath(s: string) {
    |s| > 0 && forall k :: 0 <= k < |s| ==> IsResourceChar(s[k])
  }

  // ---------- plain text ----------

  /** `_translate_plain_text` */
  function PlainText(text: string, tr: string -> Option<string>, path: seq<string>): Option<string> {
    if Strip(text) == [] then Some(text)
    else if IsPathTechnical(path) then Some(text)
    else if IsPathForceText(path) then tr(text)
    else if IsResourcePath(Strip(text)) then Some(text)
    else if !IsProbablyText(text, Config.SafeMaxLen) then Some(text)
    else tr(text)
  }

  /**
   * When the plain-text rule sends a string: it is not blank, its path is
   * not technical, and either the path is a text path or the string is not
   * an identifier and looks like text.
   */
  predicate PlainSent(text: string, path: seq<string>) {
    && Strip(text) != []
    && !IsPathTechnical(path)
    && (IsPathForceText(path) || (!IsResourcePath(Strip(text)) && IsProbablyText(text, Config.SafeMaxLen)))
  }

  // ---------- chat components ----------

  /** The path of the `i`-th element of a list: `with` lists add two segments, other lists an index. */
  function ItemPath(path: seq<string>, isWith: bool, i: nat): seq<string> {
    if isWith then path + ["with", NatToString(i)] else path + [IndexSeg(i)]
  }

  /**
   * `_translate_chat_component`: a fresh value of the same shape; string
   * leaves keep their formatting codes and have the rest translated by the
   * plain-text rule.
   */
  function Chat(c: Json, tr: string -> Option<string>, path: seq<string>): (r: Option<Json>)
    ensures r.Some? ==> SameShape(c, r.value)
    decreases c, 2
  {
    match c
    case JObj(ms) =>
      (match ChatMembers(ms, tr, path, 0)
       case None => None
       case Some(ns) =>
         assert Keys(ns) == Keys(ms);
         Some(JObj(ns)))
    case JArr(xs) =>
      (match ChatItems(xs, tr, path, false, 0)
       case None => None
       case Some(ys) => Some(JArr(ys)))
    case JStr(s) =>
      var (p, core) := SplitFormatting(s);
      (match PlainText(core, tr, path)
       case None => None
       case Some(t) => Some(JStr(p + t)))
    case _ => Some(c)
  }

  /** One member of a dict component: `text` strings, `with` lists, and everything else under its key. */
  function ChatMember(key: string, value: Json, tr: string -> Option<string>, path: seq<string>): (r: Option<Json>)
    ensures r.Some? ==> SameShape(value, r.value)
    decreases value, 3
  {
    if key == "text" && value.JStr? then
      var (p, core) := SplitFormatting(value.s);
      match PlainText(core, tr, path + ["text"])
      case None => None
      case Some(t) => Some(JStr(p + t))
    else if key == "with" && value.JArr? then
      match ChatItems(value.items, tr, path, true, 0)
      case None => None
      case Some(ys) => Some(JArr(ys))
    else Chat(value, tr, path + [key])
  }

  /** `out` answers the members of `ms` from `k` on: the same keys in order, values of the same shape. */
  ghost predicate MembersMatch(ms: seq<(string, Json)>, k: nat, out: seq<(string, Json)>)
    requires k <= |ms|
  {
    |out| == |ms| - k && forall j :: 0 <= j < |out| ==> out[j].0 == ms[k + j].0 && SameShape(ms[k + j].1, out[j].1)
  }

  lemma MembersMatchCons(ms: seq<(string, Json)>, k: nat, v: Json, rest: seq<(string, Json)>)
    requires k < |ms| && SameShape(ms[k].1, v) && MembersMatch(ms, k + 1, rest)
    ensures MembersMatch(ms, k, [(ms[k].0, v)] + rest)
  {
    var out := [(ms[k].0, v)] + rest;
    forall j | 0 <= j < |out| ensures out[j].0 == ms[k + j].0 && SameShape(ms[k + j].1, out[j].1) {
      if j > 0 {
        assert out[j] == rest[j - 1];
      }
    }
  }

  /** The members from `k` on, each with its key kept. */
  function ChatMembers(ms: seq<(string, Json)>, tr: string -> Option<string>, path: seq<string>, k: nat)
    : (r: Option<seq<(string, Json)>>)
    requires k <= |ms|
    ensures r.Some? ==> MembersMatch(ms, k, r.value)
    decreases JObj(ms), 1, |ms| - k
  {
    if k == |ms| then Some([])
    else
      match ChatMember(ms[k].0, ms[k].1, tr, path)
      case None => None
      case Some(v) =>
        match ChatMembers(ms, tr, path, k + 1)
        case None => None
        case Some(rest) =>
          MembersMatchCons(ms, k, v, rest);
          Some([(ms[k].0, v)] + rest)
  }

  /** `out` answers the elements of `xs` from `i` on, element by element. */
  ghost predicate ItemsMatch(xs: seq<Json>, i: nat, out: seq<Json>)
    requires i <= |xs|
  {
    |out| == |xs| - i && forall j :: 0 <= j < |out| ==> SameShape(xs[i + j], out[j])
  }

  lemma ItemsMatchCons(xs: seq<Json>, i: nat, y: Json, rest: seq<Json>)
    requires i < |xs| && SameShape(xs[i], y) && ItemsMatch(xs, i + 1, rest)
    ensures ItemsMatch(xs, i, [y] + rest)
  {
    var out := [y] + rest;
    forall j | 0 <= j < |out| ensures SameShape(xs[i + j], out[j]) {
      if j > 0 {
        assert out[j] == rest[j - 1];
      }
    }
  }

  /** The elements from `i` on, each under its own path. */
  function ChatItems(xs: seq<Json>, tr: string -> Option<string>, path: seq<string>, isWith: bool, i: nat)
    : (r: Option<seq<Json>>)
    requires i <= |xs|
    ensures r.Some? ==> ItemsMatch(xs, i, r.value)
    decreases JArr(xs), 1, |xs| - i
  {
    if i == |xs| then Some([])
    else
      match Chat(xs[i], tr, ItemPath(path, isWith, i))
      case None => None
      case Some(y) =>
        match ChatItems(xs, tr, path, isWith, i + 1)
        case None => None
        case Some(rest) =>
          ItemsMatchCons(xs, i, y, rest);
          Some([y] + rest)
  }

  /** `json.loads` and `json.dumps`; `parse` is `None` where `json.loads` raises. */
  datatype JsonCodec = JsonCodec(parse: string -> Option<Json>, dump: Json -> string)

  /**
   * `_try_translate_chat_json`: only a string whose stripped form starts
   * with `{` or `[` is tried; a parse error or an exception while walking
   * gives `None`.
   */
  function TryChatJson(text: string, tr: string -> Option<string>, path: seq<string>, json: JsonCodec)
    : Option<string>
  {
    var st := Strip(text);
    if st == [] then None
    else if !(StartsWith(st, "{") || StartsWith(st, "[")) then None
    else
      match json.parse(st)
      case None => None
      case Some(data) =>
        match Chat(data, tr, path)
        case None => None
        case Some(t) => Some(json.dump(t))
  }

  /** `_translate_string_value`: the chat path when it gives an answer, the plain-text rule otherwise. */
  function StringValue(value: string, tr: string -> Option<string>, path: seq<string>, json: JsonCodec)
    : Option<string>
  {
    match TryChatJson(value, tr, path, json)
    case Some(out) => Some(out)
    case None => PlainText(value, tr, path)
  }

  // ---------- the NBT walk ----------

  /** An NBT tag: a compound of named tags, a list, a string, or any other tag (kept as it is). */
  datatype Nbt =
    | Compound(entries: seq<(string, Nbt)>)
    | NList(items: seq<Nbt>)
    | NString(s: string)
    | Other(literal: string)

  /** Same tree: compounds with the same keys in order, lists of the same length, other tags equal. */
  ghost predicate SameNbtShape(a: Nbt, b: Nbt)
    decreases a
  {
    match a
    case Compound(es) =>
      && b.Compound? && |b.entries| == |es|
      && forall k :: 0 <= k < |es| ==> b.entries[k].0 == es[k].0 && SameNbtShape(es[k].1, b.entries[k].1)
    case NList(xs) =>
      b.NList? && |b.items| == |xs| && forall i :: 0 <= i < |xs| ==> SameNbtShape(xs[i], b.items[i])
    case NString(_) => b.NString?
    case Other(_) => b == a
  }

  /** A String tag after the walk: kept when translating it raised or gave the same text. */
  function StringTag(tag: Nbt, tr: string -> Option<string>, path: seq<string>, json: JsonCodec): (r: Nbt)
    requires tag.NString?
    ensures r.NString?
  {
    match StringValue(tag.s, tr, path, json)
    case None => tag
    case Some(v) => if v == tag.s then tag else NString(v)
  }

  /** What `_translate_nbt_tag` makes of a tag found at `path`. */
  function NbtWalk(tag: Nbt, tr: string -> Option<string>, path: seq<string>, json: JsonCodec): (r: Nbt)
    ensures SameNbtShape(tag, r)
    decreases tag
  {
    match tag
    case Compound(es) =>
      var ns := seq(|es|, k requires 0 <= k < |es| => (es[k].0, NbtWalk(es[k].1, tr, path + [es[k].0], json)));
      assert forall k :: 0 <= k < |es| ==> ns[k].0 == es[k].0 && SameNbtShape(es[k].1, ns[k].1);
      Compound(ns)
    case NList(xs) =>
      var ys := seq(|xs|, i requires 0 <= i < |xs| => NbtWalk(xs[i], tr, path + [IndexSeg(i)], json));
      assert forall i :: 0 <= i < |xs| ==> SameNbtShape(xs[i], ys[i]);
      NList(ys)
    case NString(_) => StringTag(tag, tr, path, json)
    case Other(_) => tag
  }

  /**
   * `_translate_nbt_tag`: compound entries and list elements are replaced
   * one by one by their own walk; the `except` around each child keeps the
   * child, but the walk of a child always returns (a String tag catches the
   * translator's exception itself).
   */
  method TranslateNbtTag(tag: Nbt, tr: string -> Option<string>, path: seq<string>, json: JsonCodec)
    returns (r: Nbt)
    ensures r == NbtWalk(tag, tr, path, json)
    decreases tag
  {
    match tag {
      case Compound(es) =>
        var entries := es;
        for k := 0 to |es|
          invariant |entries| == |es|
          invariant forall j :: 0 <= j < k ==> entries[j] == (es[j].0, NbtWalk(es[j].1, tr, path + [es[j].0], json))
          invariant forall j :: k <= j < |es| ==> entries[j] == es[j]
        {
          var (key, child) := entries[k];
          var walked := TranslateNbtTag(child, tr, path + [key], json);
          entries := entries[k := (key, walked)];
        }
        r := Compound(entries);
      case NList(xs) =>
        var items := xs;
        for i := 0 to |xs|
          invariant |items| == |xs|
          invariant forall j :: 0 <= j < i ==> items[j] == NbtWalk(xs[j], tr, path + [IndexSeg(j)], json)
          invariant forall j :: i <= j < |xs| ==> items[j] == xs[j]
        {
          var walked := TranslateNbtTag(items[i], tr, path + [IndexSeg(i)], json);
          items := items[i := walked];
        }
        r := NList(items);
      case NString(original) =>
        var newValue := StringValue(original, tr, path, json);
        if newValue.None? || newValue.value == original {
          r := tag;
        } else {
          r := NString(newValue.value);
        }
      case Other(_) =>
        r := tag;
    }
  }

  /** `slib.loads` and `slib.dumps`; `parse` is `None` where `slib.loads` raises. */
  datatype SnbtCodec = SnbtCodec(parse: string -> Option<Nbt>, dump: Nbt -> string)

  /** `translate_snbt_text_structured`: parse, walk from the empty path, serialise; a parse error propagates. */
  function TranslateStructured(text: string, tr: string -> Option<string>, json: JsonCodec, snbt: SnbtCodec)
    : (r: Option<string>)
    ensures r.None? <==> snbt.parse(text).None?
    ensures r.Some? ==> r.value == snbt.dump(NbtWalk(snbt.parse(text).value, tr, [], json))
  {
    match snbt.parse(text)
    case None => None
    case Some(root) => Some(snbt.dump(NbtWalk(root, tr, [], json)))
  }

  // ---------- properties ----------

  /** A list index added to a path does not change its last semantic key. */
  lemma {:induction false} IndexSkipped(path: seq<string>, i: nat)
    ensures LastSemanticKey(path + [IndexSeg(i)]) == LastSemanticKey(path)
  {
    var p := path + [IndexSeg(i)];
    assert p[..|p| - 1] == path;
  }

  /**
   * The plain-text rule sends exactly the strings `PlainSent` describes and
   * returns every other string as it is.
   */
  lemma PlainTextSentIff(text: string, tr: string -> Option<string>, path: seq<string>)
    ensures PlainSent(text, path) ==> PlainText(text, tr, path) == tr(text)
    ensures !PlainSent(text, path) ==> PlainText(text, tr, path) == Some(text)
  {
  }

  /** A technical path wins over a text path: its strings are never sent. */
  lemma TechnicalBeatsForced(text: string, tr: string -> Option<string>, path: seq<string>)
    requires IsPathTechnical(path) && IsPathForceText(path)
    ensures PlainText(text, tr, path) == Some(text)
  {
  }

  /** The type of a task is technical wherever it sits under `tasks`, also when it is a list. */
  lemma TaskTypeTechnical(path: seq<string>, i: nat)
    requires exists j :: 0 <= j < |path| && Lower(path[j]) == "tasks"
    ensures IsPathTechnical(path + ["type"])
    ensures IsPathTechnical(path + ["type", IndexSeg(i)])
  {
    var j :| 0 <= j < |path| && Lower(path[j]) == "tasks";
    assert Lower("type") == "type";
    var p1 := path + ["type"];
    assert p1[j] == path[j];
    var p2 := path + ["type", IndexSeg(i)];
    assert p2[j] == path[j];
    assert TechnicalKey(p2) == "type";
  }

  /** The translator that returns its input. */
  function Unchanged(s: string): Option<string> {
    Some(s)
  }

  /** The identity translator leaves a chat component as it is. */
  lemma {:induction false} ChatIdentity(c: Json, path: seq<string>)
    ensures Chat(c, Unchanged, path) == Some(c)
    decreases c, 2
  {
    match c
    case JObj(ms) =>
      ChatMembersIdentity(ms, path, 0);
      assert ms[0..] == ms;
    case JArr(xs) =>
      ChatItemsIdentity(xs, path, false, 0);
      assert xs[0..] == xs;
    case JStr(s) =>
    case _ =>
  }

  lemma {:induction false} ChatMemberIdentity(key: string, value: Json, path: seq<string>)
    ensures ChatMember(key, value, Unchanged, path) == Some(value)
    decreases value, 3
  {
    if key == "text" && value.JStr? {
    } else if key == "with" && value.JArr? {
      ChatItemsIdentity(value.items, path, true, 0);
      assert value.items[0..] == value.items;
    } else {
      ChatIdentity(value, path + [key]);
    }
  }

  lemma {:induction false} ChatMembersIdentity(ms: seq<(string, Json)>, path: seq<string>, k: nat)
    requires k <= |ms|
    ensures ChatMembers(ms, Unchanged, path, k) == Some(ms[k..])
    decreases JObj(ms), 1, |ms| - k
  {
    if k < |ms| {
      ChatMemberIdentity(ms[k].0, ms[k].1, path);
      ChatMembersIdentity(ms, path, k + 1);
      assert [(ms[k].0, ms[k].1)] + ms[k + 1..] == ms[k..];
    } else {
      assert ms[k..] == [];
    }
  }

  lemma {:induction false} ChatItemsIdentity(xs: seq<Json>, path: seq<string>, isWith: bool, i: nat)
    requires i <= |xs|
    ensures ChatItems(xs, Unchanged, path, isWith, i) == Some(xs[i..])
    decreases JArr(xs), 1, |xs| - i
  {
    if i < |xs| {
      ChatIdentity(xs[i], ItemPath(path, isWith, i));
      ChatItemsIdentity(xs, path, isWith, i + 1);
      assert [xs[i]] + xs[i + 1..] == xs[i..];
    } else {
      assert xs[i..] == [];
    }
  }

  /**
   * A `text` string keeps its leading formatting codes in front of the
   * translation, and only the text after them goes through the plain-text
   * rule, under the path extended by `text`.
   */
  lemma TextKeepsCodes(v: string, tr: string -> Option<string>, path: seq<string>)
    requires ChatMember("text", JStr(v), tr, path).Some?
    ensures var (codes, core) := SplitFormatting(v);
      var out := ChatMember("text", JStr(v), tr, path).value;
      && out.JStr? && StartsWith(out.s, codes) && FormatCodes(codes)
      && Some(out.s[|codes|..]) == PlainText(core, tr, path + ["text"])
  {
    var split := SplitFormatting(v);
    var codes, core := split.0, split.1;
    var pt := PlainText(core, tr, path + ["text"]);
    assert pt.Some? && ChatMember("text", JStr(v), tr, path).value == JStr(codes + pt.value);
    var t := pt.value;
    assert (codes + t)[..|codes|] == codes && (codes + t)[|codes|..] == t;
  }

  /** Numbers, booleans and null in a chat component are returned as they are. */
  lemma ChatScalarsUnchanged(c: Json, tr: string -> Option<string>, path: seq<string>)
    requires c.JNull? || c.JBool? || c.JNum?
    ensures Chat(c, tr, path) == Some(c)
  {
  }

  /**
   * A String value tries the chat path only when its stripped form starts
   * with `{` or `[`; whenever the chat path gives no answer, the plain-text
   * rule decides.
   */
  lemma ChatOnlyForBrackets(value: string, tr: string -> Option<string>, path: seq<string>, json: JsonCodec)
    ensures !(StartsWith(Strip(value), "{") || StartsWith(Strip(value), "[")) ==> TryChatJson(value, tr, path, json).None?
    ensures TryChatJson(value, tr, path, json).None? ==> StringValue(value, tr, path, json) == PlainText(value, tr, path)
    ensures TryChatJson(value, tr, path, json).Some? ==> StringValue(value, tr, path, json) == TryChatJson(value, tr, path, json)
  {
  }

  /** A failing chat walk (the translator raised) falls back to the plain-text rule. */
  lemma ChatFailureFallsBack(value: string, tr: string -> Option<string>, path: seq<string>, json: JsonCodec, data: Json)
    requires json.parse(Strip(value)) == Some(data) && Chat(data, tr, path).None?
    ensures StringValue(value, tr, path, json) == PlainText(value, tr, path)
  {
  }

  /**
   * A String tag whose translation raised is kept; otherwise it holds the
   * new value (the same tag when the value did not change).
   */
  lemma StringTagOutcome(s: string, tr: string -> Option<string>, path: seq<string>, json: JsonCodec)
    ensures StringValue(s, tr, path, json).None? ==> NbtWalk(NString(s), tr, path, json) == NString(s)
    ensures StringValue(s, tr, path, json).Some? ==> NbtWalk(NString(s), tr, path, json) == NString(StringValue(s, tr, path, json).value)
  {
  }

  /** Tags other than compounds, lists and strings are left alone. */
  lemma OtherTagsUntouched(lit: string, tr: string -> Option<string>, path: seq<string>, json: JsonCodec)
    ensures NbtWalk(Other(lit), tr, path, json) == Other(lit)
  {
  }

  /** A compound entry is walked under the path extended by its key, a list element under its index. */
  lemma ChildPaths(tag: Nbt, tr: string -> Option<string>, path: seq<string>, json: JsonCodec, k: nat)
    ensures tag.Compound? && k < |tag.entries| ==>
      NbtWalk(tag, tr, path, json).entries[k] == (tag.entries[k].0, NbtWalk(tag.entries[k].1, tr, path + [tag.entries[k].0], json))
    ensures tag.NList? && k < |tag.items| ==>
      NbtWalk(tag, tr, path, json).items[k] == NbtWalk(tag.items[k], tr, path + [IndexSeg(k)], json)
  {
  }
}
