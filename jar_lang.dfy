/**
 * src/processors/jar_lang.py: the `assets/<modid>/lang/en_us.json` entries of
 * a mod jar are translated value by value and written as an overlay
 * `<out_root>/overrides/kubejs/assets/<modid>/lang/<TARGET_LANG>.json`.
 * The jar is its list of entry names; reading and parsing an entry, and
 * the translator, are parameters (`None` where they raise).
 */
module JarLang {
  import opened Wrappers
  import opened TextUtil
  import opened JsonModel

  /** `i` is the first `assets` segment of `parts`. */
  predicate FirstAssets(parts: seq<string>, i: int) {
    0 <= i < |parts| && parts[i] == "assets" && "assets" !in parts[..i]
  }

  /** `assets/<modid>/lang` with a non-empty modid starts at segment `i`. */
  predicate LangAt(parts: seq<string>, i: int) {
    0 <= i && i + 2 < |parts| && parts[i] == "assets" && parts[i + 1] != "" && parts[i + 2] == "lang"
  }

  /**
   * `_iter_jar_lang_entries` on one entry name: the modid it yields, or None
   * when the name is skipped. Only the first `assets` segment is looked at.
   */
  function EntryModId(name: string): (r: Option<string>)
    ensures r.Some? <==>
      EndsWith(name, "lang/en_us.json") &&
      exists i :: FirstAssets(Split(name, '/'), i) && LangAt(Split(name, '/'), i)
    ensures r.Some? ==> r.value != "" && '/' !in r.value
    ensures r.Some? ==> forall i :: FirstAssets(Split(name, '/'), i) ==> r.value == Split(name, '/')[i + 1]
  {
    var parts := Split(name, '/');
    if !EndsWith(name, "lang/en_us.json") then None
    else match IndexOf(parts, "assets")
      case None => None
      case Some(i) =>
        assert FirstAssets(parts, i);
        if i + 2 >= |parts| then None
        else if parts[i + 1] != "" && parts[i + 2] == "lang" then Some(parts[i + 1])
        else None
  }

  /** The `(modid, name)` pairs the generator yields, in jar order. */
  function Entries(names: seq<string>): (es: seq<(string, string)>)
    ensures |es| <= |names|
    ensures forall e :: e in es ==> e.1 in names && EntryModId(e.1) == Some(e.0)
    ensures forall n :: n in names && EntryModId(n).Some? ==> (EntryModId(n).value, n) in es
  {
    if names == [] then []
    else
      var rest := Entries(names[1..]);
      match EntryModId(names[0])
      case None => rest
      case Some(m) => [(m, names[0])] + rest
  }

  /** The overlay file of a mod: `os.path.join(out_root, "overrides", "kubejs", "assets", modid, "lang", f"{lang}.json")`. */
  function Destination(outRoot: string, modid: string, lang: string): string {
    JoinAll(outRoot, ["overrides", "kubejs", "assets", modid, "lang", lang + ".json"])
  }

  /**
   * For an absolute root and a modid taken from a name segment the overlay
   * path is `<out_root>/overrides/kubejs/assets/<modid>/lang/<lang>.json`.
   */
  lemma DestinationShape(outRoot: string, modid: string, lang: string)
    requires outRoot != [] && outRoot[|outRoot| - 1] != '/'
    requires PlainSegment(modid) && '/' !in lang
    ensures Destination(outRoot, modid, lang) ==
      outRoot + Slashed(["overrides", "kubejs", "assets", modid, "lang", lang + ".json"])
  {
    assert '/' !in lang + ".json";
    JoinAllPlain(outRoot, ["overrides", "kubejs", "assets", modid, "lang", lang + ".json"]);
  }

  /**
   * The `translated` dict: same keys in the same order, each string value
   * replaced by its translation, other values copied; None when a
   * translation raises.
   */
  function TranslatedDict(data: seq<(string, Json)>, tr: string -> Option<string>): (r: Option<seq<(string, Json)>>)
    ensures r.Some? ==> |r.value| == |data| && forall k :: 0 <= k < |data| ==>
      && r.value[k].0 == data[k].0
      && (data[k].1.JStr? ==> tr(data[k].1.s).Some? && r.value[k].1 == JStr(tr(data[k].1.s).value))
      && (!data[k].1.JStr? ==> r.value[k].1 == data[k].1)
    ensures r.None? <==> exists k :: 0 <= k < |data| && data[k].1.JStr? && tr(data[k].1.s).None?
  {
    if data == [] then Some([])
    else
      var n := |data| - 1;
      var (k, v) := data[n];
      match TranslatedDict(data[..n], tr)
      case None =>
        var j :| 0 <= j < n && data[..n][j].1.JStr? && tr(data[..n][j].1.s).None?;
        assert data[j] == data[..n][j];
        None
      case Some(front) =>
        if v.JStr? then
          match tr(v.s)
          case None => None
          case Some(out) => Some(front + [(k, JStr(out))])
        else Some(front + [(k, v)])
  }

  /** The loop at lines 83-88, stopping at the first translation that raises. */
  method TranslateDict(data: seq<(string, Json)>, tr: string -> Option<string>)
    returns (translated: Option<seq<(string, Json)>>)
    ensures translated == TranslatedDict(data, tr)
  {
    var acc: seq<(string, Json)> := [];
    for n := 0 to |data|
      invariant TranslatedDict(data[..n], tr) == Some(acc)
    {
      assert data[..n + 1][..n] == data[..n];
      var (k, v) := data[n];
      if v.JStr? {
        var out := tr(v.s);
        if out.None? {
          assert TranslatedDict(data[..n + 1], tr).None?;
          assert data[..n + 1] + data[n + 1..] == data;
          TranslatedPrefixFails(data, n + 1, tr);
          return None;
        }
        acc := acc + [(k, JStr(out.value))];
      } else {
        acc := acc + [(k, v)];
      }
    }
    assert data[..|data|] == data;
    return Some(acc);
  }

  lemma TranslatedPrefixFails(data: seq<(string, Json)>, n: nat, tr: string -> Option<string>)
    requires n <= |data| && TranslatedDict(data[..n], tr).None?
    ensures TranslatedDict(data, tr).None?
  {
    var j :| 0 <= j < n && data[..n][j].1.JStr? && tr(data[..n][j].1.s).None?;
    assert data[j] == data[..n][j];
  }

  /** A jar: `BadZip` where `zipfile` refuses it, otherwise its entry names. */
  datatype Jar = BadZip | Zip(names: seq<string>)

  /**
   * The file written for one yielded entry, or None where the entry is
   * logged and skipped: it cannot be read as JSON, it is not an object
   * (`data.items()` raises), or a translation raises.
   */
  function EntryWrite(e: (string, string), read: string -> Option<Json>, tr: string -> Option<string>,
                      outRoot: string, lang: string): Option<(string, seq<(string, Json)>)>
  {
    match read(e.1)
    case None => None
    case Some(data) =>
      if !data.JObj? then None
      else match TranslatedDict(data.members, tr)
        case None => None
        case Some(t) => Some((Destination(outRoot, e.0, lang), t))
  }

  /** The files written for the yielded entries, in order. */
  function JarWrites(es: seq<(string, string)>, read: string -> Option<Json>, tr: string -> Option<string>,
                     outRoot: string, lang: string): (ws: seq<(string, seq<(string, Json)>)>)
    ensures |ws| <= |es|
    ensures forall w :: w in ws ==> exists e :: e in es && EntryWrite(e, read, tr, outRoot, lang) == Some(w)
  {
    if es == [] then []
    else
      var rest := JarWrites(es[1..], read, tr, outRoot, lang);
      match EntryWrite(es[0], read, tr, outRoot, lang)
      case None => rest
      case Some(w) => [w] + rest
  }

  /**
   * `translate_from_jar`: 0 for a bad zip or a jar without lang entries;
   * otherwise one file per entry that could be read and translated, and
   * `ok` counts exactly those.
   */
  method TranslateFromJar(jar: Jar, read: string -> Option<Json>, tr: string -> Option<string>,
                          outRoot: string, lang: string)
    returns (ok: nat, writes: seq<(string, seq<(string, Json)>)>)
    ensures jar.BadZip? ==> writes == []
    ensures jar.Zip? ==> writes == JarWrites(Entries(jar.names), read, tr, outRoot, lang)
    ensures ok == |writes|
  {
    ok, writes := 0, [];
    if jar.BadZip? {
      return;
    }
    var entries := Entries(jar.names);
    if entries == [] {
      return;
    }
    ok, writes := WriteEntries(entries, read, tr, outRoot, lang);
  }

  /** The loop over the yielded entries: each one written, or logged and skipped. */
  method WriteEntries(entries: seq<(string, string)>, read: string -> Option<Json>, tr: string -> Option<string>,
                      outRoot: string, lang: string)
    returns (ok: nat, writes: seq<(string, seq<(string, Json)>)>)
    ensures writes == JarWrites(entries, read, tr, outRoot, lang)
    ensures ok == |writes|
  {
    ok, writes := 0, [];
    var n := 0;
    while n < |entries|
      invariant n <= |entries|
      invariant writes + JarWrites(entries[n..], read, tr, outRoot, lang) == JarWrites(entries, read, tr, outRoot, lang)
      invariant ok == |writes|
    {
      JarWritesStep(entries, n, read, tr, outRoot, lang);
      var written := WriteEntry(entries[n], read, tr, outRoot, lang);
      var here := if written.Some? then [written.value] else [];
      ConcatAssoc(writes, here, JarWrites(entries[n + 1..], read, tr, outRoot, lang));
      writes := writes + here;
      if written.Some? {
        ok := ok + 1;
      }
      n := n + 1;
    }
  }

  /** One yielded entry: read, checked to be an object, translated, and aimed at its overlay file. */
  method WriteEntry(e: (string, string), read: string -> Option<Json>, tr: string -> Option<string>,
                    outRoot: string, lang: string)
    returns (written: Option<(string, seq<(string, Json)>)>)
    ensures written == EntryWrite(e, read, tr, outRoot, lang)
  {
    var (modid, name) := e;
    var data := read(name);
    written := None;
    if data.Some? && data.value.JObj? {
      var dst := Destination(outRoot, modid, lang);
      var translated := TranslateDict(data.value.members, tr);
      if translated.Some? {
        written := Some((dst, translated.value));
      }
    }
  }

  lemma JarWritesStep(es: seq<(string, string)>, n: nat, read: string -> Option<Json>,
                      tr: string -> Option<string>, outRoot: string, lang: string)
    requires n < |es|
    ensures JarWrites(es[n..], read, tr, outRoot, lang) ==
      (match EntryWrite(es[n], read, tr, outRoot, lang) case None => [] case Some(w) => [w])
      + JarWrites(es[n + 1..], read, tr, outRoot, lang)
  {
    assert es[n..][1..] == es[n + 1..];
  }

  lemma ConcatAssoc<T>(a: seq<T>, b: seq<T>, c: seq<T>)
    ensures a + b + c == a + (b + c)
  {
  }

  /** An entry that cannot be read is skipped and the count does not change. */
  lemma UnreadableSkipped(e: (string, string), rest: seq<(string, string)>, read: string -> Option<Json>,
                          tr: string -> Option<string>, outRoot: string, lang: string)
    requires read(e.1).None?
    ensures JarWrites([e] + rest, read, tr, outRoot, lang) == JarWrites(rest, read, tr, outRoot, lang)
  {
    assert ([e] + rest)[1..] == rest;
  }

  /** When every entry reads as an object and translates, every entry is counted. */
  lemma {:induction false} AllReadableAllCounted(es: seq<(string, string)>, read: string -> Option<Json>,
                                                 tr: string -> Option<string>, outRoot: string, lang: string)
    requires forall e :: e in es ==> EntryWrite(e, read, tr, outRoot, lang).Some?
    ensures |JarWrites(es, read, tr, outRoot, lang)| == |es|
  {
    if es != [] {
      assert es[0] in es;
      assert forall e :: e in es[1..] ==> e in es;
      AllReadableAllCounted(es[1..], read, tr, outRoot, lang);
    }
  }

  /** A written overlay keeps the keys of the entry it came from. */
  lemma WrittenKeepsKeys(e: (string, string), read: string -> Option<Json>, tr: string -> Option<string>,
                         outRoot: string, lang: string)
    requires EntryWrite(e, read, tr, outRoot, lang).Some?
    ensures read(e.1).Some? && read(e.1).value.JObj?
    ensures var w := EntryWrite(e, read, tr, outRoot, lang).value;
      && w.0 == Destination(outRoot, e.0, lang)
      && Keys(w.1) == Keys(read(e.1).value.members)
  {
  }
}
