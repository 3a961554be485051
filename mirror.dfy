/**
 * src/mirrorer.py: the modpack is walked once; every file is handled by the
 * first of five rules (lang, Patchouli, tips, FTB Quests, KubeJS) that
 * matches its path and counted, and the mod jars are translated into
 * KubeJS overlays beforehand. The processors, the disk and the log are
 * parameters: `attempt` says whether handling a file raised.
 */
module Mirror {
  import opened Wrappers
  import opened TextUtil
  import opened JsonModel
  import opened FileTree
  import JarLang

  // ---------- classification ----------

  /** `_is_lang_en_us` */
  predicate IsLangEnUs(p: string) {
    EndsWith(p, "/lang/en_us.json") && Contains(p, "/assets/")
  }

  /** `_is_patchouli_json` */
  predicate IsPatchouliJson(p: string) {
    Contains(p, "/assets/") && Contains(p, "/patchouli_books/") && Contains(p, "/en_us/") && EndsWith(p, ".json")
  }

  /** `_is_tips_json` */
  predicate IsTipsJson(p: string) {
    Contains(p, "/assets/") && Contains(p, "/tips/") && EndsWith(p, ".json")
  }

  /** `_is_ftb_quests_snbt` */
  predicate IsFtbQuestsSnbt(p: string) {
    Contains(p, "/ftbquests/") && EndsWith(p, ".snbt")
  }

  /** `_is_kubejs_script` */
  predicate IsKubeJsScript(p: string) {
    Contains(p, "/kubejs/") && EndsWith(p, ".js") &&
    (Contains(p, "/server_scripts/") || Contains(p, "/client_scripts/"))
  }

  datatype Rule = LangRule | PatchouliRule | TipsRule | FtbQuestsRule | KubeJsRule

  /** The position of a rule in the `if` chain. */
  function Rank(r: Rule): nat {
    match r
    case LangRule => 0
    case PatchouliRule => 1
    case TipsRule => 2
    case FtbQuestsRule => 3
    case KubeJsRule => 4
  }

  /** The rule's test; KubeJS scripts also need `INCLUDE_KUBEJS_JS`. */
  predicate Matches(r: Rule, p: string, includeKubeJs: bool) {
    match r
    case LangRule => IsLangEnUs(p)
    case PatchouliRule => IsPatchouliJson(p)
    case TipsRule => IsTipsJson(p)
    case FtbQuestsRule => IsFtbQuestsSnbt(p)
    case KubeJsRule => includeKubeJs && IsKubeJsScript(p)
  }

  /** The rule that handles a file: the first whose test passes, or None when the file is ignored. */
  function Classify(p: string, includeKubeJs: bool): Option<Rule> {
    if IsLangEnUs(p) then Some(LangRule)
    else if IsPatchouliJson(p) then Some(PatchouliRule)
    else if IsTipsJson(p) then Some(TipsRule)
    else if IsFtbQuestsSnbt(p) then Some(FtbQuestsRule)
    else if includeKubeJs && IsKubeJsScript(p) then Some(KubeJsRule)
    else None
  }

  /** The chosen rule's test passes and no earlier rule's does; an ignored file passes none. */
  lemma ClassifyFirstMatch(p: string, includeKubeJs: bool)
    ensures Classify(p, includeKubeJs).Some? ==> Matches(Classify(p, includeKubeJs).value, p, includeKubeJs)
    ensures Classify(p, includeKubeJs).Some? ==>
      forall q: Rule :: Rank(q) < Rank(Classify(p, includeKubeJs).value) ==> !Matches(q, p, includeKubeJs)
    ensures Classify(p, includeKubeJs).None? ==> forall q: Rule :: !Matches(q, p, includeKubeJs)
  {
  }

  /** Without the switch no KubeJS script is handled; with it only scripts under `server_scripts` or `client_scripts`. */
  lemma KubeJsGated(p: string, includeKubeJs: bool)
    ensures Classify(p, includeKubeJs) == Some(KubeJsRule) ==>
      includeKubeJs && Contains(p, "/kubejs/") && EndsWith(p, ".js") &&
      (Contains(p, "/server_scripts/") || Contains(p, "/client_scripts/"))
    ensures !includeKubeJs ==> Classify(p, includeKubeJs) != Some(KubeJsRule)
  {
  }

  // ---------- destinations ----------

  /** Where a handled file is written, from its path `rel` relative to the input root. */
  function Destination(r: Rule, outRoot: string, rel: string, lang: string): string {
    match r
    case LangRule => JoinAll(outRoot, [DirName(rel), lang + ".json"])
    case PatchouliRule => PathJoin(outRoot, ReplaceAll(rel, "/en_us/", "/" + lang + "/"))
    case _ => PathJoin(outRoot, rel)
  }

  /** A replacement whose pattern starts with another character keeps the first character. */
  lemma ReplaceKeepsHead(s: string, pat: string, rep: string)
    requires s != [] && pat != [] && s[0] != pat[0]
    ensures ReplaceAll(s, pat, rep) != [] && ReplaceAll(s, pat, rep)[0] == s[0]
  {
    if |s| >= |pat| {
      assert s[..|pat|][0] == s[0];
    }
  }

  /** Tips, FTB Quests and KubeJS files keep their relative path under the output root. */
  lemma SamePathDestination(r: Rule, outRoot: string, rel: string, lang: string)
    requires r == TipsRule || r == FtbQuestsRule || r == KubeJsRule
    requires outRoot != [] && outRoot[|outRoot| - 1] != '/'
    requires rel != [] && rel[0] != '/'
    ensures Destination(r, outRoot, rel, lang) == outRoot + "/" + rel
  {
    JoinPlain(outRoot, rel);
  }

  /** A Patchouli page goes to the same relative path with every `/en_us/` turned into `/<lang>/`. */
  lemma PatchouliDestination(outRoot: string, rel: string, lang: string)
    requires outRoot != [] && outRoot[|outRoot| - 1] != '/'
    requires rel != [] && rel[0] != '/'
    ensures Destination(PatchouliRule, outRoot, rel, lang) ==
      outRoot + "/" + ReplaceAll(rel, "/en_us/", "/" + lang + "/")
  {
    ReplaceKeepsHead(rel, "/en_us/", "/" + lang + "/");
    JoinPlain(outRoot, ReplaceAll(rel, "/en_us/", "/" + lang + "/"));
  }

  /** A lang file is written as `<lang>.json` beside where it would sit under the output root. */
  lemma LangDestination(outRoot: string, rel: string, lang: string)
    requires outRoot != []
    requires '/' !in lang
    ensures EndsWith(Destination(LangRule, outRoot, rel, lang), "/" + lang + ".json")
  {
    var file := lang + ".json";
    FileNameHead(lang);
    JoinFileEnds(outRoot, DirName(rel), file);
  }

  lemma FileNameHead(lang: string)
    requires '/' !in lang
    ensures (lang + ".json")[0] != '/'
  {
    if lang != [] { assert lang[0] in lang; }
  }

  // ---------- pruning ----------

  /** `SKIP_DIRS` */
  const SkipDirs: set<string> := {
    "textures", "models", "sounds", "blockstates", "recipes", "loot_tables",
    "advancements", "shaders", "particles", "font", "icons", "data",
    ".git", ".idea", "__pycache__", "mods"
  }

  /** `IMPORTANT_HINTS` */
  const ImportantHints: seq<string> := ["/lang", "/patchouli_books", "/tips", "/ftbquests/", "/kubejs/"]

  /** The directory names kept outright below a content root that carries no hint. */
  const HintDirs: set<string> := {"lang", "patchouli_books", "tips", "ftbquests", "kubejs"}

  /** `any(h in p for h in IMPORTANT_HINTS)` */
  predicate HasHint(p: string) {
    exists k :: 0 <= k < |ImportantHints| && Contains(p, ImportantHints[k])
  }

  /** A directory under which files are looked at: its path has `/assets/`, `/ftbquests/` or `/kubejs/`. */
  predicate InContentRoot(rootNorm: string) {
    Contains(rootNorm, "/assets/") || Contains(rootNorm, "/ftbquests/") || Contains(rootNorm, "/kubejs/")
  }

  /** Whether the walk descends into subdirectory `d` of `rootNorm` (lines 82-99). */
  predicate KeepDir(rootNorm: string, d: string) {
    if !InContentRoot(rootNorm) then
      Contains(Norm(PathJoin(rootNorm, d)), "assets") || Contains(d, "ftbquests") || Contains(d, "kubejs")
    else
      d !in SkipDirs &&
      (HasHint(rootNorm) || d in HintDirs || HasHint(Norm(PathJoin(rootNorm, d))))
  }

  /** Below a content root an asset-type directory such as `textures` is never entered. */
  lemma SkipDirsPruned(rootNorm: string, d: string)
    requires InContentRoot(rootNorm) && d in SkipDirs
    ensures !KeepDir(rootNorm, d)
  {
  }

  /** The subdirectories left in `dirnames[:]`, in listing order. */
  function KeptSubdirs(rootNorm: string, subs: seq<Dir>): (r: seq<Dir>)
    ensures forall x :: x in r ==> x in subs && KeepDir(rootNorm, x.name)
    ensures forall x :: x in subs && KeepDir(rootNorm, x.name) ==> x in r
  {
    if subs == [] then []
    else (if KeepDir(rootNorm, subs[0].name) then [subs[0]] else []) + KeptSubdirs(rootNorm, subs[1..])
  }

  /** The files left in `files[:]`: none outside a content root. */
  function KeptFiles(rootNorm: string, files: seq<string>): seq<string> {
    if InContentRoot(rootNorm) then files else []
  }

  /** The walk at lines 79-99, with the pruning applied before each descent. */
  function PrunedWalk(path: string, rel: string, d: Dir): (vs: seq<Visit>)
    ensures vs != [] && vs[0].root == path
    decreases d
  {
    var rn := Norm(path);
    var kept := KeptSubdirs(rn, d.subdirs);
    [Visit(path, rel, KeptFiles(rn, d.files))] +
    Flatten(seq(|kept|, i requires 0 <= i < |kept| =>
      assert kept[i] in d.subdirs;
      PrunedWalk(PathJoin(path, kept[i].name), PathJoin(rel, kept[i].name), kept[i])))
  }

  lemma {:induction false} FlattenMember<T>(xss: seq<seq<T>>, x: T)
    requires x in Flatten(xss)
    ensures exists i :: 0 <= i < |xss| && x in xss[i]
    decreases |xss|
  {
    if x !in xss[0] {
      FlattenMember(xss[1..], x);
      var i :| 0 <= i < |xss[1..]| && x in xss[1..][i];
      assert x in xss[i + 1];
    }
  }

  /** Files are looked at only in directories whose path has `/assets/`, `/ftbquests/` or `/kubejs/`. */
  lemma {:induction false} FilesOnlyInContentRoots(path: string, rel: string, d: Dir)
    ensures forall v :: v in PrunedWalk(path, rel, d) && v.files != [] ==> InContentRoot(Norm(v.root))
    decreases d
  {
    var rn := Norm(path);
    var kept := KeptSubdirs(rn, d.subdirs);
    var parts := seq(|kept|, i requires 0 <= i < |kept| =>
      PrunedWalk(PathJoin(path, kept[i].name), PathJoin(rel, kept[i].name), kept[i]));
    assert PrunedWalk(path, rel, d) == [Visit(path, rel, KeptFiles(rn, d.files))] + Flatten(parts);
    forall v | v in PrunedWalk(path, rel, d) && v.files != []
      ensures InContentRoot(Norm(v.root))
    {
      if v !in Flatten(parts) {
        assert v == Visit(path, rel, KeptFiles(rn, d.files));
      } else {
        FlattenMember(parts, v);
        var i :| 0 <= i < |parts| && v in parts[i];
        assert kept[i] in d.subdirs;
        FilesOnlyInContentRoots(PathJoin(path, kept[i].name), PathJoin(rel, kept[i].name), kept[i]);
      }
    }
  }

  // ---------- counting ----------

  /**
   * How a run is set up: the output root, `TARGET_LANG`, `INCLUDE_KUBEJS_JS`,
   * `write`, and whether handling a file with a rule (source, destination)
   * returns rather than raises.
   */
  datatype Run = Run(outRoot: string, lang: string, includeKubeJs: bool, write: bool,
                     attempt: (Rule, string, string, bool) -> bool)

  datatype Tally = Tally(total: nat, translated: nat)

  function Plus(a: Tally, b: Tally): Tally {
    Tally(a.total + b.total, a.translated + b.translated)
  }

  /**
   * One file of a visited directory: None when no rule takes it, otherwise
   * whether it counts as translated. A dry run of the FTB Quests and KubeJS
   * rules only logs, so it always does.
   */
  function HandleFile(v: Visit, fname: string, run: Run): Option<bool>
  {
    var src := PathJoin(v.root, fname);
    var rel := Norm(PathJoin(v.rel, fname));
    match Classify(Norm(src), run.includeKubeJs)
    case None => None
    case Some(rule) =>
      if !run.write && (rule == FtbQuestsRule || rule == KubeJsRule) then Some(true)
      else Some(run.attempt(rule, src, Destination(rule, run.outRoot, rel, run.lang), run.write))
  }

  function Counted(o: Option<bool>): (t: Tally)
    ensures t.translated <= t.total <= 1
    ensures t.total == 1 <==> o.Some?
  {
    match o
    case None => Tally(0, 0)
    case Some(ok) => Tally(1, if ok then 1 else 0)
  }

  /** The per-file step of the loop as a value: `HandleFile` under the run's settings. */
  function Handler(run: Run): (Visit, string) -> Option<bool> {
    (v: Visit, fname: string) => HandleFile(v, fname, run)
  }

  /** The counters after the first `n` files of a directory, `handle` giving each file's outcome. */
  function FilesTally(handle: (Visit, string) -> Option<bool>, v: Visit, n: nat): (t: Tally)
    requires n <= |v.files|
    ensures t.translated <= t.total <= n
  {
    if n == 0 then Tally(0, 0)
    else Plus(FilesTally(handle, v, n - 1), Counted(handle(v, v.files[n - 1])))
  }

  /** The counters added up over a sequence of visited directories, `f` giving each directory's share. */
  function SumTally(vs: seq<Visit>, f: Visit -> Tally): Tally {
    if vs == [] then Tally(0, 0)
    else Plus(SumTally(vs[..|vs| - 1], f), f(vs[|vs| - 1]))
  }

  lemma SumTallyStep(vs: seq<Visit>, i: nat, f: Visit -> Tally)
    requires i < |vs|
    ensures SumTally(vs[..i + 1], f) == Plus(SumTally(vs[..i], f), f(vs[i]))
  {
    assert vs[..i + 1][..i] == vs[..i];
  }

  lemma {:induction false} SumTallyBounded(vs: seq<Visit>, f: Visit -> Tally)
    requires forall v :: f(v).translated <= f(v).total
    ensures SumTally(vs, f).translated <= SumTally(vs, f).total
  {
    if vs != [] {
      SumTallyBounded(vs[..|vs| - 1], f);
    }
  }

  /** A directory's share of the counters: all its files handled. */
  function DirShare(handle: (Visit, string) -> Option<bool>): Visit -> Tally {
    (v: Visit) => FilesTally(handle, v, |v.files|)
  }

  /** The counters after a sequence of visited directories. */
  function WalkTally(vs: seq<Visit>, run: Run): (t: Tally)
    ensures t.translated <= t.total
  {
    SumTallyBounded(vs, DirShare(Handler(run)));
    SumTally(vs, DirShare(Handler(run)))
  }

  /** A file that no rule takes leaves both counters as they were. */
  lemma IgnoredFileNotCounted(v: Visit, n: nat, run: Run)
    requires n < |v.files|
    requires Classify(Norm(PathJoin(v.root, v.files[n])), run.includeKubeJs).None?
    ensures FilesTally(Handler(run), v, n + 1) == FilesTally(Handler(run), v, n)
  {
  }

  /** A file whose handler raises is counted in the total but not as translated, and the loop goes on. */
  lemma FailedFileCounted(v: Visit, n: nat, run: Run)
    requires n < |v.files| && HandleFile(v, v.files[n], run) == Some(false)
    ensures FilesTally(Handler(run), v, n + 1) ==
      Tally(FilesTally(Handler(run), v, n).total + 1, FilesTally(Handler(run), v, n).translated)
  {
  }

  // ---------- the jar scan ----------

  /** What `translate_from_jar` reports for the jar called `name` in `mods/`. */
  function JarCount(name: string, jars: string -> JarLang.Jar, read: string -> string -> Option<Json>,
                    tr: string -> Option<string>, outRoot: string, lang: string): nat
  {
    match jars(name)
    case BadZip => 0
    case Zip(ns) => |JarLang.JarWrites(JarLang.Entries(ns), read(name), tr, outRoot, lang)|
  }

  /** The sum over the listed names that end in `.jar`. */
  function JarsTotal(names: seq<string>, jars: string -> JarLang.Jar, read: string -> string -> Option<Json>,
                     tr: string -> Option<string>, outRoot: string, lang: string): nat
  {
    if names == [] then 0
    else
      var last := names[|names| - 1];
      JarsTotal(names[..|names| - 1], jars, read, tr, outRoot, lang) +
      (if EndsWith(last, ".jar") then JarCount(last, jars, read, tr, outRoot, lang) else 0)
  }

  /** Only names ending in `.jar` matter: jar tables that agree on those give the same total. */
  lemma {:induction false} OnlyJarsCount(names: seq<string>, jars1: string -> JarLang.Jar, jars2: string -> JarLang.Jar,
                                         read1: string -> string -> Option<Json>, read2: string -> string -> Option<Json>,
                                         tr: string -> Option<string>, outRoot: string, lang: string)
    requires forall n :: n in names && EndsWith(n, ".jar") ==> jars1(n) == jars2(n) && read1(n) == read2(n)
    ensures JarsTotal(names, jars1, read1, tr, outRoot, lang) == JarsTotal(names, jars2, read2, tr, outRoot, lang)
  {
    if names != [] {
      var front := names[..|names| - 1];
      assert forall n :: n in front ==> n in names;
      OnlyJarsCount(front, jars1, jars2, read1, read2, tr, outRoot, lang);
    }
  }

  /** `_scan_jars_and_translate`: 0 without a `mods` directory, else the sum of the per-jar counts. */
  method ScanJars(mods: Option<seq<string>>, jars: string -> JarLang.Jar, read: string -> string -> Option<Json>,
                  tr: string -> Option<string>, outRoot: string, lang: string)
    returns (ok: nat)
    ensures mods.None? ==> ok == 0
    ensures mods.Some? ==> ok == JarsTotal(mods.value, jars, read, tr, outRoot, lang)
  {
    if mods.None? {
      return 0;
    }
    var names := mods.value;
    ok := 0;
    for n := 0 to |names|
      invariant ok == JarsTotal(names[..n], jars, read, tr, outRoot, lang)
    {
      assert names[..n + 1][..n] == names[..n];
      var name := names[n];
      if !EndsWith(name, ".jar") {
        continue;
      }
      var count, _ := JarLang.TranslateFromJar(jars(name), read(name), tr, outRoot, lang);
      ok := ok + count;
    }
    assert names[..|names|] == names;
  }

  // ---------- the whole run ----------

  /** The `if` chain for one file (lines 102-206): None when it is ignored, else whether it counts as translated. */
  method HandleOne(v: Visit, fname: string, run: Run) returns (o: Option<bool>)
    ensures o == HandleFile(v, fname, run)
  {
    var src := PathJoin(v.root, fname);
    var rel := Norm(PathJoin(v.rel, fname));
    var rule := Classify(Norm(src), run.includeKubeJs);
    if rule.None? {
      return None;
    }
    var dst := Destination(rule.value, run.outRoot, rel, run.lang);
    var ok := true;
    if run.write || (rule.value != FtbQuestsRule && rule.value != KubeJsRule) {
      ok := run.attempt(rule.value, src, dst, run.write);
    }
    return Some(ok);
  }

  /** The loop over the files of one visited directory (lines 101-206), `handle` doing each file. */
  method HandleDirectory(handle: (Visit, string) -> Option<bool>, v: Visit) returns (t: Tally)
    ensures t == FilesTally(handle, v, |v.files|)
  {
    t := Tally(0, 0);
    for j := 0 to |v.files|
      invariant t == FilesTally(handle, v, j)
    {
      t := Plus(t, Counted(handle(v, v.files[j])));
    }
  }

  /**
   * `mirror_translate_dir`: the jar scan in write mode, then every file of
   * the pruned walk handled by its rule and counted. `jarOk` is the count
   * the jar scan logs (the function itself returns only the two counters).
   */
  method MirrorTranslateDir(base: Dir, baseInput: string, run: Run, mods: Option<seq<string>>,
                            jars: string -> JarLang.Jar, read: string -> string -> Option<Json>,
                            tr: string -> Option<string>)
    returns (total: nat, translated: nat, jarOk: nat)
    ensures Tally(total, translated) == WalkTally(PrunedWalk(baseInput, "", base), run)
    ensures translated <= total
    ensures !run.write ==> jarOk == 0
    ensures run.write && mods.Some? ==> jarOk == JarsTotal(mods.value, jars, read, tr, run.outRoot, run.lang)
  {
    jarOk := 0;
    if run.write {
      jarOk := ScanJars(mods, jars, read, tr, run.outRoot, run.lang);
    }
    total, translated := TallyVisits(Handler(run), PrunedWalk(baseInput, "", base));
  }

  /** The walk loop (lines 79-206) over the directories the pruned walk visits. */
  method TallyVisits(handle: (Visit, string) -> Option<bool>, visits: seq<Visit>) returns (total: nat, translated: nat)
    ensures Tally(total, translated) == SumTally(visits, DirShare(handle))
  {
    total, translated := 0, 0;
    for i := 0 to |visits|
      invariant Tally(total, translated) == SumTally(visits[..i], DirShare(handle))
    {
      SumTallyStep(visits, i, DirShare(handle));
      var t := HandleDirectory(handle, visits[i]);
      total, translated := total + t.total, translated + t.translated;
    }
    assert visits[..|visits|] == visits;
  }
}
