/**
 * src/scanner.py: `build_resource_pack` collects translatable files from the
 * mod jars, from `kubejs/assets`, from the modpack's `assets` folder, from
 * every `assets` folder under `config/openloader/resources` and from
 * `overrides/kubejs/assets`, and translates each into the output resource
 * pack, counting them in `processed`. The disk is a set of optional trees
 * (None where a directory is missing); the work done for a file is recorded
 * as a job (source, destination). Three of the filters reject the layout
 * their own comments describe; every scan takes a `Filters` argument, so the
 * build is modelled both with the filters as written and with corrected
 * ones (see the lemmas at the end of the filter section and after
 * `EntryJobRule`).
 */
module Scanner {
  import opened Wrappers
  import opened TextUtil
  import opened JsonModel
  import opened FileTree
  import JarLang

  // ---------- modids and destinations ----------

  /**
   * `parts[parts.index("assets") + 1]`, or `fallback` where that raises:
   * no `assets` segment, or nothing after the first one.
   */
  function ModIdOf(parts: seq<string>, fallback: string): (r: string)
    ensures "assets" !in parts ==> r == fallback
    ensures forall i :: JarLang.FirstAssets(parts, i) ==> r == (if i + 1 < |parts| then parts[i + 1] else fallback)
  {
    match IndexOf(parts, "assets")
    case None => fallback
    case Some(i) =>
      assert JarLang.FirstAssets(parts, i);
      if i + 1 < |parts| then parts[i + 1] else fallback
  }

  /** A lang file's destination, `os.path.join(out_root, "assets", modid, "lang", f"{lang}.json")`. */
  function LangDestination(outRoot: string, modid: string, lang: string): string {
    JoinAll(outRoot, ["assets", modid, "lang", lang + ".json"])
  }

  /** For an absolute root and a plain modid the lang file lands at `<out_root>/assets/<modid>/lang/<lang>.json`. */
  lemma LangDestinationShape(outRoot: string, modid: string, lang: string)
    requires outRoot != [] && outRoot[|outRoot| - 1] != '/'
    requires PlainSegment(modid) && '/' !in lang
    ensures LangDestination(outRoot, modid, lang) == outRoot + Slashed(["assets", modid, "lang", lang + ".json"])
  {
    assert '/' !in lang + ".json";
    JoinAllPlain(outRoot, ["assets", modid, "lang", lang + ".json"]);
  }

  /** A Patchouli page's destination: its path under `assets` with every `/en_us/` turned into `/<lang>/`. */
  function PatchouliDestination(outRoot: string, rel: string, lang: string): string {
    JoinAll(outRoot, ["assets", ReplaceAll(rel, "/en_us/", "/" + lang + "/")])
  }

  /** A page whose path has no `/en_us/` segment is written under its own path. */
  lemma PatchouliWithoutLocale(outRoot: string, rel: string, lang: string)
    requires !Contains(rel, "/en_us/")
    ensures PatchouliDestination(outRoot, rel, lang) == JoinAll(outRoot, ["assets", rel])
  {
    ReplaceAbsent(rel, "/en_us/", "/" + lang + "/");
  }

  /** Replacing a pattern that does not occur changes nothing. */
  lemma {:induction false} ReplaceAbsent(s: string, pat: string, rep: string)
    requires |pat| > 0 && !Contains(s, pat)
    ensures ReplaceAll(s, pat, rep) == s
    decreases |s|
  {
    if |s| >= |pat| {
      assert !OccursAt(s, pat, 0);
      assert s[..|pat|] != pat;
      assert !Contains(s[1..], pat) by {
        forall i | 0 <= i <= |s[1..]| ensures !OccursAt(s[1..], pat, i) {
          if OccursAt(s[1..], pat, i) {
            assert s[1..][i..i + |pat|] == s[i + 1..i + 1 + |pat|];
            assert OccursAt(s, pat, i + 1);
          }
        }
      }
      ReplaceAbsent(s[1..], pat, rep);
      assert s == [s[0]] + s[1..];
    }
  }

  // ---------- the directory filters ----------

  /** Line 18: the walk root lies inside a Patchouli book's `en_us` folder. */
  predicate PatchouliRoot(rootNorm: string) {
    Contains(rootNorm, "/patchouli_books/") && Contains(rootNorm, "/en_us/")
  }

  /** Line 38 as written: `"/tips/" in root_norm`, which needs a folder below `tips`. */
  predicate TipsRootAsWritten(rootNorm: string) {
    Contains(rootNorm, "/tips/")
  }

  /** The `tips` folder itself or a folder below one. */
  predicate TipsRoot(rootNorm: string) {
    Contains(rootNorm + "/", "/tips/")
  }

  /** Line 57: a `lang` folder somewhere under `assets/`. */
  predicate LangRoot(rootNorm: string) {
    EndsWith(rootNorm, "/lang") && Contains(rootNorm, "assets/")
  }

  /** Line 135 as written: `"/lang/" in root`, which needs a folder below `lang`. */
  predicate KubeLangRootAsWritten(rootNorm: string) {
    Contains(rootNorm, "/lang/")
  }

  /** A `lang` folder itself or a folder below one. */
  predicate KubeLangRoot(rootNorm: string) {
    Contains(rootNorm + "/", "/lang/")
  }

  /** Line 113 as written: a jar entry name with `/assets/` in it, which a top-level `assets/` lacks. */
  predicate JarEntryAsWritten(p: string) {
    Contains(p, "/assets/") && EndsWith(p, "/lang/en_us.json")
  }

  /** A jar entry under an `assets` folder, at the top of the jar or deeper. */
  predicate JarEntry(p: string) {
    Contains("/" + p, "/assets/") && EndsWith(p, "/lang/en_us.json")
  }

  /** Which version of the three filters above a build applies: the program's, or the corrected one. */
  datatype Filters = AsWritten | Corrected

  predicate TipsFilter(f: Filters, rootNorm: string) {
    if f.AsWritten? then TipsRootAsWritten(rootNorm) else TipsRoot(rootNorm)
  }

  predicate KubeLangFilter(f: Filters, rootNorm: string) {
    if f.AsWritten? then KubeLangRootAsWritten(rootNorm) else KubeLangRoot(rootNorm)
  }

  predicate JarEntryFilter(f: Filters, p: string) {
    if f.AsWritten? then JarEntryAsWritten(p) else JarEntry(p)
  }

  /** In `prefix + "/" + name`, a stretch whose last character falls inside `name` does not end in `/`. */
  lemma EndsInsideName(prefix: string, name: string, s: string, pat: string, i: nat)
    requires '/' !in name
    requires s == prefix + "/" + name && pat == "/" + name + "/"
    requires |prefix| < i + |pat| - 1 && i + |pat| <= |s|
    ensures s[i..i + |pat|] != pat
  {
    var k := i + |pat| - 1;
    assert s[k] == name[k - |prefix| - 1];
    assert name[k - |prefix| - 1] in name;
    assert s[i..i + |pat|][|pat| - 1] == s[k];
    assert pat[|pat| - 1] == '/';
  }

  /** In `prefix + "/" + name`, a `/<name>/` ending just after `prefix` would make `prefix` end in `/<name>`. */
  lemma EndsAtSlash(prefix: string, name: string, s: string, pat: string, i: nat)
    requires s == prefix + "/" + name && pat == "/" + name + "/"
    requires i + |pat| - 1 == |prefix| && !EndsWith(prefix, "/" + name)
    ensures s[i..i + |pat|] != pat
  {
    var head := "/" + name;
    forall t | i <= t < i + |head| ensures s[t] == prefix[t] {
    }
    assert s[i..i + |head|] == prefix[i..];
    assert prefix[|prefix| - |head|..] == prefix[i..];
    assert pat[..|head|] == head;
    assert s[i..i + |pat|][..|head|] == s[i..i + |head|];
  }

  /**
   * A folder `name` appended to a path that has no `/<name>/` and does not
   * already end in `/<name>`: the result has no `/<name>/` either.
   */
  lemma DirNotSeen(prefix: string, name: string)
    requires '/' !in name
    requires !Contains(prefix, "/" + name + "/") && !EndsWith(prefix, "/" + name)
    ensures !Contains(prefix + "/" + name, "/" + name + "/")
  {
    var s := prefix + "/" + name;
    var pat := "/" + name + "/";
    forall i | 0 <= i <= |s| ensures !OccursAt(s, pat, i) {
      if i + |pat| <= |s| {
        if i + |pat| <= |prefix| {
          assert s[i..i + |pat|] == prefix[i..i + |pat|];
          assert !OccursAt(prefix, pat, i);
        } else if |prefix| < i + |pat| - 1 {
          EndsInsideName(prefix, name, s, pat, i);
        } else {
          EndsAtSlash(prefix, name, s, pat, i);
        }
      }
    }
  }

  /** A folder name appended to any path makes a path the corrected filter takes. */
  lemma DirSeen(prefix: string, name: string)
    ensures Contains(prefix + "/" + name + "/", "/" + name + "/")
  {
    var s := prefix + "/" + name + "/";
    assert s[|prefix|..|prefix| + |name| + 2] == "/" + name + "/";
    assert OccursAt(s, "/" + name + "/", |prefix|);
  }

  /** The files of a `tips` folder itself are skipped by the filter as written, taken by the corrected one. */
  lemma TipsFolderSkipped(prefix: string)
    requires !Contains(prefix, "/tips/") && !EndsWith(prefix, "/tips")
    ensures !TipsRootAsWritten(prefix + "/tips")
    ensures TipsRoot(prefix + "/tips")
  {
    assert "/" + "tips" + "/" == "/tips/" && "/" + "tips" == "/tips";
    Associate(prefix, "/", "tips");
    DirNotSeen(prefix, "tips");
    DirSeen(prefix, "tips");
  }

  /** The same for the `lang` folders of `kubejs/assets`. */
  lemma KubeLangFolderSkipped(prefix: string)
    requires !Contains(prefix, "/lang/") && !EndsWith(prefix, "/lang")
    ensures !KubeLangRootAsWritten(prefix + "/lang")
    ensures KubeLangRoot(prefix + "/lang")
  {
    assert "/" + "lang" + "/" == "/lang/" && "/" + "lang" == "/lang";
    Associate(prefix, "/", "lang");
    DirNotSeen(prefix, "lang");
    DirSeen(prefix, "lang");
  }

  /** `assets/<modid>/lang/en_us.json` at the top of a jar: refused as written, taken when corrected. */
  lemma TopLevelEntrySkipped(q: string)
    requires !Contains(q, "/assets/") && !StartsWith(q, "assets/")
    requires EndsWith(q, "/lang/en_us.json")
    ensures !JarEntryAsWritten("assets/" + q)
    ensures JarEntry("assets/" + q)
  {
    var s := "assets/" + q;
    var pat := "/assets/";
    forall i | 0 <= i <= |s| ensures !OccursAt(s, pat, i) {
      if i + |pat| <= |s| {
        if i >= 7 {
          assert s[i..i + |pat|] == q[i - 7..i - 7 + |pat|];
          assert !OccursAt(q, pat, i - 7);
        } else if i < 6 {
          assert s[i..i + |pat|][0] == s[i];
        } else {
          assert s[i..i + |pat|][1..] == q[..7];
        }
      }
    }
    assert ("/" + s)[..8] == pat;
    assert OccursAt("/" + s, pat, 0);
    assert s[|s| - 16..] == q[|q| - 16..];
  }

  /** A mod's own `tips` folder: `/pack/assets/mymod/tips`. */
  lemma TipsExample()
    ensures !TipsRootAsWritten("/pack/assets/mymod/tips") && TipsRoot("/pack/assets/mymod/tips")
  {
    var prefix := "/pack/assets/mymod";
    NotContainsByChar(prefix, "/tips/", 2);
    assert prefix[|prefix| - 1] != "/tips"[4];
    TipsFolderSkipped(prefix);
    assert prefix + "/tips" == "/pack/assets/mymod/tips";
  }

  /** A KubeJS lang folder: `/pack/kubejs/assets/mymod/lang`. */
  lemma KubeLangExample()
    ensures !KubeLangRootAsWritten("/pack/kubejs/assets/mymod/lang") && KubeLangRoot("/pack/kubejs/assets/mymod/lang")
  {
    var prefix := "/pack/kubejs/assets/mymod";
    NotContainsByChar(prefix, "/lang/", 4);
    assert prefix[|prefix| - 1] != "/lang"[4];
    KubeLangFolderSkipped(prefix);
    assert prefix + "/lang" == "/pack/kubejs/assets/mymod/lang";
  }

  /** The lang file of a jar: `assets/mymod/lang/en_us.json`. */
  lemma JarEntryExample()
    ensures !JarEntryAsWritten("assets/" + "mymod/lang/en_us.json") && JarEntry("assets/" + "mymod/lang/en_us.json")
  {
    var q := "mymod/lang/en_us.json";
    NotContainsByChar(q, "/assets/", 5);
    assert q[0] != "assets/"[0];
    assert q[|q| - 16..] == "/lang/en_us.json";
    TopLevelEntrySkipped(q);
  }

  // ---------- jobs ----------

  /** A translation the build performs: a file on disk or an entry of a jar, and where its translation goes. */
  datatype Job = FileJob(src: string, dst: string) | JarJob(jar: string, entry: string, dst: string)

  /** Which walk: one of the three `_scan_*_in_assets` helpers, or the loop over `kubejs/assets`. */
  datatype Scan = PatchouliScan | TipsScan | LangScan | KubeLangScan

  /**
   * The job for file `fname` of a visited directory, or None when the scan
   * skips it. The tips and KubeJS lang tests are those `f` selects.
   */
  function FileJobFor(scan: Scan, v: Visit, fname: string, outRoot: string, lang: string, f: Filters): Option<Job> {
    var rn := Norm(v.root);
    var src := PathJoin(v.root, fname);
    var rel := Norm(PathJoin(v.rel, fname));
    match scan
    case PatchouliScan =>
      if PatchouliRoot(rn) && EndsWith(fname, ".json") then Some(FileJob(src, PatchouliDestination(outRoot, rel, lang)))
      else None
    case TipsScan =>
      if TipsFilter(f, rn) && EndsWith(fname, ".json") then Some(FileJob(src, JoinAll(outRoot, ["assets", rel])))
      else None
    case LangScan =>
      if LangRoot(rn) && fname == "en_us.json" then
        Some(FileJob(src, LangDestination(outRoot, ModIdOf(Split(rn, '/'), "unknown_mod"), lang)))
      else None
    case KubeLangScan =>
      if fname == "en_us.json" && KubeLangFilter(f, rn) then
        Some(FileJob(src, LangDestination(outRoot, ModIdOf(Split(Norm(src), '/'), "kubejs"), lang)))
      else None
  }

  /** A lang job is made exactly for an `en_us.json` in a `lang` folder under `assets/`, and goes to that mod's lang folder. */
  lemma LangScanRule(v: Visit, fname: string, outRoot: string, lang: string, f: Filters)
    ensures FileJobFor(LangScan, v, fname, outRoot, lang, f).Some? <==>
      EndsWith(Norm(v.root), "/lang") && Contains(Norm(v.root), "assets/") && fname == "en_us.json"
    ensures FileJobFor(LangScan, v, fname, outRoot, lang, f).Some? ==>
      FileJobFor(LangScan, v, fname, outRoot, lang, f).value.dst ==
        LangDestination(outRoot, ModIdOf(Split(Norm(v.root), '/'), "unknown_mod"), lang)
  {
  }

  /** A `.json` file directly in a mod's `tips` folder: no job as written, a job once corrected. */
  lemma TipsFileJobs(v: Visit, fname: string, outRoot: string, lang: string, prefix: string)
    requires Norm(v.root) == prefix + "/tips" && !Contains(prefix, "/tips/") && !EndsWith(prefix, "/tips")
    requires EndsWith(fname, ".json")
    ensures FileJobFor(TipsScan, v, fname, outRoot, lang, AsWritten).None?
    ensures FileJobFor(TipsScan, v, fname, outRoot, lang, Corrected).Some?
  {
    TipsFolderSkipped(prefix);
  }

  /** An `en_us.json` directly in a KubeJS `lang` folder: no job as written, a job once corrected. */
  lemma KubeLangFileJobs(v: Visit, outRoot: string, lang: string, prefix: string)
    requires Norm(v.root) == prefix + "/lang" && !Contains(prefix, "/lang/") && !EndsWith(prefix, "/lang")
    ensures FileJobFor(KubeLangScan, v, "en_us.json", outRoot, lang, AsWritten).None?
    ensures FileJobFor(KubeLangScan, v, "en_us.json", outRoot, lang, Corrected).Some?
  {
    KubeLangFolderSkipped(prefix);
  }

  /** A scan's test as a value: the job for a file of a visited directory, or None. */
  function ScanTest(scan: Scan, outRoot: string, lang: string, f: Filters): (Visit, string) -> Option<Job> {
    (v: Visit, fname: string) => FileJobFor(scan, v, fname, outRoot, lang, f)
  }

  function AsSeq(o: Option<Job>): seq<Job> {
    if o.Some? then [o.value] else []
  }

  /** The jobs `test` makes for the first `n` files of a visited directory, in listing order. */
  function DirJobs(test: (Visit, string) -> Option<Job>, v: Visit, n: nat): (js: seq<Job>)
    requires n <= |v.files|
    ensures |js| <= n
  {
    if n == 0 then []
    else DirJobs(test, v, n - 1) + AsSeq(test(v, v.files[n - 1]))
  }

  /** A directory's jobs are exactly the jobs of the files the test accepts. */
  lemma {:induction false} DirJobsExact(test: (Visit, string) -> Option<Job>, v: Visit, n: nat)
    requires n <= |v.files|
    ensures forall j :: j in DirJobs(test, v, n) ==> exists k :: 0 <= k < n && test(v, v.files[k]) == Some(j)
    ensures forall k :: 0 <= k < n && test(v, v.files[k]).Some? ==> test(v, v.files[k]).value in DirJobs(test, v, n)
  {
    if n > 0 {
      DirJobsExact(test, v, n - 1);
    }
  }

  /** The jobs `test` makes for a sequence of visited directories. */
  function WalkJobs(test: (Visit, string) -> Option<Job>, vs: seq<Visit>): seq<Job> {
    if vs == [] then []
    else
      var last := vs[|vs| - 1];
      WalkJobs(test, vs[..|vs| - 1]) + DirJobs(test, last, |last.files|)
  }

  /** Every job of the walk belongs to some file of some visited directory that the test accepts. */
  lemma {:induction false} WalkJobsSound(test: (Visit, string) -> Option<Job>, vs: seq<Visit>)
    ensures forall j :: j in WalkJobs(test, vs) ==>
      exists i, k :: (0 <= i < |vs| && 0 <= k < |vs[i].files| && test(vs[i], vs[i].files[k]) == Some(j))
  {
    if vs != [] {
      var front := vs[..|vs| - 1];
      var last := vs[|vs| - 1];
      WalkJobsSound(test, front);
      DirJobsExact(test, last, |last.files|);
      forall j | j in WalkJobs(test, vs)
        ensures exists i, k :: (0 <= i < |vs| && 0 <= k < |vs[i].files| && test(vs[i], vs[i].files[k]) == Some(j))
      {
        if j in WalkJobs(test, front) {
          var i, k :| 0 <= i < |front| && 0 <= k < |front[i].files| && test(front[i], front[i].files[k]) == Some(j);
          assert vs[i] == front[i];
        } else {
          var k :| 0 <= k < |last.files| && test(last, last.files[k]) == Some(j);
          assert vs[|vs| - 1] == last;
        }
      }
    }
  }

  /** Every file of every visit that the test accepts has its job in the walk's jobs. */
  lemma {:induction false} WalkJobsComplete(test: (Visit, string) -> Option<Job>, vs: seq<Visit>, i: nat, k: nat)
    requires i < |vs| && k < |vs[i].files| && test(vs[i], vs[i].files[k]).Some?
    ensures test(vs[i], vs[i].files[k]).value in WalkJobs(test, vs)
  {
    var front := vs[..|vs| - 1];
    var last := vs[|vs| - 1];
    assert WalkJobs(test, vs) == WalkJobs(test, front) + DirJobs(test, last, |last.files|);
    if i < |vs| - 1 {
      assert front[i] == vs[i];
      WalkJobsComplete(test, front, i, k);
    } else {
      DirJobsExact(test, last, |last.files|);
    }
  }

  /** The loop over the files of one visited directory. */
  method ScanDirectory(test: (Visit, string) -> Option<Job>, v: Visit) returns (jobs: seq<Job>)
    ensures jobs == DirJobs(test, v, |v.files|)
  {
    jobs := [];
    for n := 0 to |v.files|
      invariant jobs == DirJobs(test, v, n)
    {
      var job := test(v, v.files[n]);
      if job.Some? {
        jobs := jobs + [job.value];
      }
    }
  }

  /** The loop over the visited directories of a walk. */
  method ScanVisits(test: (Visit, string) -> Option<Job>, visits: seq<Visit>, processed: nat)
    returns (count: nat, jobs: seq<Job>)
    ensures jobs == WalkJobs(test, visits)
    ensures count == processed + |jobs|
  {
    count, jobs := processed, [];
    for i := 0 to |visits|
      invariant jobs == WalkJobs(test, visits[..i])
      invariant count == processed + |jobs|
    {
      assert visits[..i + 1][..i] == visits[..i];
      var found := ScanDirectory(test, visits[i]);
      jobs := jobs + found;
      count := count + |found|;
    }
    assert visits[..|visits|] == visits;
  }

  /**
   * A `_scan_*` helper (or the `kubejs/assets` loop), with the scan's test:
   * `processed` comes back unchanged when the folder is missing, otherwise
   * one higher per file translated.
   */
  method ScanFolder(test: (Visit, string) -> Option<Job>, folder: Option<Dir>, path: string, processed: nat)
    returns (count: nat, jobs: seq<Job>)
    ensures folder.None? ==> count == processed && jobs == []
    ensures folder.Some? ==> jobs == WalkJobs(test, Walk(path, "", folder.value))
    ensures count == processed + |jobs|
  {
    count, jobs := processed, [];
    if folder.Some? {
      count, jobs := ScanVisits(test, Walk(path, "", folder.value), processed);
    }
  }

  // ---------- one `assets` folder ----------

  /** The three helpers run on one `assets` folder: Patchouli, then tips, then lang. */
  function AssetsJobs(folder: Option<Dir>, path: string, outRoot: string, lang: string, f: Filters): seq<Job> {
    if folder.None? then []
    else
      var vs := Walk(path, "", folder.value);
      WalkJobs(ScanTest(PatchouliScan, outRoot, lang, f), vs) + WalkJobs(ScanTest(TipsScan, outRoot, lang, f), vs) +
      WalkJobs(ScanTest(LangScan, outRoot, lang, f), vs)
  }

  method ScanAssets(folder: Option<Dir>, path: string, outRoot: string, lang: string, processed: nat, f: Filters)
    returns (count: nat, jobs: seq<Job>)
    ensures jobs == AssetsJobs(folder, path, outRoot, lang, f)
    ensures count == processed + |jobs|
  {
    var c1, j1 := ScanFolder(ScanTest(PatchouliScan, outRoot, lang, f), folder, path, processed);
    var c2, j2 := ScanFolder(ScanTest(TipsScan, outRoot, lang, f), folder, path, c1);
    var c3, j3 := ScanFolder(ScanTest(LangScan, outRoot, lang, f), folder, path, c2);
    count, jobs := c3, j1 + j2 + j3;
  }

  /** The folders named `assets` that the walk of `config/openloader/resources` meets, in walk order. */
  function AssetsFolders(path: string, d: Dir): seq<(string, Dir)>
    decreases d
  {
    (if BaseName(path) == "assets" then [(path, d)] else []) +
    Flatten(seq(|d.subdirs|, i requires 0 <= i < |d.subdirs| =>
      AssetsFolders(PathJoin(path, d.subdirs[i].name), d.subdirs[i])))
  }

  function FoldersJobs(folders: seq<(string, Dir)>, outRoot: string, lang: string, f: Filters): seq<Job> {
    if folders == [] then []
    else
      var last := folders[|folders| - 1];
      FoldersJobs(folders[..|folders| - 1], outRoot, lang, f) + AssetsJobs(Some(last.1), last.0, outRoot, lang, f)
  }

  /** The three helpers run on each folder of `folders` in turn. */
  method ScanFolders(folders: seq<(string, Dir)>, outRoot: string, lang: string, processed: nat, f: Filters)
    returns (count: nat, jobs: seq<Job>)
    ensures jobs == FoldersJobs(folders, outRoot, lang, f)
    ensures count == processed + |jobs|
  {
    count, jobs := processed, [];
    for i := 0 to |folders|
      invariant jobs == FoldersJobs(folders[..i], outRoot, lang, f)
      invariant count == processed + |jobs|
    {
      assert folders[..i + 1][..i] == folders[..i];
      var (p, d) := folders[i];
      var found;
      count, found := ScanAssets(Some(d), p, outRoot, lang, count, f);
      jobs := jobs + found;
    }
    assert folders[..|folders|] == folders;
  }

  /** Lines 155-161: every `assets` folder under the OpenLoader resources gets the three helpers. */
  method ScanOpenLoader(root: Option<Dir>, path: string, outRoot: string, lang: string, processed: nat, f: Filters)
    returns (count: nat, jobs: seq<Job>)
    ensures root.None? ==> jobs == []
    ensures root.Some? ==> jobs == FoldersJobs(AssetsFolders(path, root.value), outRoot, lang, f)
    ensures count == processed + |jobs|
  {
    count, jobs := processed, [];
    if root.Some? {
      count, jobs := ScanFolders(AssetsFolders(path, root.value), outRoot, lang, processed, f);
    }
  }

  // ---------- mod jars ----------

  /** Line 106: a jar by its name, in any letter case. */
  predicate IsJarName(name: string) {
    EndsWith(Lower(name), ".jar")
  }

  /**
   * The job for entry `n` of jar `jar`, or None: the entry is not a lang
   * file (by the test `f` selects) or its JSON cannot be read.
   */
  function EntryJob(jar: string, n: string, read: string -> Option<Json>, outRoot: string, lang: string, f: Filters): Option<Job> {
    var p := Norm(n);
    if JarEntryFilter(f, p) && read(p).Some? then
      Some(JarJob(jar, p, LangDestination(outRoot, ModIdOf(Split(p, '/'), "unknown_mod"), lang)))
    else None
  }

  /** An entry makes a job exactly when it is a lang file and its JSON can be read; the modid is the segment after `assets`. */
  lemma EntryJobRule(jar: string, n: string, read: string -> Option<Json>, outRoot: string, lang: string, f: Filters)
    ensures EntryJob(jar, n, read, outRoot, lang, f).Some? <==> JarEntryFilter(f, Norm(n)) && read(Norm(n)).Some?
    ensures EntryJob(jar, n, read, outRoot, lang, f).Some? ==>
      var p := Norm(n);
      EntryJob(jar, n, read, outRoot, lang, f).value == JarJob(jar, p, LangDestination(outRoot, ModIdOf(Split(p, '/'), "unknown_mod"), lang))
  {
  }

  /** A readable top-level `assets/<modid>/lang/en_us.json` entry: no job as written, a job once corrected. */
  lemma TopLevelEntryJobs(jar: string, q: string, read: string -> Option<Json>, outRoot: string, lang: string)
    requires !Contains(q, "/assets/") && !StartsWith(q, "assets/") && EndsWith(q, "/lang/en_us.json")
    requires Norm("assets/" + q) == "assets/" + q && read("assets/" + q).Some?
    ensures EntryJob(jar, "assets/" + q, read, outRoot, lang, AsWritten).None?
    ensures EntryJob(jar, "assets/" + q, read, outRoot, lang, Corrected).Some?
  {
    TopLevelEntrySkipped(q);
  }

  /** The entry test of one jar as a value. */
  function EntryTest(jar: string, read: string -> Option<Json>, outRoot: string, lang: string, f: Filters): string -> Option<Job> {
    (n: string) => EntryJob(jar, n, read, outRoot, lang, f)
  }

  /** The jobs `test` makes for a jar's entry names, in listing order. */
  function EntriesJobs(test: string -> Option<Job>, ns: seq<string>): (js: seq<Job>)
    ensures |js| <= |ns|
  {
    if ns == [] then []
    else EntriesJobs(test, ns[..|ns| - 1]) + AsSeq(test(ns[|ns| - 1]))
  }

  /** The jobs of one jar: none for a bad zip. */
  function JarJobs(name: string, jar: JarLang.Jar, read: string -> Option<Json>, outRoot: string, lang: string, f: Filters): seq<Job> {
    match jar
    case BadZip => []
    case Zip(ns) => EntriesJobs(EntryTest(name, read, outRoot, lang, f), ns)
  }

  function ModsJobs(names: seq<string>, jars: string -> JarLang.Jar, read: string -> string -> Option<Json>,
                    outRoot: string, lang: string, f: Filters): seq<Job>
  {
    if names == [] then []
    else
      var last := names[|names| - 1];
      ModsJobs(names[..|names| - 1], jars, read, outRoot, lang, f) +
      (if IsJarName(last) then JarJobs(last, jars(last), read(last), outRoot, lang, f) else [])
  }

  /** A listed name that does not end in `.jar` (in any letter case) adds no job. */
  lemma NonJarIgnored(names: seq<string>, x: string, jars: string -> JarLang.Jar, read: string -> string -> Option<Json>,
                      outRoot: string, lang: string, f: Filters)
    requires !IsJarName(x)
    ensures ModsJobs(names + [x], jars, read, outRoot, lang, f) == ModsJobs(names, jars, read, outRoot, lang, f)
  {
    assert (names + [x])[..|names|] == names;
  }

  /** A bad zip adds no job, whatever its name. */
  lemma BadZipIgnored(names: seq<string>, x: string, jars: string -> JarLang.Jar, read: string -> string -> Option<Json>,
                      outRoot: string, lang: string, f: Filters)
    requires jars(x).BadZip?
    ensures ModsJobs(names + [x], jars, read, outRoot, lang, f) == ModsJobs(names, jars, read, outRoot, lang, f)
  {
    assert (names + [x])[..|names|] == names;
  }

  /** The loop over the entry names of one jar. */
  method ScanEntries(test: string -> Option<Job>, ns: seq<string>) returns (jobs: seq<Job>)
    ensures jobs == EntriesJobs(test, ns)
  {
    jobs := [];
    for k := 0 to |ns|
      invariant jobs == EntriesJobs(test, ns[..k])
    {
      assert ns[..k + 1][..k] == ns[..k];
      var job := test(ns[k]);
      if job.Some? {
        jobs := jobs + [job.value];
      }
    }
    assert ns[..|ns|] == ns;
  }

  /** Lines 108-128 for one jar: nothing from a bad zip, else the job of every entry that passes. */
  method ScanJarEntries(name: string, jar: JarLang.Jar, read: string -> Option<Json>, outRoot: string, lang: string, f: Filters)
    returns (jobs: seq<Job>)
    ensures jobs == JarJobs(name, jar, read, outRoot, lang, f)
  {
    jobs := [];
    if jar.Zip? {
      jobs := ScanEntries(EntryTest(name, read, outRoot, lang, f), jar.names);
    }
  }

  /** Lines 103-128: the lang files of every jar in `mods/`. */
  method ScanModJars(mods: Option<seq<string>>, jars: string -> JarLang.Jar, read: string -> string -> Option<Json>,
                     outRoot: string, lang: string, processed: nat, f: Filters)
    returns (count: nat, jobs: seq<Job>)
    ensures mods.None? ==> jobs == []
    ensures mods.Some? ==> jobs == ModsJobs(mods.value, jars, read, outRoot, lang, f)
    ensures count == processed + |jobs|
  {
    count, jobs := processed, [];
    if mods.None? {
      return;
    }
    var names := mods.value;
    for i := 0 to |names|
      invariant jobs == ModsJobs(names[..i], jars, read, outRoot, lang, f)
      invariant count == processed + |jobs|
    {
      assert names[..i + 1][..i] == names[..i];
      var name := names[i];
      if !IsJarName(name) {
        continue;
      }
      var found := ScanJarEntries(name, jars(name), read(name), outRoot, lang, f);
      jobs := jobs + found;
      count := count + |found|;
    }
    assert names[..|names|] == names;
  }

  // ---------- the build ----------

  /**
   * The modpack as the build sees it: its root, the `mods` listing, the jars
   * and their readable entries, and the four folder trees (None where
   * missing).
   */
  datatype Pack = Pack(base: string, mods: Option<seq<string>>, jars: string -> JarLang.Jar,
                       read: string -> string -> Option<Json>, kubeAssets: Option<Dir>, assets: Option<Dir>,
                       openLoader: Option<Dir>, overrideAssets: Option<Dir>)

  function PackJobs(pack: Pack, outRoot: string, lang: string, f: Filters): seq<Job> {
    (if pack.mods.None? then [] else ModsJobs(pack.mods.value, pack.jars, pack.read, outRoot, lang, f))
    + (if pack.kubeAssets.None? then []
       else WalkJobs(ScanTest(KubeLangScan, outRoot, lang, f), Walk(JoinAll(pack.base, ["kubejs", "assets"]), "", pack.kubeAssets.value)))
    + AssetsJobs(pack.assets, PathJoin(pack.base, "assets"), outRoot, lang, f)
    + (if pack.openLoader.None? then []
       else FoldersJobs(AssetsFolders(JoinAll(pack.base, ["config", "openloader", "resources"]), pack.openLoader.value), outRoot, lang, f))
    + AssetsJobs(pack.overrideAssets, JoinAll(pack.base, ["overrides", "kubejs", "assets"]), outRoot, lang, f)
  }

  /** `build_resource_pack`: `processed` counts exactly the translations made, in the order the sources are visited. */
  method BuildResourcePack(pack: Pack, outRoot: string, lang: string, f: Filters) returns (processed: nat, jobs: seq<Job>)
    ensures jobs == PackJobs(pack, outRoot, lang, f)
    ensures processed == |jobs|
  {
    var c1, j1 := ScanModJars(pack.mods, pack.jars, pack.read, outRoot, lang, 0, f);
    var c2, j2 := ScanFolder(ScanTest(KubeLangScan, outRoot, lang, f), pack.kubeAssets, JoinAll(pack.base, ["kubejs", "assets"]), c1);
    var c3, j3 := ScanAssets(pack.assets, PathJoin(pack.base, "assets"), outRoot, lang, c2, f);
    var c4, j4 := ScanOpenLoader(pack.openLoader, JoinAll(pack.base, ["config", "openloader", "resources"]), outRoot, lang, c3, f);
    var c5, j5 := ScanAssets(pack.overrideAssets, JoinAll(pack.base, ["overrides", "kubejs", "assets"]), outRoot, lang, c4, f);
    assert c5 == |j1| + |j2| + |j3| + |j4| + |j5|;
    processed, jobs := c5, j1 + j2 + j3 + j4 + j5;
  }
}
