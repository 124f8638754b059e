/**
 The incremental asset build (frameos/tools/prepare_assets.py:136-422): what was fed to the last
 build is hashed into a manifest, and a build step is skipped while its hash and its outputs are
 still there. The question is when skipping gives what a build from scratch would give.

 A hash is identified with the list of items fed to the digest. Paths are relative to the project
 root; a file has nothing below it.
 */
module AssetBuild {
  import opened Options
  import opened PyText

  /** File contents by path. */
  type Files = map<string, string>

  datatype Tree = Tree(files: Files, folders: set<string>)

  const MANIFEST_VERSION := 1

  const WEB_DIR := "assets/compiled/frame_web"

  const FONT := "assets/compiled/fonts/Ubuntu-Regular.ttf"

  const SCENES_DIR := "../repo/scenes"

  const PAGES_DIR := "assets/compiled/web"

  const FRONTEND_OUTPUTS := [
    "assets/compiled/frame_web/index.html", "assets/compiled/frame_web/static/main.js",
    "assets/compiled/frame_web/static/main.css"]

  const MODULE_OUTPUTS := [
    "src/assets/apps.nim", "src/assets/web.nim", "src/assets/frame_web.nim", "src/assets/fonts.nim",
    "src/assets/repo_scenes.nim"]

  const MODULE_SOURCE_FILES := [
    "assets/compiled/web/control.html", FONT, SCENES_DIR,
    "tools/generate_apps_asset_nim.py", "tools/generate_compressed_asset_nim.py", "tools/prepare_assets.py"]

  const FRONTEND_SRC := "../frontend/src"

  const FRONTEND_REQUIRED := [
    "frontend/build.mjs", "frontend/package.json", "frontend/postcss.config.js", "frontend/src",
    "frontend/tailwind.config.js", "frontend/tsconfig.dev.json", "frontend/tsconfig.json",
    "../frontend/package.json", "../frontend/public", "../frontend/schema",
    "../frontend/scripts/generateRepoApps.mjs", FRONTEND_SRC, "../package.json", "../pnpm-workspace.yaml",
    "../pnpm-lock.yaml", "../frontend/package.json", "../versions.json"]

  const FRONTEND_SOURCES := FRONTEND_REQUIRED + ["../repo/apps/code"]

  /** An input that the frontend build itself writes, before bundling. */
  const GENERATED := FRONTEND_SRC + "/generated/repoApps.ts"

  // ---- hashing ----------------------------------------------------------------------

  datatype Item = Missing(entry: string) | Empty(entry: string) | File(path: string, content: string)

  type Digest = seq<Item>

  predicate Inside(entry: string, path: string) {
    path == entry || entry + "/" <= path
  }

  predicate Covered(entries: seq<string>, path: string) {
    exists e | e in entries :: Inside(e, path)
  }

  /** The files of an entry, in a fixed order. */
  function EntryFiles(t: Tree, entry: string): (r: seq<string>)
    ensures forall p | p in r :: p in t.files
  {
    Sorted(set p | p in t.files && Inside(entry, p))
  }

  predicate Exists(t: Tree, entry: string) {
    entry in t.folders || EntryFiles(t, entry) != []
  }

  function FileItems(t: Tree, paths: seq<string>, seen: set<string>): Digest
    requires forall p | p in paths :: p in t.files
  {
    if paths == [] then [] else
      var p := paths[|paths| - 1];
      FileItems(t, paths[..|paths| - 1], seen) +
      if p in seen || p in paths[..|paths| - 1] then [] else [File(p, t.files[p])]
  }

  function Seen(t: Tree, entries: seq<string>): set<string> {
    set p | p in t.files && Covered(entries, p)
  }

  /** What the digest is fed: a file that several entries reach is fed once. */
  function Hash(t: Tree, entries: seq<string>): Digest {
    if entries == [] then [] else
      var before, e := entries[..|entries| - 1], entries[|entries| - 1];
      Hash(t, before) +
      if !Exists(t, e) then [Missing(e)]
      else if EntryFiles(t, e) == [] then [Empty(e)]
      else FileItems(t, EntryFiles(t, e), Seen(t, before))
  }

  lemma FileItemsStep(t: Tree, files: seq<string>, j: nat, seen: set<string>)
    requires j <= |files| && forall p | p in files :: p in t.files
    ensures FileItems(t, files[..0], seen) == []
    ensures j < |files| ==>
      FileItems(t, files[..j + 1], seen) ==
      FileItems(t, files[..j], seen) +
      if files[j] in seen || files[j] in files[..j] then [] else [File(files[j], t.files[files[j]])]
  {
    if j < |files| {
      assert files[..j + 1][..j] == files[..j];
    }
  }

  /** The inner loop of the walk. */
  method FeedFiles(t: Tree, files: seq<string>, seen: set<string>) returns (items: Digest, seen': set<string>)
    requires forall p | p in files :: p in t.files
    ensures items == FileItems(t, files, seen) && seen' == seen + set p | p in files
  {
    hide FileItems;
    items, seen' := [], seen;
    FileItemsStep(t, files, 0, seen);
    for j := 0 to |files|
      invariant forall p | p in files[..j] :: p in t.files
      invariant items == FileItems(t, files[..j], seen)
      invariant seen' == seen + set p | p in files[..j]
    {
      assert files[..j + 1] == files[..j] + [files[j]];
      FileItemsStep(t, files, j, seen);
      if files[j] !in seen' {
        seen' := seen' + {files[j]};
        items := items + [File(files[j], t.files[files[j]])];
      }
    }
    assert files[..|files|] == files;
  }

  method HashInputs(t: Tree, entries: seq<string>) returns (digest: Digest)
    ensures digest == Hash(t, entries)
  {
    assert Seen(t, []) == {};
    hide Covered, Inside, Seen, EntryFiles, Sorted;
    digest := [];
    var seen := {};
    for i := 0 to |entries|
      invariant digest == Hash(t, entries[..i]) && seen == Seen(t, entries[..i])
    {
      var e := entries[i];
      SeenStep(t, entries, i);
      assert entries[..i + 1][..i] == entries[..i];
      var files := EntryFiles(t, e);
      if !Exists(t, e) {
        digest := digest + [Missing(e)];
      } else if files == [] {
        digest := digest + [Empty(e)];
      } else {
        var items;
        items, seen := FeedFiles(t, files, seen);
        digest := digest + items;
      }
    }
    assert entries[..|entries|] == entries;
  }

  lemma SeenStep(t: Tree, entries: seq<string>, i: nat)
    requires i < |entries|
    ensures Seen(t, entries[..i + 1]) == Seen(t, entries[..i]) + set p | p in EntryFiles(t, entries[i])
  {
    forall p | p in t.files
      ensures Covered(entries[..i + 1], p) <==> Covered(entries[..i], p) || Inside(entries[i], p)
    {
      assert entries[..i + 1] == entries[..i] + [entries[i]];
    }
  }

  lemma {:induction false} FileItemsHold(t: Tree, paths: seq<string>, seen: set<string>, item: Item)
    requires forall p | p in paths :: p in t.files
    ensures item in FileItems(t, paths, seen) <==>
            item.File? && item.path in paths && item.path !in seen && item.content == t.files[item.path]
  {
    if paths != [] {
      var before, p := paths[..|paths| - 1], paths[|paths| - 1];
      assert forall q :: q in paths <==> q in before || q == p by {
        assert paths == before + [p];
      }
      FileItemsHold(t, before, seen, item);
      var rest := FileItems(t, before, seen);
      if p in seen || p in before {
        assert FileItems(t, paths, seen) == rest;
      } else {
        assert FileItems(t, paths, seen) == rest + [File(p, t.files[p])];
      }
    }
  }

  /** What a digest says about the tree, item by item. */
  ghost predicate Says(t: Tree, entries: seq<string>, item: Item) {
    match item
    case Missing(e) => e in entries && !Exists(t, e)
    case Empty(e) => e in entries && Exists(t, e) && EntryFiles(t, e) == []
    case File(p, c) => Covered(entries, p) && p in t.files && t.files[p] == c
  }

  lemma {:induction false} HashSays(t: Tree, entries: seq<string>, item: Item)
    ensures item in Hash(t, entries) <==> Says(t, entries, item)
  {
    if entries != [] {
      var n := |entries| - 1;
      HashSays(t, entries[..n], item);
      SeenStep(t, entries, n);
      assert entries[..n + 1] == entries == entries[..n] + [entries[n]];
      FileItemsHold(t, EntryFiles(t, entries[n]), Seen(t, entries[..n]), item);
      if item.File? && item.path in t.files {
        assert item.path in Seen(t, entries) <==> Covered(entries, item.path);
        assert item.path in Seen(t, entries[..n]) <==> Covered(entries[..n], item.path);
      }
    }
  }

  /** The trees are the same as far as the entries reach. */
  ghost predicate Agree(t: Tree, u: Tree, entries: seq<string>) {
    (forall e | e in entries :: Exists(t, e) == Exists(u, e)) &&
    (forall p | Covered(entries, p) ::
       (p in t.files <==> p in u.files) && (p in t.files ==> t.files[p] == u.files[p]))
  }

  /** Two trees hash alike exactly if they agree on everything the entries reach. */
  lemma HashIsExact(t: Tree, u: Tree, entries: seq<string>)
    ensures Hash(t, entries) == Hash(u, entries) <==> Agree(t, u, entries)
  {
    if Agree(t, u, entries) {
      AgreeingHash(t, u, entries);
    }
    if Hash(t, entries) == Hash(u, entries) {
      forall e | e in entries ensures Exists(t, e) == Exists(u, e) {
        HashSays(t, entries, Missing(e));
        HashSays(u, entries, Missing(e));
      }
      forall p | Covered(entries, p)
        ensures p in t.files ==> p in u.files && t.files[p] == u.files[p]
        ensures p in u.files ==> p in t.files
      {
        if p in t.files {
          HashSays(t, entries, File(p, t.files[p]));
          HashSays(u, entries, File(p, t.files[p]));
        }
        if p in u.files {
          HashSays(t, entries, File(p, u.files[p]));
          HashSays(u, entries, File(p, u.files[p]));
        }
      }
    }
  }

  lemma {:induction false} AgreeingHash(t: Tree, u: Tree, entries: seq<string>)
    requires Agree(t, u, entries)
    ensures Hash(t, entries) == Hash(u, entries)
  {
    if entries != [] {
      hide Inside, Sorted, FileItems;
      var n := |entries| - 1;
      var e, before := entries[n], entries[..n];
      assert forall p | Covered(before, p) :: Covered(entries, p);
      AgreeingHash(t, u, before);
      assert e in entries;
      assert forall p | Inside(e, p) :: Covered(entries, p);
      assert (set p | p in t.files && Inside(e, p)) == (set p | p in u.files && Inside(e, p));
      assert Seen(t, before) == Seen(u, before);
      AgreeingItems(t, u, EntryFiles(t, e), Seen(t, before));
    }
  }

  lemma {:induction false} AgreeingItems(t: Tree, u: Tree, paths: seq<string>, seen: set<string>)
    requires forall p | p in paths :: p in t.files && p in u.files && t.files[p] == u.files[p]
    ensures FileItems(t, paths, seen) == FileItems(u, paths, seen)
  {
    if paths != [] {
      AgreeingItems(t, u, paths[..|paths| - 1], seen);
    }
  }

  /** The files that were fed into a digest, read back from it. */
  function ViewOf(d: Digest): Files {
    if d == [] then map[] else
      var item := d[|d| - 1];
      if item.File? then ViewOf(d[..|d| - 1])[item.path := item.content] else ViewOf(d[..|d| - 1])
  }

  function View(t: Tree, entries: seq<string>): Files {
    map p | p in t.files && Covered(entries, p) :: t.files[p]
  }

  lemma {:induction false} ViewOfHolds(d: Digest, files: Files)
    requires forall item | item in d && item.File? :: item.path in files && files[item.path] == item.content
    ensures ViewOf(d) == map p | p in files && File(p, files[p]) in d :: files[p]
  {
    if d != [] {
      assert d == d[..|d| - 1] + [d[|d| - 1]];
      ViewOfHolds(d[..|d| - 1], files);
    }
  }

  /** A digest determines all the files its entries reach. */
  lemma HashHoldsTheView(t: Tree, entries: seq<string>)
    ensures ViewOf(Hash(t, entries)) == View(t, entries)
  {
    forall item ensures item in Hash(t, entries) <==> Says(t, entries, item) {
      HashSays(t, entries, item);
    }
    ViewOfHolds(Hash(t, entries), t.files);
  }

  // ---- the build --------------------------------------------------------------------

  datatype Manifest = Manifest(frontendHash: Digest, modulesHash: Digest)

  datatype ManifestFile =
    | NoFile
    | NotJson
    | Stored(version: Option<int>, frontendHash: Option<Digest>, modulesHash: Option<Digest>)

  function LoadManifest(f: ManifestFile): Option<Manifest> {
    match f
    case NoFile => None
    case NotJson => None
    case Stored(version, frontendHash, modulesHash) =>
      if version != Some(MANIFEST_VERSION) || frontendHash.None? || modulesHash.None? then None
      else Some(Manifest(frontendHash.value, modulesHash.value))
  }

  /** `web` is everything under WEB_DIR, `modules` the generated Nim modules; `sources` all else. */
  datatype Disk = Disk(sources: Tree, web: Files, modules: Files, manifest: ManifestFile)

  datatype Error = MissingInputs(entries: seq<string>) | NoFrontend | NoModules

  datatype Outcome = Prepared(rebuiltFrontend: bool, regeneratedModules: bool) | Failed(error: Error)

  /**
   The programs that are run, as functions of the files they read: the source generator that the
   frontend build starts with, the bundler, and the module generators. The generators also get the
   pages that are not hashed.
   */
  datatype Tools = Tools(repoApps: Files -> string, bundle: Files -> Files, modules: (Files, Files) -> Files)

  function MissingEntries(t: Tree, entries: seq<string>): (r: seq<string>)
    ensures forall e :: e in r <==> e in entries && !Exists(t, e)
    ensures r == [] <==> forall e | e in entries :: Exists(t, e)
  {
    if entries == [] then [] else
      (if Exists(t, entries[0]) then [] else [entries[0]]) + MissingEntries(t, entries[1..])
  }

  predicate AllThere(outputs: seq<string>, files: Files) {
    forall p | p in outputs :: p in files
  }

  predicate IsAppConfig(path: string) {
    "src/apps/" <= path && |path| >= 12 && path[|path| - 12..] == "/config.json"
  }

  function ModuleEntries(t: Tree): seq<string> {
    MODULE_SOURCE_FILES + [WEB_DIR] + Sorted(set p | p in t.files && IsAppConfig(p))
  }

  /** What the module hash and the generators look at: sources and compiled frontend together. */
  function ModuleTree(d: Disk): Tree {
    Tree(d.sources.files + d.web, d.sources.folders)
  }

  function ModuleHash(d: Disk): Digest {
    Hash(ModuleTree(d), ModuleEntries(ModuleTree(d)))
  }

  function ModuleView(d: Disk): Files {
    View(ModuleTree(d), ModuleEntries(ModuleTree(d)))
  }

  /** Files that go into the web module without being hashed: only control.html is listed. */
  function Pages(t: Tree): Files {
    map p | p in t.files && Inside(PAGES_DIR, p) && !Covered(MODULE_SOURCE_FILES, p) :: t.files[p]
  }

  /** The frontend build: generate one of the inputs, clear the output directory, bundle. */
  function BuildFrontend(d: Disk, tools: Tools): Disk {
    var text := tools.repoApps(View(d.sources, FRONTEND_SOURCES) - {GENERATED});
    var sources := d.sources.(files := d.sources.files[GENERATED := text]);
    d.(sources := sources, web := tools.bundle(View(sources, FRONTEND_SOURCES)))
  }

  predicate FrontendUpToDate(d: Disk) {
    AllThere(FRONTEND_OUTPUTS, d.web) && LoadManifest(d.manifest).Some? &&
    LoadManifest(d.manifest).value.frontendHash == Hash(d.sources, FRONTEND_SOURCES)
  }

  datatype Stage = Ready(disk: Disk, frontendHash: Digest, rebuilt: bool) | Stopped(disk: Disk, error: Error)

  function FrontendStage(d: Disk, tools: Tools): Stage {
    var missing := MissingEntries(d.sources, FRONTEND_REQUIRED);
    if missing != [] then
      if !AllThere(FRONTEND_OUTPUTS, d.web) || LoadManifest(d.manifest).None? then Stopped(d, MissingInputs(missing))
      else Ready(d, LoadManifest(d.manifest).value.frontendHash, false)
    else if FrontendUpToDate(d) then Ready(d, Hash(d.sources, FRONTEND_SOURCES), false)
    else
      var built := BuildFrontend(d, tools);
      if !AllThere(FRONTEND_OUTPUTS, built.web) then Stopped(built, NoFrontend)
      else Ready(built, Hash(built.sources, FRONTEND_SOURCES), true)
  }

  predicate ModulesUpToDate(d: Disk) {
    AllThere(MODULE_OUTPUTS, d.modules) && LoadManifest(d.manifest).Some? &&
    LoadManifest(d.manifest).value.modulesHash == ModuleHash(d)
  }

  /** Each generator writes the one file it is told to. */
  function Listed(files: Files): Files {
    map p | p in files && p in MODULE_OUTPUTS :: files[p]
  }

  function Generate(d: Disk, tools: Tools): Disk {
    d.(modules := Listed(tools.modules(ModuleView(d), Pages(d.sources))))
  }

  datatype Step = Step(disk: Disk, outcome: Outcome)

  function Prepare(d: Disk, tools: Tools): Step {
    Complete(FrontendStage(d, tools), tools)
  }

  /** The module step and the new manifest. */
  function Complete(stage: Stage, tools: Tools): Step {
    if stage.Stopped? then Step(stage.disk, Failed(stage.error)) else
      var regenerate := !ModulesUpToDate(stage.disk);
      var after := if regenerate then Generate(stage.disk, tools) else stage.disk;
      if regenerate && !AllThere(MODULE_OUTPUTS, after.modules) then Step(after, Failed(NoModules))
      else Step(after.(manifest :=
                  Stored(Some(MANIFEST_VERSION), Some(stage.frontendHash), Some(ModuleHash(stage.disk)))),
                Prepared(stage.rebuilt, regenerate))
  }

  class Checkout {
    var sources: Tree
    var web: Files
    var modules: Files
    var manifest: ManifestFile

    constructor (d: Disk)
      ensures Abstract() == d
    {
      sources, web, modules, manifest := d.sources, d.web, d.modules, d.manifest;
    }

    ghost function Abstract(): Disk
      reads this
    {
      Disk(sources, web, modules, manifest)
    }

    method Bundle(tools: Tools)
      modifies this
      ensures Abstract() == BuildFrontend(old(Abstract()), tools)
    {
      var text := tools.repoApps(View(sources, FRONTEND_SOURCES) - {GENERATED});
      sources := sources.(files := sources.files[GENERATED := text]);
      web := tools.bundle(View(sources, FRONTEND_SOURCES));
    }

    method PrepareAssets(tools: Tools) returns (outcome: Outcome)
      modifies this
      ensures Step(Abstract(), outcome) == Prepare(old(Abstract()), tools)
    {
      hide Hash, View, MissingEntries, AllThere, Pages, ModuleEntries;
      var loaded := LoadManifest(manifest);
      var missing := MissingEntries(sources, FRONTEND_REQUIRED);
      var frontendHash, rebuilt := [], false;
      if missing != [] {
        if !AllThere(FRONTEND_OUTPUTS, web) || loaded.None? {
          return Failed(MissingInputs(missing));
        }
        frontendHash := loaded.value.frontendHash;
      } else {
        frontendHash := HashInputs(sources, FRONTEND_SOURCES);
        rebuilt := !AllThere(FRONTEND_OUTPUTS, web) || loaded.None? || loaded.value.frontendHash != frontendHash;
        if rebuilt {
          Bundle(tools);
          if !AllThere(FRONTEND_OUTPUTS, web) {
            return Failed(NoFrontend);
          }
          frontendHash := HashInputs(sources, FRONTEND_SOURCES);
        }
      }
      var all := Tree(sources.files + web, sources.folders);
      var modulesHash := HashInputs(all, ModuleEntries(all));
      var regenerate := !AllThere(MODULE_OUTPUTS, modules) || loaded.None? || loaded.value.modulesHash != modulesHash;
      if regenerate {
        modules := Listed(tools.modules(View(all, ModuleEntries(all)), Pages(sources)));
        if !AllThere(MODULE_OUTPUTS, modules) {
          return Failed(NoModules);
        }
      }
      manifest := Stored(Some(MANIFEST_VERSION), Some(frontendHash), Some(modulesHash));
      return Prepared(rebuilt, regenerate);
    }
  }

  /** Everything the module generators read is hashed or is one of the unlisted pages. */
  lemma GeneratorInputsAreKnown(d: Disk, p: string)
    requires p in ModuleTree(d).files
    requires Inside(PAGES_DIR, p) || Inside(WEB_DIR, p) || Inside(SCENES_DIR, p) || IsAppConfig(p) ||
             p == FONT
    ensures p in ModuleView(d) || (p in Pages(ModuleTree(d)) && Inside(PAGES_DIR, p))
  {
    hide Inside, Covered, IsAppConfig;
    var t := ModuleTree(d);
    var entries := ModuleEntries(t);
    if Inside(PAGES_DIR, p) {
      if Covered(MODULE_SOURCE_FILES, p) {
        MoreCover(MODULE_SOURCE_FILES, entries, p);
      }
    } else if Inside(WEB_DIR, p) {
      assert entries[|MODULE_SOURCE_FILES|] == WEB_DIR;
      CoveredBy(entries, WEB_DIR, p);
    } else if Inside(SCENES_DIR, p) {
      assert entries[2] == MODULE_SOURCE_FILES[2] == SCENES_DIR;
      CoveredBy(entries, SCENES_DIR, p);
    } else if p == FONT {
      assert entries[1] == MODULE_SOURCE_FILES[1] == FONT;
      InsideItself(p);
      CoveredBy(entries, FONT, p);
    } else {
      assert p in Sorted(set q | q in t.files && IsAppConfig(q));
      InsideItself(p);
      CoveredBy(entries, p, p);
    }
  }

  lemma InsideItself(p: string)
    ensures Inside(p, p)
  {}

  lemma CoveredBy(entries: seq<string>, e: string, p: string)
    requires e in entries && Inside(e, p)
    ensures Covered(entries, p)
  {}

  lemma MoreCover(some: seq<string>, more: seq<string>, p: string)
    requires some <= more && Covered(some, p)
    ensures Covered(more, p)
  {}

  // ---- what each build does ----------------------------------------------------------

  /** A manifest counts exactly if it is of this version and has both hashes. */
  lemma ManifestCounts(f: ManifestFile)
    ensures LoadManifest(f).Some? <==> f.Stored? && f.version == Some(1) && f.frontendHash.Some? && f.modulesHash.Some?
    ensures LoadManifest(f).Some? ==>
              LoadManifest(f).value == Manifest(f.frontendHash.value, f.modulesHash.value)
  {}

  ghost predicate InputsMissing(d: Disk) {
    exists e | e in FRONTEND_REQUIRED :: !Exists(d.sources, e)
  }

  /** The compiled frontend came with the checkout, manifest included. */
  ghost predicate Packaged(d: Disk) {
    (forall p | p in FRONTEND_OUTPUTS :: p in d.web) && LoadManifest(d.manifest).Some?
  }

  lemma CompletedStage(stage: Stage, tools: Tools)
    ensures var (disk, outcome) := (Complete(stage, tools).disk, Complete(stage, tools).outcome);
            disk.web == stage.disk.web && disk.sources == stage.disk.sources &&
            (stage.Stopped? ==> disk == stage.disk && outcome == Failed(stage.error)) &&
            (stage.Ready? && outcome.Failed? ==> outcome.error.NoModules?) &&
            (outcome.Prepared? ==>
               stage.Ready? && outcome.rebuiltFrontend == stage.rebuilt && LoadManifest(disk.manifest).Some? &&
               LoadManifest(disk.manifest).value.frontendHash == stage.frontendHash)
  {
    hide Hash, View, Pages, ModuleEntries, ModuleTree, Listed, AllThere;
  }

  lemma PackagedStage(d: Disk, tools: Tools)
    requires InputsMissing(d)
    ensures FrontendStage(d, tools) ==
            if Packaged(d) then Ready(d, LoadManifest(d.manifest).value.frontendHash, false)
            else Stopped(d, MissingInputs(MissingEntries(d.sources, FRONTEND_REQUIRED)))
  {
    hide Hash, MissingEntries, BuildFrontend, Exists, LoadManifest;
  }

  /** The frontend step without its inputs: a packaged frontend does and is kept, and nothing else does. */
  lemma PackagedStepExactly(d: Disk, tools: Tools)
    requires InputsMissing(d)
    ensures var (disk, outcome) := (Prepare(d, tools).disk, Prepare(d, tools).outcome);
            (outcome.Failed? && outcome.error.MissingInputs? <==> !Packaged(d)) &&
            (!Packaged(d) ==>
               disk == d &&
               forall e :: e in outcome.error.entries <==> e in FRONTEND_REQUIRED && !Exists(d.sources, e)) &&
            (Packaged(d) ==> disk.web == d.web && disk.sources == d.sources) &&
            (outcome.Prepared? ==>
               !outcome.rebuiltFrontend &&
               LoadManifest(disk.manifest).value.frontendHash == LoadManifest(d.manifest).value.frontendHash)
  {
    hide Complete, FrontendStage, MissingEntries, Exists, Packaged, InputsMissing, LoadManifest;
    PackagedStage(d, tools);
    CompletedStage(FrontendStage(d, tools), tools);
  }

  /** The frontend step with its inputs: it is skipped exactly if the frontend is there and recorded
      under the hash of the inputs; else it is built, and the build fails if some of it is not there. */
  lemma FrontendStepExactly(d: Disk, tools: Tools)
    requires !InputsMissing(d)
    ensures var (disk, outcome) := (Prepare(d, tools).disk, Prepare(d, tools).outcome);
            var skipped := Packaged(d) &&
                           LoadManifest(d.manifest).value.frontendHash == Hash(d.sources, FRONTEND_SOURCES);
            !(outcome.Failed? && outcome.error.MissingInputs?) &&
            (outcome.Prepared? ==>
               outcome.rebuiltFrontend == !skipped &&
               LoadManifest(disk.manifest).value.frontendHash == Hash(disk.sources, FRONTEND_SOURCES)) &&
            (skipped ==> disk.web == d.web && disk.sources == d.sources) &&
            (!skipped ==>
               disk.web == BuildFrontend(d, tools).web && disk.sources == BuildFrontend(d, tools).sources) &&
            (outcome == Failed(NoFrontend) <==>
               !skipped && exists p | p in FRONTEND_OUTPUTS :: p !in BuildFrontend(d, tools).web)
  {
    hide Hash, View, Pages, ModuleEntries, BuildFrontend, Exists, Listed;
  }

  /** The module step is skipped exactly if the modules are there and recorded under the hash of what
      they are made from; else they are made anew, or the build fails with the old record. */
  lemma ModuleStepExactly(d: Disk, tools: Tools)
    requires !Prepare(d, tools).outcome.Failed? || Prepare(d, tools).outcome.error.NoModules?
    ensures var (disk, outcome) := (Prepare(d, tools).disk, Prepare(d, tools).outcome);
            var skipped := (forall p | p in MODULE_OUTPUTS :: p in d.modules) && LoadManifest(d.manifest).Some? &&
                           LoadManifest(d.manifest).value.modulesHash == ModuleHash(disk);
            var made := Listed(tools.modules(ModuleView(disk), Pages(disk.sources)));
            disk.modules == (if skipped then d.modules else made) &&
            (outcome == Failed(NoModules) <==> !skipped && exists p | p in MODULE_OUTPUTS :: p !in made) &&
            (outcome.Failed? ==> disk.manifest == d.manifest) &&
            (outcome.Prepared? ==>
               outcome.regeneratedModules == !skipped && LoadManifest(disk.manifest).Some? &&
               LoadManifest(disk.manifest).value.modulesHash == ModuleHash(disk))
  {
    hide Hash, View, Pages, ModuleEntries, BuildFrontend, Exists, Listed, MissingEntries;
    PagesOfStage(d, tools);
    var stage := FrontendStage(d, tools);
    if stage.Ready? {
      assert ModuleTree(Prepare(d, tools).disk) == ModuleTree(stage.disk);
    }
  }

  // ---- what a skipped step rests on -------------------------------------------------

  /** The compiled frontend is what the hashed inputs build to, and the generated input is in order. */
  ghost predicate BuiltFrom(web: Files, view: Files, tools: Tools) {
    web == tools.bundle(view) &&
    GENERATED in view && view[GENERATED] == tools.repoApps(view - {GENERATED})
  }

  /** What the last recorded builds made: the compiled frontend, the modules, and from which pages. */
  datatype Memory = Memory(bundled: Files, generated: Files, pages: Files)

  datatype World = World(disk: Disk, memory: Memory)

  /** The manifest's hashes lead to what the recorded builds made, and modules that are all there are
      those. */
  ghost predicate Trusted(w: World, tools: Tools) {
    (forall p | p in w.disk.modules :: p in MODULE_OUTPUTS) &&
    var loaded := LoadManifest(w.disk.manifest);
    loaded.Some? ==>
      AllThere(FRONTEND_OUTPUTS, w.memory.bundled) &&
      BuiltFrom(w.memory.bundled, ViewOf(loaded.value.frontendHash), tools) &&
      AllThere(MODULE_OUTPUTS, w.memory.generated) &&
      w.memory.generated == Listed(tools.modules(ViewOf(loaded.value.modulesHash), w.memory.pages)) &&
      (AllThere(MODULE_OUTPUTS, w.disk.modules) ==> w.disk.modules == w.memory.generated)
  }

  function Built(w: World, tools: Tools): World {
    var stage, step := FrontendStage(w.disk, tools), Prepare(w.disk, tools);
    World(step.disk,
          if step.outcome.Failed? then w.memory
          else Memory(if step.outcome.rebuiltFrontend then stage.disk.web else w.memory.bundled,
                      if step.outcome.regeneratedModules then step.disk.modules else w.memory.generated,
                      if step.outcome.regeneratedModules then Pages(step.disk.sources) else w.memory.pages))
  }

  lemma BuildIsFromView(d: Disk, tools: Tools)
    ensures var b := BuildFrontend(d, tools);
            BuiltFrom(b.web, View(b.sources, FRONTEND_SOURCES), tools) && Pages(b.sources) == Pages(d.sources) &&
            b.manifest == d.manifest && b.modules == d.modules
  {
    hide Covered, Inside;
    var b := BuildFrontend(d, tools);
    GeneratedIsAnInput();
    assert View(b.sources, FRONTEND_SOURCES) - {GENERATED} == View(d.sources, FRONTEND_SOURCES) - {GENERATED};
    assert Pages(b.sources) == Pages(d.sources);
  }

  lemma GeneratedIsAnInput()
    ensures Covered(FRONTEND_SOURCES, GENERATED) && !Inside(PAGES_DIR, GENERATED)
  {
    assert FRONTEND_SOURCES[11] == FRONTEND_SRC && FRONTEND_SRC + "/" <= GENERATED;
    CoveredBy(FRONTEND_SOURCES, FRONTEND_SRC, GENERATED);
    assert GENERATED[0] == '.' && PAGES_DIR[0] == 'a';
  }

  /** However preparing ends, also half-way, the manifest still leads to what is remembered. */
  lemma PrepareStaysTrusted(w: World, tools: Tools)
    requires Trusted(w, tools)
    ensures Trusted(Built(w, tools), tools)
  {
    hide BuildFrontend, Hash, View, Pages, ModuleEntries, MissingEntries, ViewOf, BuiltFrom, AllThere;
    BuildIsFromView(w.disk, tools);
    var stage := FrontendStage(w.disk, tools);
    HashHoldsTheView(stage.disk.sources, FRONTEND_SOURCES);
    HashHoldsTheView(ModuleTree(stage.disk), ModuleEntries(ModuleTree(stage.disk)));
  }

  /** A checkout with nothing compiled, generated or recorded. */
  function Scratch(sources: Tree): Disk {
    Disk(sources, map[], map[], NoFile)
  }

  lemma NothingIsThere()
    ensures !AllThere(FRONTEND_OUTPUTS, map[]) && !AllThere(MODULE_OUTPUTS, map[])
  {
    assert FRONTEND_OUTPUTS[0] in FRONTEND_OUTPUTS && MODULE_OUTPUTS[0] in MODULE_OUTPUTS;
  }

  /** Building the inputs that a frontend was built from changes no source and gives that frontend. */
  lemma RebuildIsTheSame(sources: Tree, web: Files, tools: Tools)
    requires BuiltFrom(web, View(sources, FRONTEND_SOURCES), tools)
    ensures BuildFrontend(Scratch(sources), tools) == Scratch(sources).(web := web)
  {
    assert sources.files[GENERATED := View(sources, FRONTEND_SOURCES)[GENERATED]] == sources.files;
  }

  lemma BuildNeverLooksAtOutputs(d: Disk, tools: Tools)
    ensures BuildFrontend(Scratch(d.sources), tools).web == BuildFrontend(d, tools).web
    ensures BuildFrontend(Scratch(d.sources), tools).sources == BuildFrontend(d, tools).sources
  {}

  /** The frontend step from scratch: the same sources and hash, and the remembered frontend where
      the step was skipped. */
  lemma FrontendFromScratch(w: World, tools: Tools)
    requires Trusted(w, tools) && FrontendStage(w.disk, tools).Ready?
    requires MissingEntries(w.disk.sources, FRONTEND_REQUIRED) == []
    ensures var stage, scratch := FrontendStage(w.disk, tools), FrontendStage(Scratch(w.disk.sources), tools);
            scratch == Ready(Scratch(stage.disk.sources).(web :=
                               if FrontendUpToDate(w.disk) then w.memory.bundled else stage.disk.web),
                             stage.frontendHash, true)
  {
    hide Hash, View, Pages, ModuleEntries, MissingEntries, ViewOf, BuiltFrom, AllThere, Exists, BuildFrontend;
    NothingIsThere();
    HashHoldsTheView(w.disk.sources, FRONTEND_SOURCES);
    BuildNeverLooksAtOutputs(w.disk, tools);
    BuildIsFromView(Scratch(w.disk.sources), tools);
    if FrontendUpToDate(w.disk) {
      RebuildIsTheSame(w.disk.sources, w.memory.bundled, tools);
    }
  }

  /** Nothing that a build will skip has been touched: the compiled frontend is the remembered one,
      and the pages are those the modules were made from. */
  predicate Intact(w: World, tools: Tools) {
    (FrontendUpToDate(w.disk) ==> w.disk.web == w.memory.bundled) &&
    (ModulesUpToDate(FrontendStage(w.disk, tools).disk) ==> w.memory.pages == Pages(w.disk.sources))
  }

  /** The modules tell which pages they were made from. */
  ghost predicate EmbedsPages(tools: Tools) {
    forall view, p, q | Listed(tools.modules(view, p)) == Listed(tools.modules(view, q)) :: p == q
  }

  /** With all inputs present, what preparing leaves behind, manifest included, is what it would have
      left behind in a checkout of the same sources with nothing built yet, exactly if nothing that
      it skipped had been touched. */
  lemma IncrementalIsClean(w: World, tools: Tools)
    requires Trusted(w, tools)
    requires MissingEntries(w.disk.sources, FRONTEND_REQUIRED) == [] && Prepare(w.disk, tools).outcome.Prepared?
    ensures var step, clean := Prepare(w.disk, tools), Prepare(Scratch(w.disk.sources), tools);
            (Intact(w, tools) ==> clean.outcome.Prepared? && clean.disk == step.disk) &&
            (EmbedsPages(tools) && clean.disk == step.disk ==> Intact(w, tools))
  {
    hide Trusted, Complete, FrontendStage, MissingEntries, BuildFrontend, Pages, Hash, ModulesUpToDate;
    hide AllThere, EmbedsPages;
    var stage := FrontendStage(w.disk, tools);
    StageWeb(w.disk, tools);
    FrontendFromScratch(w, tools);
    PagesOfStage(w.disk, tools);
    StageWeb(Scratch(w.disk.sources), tools);
    if FrontendUpToDate(w.disk) {
      KeptWeb(w.disk, tools);
    }
    if FrontendUpToDate(w.disk) && w.disk.web != w.memory.bundled {
      assert Prepare(w.disk, tools).disk != Prepare(Scratch(w.disk.sources), tools).disk;
    } else {
      ModulesFromScratch(w, stage, tools);
    }
  }

  lemma PagesOfStage(d: Disk, tools: Tools)
    ensures var stage := FrontendStage(d, tools).disk;
            Pages(stage.sources) == Pages(d.sources) && stage.modules == d.modules && stage.manifest == d.manifest
  {
    hide BuildFrontend, Pages, Hash, MissingEntries, AllThere;
    BuildIsFromView(d, tools);
  }

  /** The module step from scratch, on the same sources and compiled frontend. */
  lemma ModulesFromScratch(w: World, stage: Stage, tools: Tools)
    requires Trusted(w, tools) && stage.Ready?
    requires stage.disk.modules == w.disk.modules && stage.disk.manifest == w.disk.manifest
    ensures var scratch := Ready(Scratch(stage.disk.sources).(web := stage.disk.web), stage.frontendHash, true);
            var step, clean := Complete(stage, tools), Complete(scratch, tools);
            step.outcome.Prepared? ==>
              ((ModulesUpToDate(stage.disk) ==> w.memory.pages == Pages(stage.disk.sources)) ==>
                 clean.outcome.Prepared? && clean.disk == step.disk) &&
              (EmbedsPages(tools) && clean.disk == step.disk ==>
                 (ModulesUpToDate(stage.disk) ==> w.memory.pages == Pages(stage.disk.sources)))
  {
    hide Hash, View, Pages, ModuleEntries, ViewOf, BuiltFrom, AllThere, Listed;
    NothingIsThere();
    HashHoldsTheView(ModuleTree(stage.disk), ModuleEntries(ModuleTree(stage.disk)));
    var scratch := Scratch(stage.disk.sources).(web := stage.disk.web);
    assert ModuleTree(scratch) == ModuleTree(stage.disk);
  }

  /** Preparing again finds everything up to date and leaves the disk as it is. */
  lemma RepeatingDoesNothing(d: Disk, tools: Tools)
    requires Prepare(d, tools).outcome.Prepared?
    ensures var after := Prepare(d, tools).disk;
            Prepare(after, tools) == Step(after, Prepared(false, false))
  {
    hide Hash, View, Pages, ModuleEntries, MissingEntries, AllThere;
    if MissingEntries(d.sources, FRONTEND_REQUIRED) == [] {
      BuildNeedsItsInputs(d, tools);
    }
    var stage, after := FrontendStage(d, tools), Prepare(d, tools).disk;
    assert ModuleTree(after) == ModuleTree(stage.disk);
    assert FrontendStage(after, tools) == Ready(after, stage.frontendHash, false);
  }

  /** Building does not make a required input go missing. */
  lemma BuildNeedsItsInputs(d: Disk, tools: Tools)
    requires MissingEntries(d.sources, FRONTEND_REQUIRED) == []
    ensures MissingEntries(BuildFrontend(d, tools).sources, FRONTEND_REQUIRED) == []
  {
    hide Inside, Sorted;
    var t, u := d.sources, BuildFrontend(d, tools).sources;
    forall e | e in FRONTEND_REQUIRED ensures Exists(u, e) {
      if e !in t.folders {
        var p := EntryFiles(t, e)[0];
        assert p in EntryFiles(t, e);
        assert p in EntryFiles(u, e);
      }
    }
  }

  // ---- runs -------------------------------------------------------------------------

  datatype Event =
    | Edit(sources: Tree)                   // of any source, pages included
    | TouchWeb(web: Files)                  // compiled files are lost, edited or added
    | LoseModules(lost: set<string>)
    | SpoilManifest(left: ManifestFile)     // if what is left of it does not load
    | Run

  function Next(w: World, e: Event, tools: Tools): World {
    match e
    case Edit(sources) => w.(disk := w.disk.(sources := sources))
    case TouchWeb(web) => w.(disk := w.disk.(web := web))
    case LoseModules(lost) => w.(disk := w.disk.(modules := w.disk.modules - lost))
    case SpoilManifest(left) => if LoadManifest(left).None? then w.(disk := w.disk.(manifest := left)) else w
    case Run => Built(w, tools)
  }

  function After(w: World, events: seq<Event>, tools: Tools): World
    decreases |events|
  {
    if events == [] then w else After(Next(w, events[0], tools), events[1..], tools)
  }

  lemma NextStaysTrusted(w: World, e: Event, tools: Tools)
    requires Trusted(w, tools)
    ensures Trusted(Next(w, e, tools), tools)
  {
    hide Prepare, BuiltFrom, Pages, ViewOf, Built;
    if e.Run? {
      PrepareStaysTrusted(w, tools);
    } else if e.LoseModules? && AllThere(MODULE_OUTPUTS, w.disk.modules - e.lost) {
      assert forall p | p in w.disk.modules :: p in w.disk.modules - e.lost;
      assert w.disk.modules - e.lost == w.disk.modules;
    }
  }

  lemma {:induction false} RunsStayTrusted(w: World, events: seq<Event>, tools: Tools)
    requires Trusted(w, tools)
    ensures Trusted(After(w, events, tools), tools)
    decreases |events|
  {
    hide Next, Trusted;
    if events != [] {
      NextStaysTrusted(w, events[0], tools);
      RunsStayTrusted(Next(w, events[0], tools), events[1..], tools);
    }
  }

  /** After any run of edits, losses and builds, failed ones too, a build with all inputs present ends
      exactly where a build of the same sources from scratch ends, if and only if nothing that it
      skips was touched since it was last made. */
  lemma AnyRunIsClean(start: World, events: seq<Event>, tools: Tools)
    requires LoadManifest(start.disk.manifest).None? && forall p | p in start.disk.modules :: p in MODULE_OUTPUTS
    requires var d := After(start, events, tools).disk;
             MissingEntries(d.sources, FRONTEND_REQUIRED) == [] && Prepare(d, tools).outcome.Prepared?
    ensures var w := After(start, events, tools);
            var step, clean := Prepare(w.disk, tools), Prepare(Scratch(w.disk.sources), tools);
            (Intact(w, tools) ==> clean.outcome.Prepared? && clean.disk == step.disk) &&
            (EmbedsPages(tools) && clean.disk == step.disk ==> Intact(w, tools))
  {
    RunsStayTrusted(start, events, tools);
    IncrementalIsClean(After(start, events, tools), tools);
  }

  // ---- what a build does not notice -------------------------------------------------

  lemma BuiltIsIntact(w: World, tools: Tools)
    requires Trusted(w, tools) && MissingEntries(w.disk.sources, FRONTEND_REQUIRED) == []
    requires Prepare(w.disk, tools).outcome.Prepared? && Intact(w, tools)
    ensures var built := Built(w, tools);
            Trusted(built, tools) && MissingEntries(built.disk.sources, FRONTEND_REQUIRED) == [] &&
            FrontendUpToDate(built.disk) && ModulesUpToDate(built.disk) &&
            built.disk.web == built.memory.bundled && Pages(built.disk.sources) == built.memory.pages
  {
    hide Trusted, Prepare, FrontendStage, Hash, Pages, MissingEntries, AllThere, FrontendUpToDate, ModulesUpToDate;
    PrepareStaysTrusted(w, tools);
    PreparedIsUpToDate(w.disk, tools);
    StageWeb(w.disk, tools);
    PagesOfStage(w.disk, tools);
    if FrontendUpToDate(w.disk) {
      KeptWeb(w.disk, tools);
    } else {
      NotKeptWeb(w.disk, tools);
    }
  }

  lemma PreparedIsUpToDate(d: Disk, tools: Tools)
    requires MissingEntries(d.sources, FRONTEND_REQUIRED) == [] && Prepare(d, tools).outcome.Prepared?
    ensures var built := Prepare(d, tools).disk;
            MissingEntries(built.sources, FRONTEND_REQUIRED) == [] && FrontendUpToDate(built) && ModulesUpToDate(built)
  {
    hide Hash, View, Pages, ModuleEntries, MissingEntries, AllThere, Exists;
    BuildNeedsItsInputs(d, tools);
    assert ModuleTree(Prepare(d, tools).disk) == ModuleTree(FrontendStage(d, tools).disk);
  }

  /** Compiled files lost or edited while the listed ones are there are not noticed: the next build
      keeps them as they are, and is clean exactly if they are what was bundled. */
  lemma TouchedWebGoesUnnoticed(w: World, web: Files, tools: Tools)
    requires Trusted(w, tools) && MissingEntries(w.disk.sources, FRONTEND_REQUIRED) == []
    requires Prepare(w.disk, tools).outcome.Prepared? && Intact(w, tools) && AllThere(FRONTEND_OUTPUTS, web)
    requires var left := Next(Built(w, tools), TouchWeb(web), tools); Prepare(left.disk, tools).outcome.Prepared?
    ensures var built := Built(w, tools);
            var again := Prepare(Next(built, TouchWeb(web), tools).disk, tools).disk;
            again.web == web && (again == Prepare(Scratch(again.sources), tools).disk <==> web == built.disk.web)
  {
    hide Prepare, Trusted, BuildFrontend, Built, Pages, Hash, FrontendStage, AllThere;
    BuiltIsIntact(w, tools);
    var built := Built(w, tools);
    var left := Next(built, TouchWeb(web), tools);
    NextStaysTrusted(built, TouchWeb(web), tools);
    assert FrontendUpToDate(left.disk);
    KeptWeb(left.disk, tools);
    IncrementalIsClean(left, tools);
    FrontendFromScratch(left, tools);
    StageWeb(Scratch(left.disk.sources), tools);
    assert web == built.disk.web ==> Intact(left, tools);
  }

  lemma StageWeb(d: Disk, tools: Tools)
    ensures var stage, step := FrontendStage(d, tools), Prepare(d, tools);
            step.disk.web == stage.disk.web && step.disk.sources == stage.disk.sources &&
            (step.outcome.Prepared? ==>
               stage.Ready? && step.outcome == Prepared(stage.rebuilt, !ModulesUpToDate(stage.disk)))
  {
    hide FrontendStage, ModulesUpToDate, AllThere, ModuleHash;
  }

  lemma KeptWeb(d: Disk, tools: Tools)
    requires MissingEntries(d.sources, FRONTEND_REQUIRED) == [] && FrontendUpToDate(d)
    ensures Prepare(d, tools).disk.web == d.web && Prepare(d, tools).disk.sources == d.sources
    ensures FrontendStage(d, tools).Ready? && !FrontendStage(d, tools).rebuilt
  {
    hide Hash, View, Pages, ModuleEntries, MissingEntries, AllThere;
  }

  lemma NotKeptWeb(d: Disk, tools: Tools)
    requires MissingEntries(d.sources, FRONTEND_REQUIRED) == [] && !FrontendUpToDate(d)
    ensures FrontendStage(d, tools).Ready? ==> FrontendStage(d, tools).rebuilt
  {
    hide Hash, View, MissingEntries, AllThere, FrontendUpToDate;
  }

  /** An edit that changes no hash rebuilds nothing, so the next build is clean exactly if the edit
      left the pages that are not hashed as they were. */
  lemma UnhashedEditGoesUnnoticed(w: World, edited: Tree, tools: Tools)
    requires Trusted(w, tools) && MissingEntries(w.disk.sources, FRONTEND_REQUIRED) == []
    requires Prepare(w.disk, tools).outcome.Prepared? && Intact(w, tools) && EmbedsPages(tools)
    requires var built := Built(w, tools).disk;
             Agree(built.sources, edited, FRONTEND_SOURCES) &&
             ModuleHash(built.(sources := edited)) == ModuleHash(built)
    ensures var built := Built(w, tools).disk;
            var again := Prepare(built.(sources := edited), tools);
            again.outcome == Prepared(false, false) &&
            (again.disk == Prepare(Scratch(edited), tools).disk <==> Pages(edited) == Pages(built.sources))
  {
    hide Trusted, BuildFrontend, Built, Pages, Prepare;
    BuiltIsIntact(w, tools);
    var built := Built(w, tools);
    var left := Next(built, Edit(edited), tools);
    NextStaysTrusted(built, Edit(edited), tools);
    HashIsExact(built.disk.sources, edited, FRONTEND_SOURCES);
    SameMissing(built.disk.sources, edited, FRONTEND_REQUIRED);
    hide Hash, View, ModuleEntries, MissingEntries, AllThere, EmbedsPages, Agree;
    UpToDateIsLeftAlone(left.disk, tools);
    IncrementalIsClean(left, tools);
    assert Intact(left, tools) <==> Pages(edited) == Pages(built.disk.sources);
  }

  lemma UpToDateIsLeftAlone(d: Disk, tools: Tools)
    requires MissingEntries(d.sources, FRONTEND_REQUIRED) == [] && FrontendUpToDate(d) && ModulesUpToDate(d)
    ensures Prepare(d, tools).outcome == Prepared(false, false) && FrontendStage(d, tools).disk == d
  {
    hide Hash, View, Pages, ModuleEntries, MissingEntries, AllThere;
  }

  lemma SameMissing(t: Tree, u: Tree, entries: seq<string>)
    requires forall e | e in entries :: Exists(t, e) == Exists(u, e)
    ensures MissingEntries(t, entries) == MissingEntries(u, entries)
  {}
}
