/** The initial plan: a first installation, or the adoption of a target that already holds files. */
module Initial {
  import opened Results
  import opened Paths
  import opened Sorting
  import opened Identity
  import opened Plans
  import opened Targets
  import opened Inversion
  import opened Apply
  import opened Agreement
  import opened Receipts
  import opened Orders
  import opened Outputs
  import opened Trees
  import opened Grouping
  import opened Overlays
  import opened Maintenance
  import opened Layouts
  import opened Laying
  import opened Survival
  import opened Cleaning
  import opened Soundness
  import opened Adoption

  const MANIFEST: Path := [".rygor", "project.json"]

  datatype MaintenanceDecision = CleanMaintenance | RetainMaintenance(paths: seq<Path>)

  /** `seeds` name their bytes in `blobs`; `manifest` is the candidate manifest, if one could be built. */
  datatype Request = Request(
    seeds: seq<Output>, blobs: Store, managed: seq<RenderFile>, lifecycle: seq<RenderFile>,
    declarations: Option<seq<Declaration>>, legal: set<Path>,
    maintenance: MaintenanceDecision, cleanup: Option<CleanupContract>,
    manifest: Option<Bytes>, limits: Limits, target: nat)

  function FilePathsIn(files: seq<RenderFile>): (r: seq<Path>)
    ensures |r| == |files| && forall i :: 0 <= i < |files| ==> r[i] == files[i].path
  {
    seq(|files|, i requires 0 <= i < |files| => files[i].path)
  }

  function OutputPathsIn(outputs: seq<Output>): (r: seq<Path>)
    ensures |r| == |outputs| && forall i :: 0 <= i < |outputs| ==> r[i] == outputs[i].path
  {
    seq(|outputs|, i requires 0 <= i < |outputs| => outputs[i].path)
  }

  function PathSet(files: seq<RenderFile>): (r: set<Path>)
    ensures forall p :: p in r <==> exists i :: 0 <= i < |files| && files[i].path == p
  {
    set i | 0 <= i < |files| :: files[i].path
  }

  predicate FileLess(a: RenderFile, b: RenderFile) {
    PathLess(a.path, b.path)
  }

  // Validation of the request

  predicate GoodContent(kind: Kind, mode: Mode, content: Bytes) {
    InstallMode(mode) && (kind.Text? ==> IsUtf8(content))
  }

  ghost predicate GoodSeeds(seeds: seq<Output>, blobs: Store, fold: Path -> Path) {
    && CleanPaths(OutputPathsIn(seeds), fold, true) && InOrder(OutputPathsIn(seeds))
    && forall i :: 0 <= i < |seeds| ==>
      blobs.Get(seeds[i].contentId).Some? && GoodContent(seeds[i].kind, seeds[i].mode, blobs.Get(seeds[i].contentId).value)
  }

  method ValidateSeeds(seeds: seq<Output>, blobs: Store, fold: Path -> Path) returns (r: Result<(), Refused>)
    ensures r.Ok? <==> GoodSeeds(seeds, blobs, fold)
  {
    if !InOrder(OutputPathsIn(seeds)) { return Err(InvalidTarget); }
    r := ValidatePaths(OutputPathsIn(seeds), fold, true);
    if r.Err? { return; }
    for i := 0 to |seeds|
      invariant forall k :: 0 <= k < i ==>
        blobs.Get(seeds[k].contentId).Some? && GoodContent(seeds[k].kind, seeds[k].mode, blobs.Get(seeds[k].contentId).value)
    {
      var content := blobs.Get(seeds[i].contentId);
      if content.None? { return Err(BlobMissing); }
      if !GoodContent(seeds[i].kind, seeds[i].mode, content.value) { return Err(InvalidTarget); }
    }
  }

  ghost predicate GoodFiles(files: seq<RenderFile>, fold: Path -> Path) {
    && CleanPaths(FilePathsIn(files), fold, true) && InOrder(FilePathsIn(files))
    && forall i :: 0 <= i < |files| ==> GoodContent(files[i].kind, files[i].mode, files[i].content)
  }

  method ValidateManaged(files: seq<RenderFile>, fold: Path -> Path) returns (r: Result<(), Refused>)
    ensures r.Ok? <==> GoodFiles(files, fold)
  {
    r := ValidatePaths(FilePathsIn(files), fold, true);
    if r.Err? { return; }
    for i := 0 to |files|
      invariant forall k :: 0 <= k < i ==> GoodContent(files[k].kind, files[k].mode, files[k].content)
    {
      if !GoodContent(files[i].kind, files[i].mode, files[i].content) { return Err(InvalidTarget); }
    }
    if !InOrder(FilePathsIn(files)) { return Err(InvalidTarget); }
  }

  ghost predicate GoodSnapshot(snapshot: Snapshot, fold: Path -> Path) {
    && CleanPaths(KnownPaths(snapshot), fold, false)
    && InOrder(ObservedFilePaths(snapshot)) && InOrder(ObservedDirectoryPaths(snapshot))
  }

  function ObservedFilePaths(s: Snapshot): seq<Path> {
    seq(|s.files|, i requires 0 <= i < |s.files| => s.files[i].path)
  }

  function ObservedDirectoryPaths(s: Snapshot): seq<Path> {
    seq(|s.directories|, i requires 0 <= i < |s.directories| => s.directories[i].path)
  }

  function KnownPaths(s: Snapshot): seq<Path> {
    ObservedFilePaths(s) + ObservedDirectoryPaths(s)
  }

  method ValidateSnapshot(snapshot: Snapshot, fold: Path -> Path) returns (r: Result<(), Refused>)
    ensures r.Ok? <==> GoodSnapshot(snapshot, fold)
  {
    r := ValidatePaths(KnownPaths(snapshot), fold, false);
    if r.Err? { return; }
    if !InOrder(ObservedFilePaths(snapshot)) || !InOrder(ObservedDirectoryPaths(snapshot)) { return Err(InvalidTarget); }
  }

  lemma {:induction false} FileStatesKeys(es: seq<ObservedFile>)
    ensures forall p :: p in FileStates(es) <==> exists i :: 0 <= i < |es| && es[i].path == p
    decreases |es|
  {
    if es != [] {
      var front := es[..|es| - 1];
      FileStatesKeys(front);
      assert forall i :: 0 <= i < |front| ==> front[i] == es[i];
    }
  }

  lemma {:induction false} DirectoryStatesKeys(es: seq<ObservedDirectory>)
    ensures forall p :: p in DirectoryStates(es) <==> exists i :: 0 <= i < |es| && es[i].path == p
    decreases |es|
  {
    if es != [] {
      var front := es[..|es| - 1];
      DirectoryStatesKeys(front);
      assert forall i :: 0 <= i < |front| ==> front[i] == es[i];
    }
  }

  lemma FilesAreKnown(snapshot: Snapshot, p: Path)
    ensures p in FileStates(snapshot.files) <==> p in ObservedFilePaths(snapshot)
  {
    FileStatesKeys(snapshot.files);
    if i :| 0 <= i < |snapshot.files| && snapshot.files[i].path == p { assert ObservedFilePaths(snapshot)[i] == p; }
  }

  lemma DirectoriesAreKnown(snapshot: Snapshot, p: Path)
    ensures p in DirectoryStates(snapshot.directories) <==> p in ObservedDirectoryPaths(snapshot)
  {
    DirectoryStatesKeys(snapshot.directories);
    if i :| 0 <= i < |snapshot.directories| && snapshot.directories[i].path == p {
      assert ObservedDirectoryPaths(snapshot)[i] == p;
    }
  }

  lemma DistinctHalves(a: seq<Path>, b: seq<Path>)
    requires NoDuplicates(a + b)
    ensures forall p :: p in a ==> p !in b
  {
    forall p | p in a ensures p !in b {
      var i :| 0 <= i < |a| && a[i] == p;
      forall j | 0 <= j < |b| ensures b[j] != p { assert (a + b)[i] != (a + b)[|a| + j]; }
    }
  }

  /** A validated snapshot lists what it observes, each path once and as one kind. */
  lemma KnownIsListed(snapshot: Snapshot, fold: Path -> Path)
    requires GoodSnapshot(snapshot, fold)
    ensures Maintenance.Lists(KnownPaths(snapshot), ObservedOf(snapshot))
  {
    var known, ob := KnownPaths(snapshot), ObservedOf(snapshot);
    forall p ensures p in known <==> Seen(ob, p) {
      FilesAreKnown(snapshot, p);
      DirectoriesAreKnown(snapshot, p);
    }
    DistinctHalves(ObservedFilePaths(snapshot), ObservedDirectoryPaths(snapshot));
    forall p | p in ob.states ensures p !in ob.directoryStates {
      FilesAreKnown(snapshot, p);
      DirectoriesAreKnown(snapshot, p);
    }
  }

  // Selecting the files to install

  function AllManaged(managed: seq<RenderFile>, lifecycle: seq<RenderFile>): seq<RenderFile> {
    if lifecycle == [] then managed else Sort(managed + lifecycle, FileLess)
  }

  /** The files adoption does not leave as they are. */
  function Left(files: seq<RenderFile>, keep: set<Path>): (r: seq<RenderFile>)
    ensures forall f :: f in r <==> f in files && f.path !in keep
  {
    if files == [] then [] else
      var front, f := Left(files[..|files| - 1], keep), files[|files| - 1];
      assert files == files[..|files| - 1] + [f];
      if f.path in keep then front else front + [f]
  }

  lemma {:induction false} LeftIsDistinct(files: seq<RenderFile>, keep: set<Path>)
    requires DistinctFiles(files)
    ensures DistinctFiles(Left(files, keep))
    decreases |files|
  {
    if files != [] {
      var rest, f := files[..|files| - 1], files[|files| - 1];
      assert forall i :: 0 <= i < |rest| ==> rest[i] == files[i];
      LeftIsDistinct(rest, keep);
      var front := Left(rest, keep);
      forall i | 0 <= i < |front| ensures front[i].path != f.path {
        assert front[i] in front && front[i] in rest;
        var k :| 0 <= k < |rest| && rest[k] == front[i];
        assert files[k].path != files[|files| - 1].path;
      }
    }
  }

  /** Each seed with the bytes its content id names. */
  /** What is left keeps its order. */
  lemma {:induction false} LeftGoesAlong(a: seq<RenderFile>, b: seq<RenderFile>, keep: set<Path>)
    ensures Left(a + b, keep) == Left(a, keep) + Left(b, keep)
    decreases |b|
  {
    if b == [] {
      assert a + b == a;
    } else {
      assert (a + b)[..|a + b| - 1] == a + b[..|b| - 1];
      LeftGoesAlong(a, b[..|b| - 1], keep);
    }
  }

  function SeedFiles(seeds: seq<Output>, blobs: Store): (r: seq<RenderFile>)
    requires Stored(seeds, blobs)
    ensures |r| == |seeds|
    ensures forall i :: 0 <= i < |seeds| ==>
      seeds[i] in seeds && r[i] == RenderFile(seeds[i].path, seeds[i].kind, seeds[i].mode, blobs.Get(seeds[i].contentId).value)
  {
    seq(|seeds|, i requires 0 <= i < |seeds| =>
      assert seeds[i] in seeds;
      RenderFile(seeds[i].path, seeds[i].kind, seeds[i].mode, blobs.Get(seeds[i].contentId).value))
  }

  datatype Selection = Selection(seeds: seq<RenderFile>, managed: seq<RenderFile>, keep: set<Path>)

  function PlannedPaths(req: Request): set<Path> {
    PathsOf(req.seeds) + PathSet(req.managed) + PathSet(req.lifecycle)
  }

  /** What is installed besides the manifest: everything requested that no declaration keeps. */
  ghost predicate Selected(req: Request, observed: set<Path>, sel: Selection) {
    && (match req.declarations
        case None => sel.keep == {} && req.lifecycle == []
        case Some(ds) => sel.keep == Kept(ds) && DeclaresExactly(ds, PlannedPaths(req) * observed, req.legal))
    && Stored(req.seeds, req.blobs)
    && sel == SelectionOf(req, sel.keep)
    && DistinctFiles(sel.seeds + sel.managed) && ValidFiles(sel.seeds + sel.managed)
    && MANIFEST !in PathSet(sel.seeds + sel.managed) && InstallableFiles(sel.seeds + sel.managed)
  }

  predicate InstallableFiles(files: seq<RenderFile>) {
    forall f :: f in files ==> Installable(f.path, f.mode)
  }

  lemma PathSetOfLeft(files: seq<RenderFile>, keep: set<Path>)
    ensures PathSet(Left(files, keep)) == PathSet(files) - keep
  {
    var left := Left(files, keep);
    forall p ensures p in PathSet(left) <==> p in PathSet(files) && p !in keep {
      if p in PathSet(left) {
        var i :| 0 <= i < |left| && left[i].path == p;
        assert left[i] in left && left[i] in files;
      }
      if p in PathSet(files) && p !in keep {
        var i :| 0 <= i < |files| && files[i].path == p;
        assert files[i] in left;
      }
    }
  }

  lemma PathSetOfAll(managed: seq<RenderFile>, lifecycle: seq<RenderFile>)
    ensures PathSet(AllManaged(managed, lifecycle)) == PathSet(managed) + PathSet(lifecycle)
  {
    var both, all := managed + lifecycle, AllManaged(managed, lifecycle);
    if lifecycle == [] { assert both == managed; }
    SameElements(both, FileLess);
    assert forall f :: f in all <==> f in both;
    forall p ensures p in PathSet(all) <==> p in PathSet(managed) || p in PathSet(lifecycle) {
      if p in PathSet(all) {
        var i :| 0 <= i < |all| && all[i].path == p;
        assert all[i] in both;
      }
      if p in PathSet(managed) {
        var i :| 0 <= i < |managed| && managed[i].path == p;
        assert managed[i] in both;
      }
      if p in PathSet(lifecycle) {
        var i :| 0 <= i < |lifecycle| && lifecycle[i].path == p;
        assert lifecycle[i] in both;
      }
    }
  }

  lemma DistinctFilesConcat(a: seq<RenderFile>, b: seq<RenderFile>)
    requires DistinctFiles(a) && DistinctFiles(b) && PathSet(a) !! PathSet(b)
    ensures DistinctFiles(a + b)
  {
    forall i, j | 0 <= i < j < |a + b| ensures (a + b)[i].path != (a + b)[j].path {
      if i < |a| <= j {
        assert a[i].path in PathSet(a) && b[j - |a|].path in PathSet(b);
      }
    }
  }

  lemma DistinctFilesSorted(files: seq<RenderFile>)
    requires DistinctFiles(files)
    ensures DistinctFiles(Sort(files, FileLess))
  {
    var r := Sort(files, FileLess);
    SameElements(files, FileLess);
    SortKeepsNoDuplicates(files, FileLess);
    forall i, j | 0 <= i < j < |r| ensures r[i].path != r[j].path {
      assert r[i] in files && r[j] in files;
    }
  }

  lemma ValidLeft(files: seq<RenderFile>, keep: set<Path>)
    requires ValidFiles(files)
    ensures ValidFiles(Left(files, keep))
  {
    var left := Left(files, keep);
    forall i | 0 <= i < |left| ensures Valid(left[i].path) { assert left[i] in left && left[i] in files; }
  }

  lemma ValidAll(managed: seq<RenderFile>, lifecycle: seq<RenderFile>)
    requires ValidFiles(managed) && ValidFiles(lifecycle)
    ensures ValidFiles(AllManaged(managed, lifecycle))
  {
    var all := AllManaged(managed, lifecycle);
    SameElements(managed + lifecycle, FileLess);
    forall i | 0 <= i < |all| ensures Valid(all[i].path) { assert all[i] in all && (all[i] in managed || all[i] in lifecycle); }
  }

  lemma DistinctAll(managed: seq<RenderFile>, lifecycle: seq<RenderFile>)
    requires DistinctFiles(managed) && DistinctFiles(lifecycle) && PathSet(managed) !! PathSet(lifecycle)
    ensures DistinctFiles(AllManaged(managed, lifecycle))
  {
    DistinctFilesConcat(managed, lifecycle);
    DistinctFilesSorted(managed + lifecycle);
  }

  lemma GoodFilesAreDistinct(files: seq<RenderFile>, fold: Path -> Path)
    requires GoodFiles(files, fold)
    ensures DistinctFiles(files) && ValidFiles(files)
  {
    var ps := FilePathsIn(files);
    forall i, j | 0 <= i < j < |files| ensures files[i].path != files[j].path { assert ps[i] != ps[j]; }
    forall i | 0 <= i < |files| ensures Valid(files[i].path) { assert Parses(ps[i]); }
  }

  lemma SeedPathsAreDistinct(seeds: seq<Output>, fold: Path -> Path)
    requires CleanPaths(OutputPathsIn(seeds), fold, true)
    ensures forall i, j :: 0 <= i < j < |seeds| ==> seeds[i].path != seeds[j].path
    ensures forall i :: 0 <= i < |seeds| ==> Valid(seeds[i].path)
  {
    var ps := OutputPathsIn(seeds);
    forall i, j | 0 <= i < j < |seeds| ensures seeds[i].path != seeds[j].path { assert ps[i] != ps[j]; }
    forall i | 0 <= i < |seeds| ensures Valid(seeds[i].path) { assert Parses(ps[i]); }
  }

  lemma GoodSeedsAreStored(seeds: seq<Output>, blobs: Store, fold: Path -> Path)
    requires GoodSeeds(seeds, blobs, fold)
    ensures Stored(seeds, blobs)
  {
    forall o | o in seeds ensures blobs.Get(o.contentId).Some? {
      var i :| 0 <= i < |seeds| && seeds[i] == o;
    }
  }

  lemma SeedFilesAreDistinct(seeds: seq<Output>, blobs: Store)
    requires Stored(seeds, blobs)
    requires forall i, j :: 0 <= i < j < |seeds| ==> seeds[i].path != seeds[j].path
    requires forall i :: 0 <= i < |seeds| ==> Valid(seeds[i].path)
    ensures DistinctFiles(SeedFiles(seeds, blobs)) && ValidFiles(SeedFiles(seeds, blobs))
  {
  }

  lemma SeedPathSet(seeds: seq<Output>, blobs: Store)
    requires Stored(seeds, blobs)
    ensures PathSet(SeedFiles(seeds, blobs)) == PathsOf(seeds)
  {
    var files := SeedFiles(seeds, blobs);
    forall p ensures p in PathSet(files) <==> p in PathsOf(seeds) {
      if i :| 0 <= i < |files| && files[i].path == p { assert seeds[i].path == p; }
      if i :| 0 <= i < |seeds| && seeds[i].path == p { assert files[i].path == p; }
    }
  }

  lemma PathSetOfConcat(a: seq<RenderFile>, b: seq<RenderFile>)
    ensures PathSet(a + b) == PathSet(a) + PathSet(b)
  {
    var both := a + b;
    forall p ensures p in PathSet(both) <==> p in PathSet(a) || p in PathSet(b) {
      if i :| 0 <= i < |a| && a[i].path == p { assert both[i].path == p; }
      if i :| 0 <= i < |b| && b[i].path == p { assert both[|a| + i].path == p; }
    }
  }

  /** A selection from disjoint, valid lists is as `Selected` wants it. */
  lemma SelectionIsDistinct(seeds: seq<RenderFile>, managed: seq<RenderFile>, keep: set<Path>)
    requires DistinctFiles(seeds) && DistinctFiles(managed) && ValidFiles(seeds) && ValidFiles(managed)
    requires PathSet(seeds) !! PathSet(managed) && MANIFEST !in PathSet(seeds) + PathSet(managed)
    ensures var both := Left(seeds, keep) + Left(managed, keep);
      DistinctFiles(both) && ValidFiles(both) && MANIFEST !in PathSet(both)
  {
    PathSetOfLeft(seeds, keep);
    PathSetOfLeft(managed, keep);
    ValidLeft(seeds, keep);
    ValidLeft(managed, keep);
    LeftIsDistinct(seeds, keep);
    LeftIsDistinct(managed, keep);
    DistinctFilesConcat(Left(seeds, keep), Left(managed, keep));
    PathSetOfConcat(Left(seeds, keep), Left(managed, keep));
  }

  /** No file's path is, letter case folded, a reserved one. */
  method CheckReserved(files: seq<RenderFile>, reserved: set<Path>, fold: Path -> Path) returns (r: Result<(), Refused>)
    ensures r.Ok? <==> forall f, p :: f in files && p in reserved ==> fold(f.path) != fold(p)
  {
    var lowered := set p | p in reserved :: fold(p);
    for i := 0 to |files|
      invariant forall k :: 0 <= k < i ==> fold(files[k].path) !in lowered
    {
      if fold(files[i].path) in lowered {
        var p :| p in reserved && fold(p) == fold(files[i].path);
        assert files[i] in files;
        return Err(PathCollision);
      }
    }
    forall f, p | f in files && p in reserved ensures fold(f.path) != fold(p) {
      var k :| 0 <= k < |files| && files[k] == f;
      assert fold(p) in lowered;
    }
    return Ok(());
  }

  lemma ReservedApart(files: seq<RenderFile>, reserved: set<Path>, fold: Path -> Path)
    requires forall f, p :: f in files && p in reserved ==> fold(f.path) != fold(p)
    ensures PathSet(files) !! reserved
  {
    forall p | p in PathSet(files) ensures p !in reserved {
      var i :| 0 <= i < |files| && files[i].path == p;
      assert files[i] in files;
    }
  }

  function ReservedPaths(req: Request): set<Path> {
    PathsOf(req.seeds) + PathSet(req.managed) + {MANIFEST, INVENTORY}
  }

  /** Lifecycle files need declarations in force, and stay off every reserved path, letter case folded. */
  ghost predicate GoodLifecycle(req: Request, fold: Path -> Path) {
    req.lifecycle != [] ==>
      && req.declarations.Some? && GoodFiles(req.lifecycle, fold)
      && forall f, p :: f in req.lifecycle && p in ReservedPaths(req) ==> fold(f.path) != fold(p)
  }

  method ValidateLifecycle(req: Request, fold: Path -> Path) returns (r: Result<(), Refused>)
    ensures r.Ok? <==> GoodLifecycle(req, fold)
    ensures r.Ok? ==> PathSet(req.lifecycle) !! PathsOf(req.seeds) + PathSet(req.managed) + {MANIFEST, INVENTORY}
  {
    if req.lifecycle == [] { return Ok(()); }
    if req.declarations.None? { return Err(InvalidTarget); }
    r := ValidateManaged(req.lifecycle, fold);
    if r.Err? { return; }
    r := CheckReserved(req.lifecycle, ReservedPaths(req), fold);
    if r.Ok? { ReservedApart(req.lifecycle, ReservedPaths(req), fold); }
  }

  function KeptBy(req: Request): set<Path> {
    if req.declarations.Some? then Kept(req.declarations.value) else {}
  }

  /**
   The request can be installed over the observed files: its lists are in order and
   apart from each other and from the manifest, and its declarations, if any, name
   exactly the collisions.
   */
  ghost predicate Selectable(req: Request, observed: set<Path>, fold: Path -> Path) {
    && GoodSeeds(req.seeds, req.blobs, fold) && GoodFiles(req.managed, fold) && GoodLifecycle(req, fold)
    && PathsOf(req.seeds) * PathSet(req.managed) == {} && MANIFEST !in PathsOf(req.seeds) + PathSet(req.managed)
    && (req.declarations.Some? ==> DeclaresExactly(req.declarations.value, PlannedPaths(req) * observed, req.legal))
  }

  method SelectFiles(req: Request, observed: set<Path>, fold: Path -> Path) returns (r: Result<Selection, Refused>)
    ensures r.Ok? <==> Selectable(req, observed, fold)
    ensures r.Ok? ==> Selected(req, observed, r.value) && r.value.keep == KeptBy(req)
  {
    var seeds := ValidateSeeds(req.seeds, req.blobs, fold);
    if seeds.Err? { return Err(seeds.error); }
    var managed := ValidateManaged(req.managed, fold);
    if managed.Err? { return Err(managed.error); }
    if PathsOf(req.seeds) * PathSet(req.managed) != {} || MANIFEST in PathsOf(req.seeds) + PathSet(req.managed) {
      return Err(PathCollision);
    }
    var lifecycle := ValidateLifecycle(req, fold);
    if lifecycle.Err? { return Err(lifecycle.error); }
    GoodSeedsAreStored(req.seeds, req.blobs, fold);
    var keep: set<Path> := {};
    if req.declarations.Some? {
      var partition := PartitionAdoptionCollisions(PlannedPaths(req), req.legal, observed, req.declarations.value);
      if partition.Err? { return Err(partition.error); }
      keep := partition.value;
    }
    SelectionStands(req, keep, fold);
    SelectionInstalls(req, keep, fold);
    return Ok(SelectionOf(req, keep));
  }

  lemma GoodFilesInstall(files: seq<RenderFile>, fold: Path -> Path)
    requires GoodFiles(files, fold)
    ensures InstallableFiles(files)
  {
    var ps := FilePathsIn(files);
    forall f | f in files ensures Installable(f.path, f.mode) {
      var i :| 0 <= i < |files| && files[i] == f;
      assert Parses(ps[i]) && WithinLimits(ps[i]);
    }
  }

  lemma GoodSeedsInstall(seeds: seq<Output>, blobs: Store, fold: Path -> Path)
    requires GoodSeeds(seeds, blobs, fold) && Stored(seeds, blobs)
    ensures InstallableFiles(SeedFiles(seeds, blobs))
  {
    var ps, files := OutputPathsIn(seeds), SeedFiles(seeds, blobs);
    forall f | f in files ensures Installable(f.path, f.mode) {
      var i :| 0 <= i < |files| && files[i] == f;
      assert Parses(ps[i]) && WithinLimits(ps[i]);
    }
  }

  lemma SelectionInstalls(req: Request, keep: set<Path>, fold: Path -> Path)
    requires GoodSeeds(req.seeds, req.blobs, fold) && GoodFiles(req.managed, fold) && Stored(req.seeds, req.blobs)
    requires req.lifecycle != [] ==> GoodFiles(req.lifecycle, fold)
    ensures InstallableFiles(SelectionOf(req, keep).seeds + SelectionOf(req, keep).managed)
  {
    GoodSeedsInstall(req.seeds, req.blobs, fold);
    GoodFilesInstall(req.managed, fold);
    if req.lifecycle != [] { GoodFilesInstall(req.lifecycle, fold); }
    AllInstall(req, keep);
  }

  lemma AllInstall(req: Request, keep: set<Path>)
    requires Stored(req.seeds, req.blobs) && InstallableFiles(SeedFiles(req.seeds, req.blobs))
    requires InstallableFiles(req.managed) && InstallableFiles(req.lifecycle)
    ensures InstallableFiles(SelectionOf(req, keep).seeds + SelectionOf(req, keep).managed)
  {
    SameElements(req.managed + req.lifecycle, FileLess);
    var sel := SelectionOf(req, keep);
    forall f | f in sel.seeds + sel.managed ensures Installable(f.path, f.mode) {
      assert f in sel.seeds || f in sel.managed;
    }
  }

  function SelectionOf(req: Request, keep: set<Path>): Selection
    requires Stored(req.seeds, req.blobs)
  {
    Selection(Left(SeedFiles(req.seeds, req.blobs), keep), Left(AllManaged(req.managed, req.lifecycle), keep), keep)
  }

  lemma SelectionStands(req: Request, keep: set<Path>, fold: Path -> Path)
    requires GoodSeeds(req.seeds, req.blobs, fold) && GoodFiles(req.managed, fold) && Stored(req.seeds, req.blobs)
    requires req.lifecycle != [] ==> GoodFiles(req.lifecycle, fold)
    requires PathSet(req.lifecycle) !! PathsOf(req.seeds) + PathSet(req.managed) + {MANIFEST, INVENTORY}
    requires PathsOf(req.seeds) * PathSet(req.managed) == {} && MANIFEST !in PathsOf(req.seeds) + PathSet(req.managed)
    ensures var both := SelectionOf(req, keep).seeds + SelectionOf(req, keep).managed;
      DistinctFiles(both) && ValidFiles(both) && MANIFEST !in PathSet(both)
  {
    SeedsStand(req, fold);
    ManagedIsDistinct(req, fold);
    MergedStands(req, keep);
  }

  lemma SeedsStand(req: Request, fold: Path -> Path)
    requires GoodSeeds(req.seeds, req.blobs, fold) && Stored(req.seeds, req.blobs)
    ensures DistinctFiles(SeedFiles(req.seeds, req.blobs)) && ValidFiles(SeedFiles(req.seeds, req.blobs))
  {
    SeedPathsAreDistinct(req.seeds, fold);
    SeedFilesAreDistinct(req.seeds, req.blobs);
  }

  lemma MergedStands(req: Request, keep: set<Path>)
    requires Stored(req.seeds, req.blobs)
    requires DistinctFiles(SeedFiles(req.seeds, req.blobs)) && ValidFiles(SeedFiles(req.seeds, req.blobs))
    requires DistinctFiles(AllManaged(req.managed, req.lifecycle)) && ValidFiles(AllManaged(req.managed, req.lifecycle))
    requires PathSet(req.lifecycle) !! PathsOf(req.seeds) + PathSet(req.managed) + {MANIFEST, INVENTORY}
    requires PathsOf(req.seeds) * PathSet(req.managed) == {} && MANIFEST !in PathsOf(req.seeds) + PathSet(req.managed)
    ensures var both := SelectionOf(req, keep).seeds + SelectionOf(req, keep).managed;
      DistinctFiles(both) && ValidFiles(both) && MANIFEST !in PathSet(both)
  {
    SeedPathSet(req.seeds, req.blobs);
    PathSetOfAll(req.managed, req.lifecycle);
    forall p | p in PathSet(req.lifecycle) ensures p !in PathsOf(req.seeds) && p != MANIFEST {
      assert p !in PathsOf(req.seeds) + PathSet(req.managed) + {MANIFEST, INVENTORY};
    }
    forall p | p in PathsOf(req.seeds) ensures p !in PathSet(req.managed) {
      assert p !in PathsOf(req.seeds) * PathSet(req.managed);
    }
    SelectionIsDistinct(SeedFiles(req.seeds, req.blobs), AllManaged(req.managed, req.lifecycle), keep);
  }

  lemma ManagedIsDistinct(req: Request, fold: Path -> Path)
    requires GoodFiles(req.managed, fold) && (req.lifecycle != [] ==> GoodFiles(req.lifecycle, fold))
    requires PathSet(req.lifecycle) !! PathSet(req.managed)
    ensures DistinctFiles(AllManaged(req.managed, req.lifecycle)) && ValidFiles(AllManaged(req.managed, req.lifecycle))
  {
    GoodFilesAreDistinct(req.managed, fold);
    if req.lifecycle != [] { GoodFilesAreDistinct(req.lifecycle, fold); }
    DistinctAll(req.managed, req.lifecycle);
    ValidAll(req.managed, req.lifecycle);
  }

  // Cleanup

  /** What the compiler asks of a cleanup declaration before it looks at the target. */
  predicate CleanupDeclared(contract: CleanupContract, seeds: set<Path>, managed: set<Path>) {
    forall c :: c in contract.cleanupPaths ==>
      c !in seeds && c != MANIFEST && WithinLimits(c) && forall m :: m in managed ==> !Above(c, m)
  }

  method CheckCleanupDeclaration(contract: CleanupContract, seeds: set<Path>, managed: set<Path>)
    returns (r: Result<(), Refused>)
    ensures r.Ok? <==> CleanupDeclared(contract, seeds, managed)
  {
    var declared := ToSet(contract.cleanupPaths);
    var nested := set c | c in declared && exists m :: m in managed && Above(c, m);
    assert forall c :: c in contract.cleanupPaths <==> c in declared;
    if declared * (seeds + {MANIFEST}) + nested != {} {
      var c :| c in declared * (seeds + {MANIFEST}) + nested;
      assert c in contract.cleanupPaths && (c in seeds || c == MANIFEST || c in nested);
      return Err(PathCollision);
    }
    for i := 0 to |contract.cleanupPaths|
      invariant forall k :: 0 <= k < i ==> WithinLimits(contract.cleanupPaths[k])
    {
      if !WithinLimits(contract.cleanupPaths[i]) {
        assert contract.cleanupPaths[i] in contract.cleanupPaths;
        return Err(CleanupDisagreement);
      }
    }
    forall c | c in contract.cleanupPaths ensures c !in seeds && c != MANIFEST && forall m :: m in managed ==> !Above(c, m) {
      assert c !in declared * (seeds + {MANIFEST}) && c !in nested;
    }
    return Ok(());
  }

  predicate Deeper(a: Operation, b: Operation) {
    |a.path| > |b.path| || (|a.path| == |b.path| && PathLess(a.path, b.path))
  }

  lemma DeeperSorts(removes: seq<Operation>)
    requires forall x, y :: x in removes && y in removes && x.path == y.path ==> x == y
    requires forall x :: x in removes ==> Valid(x.path)
    ensures DeepestFirst(Sort(removes, Deeper)) && InRemovalOrder(Sort(removes, Deeper))
  {
    EntryLessIsStrict();
    forall a, b | a in removes && b in removes ensures Deeper(a, b) || Deeper(b, a) || a == b {
      PathOrderIsTotal(a.path, b.path);
    }
    SortSorts(removes, Deeper);
    var r := Sort(removes, Deeper);
    SameElements(removes, Deeper);
    forall i, j | 0 <= i < j < |r| ensures GoesBefore(r[i].path, r[j].path) {
      assert r[i] in r && r[j] in r && !Deeper(r[j], r[i]);
      PathOrderIsTotal(r[i].path, r[j].path);
    }
  }

  lemma OrderedGathered(cs: seq<Path>, ob: Observed, deletes: seq<Operation>, removes: seq<Operation>)
    requires Gathered(cs, ob, deletes, removes) && forall p :: Seen(ob, p) ==> Valid(p)
    ensures Gathered(cs, ob, deletes, Sort(removes, Deeper)) && DeepestFirst(Sort(removes, Deeper))
    ensures InRemovalOrder(Sort(removes, Deeper))
  {
    SortKeepsDistinct(removes, Deeper);
    DeeperSorts(removes);
  }

  /** Cleanup runs: the maintenance is clean, and there is a contract that says what to clean. */
  predicate Cleans(req: Request) {
    req.maintenance.CleanMaintenance? && req.cleanup.Some?
  }

  function EffectivePaths(req: Request, sel: Selection): seq<Path> {
    if Cleans(req)
    then Effective(req.cleanup.value.cleanupPaths, PathSet(sel.managed)) else []
  }

  /** Deletes and removals of the declared paths, and the deletion of the inventory that declared them. */
  method PlanSweep(req: Request, sel: Selection, known: seq<Path>, ob: Observed) returns (r: Result<Sweep, Refused>)
    requires Maintenance.Lists(known, ob) && forall p :: Seen(ob, p) ==> Valid(p)
    requires req.cleanup.Some? ==> [] !in req.cleanup.value.cleanupPaths
    ensures r.Ok? ==> Swept(r.value, ob) && r.value.effective == EffectivePaths(req, sel)
    ensures r.Ok? ==> (r.value.inventory != [] <==> Cleans(req))
    ensures r.Ok? ==> InPathOrder(r.value.deletes) && InRemovalOrder(r.value.removes)
    ensures r.Ok? <==> Sweepable(req, sel, ob)
  {
    if !Cleans(req) { return Ok(Sweep([], [], [], [])); }
    var cleaned := CleanupOperations(req.cleanup.value, known, ob, PathSet(sel.managed));
    if cleaned.Err? { return Err(cleaned.error); }
    var (deletes, removes) := cleaned.value;
    if INVENTORY !in ob.states || ob.states[INVENTORY].Absent? { return Err(CleanupDisagreement); }
    var cs := EffectivePaths(req, sel);
    OrderedGathered(cs, ob, deletes, removes);
    forall i | 0 <= i < |cs| ensures Seen(ob, cs[i]) && cs[i] != INVENTORY { assert cs[i] in cs; }
    return Ok(Sweep(cs, deletes, Sort(removes, Deeper), [DeleteFile(INVENTORY, ob.states[INVENTORY])]));
  }

  // The compiler

  function FilesToInstall(req: Request, sel: Selection): seq<RenderFile>
    requires req.manifest.Some?
  {
    sel.seeds + sel.managed + [RenderFile(MANIFEST, Text, FILE_MODE, req.manifest.value)]
  }

  /** Retained paths must be the declared ones, in whatever order they are given. */
  predicate MaintenanceAgrees(maintenance: MaintenanceDecision, cleanup: Option<CleanupContract>) {
    maintenance.RetainMaintenance? ==>
      cleanup.Some? && Sort(maintenance.paths, PathLess) == Sort(cleanup.value.cleanupPaths, PathLess)
  }

  /** Retaining is accepted exactly if each path is retained as often as it is declared. */
  lemma RetainedAreDeclared(paths: seq<Path>, contract: CleanupContract)
    requires (forall p :: p in paths ==> Valid(p)) && forall p :: p in contract.cleanupPaths ==> Valid(p)
    ensures MaintenanceAgrees(RetainMaintenance(paths), Some(contract)) <==> multiset(paths) == multiset(contract.cleanupPaths)
  {
    PathsAreOrdered(paths);
    PathsAreOrdered(contract.cleanupPaths);
    SortIgnoresOrder(paths, contract.cleanupPaths, PathLess);
  }

  /** How a compiled initial plan is put together. */
  ghost predicate InitialPlan(req: Request, snapshot: Snapshot, plan: Plan, sel: Selection, l: Layout, s: Sweep) {
    var ob := ObservedOf(snapshot);
    && Selected(req, ob.states.Keys, sel) && req.manifest.Some?
    && StoredFrom(FilesToInstall(req, sel), l.outputs, plan.store)
    && Complete(l, s, ob, plan.store) && Swept(s, ob)
    && plan.operations == l.plain + l.trees + SweepOperations(s)
    && s.effective == EffectivePaths(req, sel)
    && (s.inventory != [] <==> Cleans(req))
    && (RootOf(MANIFEST, ob.directoryStates.Keys).Some? || MANIFEST !in ob.states)
  }

  lemma InstallIsDistinct(req: Request, sel: Selection)
    requires DistinctFiles(sel.seeds + sel.managed) && ValidFiles(sel.seeds + sel.managed)
    requires MANIFEST !in PathSet(sel.seeds + sel.managed) && req.manifest.Some?
    ensures DistinctFiles(FilesToInstall(req, sel)) && ValidFiles(FilesToInstall(req, sel))
  {
    AppendIsDistinct(sel.seeds + sel.managed, RenderFile(MANIFEST, Text, FILE_MODE, req.manifest.value));
  }

  lemma AppendIsDistinct(files: seq<RenderFile>, last: RenderFile)
    requires DistinctFiles(files) && ValidFiles(files) && last.path !in PathSet(files) && Valid(last.path)
    ensures DistinctFiles(files + [last]) && ValidFiles(files + [last])
  {
    assert forall i :: 0 <= i < |files| ==> files[i].path in PathSet(files);
  }

  lemma SeenAreValid(snapshot: Snapshot, fold: Path -> Path)
    requires GoodSnapshot(snapshot, fold)
    ensures forall p :: Seen(ObservedOf(snapshot), p) ==> Valid(p)
  {
    KnownIsListed(snapshot, fold);
    var known := KnownPaths(snapshot);
    forall p | Seen(ObservedOf(snapshot), p) ensures Valid(p) {
      assert p in known;
      var i :| 0 <= i < |known| && known[i] == p;
      assert Parses(known[i]);
    }
  }

  /** With every output placed or covered, and no declared path an output, a layout is complete. */
  lemma EverywhereIsComplete(l: Layout, s: Sweep, ob: Observed, store: Store)
    requires ClosedView(ob) && Everywhere(l, ob, store)
    requires forall i, k :: 0 <= i < |l.outputs| && 0 <= k < |s.effective| ==> s.effective[k] != l.outputs[i].path
    ensures Complete(l, s, ob, store)
  {
    forall i | 0 <= i < |l.outputs| ensures Effected(l, ob, l.outputs[i].path) && l.outputs[i].path !in ob.directoryStates {
      OutputIsSomewhere(l, ob, store, i);
    }
  }

  lemma OutputIsSomewhere(l: Layout, ob: Observed, store: Store, i: nat)
    requires ClosedView(ob) && Everywhere(l, ob, store) && i < |l.outputs|
    ensures Effected(l, ob, l.outputs[i].path) && l.outputs[i].path !in ob.directoryStates
  {
    var dirs, o := ob.directoryStates.Keys, l.outputs[i];
    if o.path in Covered(l.outputs, dirs) {
      assert !Blocked(o.path, ob.states.Keys);
      var j :| 0 <= j < |l.outputs| && RootOf(l.outputs[j].path, dirs).Some? && l.outputs[j].path == o.path;
      RootIsHighestAbsent(ob, o.path, RootOf(o.path, dirs).value);
      assert !Seen(ob, o.path);
    } else {
      assert o in l.outputs;
      assert o in l.placed;
      var n :| 0 <= n < |l.placed| && l.placed[n] == o;
    }
  }

  /** A declared path that is swept is no output: seeds and manifest may not be declared, managed files replace. */
  lemma SweptIsNoOutput(req: Request, sel: Selection, observed: set<Path>, outputs: seq<Output>, store: Store)
    requires Selected(req, observed, sel) && req.manifest.Some? && StoredFrom(FilesToInstall(req, sel), outputs, store)
    requires req.cleanup.Some? ==> CleanupDeclared(req.cleanup.value, PathsOf(req.seeds), PathSet(sel.managed))
    ensures var cs := EffectivePaths(req, sel);
      forall i, k :: 0 <= i < |outputs| && 0 <= k < |cs| ==> cs[k] != outputs[i].path
  {
    var cs, files := EffectivePaths(req, sel), FilesToInstall(req, sel);
    SeedPathSet(req.seeds, req.blobs);
    PathSetOfLeft(SeedFiles(req.seeds, req.blobs), sel.keep);
    forall i, k | 0 <= i < |outputs| && 0 <= k < |cs| ensures cs[k] != outputs[i].path {
      assert cs[k] in cs;
      assert outputs[i].path == files[i].path;
      if i < |sel.seeds| { assert sel.seeds[i].path in PathSet(sel.seeds); }
      else if i < |sel.seeds| + |sel.managed| { assert sel.managed[i - |sel.seeds|].path in PathSet(sel.managed); }
    }
  }

  /** `OpPaths` and the entries of created trees. */
  function TouchedPaths(ops: seq<Operation>): set<Path> {
    OpPaths(ops) + TreePaths(ops)
  }

  predicate WithinPlanLimits(ops: seq<Operation>, limits: Limits) {
    |TouchedPaths(ops)| <= limits.maxPaths && |ops| <= limits.maxOperations
  }

  /** The paths an operation refers to: its own, and the entries of a tree it creates. */
  predicate RefersTo(op: Operation, p: Path) {
    p == op.path || (op.CreateTree? && exists e :: e in op.tree.entries && e.path == p)
  }

  lemma OperationTouches(op: Operation)
    ensures forall p :: p in TouchedPaths([op]) <==> RefersTo(op, p)
  {
    assert TreePaths([op]) == TreePathsOf(op) + TreePaths([op][1..]) && [op][1..] == [];
    forall p ensures p in TouchedPaths([op]) <==> RefersTo(op, p) { assert p in OpPaths([op]) <==> p == op.path; }
  }

  lemma {:induction false} TouchedConcat(a: seq<Operation>, b: seq<Operation>)
    ensures TouchedPaths(a + b) == TouchedPaths(a) + TouchedPaths(b)
    decreases |a|
  {
    assert OpPaths(a + b) == OpPaths(a) + OpPaths(b) by {
      forall p | p in OpPaths(a) + OpPaths(b) ensures p in OpPaths(a + b) {
        if i :| 0 <= i < |a| && a[i].path == p { assert (a + b)[i].path == p; }
        if i :| 0 <= i < |b| && b[i].path == p { assert (a + b)[|a| + i].path == p; }
      }
    }
    if a == [] {
      assert a + b == b;
    } else {
      assert (a + b)[1..] == a[1..] + b;
      TouchedConcat(a[1..], b);
      TreePathsConcat(a, b);
    }
  }

  lemma {:induction false} TreePathsConcat(a: seq<Operation>, b: seq<Operation>)
    ensures TreePaths(a + b) == TreePaths(a) + TreePaths(b)
    decreases |a|
  {
    if a == [] {
      assert a + b == b;
    } else {
      assert (a + b)[1..] == a[1..] + b;
      TreePathsConcat(a[1..], b);
    }
  }

  /** What a plan touches is what its operations refer to. */
  lemma {:induction false} TouchedIsReferredTo(ops: seq<Operation>, p: Path)
    ensures p in TouchedPaths(ops) <==> exists i :: 0 <= i < |ops| && RefersTo(ops[i], p)
    decreases |ops|
  {
    if ops != [] {
      assert ops == [ops[0]] + ops[1..];
      OperationTouches(ops[0]);
      TouchedConcat([ops[0]], ops[1..]);
      TouchedIsReferredTo(ops[1..], p);
      if i :| 0 <= i < |ops[1..]| && RefersTo(ops[1..][i], p) { assert RefersTo(ops[i + 1], p); }
    }
  }

  /** Counts the paths the operations refer to, and the operations, against the limits. */
  method CheckPlanLimits(ops: seq<Operation>, limits: Limits) returns (r: Result<(), Refused>)
    ensures r.Ok? <==> WithinPlanLimits(ops, limits)
  {
    var planned: set<Path> := {};
    for i := 0 to |ops|
      invariant planned == TouchedPaths(ops[..i])
    {
      OperationTouches(ops[i]);
      TouchedConcat(ops[..i], [ops[i]]);
      assert ops[..i + 1] == ops[..i] + [ops[i]];
      planned := planned + {ops[i].path} + (if ops[i].CreateTree? then EntryPaths(ops[i].tree.entries) else {});
    }
    assert ops[..|ops|] == ops;
    if |planned| > limits.maxPaths || |ops| > limits.maxOperations { return Err(PlanLimitExceeded); }
    return Ok(());
  }

  /** What is checked before anything is planned. */
  ghost predicate Checked(req: Request, snapshot: Snapshot, sel: Selection) {
    && Selected(req, ObservedOf(snapshot).states.Keys, sel) && req.manifest.Some?
    && (req.cleanup.Some? ==> CleanupDeclared(req.cleanup.value, PathsOf(req.seeds), PathSet(sel.managed)))
    && MaintenanceAgrees(req.maintenance, req.cleanup)
    && Maintenance.Lists(KnownPaths(snapshot), ObservedOf(snapshot))
    && (forall p :: Seen(ObservedOf(snapshot), p) ==> Valid(p))
  }

  /** Everything that is checked before anything is planned. */
  ghost predicate RequestAccepted(req: Request, snapshot: Snapshot, fold: Path -> Path) {
    && GoodSnapshot(snapshot, fold) && Selectable(req, ObservedOf(snapshot).states.Keys, fold)
    && Stored(req.seeds, req.blobs)
    && (req.cleanup.Some? ==>
          CleanupDeclared(req.cleanup.value, PathsOf(req.seeds), PathSet(SelectionOf(req, KeptBy(req)).managed)))
    && MaintenanceAgrees(req.maintenance, req.cleanup) && req.manifest.Some?
  }

  method CheckRequest(req: Request, snapshot: Snapshot, fold: Path -> Path) returns (r: Result<Selection, Refused>)
    ensures r.Ok? <==> RequestAccepted(req, snapshot, fold)
    ensures r.Ok? ==> Checked(req, snapshot, r.value) && r.value == SelectionOf(req, KeptBy(req))
  {
    var valid := ValidateSnapshot(snapshot, fold);
    if valid.Err? { return Err(valid.error); }
    KnownIsListed(snapshot, fold);
    SeenAreValid(snapshot, fold);
    r := SelectFiles(req, ObservedOf(snapshot).states.Keys, fold);
    if r.Err? { return; }
    if req.cleanup.Some? {
      var declared := CheckCleanupDeclaration(req.cleanup.value, PathsOf(req.seeds), PathSet(r.value.managed));
      if declared.Err? { return Err(declared.error); }
    }
    if !MaintenanceAgrees(req.maintenance, req.cleanup) { return Err(InvalidMaintenance); }
    if req.manifest.None? { return Err(InvalidManifest); }
  }

  /** If cleanup runs, the declared paths and the inventory can be swept. */
  predicate Sweepable(req: Request, sel: Selection, ob: Observed) {
    Cleans(req) ==>
      && INVENTORY in ob.states && ob.states[INVENTORY].Present?
      && Cleanable(req.cleanup.value, ob, PathSet(sel.managed))
  }

  /**
   When there is a plan for the request: it is accepted, its files can be stored and
   placed on the target, and what it declares can be swept.
   */
  ghost predicate Plannable(req: Request, snapshot: Snapshot, fold: Path -> Path) {
    && RequestAccepted(req, snapshot, fold)
    && var sel, ob := SelectionOf(req, KeptBy(req)), ObservedOf(snapshot);
      && Storable(FilesToInstall(req, sel), req.limits)
      && Placeable(OutputsFor(FilesToInstall(req, sel)), ob, true)
      && Sweepable(req, sel, ob)
  }

  lemma SelectionLays(req: Request, snapshot: Snapshot, sel: Selection)
    requires Checked(req, snapshot, sel)
    ensures var files := FilesToInstall(req, sel); DistinctFiles(files) && ValidFiles(files) && files[|files| - 1].path == MANIFEST
  {
    InstallIsDistinct(req, sel);
  }

  lemma LaidIsComplete(req: Request, snapshot: Snapshot, sel: Selection, l: Layout, s: Sweep, store: Store)
    requires ClosedView(ObservedOf(snapshot)) && Checked(req, snapshot, sel)
    requires StoredFrom(FilesToInstall(req, sel), l.outputs, store) && Everywhere(l, ObservedOf(snapshot), store)
    requires s.effective == EffectivePaths(req, sel)
    ensures Complete(l, s, ObservedOf(snapshot), store)
  {
    SweptIsNoOutput(req, sel, ObservedOf(snapshot).states.Keys, l.outputs, store);
    EverywhereIsComplete(l, s, ObservedOf(snapshot), store);
  }

  /** Plans exactly what is plannable. */
  method PlanInitial(req: Request, snapshot: Snapshot, fold: Path -> Path)
    returns (r: Result<Plan, Refused>, ghost sel: Selection, ghost l: Layout, ghost s: Sweep)
    requires ClosedView(ObservedOf(snapshot))
    requires req.cleanup.Some? ==> [] !in req.cleanup.value.cleanupPaths
    ensures r.Ok? <==> Plannable(req, snapshot, fold)
    ensures r.Ok? ==> InitialPlan(req, snapshot, r.value, sel, l, s) && r.value.kind == Initial
    ensures InPathOrder(l.trees) && InPathOrder(s.deletes) && InRemovalOrder(s.removes)
  {
    sel, l, s := Selection([], [], {}), Layout([], [], [], []), Sweep([], [], [], []);
    var ob := ObservedOf(snapshot);
    var selection := CheckRequest(req, snapshot, fold);
    if selection.Err? { return Err(selection.error), sel, l, s; }
    SelectionLays(req, snapshot, selection.value);
    var laid := LayFiles(FilesToInstall(req, selection.value), ob, req.limits, true);
    if laid.Err? { return Err(laid.error), sel, l, s; }
    var swept := PlanSweep(req, selection.value, KnownPaths(snapshot), ob);
    if swept.Err? { return Err(swept.error), sel, l, s; }
    var (layout, store) := laid.value;
    sel, l, s := selection.value, layout, swept.value;
    LaidIsComplete(req, snapshot, sel, l, s, store);
    assert OutputsFor(FilesToInstall(req, sel))[|FilesToInstall(req, sel)| - 1].path == MANIFEST;
    r := Ok(Plan(Initial, req.target, layout.plain + layout.trees + SweepOperations(swept.value), store));
  }

  /**
   Compiles exactly the plannable requests whose plan, the `candidate`, is within the
   limits.  A path of this program has at least one component; `fold` lower-cases.
   */
  method CompileInitialPlan(req: Request, snapshot: Snapshot, fold: Path -> Path)
    returns (r: Result<Plan, Refused>, ghost candidate: Plan, ghost sel: Selection, ghost l: Layout, ghost s: Sweep)
    requires ClosedView(ObservedOf(snapshot))
    requires req.cleanup.Some? ==> [] !in req.cleanup.value.cleanupPaths
    ensures Plannable(req, snapshot, fold) ==> InitialPlan(req, snapshot, candidate, sel, l, s) && candidate.kind == Initial
    ensures r.Ok? <==> Plannable(req, snapshot, fold) && WithinPlanLimits(candidate.operations, req.limits)
    ensures r.Ok? ==> r.value == candidate
    ensures r.Ok? ==>
      Plannable(req, snapshot, fold) && WithinPlanLimits(r.value.operations, req.limits) && r.value.kind == Initial
    ensures InPathOrder(l.trees) && InPathOrder(s.deletes) && InRemovalOrder(s.removes)
  {
    candidate := Plan(Initial, req.target, [], EmptyStore(req.limits));
    r, sel, l, s := PlanInitial(req, snapshot, fold);
    if r.Err? { return; }
    candidate := r.value;
    var within := CheckPlanLimits(r.value.operations, req.limits);
    if within.Err? { r := Err(within.error); }
  }

  // What a compiled initial plan means

  /**
   The compiled plan is accepted exactly when its cleanup, if it runs, repeats no
   declared path, declares no directory above an output or the inventory, and the
   inventory is no output.  It then means the overlay.
   */
  lemma InitialPlanMeansOverlay(req: Request, snapshot: Snapshot, t: Tree, plan: Plan, sel: Selection, l: Layout, s: Sweep)
    requires Closed(t) && Observes(snapshot, t) && InitialPlan(req, snapshot, plan, sel, l, s)
    ensures Applied(snapshot, plan).Ok? <==> Fits(l, s)
    ensures Fits(l, s) ==>
      Overlaid(Applied(snapshot, plan).value, StartOverlay(snapshot), l, s, ObservedOf(snapshot), plan.store)
    ensures Fits(l, s) ==> Executable(plan.operations, plan.store, t)
  {
    LaidPlanMeansOverlay(snapshot, plan, t, l, s);
    if Fits(l, s) { LaidPlanExecutes(snapshot, plan, t, l, s); }
  }

  /**
   Where cleanup does not run, because maintenance is retained or no contract is given,
   every compiled initial plan is accepted, its receipt carries it whole, it deletes
   and removes nothing, and every observed file it does not install stays as it was.
   */
  lemma RetainingPlanIsAccepted(req: Request, snapshot: Snapshot, t: Tree, plan: Plan, sel: Selection, l: Layout, s: Sweep)
    requires Closed(t) && Observes(snapshot, t) && InitialPlan(req, snapshot, plan, sel, l, s)
    requires !Cleans(req)
    ensures Applied(snapshot, plan).Ok? && AllSurvive(plan.operations)
    ensures forall op :: op in plan.operations ==> !op.DeleteFile? && !op.RemoveEmptyDirectory?
    ensures forall p :: p in t.files && !IsOutput(l, p) ==> StaysAsWas(Applied(snapshot, plan).value, t, p)
  {
    var ob := ObservedOf(snapshot);
    ObservedIsClosed(ob, t);
    InitialPlanMeansOverlay(req, snapshot, t, plan, sel, l, s);
    InitialPlanSurvives(req, snapshot, plan, sel, l, s);
    NothingIsSwept(s, ob);
    LayoutRemovesNothing(l, ob, plan.store);
    forall p | p in t.files && !IsOutput(l, p) ensures StaysAsWas(Applied(snapshot, plan).value, t, p) {
      OtherFilesStay(snapshot, plan, t, l, s, p);
    }
  }

  lemma NothingIsSwept(s: Sweep, ob: Observed)
    requires Swept(s, ob) && s.inventory == []
    ensures SweepOperations(s) == [] && forall p :: !Gone(s, ob, p)
  {
    forall op ensures op !in s.deletes && op !in s.removes { }
    WithoutElements(s.deletes);
    WithoutElements(s.removes);
  }

  lemma HeadIsIn(ops: seq<Operation>)
    requires ops != []
    ensures ops[0] in ops
  {
  }

  lemma WithoutElements(ops: seq<Operation>)
    requires forall op :: op !in ops
    ensures ops == []
  {
    if ops != [] {
      HeadIsIn(ops);
      assert false;
    }
  }

  predicate MayReplace(req: Request, p: Path) {
    match req.declarations
    case None => true
    case Some(ds) => exists i :: 0 <= i < |ds| && ds[i].path == p && ds[i].action.Replace?
  }

  /** An installed path that meets an observed file was declared `replace`, and is no legal path. */
  lemma CollidingIsDeclared(req: Request, sel: Selection, observed: set<Path>, p: Path)
    requires Selected(req, observed, sel) && req.declarations.Some?
    requires p in PathSet(sel.seeds + sel.managed) && p in observed
    ensures MayReplace(req, p) && p !in req.legal
  {
    var ds := req.declarations.value;
    SeedPathSet(req.seeds, req.blobs);
    PathSetOfAll(req.managed, req.lifecycle);
    PathSetOfLeft(SeedFiles(req.seeds, req.blobs), sel.keep);
    PathSetOfLeft(AllManaged(req.managed, req.lifecycle), sel.keep);
    PathSetOfConcat(sel.seeds, sel.managed);
    assert p in PlannedPaths(req) * observed && p !in sel.keep;
    var i :| 0 <= i < |ds| && ds[i].path == p;
    assert forall k :: 0 <= k < |ds| && ds[k].action.KeepExisting? ==> ds[k].path in Kept(ds);
    assert Acceptable(ds[i], PlannedPaths(req) * observed, req.legal);
  }

  lemma CoveredIsUnseen(ob: Observed, p: Path)
    requires ClosedView(ob) && Valid(p) && !Blocked(p, ob.states.Keys)
    ensures RootOf(p, ob.directoryStates.Keys).Some? ==> !Seen(ob, p)
  {
    if RootOf(p, ob.directoryStates.Keys).Some? { RootIsHighestAbsent(ob, p, RootOf(p, ob.directoryStates.Keys).value); }
  }

  lemma OutputIsSelected(req: Request, snapshot: Snapshot, plan: Plan, sel: Selection, l: Layout, s: Sweep, p: Path)
    requires InitialPlan(req, snapshot, plan, sel, l, s) && ClosedView(ObservedOf(snapshot))
    requires IsOutput(l, p) && p in ObservedOf(snapshot).states
    ensures p in PathSet(sel.seeds + sel.managed)
  {
    var ob := ObservedOf(snapshot);
    var i :| 0 <= i < |l.outputs| && l.outputs[i].path == p;
    var both := sel.seeds + sel.managed;
    assert !Blocked(l.outputs[i].path, ob.states.Keys);
    CoveredIsUnseen(ob, p);
    if i < |both| {
      assert both[i].path == p;
    }
  }

  predicate StaysAsWas(r: ExpectedTarget, t: Tree, p: Path) {
    p in t.files && p in r.files && Node(r.files[p].content, r.files[p].mode) == t.files[p]
  }

  /** A file that is neither an output nor gone is exactly what it was. */
  lemma OtherFilesStay(snapshot: Snapshot, plan: Plan, t: Tree, l: Layout, s: Sweep, p: Path)
    requires Closed(t) && Observes(snapshot, t)
    requires plan.operations == l.plain + l.trees + SweepOperations(s)
    requires Complete(l, s, ObservedOf(snapshot), plan.store) && Swept(s, ObservedOf(snapshot))
    requires Applied(snapshot, plan).Ok? && p in t.files && !IsOutput(l, p) && !Gone(s, ObservedOf(snapshot), p)
    ensures StaysAsWas(Applied(snapshot, plan).value, t, p)
  {
    LaidPlanMeansOverlay(snapshot, plan, t, l, s);
    StartDescribes(snapshot, t);
    assert p in Nodes(StartOverlay(snapshot).files);
  }

  lemma UndeclaredIsNoOutput(
    req: Request, snapshot: Snapshot, plan: Plan, sel: Selection, l: Layout, s: Sweep, p: Path)
    requires InitialPlan(req, snapshot, plan, sel, l, s) && ClosedView(ObservedOf(snapshot))
    requires req.declarations.Some? && p in ObservedOf(snapshot).states
    requires !MayReplace(req, p) || p in req.legal
    ensures !IsOutput(l, p)
  {
    if IsOutput(l, p) {
      OutputIsSelected(req, snapshot, plan, sel, l, s, p);
      CollidingIsDeclared(req, sel, ObservedOf(snapshot).states.Keys, p);
    }
  }

  /**
   Adoption never clobbers silently: an observed file that is not declared
   `replace`, or that is a legal path, and that cleanup does not take, is afterwards
   exactly what it was.
   */
  lemma AdoptionKeepsUndeclared(
    req: Request, snapshot: Snapshot, t: Tree, plan: Plan, sel: Selection, l: Layout, s: Sweep, p: Path)
    requires Closed(t) && Observes(snapshot, t) && InitialPlan(req, snapshot, plan, sel, l, s)
    requires req.declarations.Some? && Applied(snapshot, plan).Ok?
    requires p in t.files && (!MayReplace(req, p) || p in req.legal) && !Gone(s, ObservedOf(snapshot), p)
    ensures StaysAsWas(Applied(snapshot, plan).value, t, p)
  {
    ObservedIsClosed(ObservedOf(snapshot), t);
    UndeclaredIsNoOutput(req, snapshot, plan, sel, l, s, p);
    OtherFilesStay(snapshot, plan, t, l, s, p);
  }

  // What recovery can rebuild

  lemma ManifestIsPortable()
    ensures Portable(MANIFEST)
  {
    ManifestIsWithinLimits();
    ManifestParses();
  }

  predicate PlainText(s: string) {
    s != [] && s != "." && s != ".." && forall i :: 0 <= i < |s| ==> s[i] != '/' && s[i] != '\\' && s[i] as int >= 0x20
  }

  lemma PlainComponentsParse(p: Path)
    requires p != [] && forall i :: 0 <= i < |p| ==> PlainText(p[i])
    ensures Parses(p)
  {
  }

  lemma ManifestParses()
    ensures Parses(MANIFEST)
  {
    assert PlainText(".rygor");
    assert PlainText("project.json");
    PlainComponentsParse(MANIFEST);
  }

  predicate Ascii(s: string) {
    forall i :: 0 <= i < |s| ==> s[i] as int < 0x80
  }

  lemma {:induction false} AsciiLength(s: string)
    requires Ascii(s)
    ensures Utf8Length(s) == |s|
    decreases |s|
  {
    if s != [] { AsciiLength(s[1..]); }
  }

  lemma TwoComponents(a: string, b: string)
    requires Ascii(a) && Ascii(b) && |a| <= 255 && |b| <= 255
    ensures WithinLimits([a, b])
  {
    assert [a, b][1..] == [b];
    AsciiLength(a);
    AsciiLength(b);
    AsciiLength("/");
    Utf8LengthConcat(a + "/", b);
    Utf8LengthConcat(a, "/");
  }

  lemma ManifestIsWithinLimits()
    ensures WithinLimits(MANIFEST)
  {
    assert Ascii(".rygor");
    assert Ascii("project.json");
    TwoComponents(".rygor", "project.json");
  }

  lemma InstalledOutputsSurvive(files: seq<RenderFile>, outputs: seq<Output>, store: Store)
    requires StoredFrom(files, outputs, store) && InstallableFiles(files)
    ensures AllInstallable(outputs)
  {
    forall i | 0 <= i < |outputs| ensures Installable(outputs[i].path, outputs[i].mode) {
      assert files[i] in files && outputs[i] == OutputOf(files[i]);
    }
  }

  /**
   The journaled receipt of a compiled initial plan can be rebuilt into the plan
   exactly when every path the cleanup takes is within the path limits: declared
   paths are checked against them, what lies below a declared directory is not.
   */
  lemma InitialPlanSurvives(req: Request, snapshot: Snapshot, plan: Plan, sel: Selection, l: Layout, s: Sweep)
    requires ClosedView(ObservedOf(snapshot)) && InitialPlan(req, snapshot, plan, sel, l, s)
    ensures AllSurvive(plan.operations) <==> forall op :: op in SweepOperations(s) ==> Portable(op.path)
  {
    var ob := ObservedOf(snapshot);
    ManifestIsPortable();
    InstalledOutputsSurvive(FilesToInstall(req, sel), l.outputs, plan.store);
    LayoutSurvives(l, ob, plan.store);
    SweepSurvives(l, s, ob, plan.operations);
  }

  lemma SweptSurvives(s: Sweep, ob: Observed, op: Operation)
    requires Swept(s, ob) && op in SweepOperations(s)
    ensures Survives(op) <==> Portable(op.path)
  {
    assert op in s.deletes || op in s.removes || op in s.inventory;
  }

  lemma SurvivorsOf(ops: seq<Operation>)
    ensures AllSurvive(ops) <==> forall op :: op in ops ==> Survives(op)
  {
    if AllSurvive(ops) {
      forall op | op in ops ensures Survives(op) {
        var i :| 0 <= i < |ops| && ops[i] == op;
      }
    }
  }

  lemma SweepSurvives(l: Layout, s: Sweep, ob: Observed, ops: seq<Operation>)
    requires Swept(s, ob) && ops == l.plain + l.trees + SweepOperations(s)
    requires forall op :: op in l.plain || op in l.trees ==> Survives(op)
    ensures AllSurvive(ops) <==> forall op :: op in SweepOperations(s) ==> Portable(op.path)
  {
    SurvivorsOf(ops);
    forall op | op in SweepOperations(s) ensures Survives(op) <==> Portable(op.path) { SweptSurvives(s, ob, op); }
    assert forall op :: op in ops <==> op in l.plain || op in l.trees || op in SweepOperations(s);
  }
}
