/** Small inputs the compilers accept, each at the edge of what their plans can do. */
module Inputs {
  import opened Results
  import opened Paths
  import opened Sorting
  import opened Identity
  import opened Plans
  import opened Targets
  import opened Inversion
  import opened Apply
  import opened Agreement
  import opened Receipts
  import opened Outputs
  import opened Trees
  import opened Grouping
  import opened Maintenance
  import opened Layouts
  import opened Laying
  import opened Cleaning
  import opened Soundness
  import opened Adoption
  import opened Initial
  import Restore
  import Reconcile

  const SMALL := Limits(100, 100, 1000, 1000)

  /** All paths below are lower case already. */
  function Lower(p: Path): Path { p }

  function EmptyFile(p: Path): ObservedFile {
    ObservedFile(p, ObservedState([], FILE_MODE), [])
  }

  function EmptyDirectory(p: Path): ObservedDirectory {
    ObservedDirectory(p, DirectoryState(DIRECTORY_MODE, []))
  }

  lemma PlainParses(p: Path)
    requires p != [] && forall i :: 0 <= i < |p| ==> PlainText(p[i])
    ensures Parses(p) && Valid(p)
  {
    PlainComponentsParse(p);
  }

  lemma OneInOrder(p: Path)
    requires Valid(p)
    ensures InOrder([p]) && InOrder([])
  {
    SortingIsOrder([p]);
    SortingIsOrder([]);
  }

  lemma TwoInOrder(a: Path, b: Path)
    requires Valid(a) && Valid(b) && Render(a)[0] < Render(b)[0]
    ensures InOrder([a, b])
  {
    SortingIsOrder([a, b]);
  }

  lemma {:induction false} NothingToStore(ds: seq<Digest>)
    requires forall d :: d in ds ==> d == Sha256([])
    ensures TotalBytes(ds) == 0
    decreases |ds|
  {
    if ds != [] {
      assert ds[0] in ds && forall d :: d in ds[1..] ==> d in ds;
      NothingToStore(ds[1..]);
    }
  }

  lemma EmptyFilesFit(files: seq<RenderFile>)
    requires forall f :: f in files ==> f.content == []
    requires forall f, g :: f in files && g in files ==> !Above(f.path, g.path)
    ensures Storable(files, SMALL)
  {
    var added := NewContents(files, EmptyStore(SMALL).index.Keys);
    forall d | d in added ensures d == Sha256([]) {
      var i :| 0 <= i < |files| && Sha256(files[i].content) == d;
      assert files[i] in files;
    }
    NothingToStore(added);
    forall i, j | 0 <= i < |files| && 0 <= j < |files| ensures !Above(files[i].path, files[j].path) {
      assert files[i] in files && files[j] in files;
    }
  }

  // Observations of a few paths

  lemma OneFileState(a: ObservedFile)
    ensures FileStates([a]) == map[a.path := a.state]
  {
    assert [a][..0] == [];
  }

  lemma TwoFileStates(a: ObservedFile, b: ObservedFile)
    ensures FileStates([a, b]) == map[a.path := a.state][b.path := b.state]
  {
    OneFileState(a);
    assert [a, b][..1] == [a];
  }

  lemma OneDirectoryState(a: ObservedDirectory)
    ensures DirectoryStates([a]) == map[a.path := a.state]
  {
    assert [a][..0] == [];
  }

  lemma TwoDirectoryStates(a: ObservedDirectory, b: ObservedDirectory)
    ensures DirectoryStates([a, b]) == map[a.path := a.state][b.path := b.state]
  {
    OneDirectoryState(a);
    assert [a, b][..1] == [a];
  }

  /** Two directories with an empty file in each. */
  function FileInEach(a: Path, c: Path, b: Path, d: Path): Snapshot {
    Snapshot([EmptyFile(c), EmptyFile(d)], [EmptyDirectory(a), EmptyDirectory(b)])
  }

  function TreeInEach(a: Path, c: Path, b: Path, d: Path): Tree {
    Tree(map[c := Node([], FILE_MODE)][d := Node([], FILE_MODE)], map[a := DIRECTORY_MODE][b := DIRECTORY_MODE])
  }

  /** The two directories are at the top, in order, with their files right below them. */
  predicate TwoNests(a: Path, c: Path, b: Path, d: Path) {
    && Parses(a) && Parses(b) && Parses(c) && Parses(d)
    && |a| == |b| == 1 && |c| == |d| == 2 && Parent(c) == a && Parent(d) == b
    && Render(a)[0] < Render(b)[0] && Render(c)[0] < Render(d)[0]
  }

  lemma FilesAreObserved(a: Path, c: Path, b: Path, d: Path)
    ensures ObservedOf(FileInEach(a, c, b, d)).states == map[c := ObservedState([], FILE_MODE)][d := ObservedState([], FILE_MODE)]
    ensures ObservedOf(FileInEach(a, c, b, d)).directoryStates
      == map[a := DirectoryState(DIRECTORY_MODE, [])][b := DirectoryState(DIRECTORY_MODE, [])]
  {
    TwoFileStates(EmptyFile(c), EmptyFile(d));
    TwoDirectoryStates(EmptyDirectory(a), EmptyDirectory(b));
  }

  lemma NestsAreClosed(a: Path, c: Path, b: Path, d: Path)
    requires TwoNests(a, c, b, d)
    ensures Closed(TreeInEach(a, c, b, d)) && Observes(FileInEach(a, c, b, d), TreeInEach(a, c, b, d))
  {
    FilesAreObserved(a, c, b, d);
  }

  lemma NestsAreGood(a: Path, c: Path, b: Path, d: Path)
    requires TwoNests(a, c, b, d)
    ensures GoodSnapshot(FileInEach(a, c, b, d), Lower)
  {
    var s := FileInEach(a, c, b, d);
    assert ObservedFilePaths(s) == [c, d] && ObservedDirectoryPaths(s) == [a, b];
    TwoInOrder(c, d);
    TwoInOrder(a, b);
  }

  // Cleanup

  const HOME: Path := [".rygor"]
  const DIR: Path := ["d"]

  function LongName(): string { seq(256, _ => 'a') }

  /** A file below `DIR` whose name is one byte too long for a receipt. */
  function LongFile(): Path { ["d", LongName()] }

  function CrowdedTree(): Tree { TreeInEach(HOME, INVENTORY, DIR, LongFile()) }
  function Crowded(): Snapshot { FileInEach(HOME, INVENTORY, DIR, LongFile()) }

  lemma CrowdedNests()
    ensures TwoNests(HOME, INVENTORY, DIR, LongFile())
  {
    assert PlainText(".rygor");
    assert PlainText("maintenance-artifacts.json");
    assert PlainText("d");
    assert PlainText(LongName());
    PlainParses(INVENTORY);
    PlainParses(LongFile());
    PlainParses(HOME);
    PlainParses(DIR);
  }

  /** Nothing but the manifest is installed, and these paths are cleaned. */
  function CleaningRequest(cs: seq<Path>): Request {
    Request([], EmptyStore(SMALL), [], [], None, {}, CleanMaintenance, Some(CleanupContract([], cs)), Some([]), SMALL, 0)
  }

  lemma HasPlace(f: RenderFile, a: Path, c: Path, b: Path, d: Path)
    requires |f.path| == |c| == |d| == 2 && |a| == |b| == 1 && Parent(f.path) == a && f.path != c && f.path != d
    ensures Placeable(OutputsFor([f]), ObservedOf(FileInEach(a, c, b, d)), true)
  {
    var ob := ObservedOf(FileInEach(a, c, b, d));
    FilesAreObserved(a, c, b, d);
    assert OutputsFor([f]) == [OutputOf(f)];
    assert f.path[..1] == a && Nearest(f.path, ob.directoryStates.Keys, 1) == 1;
    assert AbsentParents(f.path, ob.directoryStates.Keys) == [];
    forall p | p in ob.states ensures !Above(p, f.path) { }
  }

  lemma TopIsWithinLimits()
    ensures WithinLimits(HOME) && WithinLimits(DIR)
  {
    assert Ascii(".rygor") && Ascii("d");
    AsciiLength(".rygor");
    AsciiLength("d");
  }

  lemma NothingSelected(req: Request)
    requires req.seeds == [] && req.managed == [] && req.lifecycle == [] && req.manifest == Some([])
    ensures PathsOf(req.seeds) == {} && PathSet(req.managed) == {} && Stored(req.seeds, req.blobs)
    ensures SelectionOf(req, {}) == Selection([], [], {})
    ensures FilesToInstall(req, SelectionOf(req, {})) == [RenderFile(MANIFEST, Text, FILE_MODE, [])]
  {
  }

  lemma TopsAreDeclared(contract: CleanupContract)
    requires forall c :: c in contract.cleanupPaths ==> |c| == 1 && WithinLimits(c)
    ensures CleanupDeclared(contract, {}, {})
  {
  }

  lemma TopsAreCleanable(contract: CleanupContract, ob: Observed)
    requires contract.lifecyclePaths == []
    requires forall c :: c in contract.cleanupPaths ==> |c| == 1 && c in ob.directoryStates && c !in ob.states
    ensures Cleanable(contract, ob, {})
  {
    forall i, j | 0 <= i < |contract.cleanupPaths| && 0 <= j < |contract.cleanupPaths|
      ensures |contract.cleanupPaths[i]| == |contract.cleanupPaths[j]|
    {
      assert contract.cleanupPaths[i] in contract.cleanupPaths && contract.cleanupPaths[j] in contract.cleanupPaths;
    }
  }

  lemma BareIsAccepted(req: Request, snapshot: Snapshot)
    requires req.seeds == [] && req.managed == [] && req.lifecycle == [] && req.manifest == Some([]) && req.declarations == None
    requires req.maintenance.CleanMaintenance? && (req.cleanup.Some? ==> CleanupDeclared(req.cleanup.value, {}, {}))
    requires GoodSnapshot(snapshot, Lower)
    ensures RequestAccepted(req, snapshot, Lower)
  {
    NothingSelected(req);
    BareIsSelectable(req, ObservedOf(snapshot).states.Keys);
  }

  lemma BareIsSelectable(req: Request, observed: set<Path>)
    requires req.seeds == [] && req.managed == [] && req.lifecycle == [] && req.declarations == None
    ensures Selectable(req, observed, Lower)
  {
    SortingIsOrder([]);
    assert OutputPathsIn(req.seeds) == [] && FilePathsIn(req.managed) == [];
  }

  lemma BareIsPlannable(req: Request, snapshot: Snapshot, file: RenderFile)
    requires req.seeds == [] && req.managed == [] && req.lifecycle == [] && req.manifest == Some([])
    requires RequestAccepted(req, snapshot, Lower) && req.declarations == None && req.limits == SMALL
    requires file == RenderFile(MANIFEST, Text, FILE_MODE, []) && Placeable(OutputsFor([file]), ObservedOf(snapshot), true)
    requires Sweepable(req, Selection([], [], {}), ObservedOf(snapshot))
    ensures Plannable(req, snapshot, Lower)
  {
    NothingSelected(req);
    EmptyFilesFit([file]);
  }

  lemma NestIsAccepted(cs: seq<Path>, a: Path, b: Path, d: Path)
    requires TwoNests(a, INVENTORY, b, d) && WithinLimits(a) && WithinLimits(b)
    requires forall c :: c in cs ==> c == a || c == b
    ensures RequestAccepted(CleaningRequest(cs), FileInEach(a, INVENTORY, b, d), Lower)
  {
    TopsAreDeclared(CleanupContract([], cs));
    NestsAreGood(a, INVENTORY, b, d);
    BareIsAccepted(CleaningRequest(cs), FileInEach(a, INVENTORY, b, d));
  }

  lemma NestIsSweepable(cs: seq<Path>, a: Path, b: Path, d: Path)
    requires TwoNests(a, INVENTORY, b, d)
    requires forall c :: c in cs ==> c == a || c == b
    ensures Sweepable(CleaningRequest(cs), Selection([], [], {}), ObservedOf(FileInEach(a, INVENTORY, b, d)))
  {
    FilesAreObserved(a, INVENTORY, b, d);
    TopsAreCleanable(CleanupContract([], cs), ObservedOf(FileInEach(a, INVENTORY, b, d)));
    assert PathSet([]) == {};
  }

  lemma NestCleaning(cs: seq<Path>, a: Path, b: Path, d: Path, file: RenderFile)
    requires TwoNests(a, INVENTORY, b, d) && WithinLimits(a) && WithinLimits(b)
    requires file == RenderFile(MANIFEST, Text, FILE_MODE, [])
    requires |file.path| == 2 && Parent(file.path) == a && file.path != INVENTORY && file.path != d
    requires forall c :: c in cs ==> c == a || c == b
    ensures Plannable(CleaningRequest(cs), FileInEach(a, INVENTORY, b, d), Lower)
  {
    NestIsAccepted(cs, a, b, d);
    NestIsSweepable(cs, a, b, d);
    HasPlace(file, a, INVENTORY, b, d);
    BareIsPlannable(CleaningRequest(cs), FileInEach(a, INVENTORY, b, d), file);
  }

  lemma CleaningIsPlannable(cs: seq<Path>)
    requires forall c :: c in cs ==> c == HOME || c == DIR
    ensures Plannable(CleaningRequest(cs), Crowded(), Lower)
  {
    TopIsWithinLimits();
    CrowdedNests();
    NestCleaning(cs, HOME, DIR, LongFile(), RenderFile(MANIFEST, Text, FILE_MODE, []));
  }

  lemma CleanedTarget()
    ensures Closed(CrowdedTree()) && Observes(Crowded(), CrowdedTree())
    ensures LongFile() in ObservedOf(Crowded()).states && DIR !in ObservedOf(Crowded()).states
    ensures ClosedView(ObservedOf(Crowded()))
  {
    CrowdedNests();
    NestsAreClosed(HOME, INVENTORY, DIR, LongFile());
    FilesAreObserved(HOME, INVENTORY, DIR, LongFile());
    ObservedIsClosed(ObservedOf(Crowded()), CrowdedTree());
  }

  /** What every plan of such a request sweeps and installs. */
  lemma CleaningPlan(cs: seq<Path>, plan: Plan, sel: Selection, l: Layout, s: Sweep)
    requires InitialPlan(CleaningRequest(cs), Crowded(), plan, sel, l, s)
    ensures s.inventory != [] && Swept(s, ObservedOf(Crowded()))
    ensures s.effective == Effective(cs, {}) && |l.outputs| == 1 && l.outputs[0].path == MANIFEST
  {
    NothingSelected(CleaningRequest(cs));
    assert PathSet([]) == {};
  }

  lemma {:induction false} EffectiveIsAll(cs: seq<Path>)
    ensures Effective(cs, {}) == cs
    decreases |cs|
  {
    if cs != [] { EffectiveIsAll(cs[..|cs| - 1]); }
  }

  lemma TwiceMisfits(l: Layout, s: Sweep, c: Path)
    requires s.effective == [c, c]
    ensures !Fits(l, s)
  {
    assert s.effective[0] == s.effective[1];
  }

  lemma AboveMisfits(l: Layout, s: Sweep, c: Path, m: Path)
    requires s.effective == [c] && |l.outputs| == 1 && l.outputs[0].path == m && Above(c, m)
    ensures !Fits(l, s)
  {
    assert Above(s.effective[0], l.outputs[0].path);
  }

  lemma ApartFits(l: Layout, s: Sweep, c: Path, m: Path)
    requires s.effective == [c] && |l.outputs| == 1 && l.outputs[0].path == m && m != INVENTORY
    requires !Above(c, m) && !Above(c, INVENTORY)
    ensures Fits(l, s)
  {
  }

  lemma CleaningMeans(cs: seq<Path>, plan: Plan, sel: Selection, l: Layout, s: Sweep)
    requires InitialPlan(CleaningRequest(cs), Crowded(), plan, sel, l, s)
    ensures Applied(Crowded(), plan).Ok? <==> Fits(l, s)
    ensures AllSurvive(plan.operations) <==> forall op :: op in SweepOperations(s) ==> Portable(op.path)
  {
    CleanedTarget();
    InitialPlanMeansOverlay(CleaningRequest(cs), Crowded(), CrowdedTree(), plan, sel, l, s);
    InitialPlanSurvives(CleaningRequest(cs), Crowded(), plan, sel, l, s);
  }

  /** A cleanup that declares a path twice compiles, and is refused when it is applied. */
  lemma RepeatedCleanupIsRefused(plan: Plan, sel: Selection, l: Layout, s: Sweep)
    ensures Plannable(CleaningRequest([DIR, DIR]), Crowded(), Lower)
    ensures InitialPlan(CleaningRequest([DIR, DIR]), Crowded(), plan, sel, l, s) ==> Applied(Crowded(), plan).Err?
  {
    CleaningIsPlannable([DIR, DIR]);
    if InitialPlan(CleaningRequest([DIR, DIR]), Crowded(), plan, sel, l, s) {
      CleaningPlan([DIR, DIR], plan, sel, l, s);
      EffectiveIsAll([DIR, DIR]);
      CleaningMeans([DIR, DIR], plan, sel, l, s);
      TwiceMisfits(l, s, DIR);
    }
  }

  /** A cleanup of the directory that holds the manifest compiles, and is refused when it is applied. */
  lemma ContainingCleanupIsRefused(plan: Plan, sel: Selection, l: Layout, s: Sweep)
    ensures Plannable(CleaningRequest([HOME]), Crowded(), Lower)
    ensures InitialPlan(CleaningRequest([HOME]), Crowded(), plan, sel, l, s) ==> Applied(Crowded(), plan).Err?
  {
    CleaningIsPlannable([HOME]);
    if InitialPlan(CleaningRequest([HOME]), Crowded(), plan, sel, l, s) {
      CleaningPlan([HOME], plan, sel, l, s);
      EffectiveIsAll([HOME]);
      CleaningMeans([HOME], plan, sel, l, s);
      HomeIsAbove();
      AboveMisfits(l, s, HOME, MANIFEST);
    }
  }

  lemma LongFileIsNotPortable()
    ensures !Portable(LongFile())
  {
    assert Ascii(LongName());
    AsciiLength(LongName());
    assert Utf8Length(LongFile()[1]) == 256;
  }

  /**
   A cleanup of a directory that holds a file with a long name compiles to a plan that
   can be applied, but that its receipt cannot carry.
   */
  lemma LongFileIsLost(plan: Plan, sel: Selection, l: Layout, s: Sweep)
    ensures Plannable(CleaningRequest([DIR]), Crowded(), Lower)
    ensures InitialPlan(CleaningRequest([DIR]), Crowded(), plan, sel, l, s) ==>
      Applied(Crowded(), plan).Ok? && !AllSurvive(plan.operations)
  {
    CleaningIsPlannable([DIR]);
    if InitialPlan(CleaningRequest([DIR]), Crowded(), plan, sel, l, s) {
      CleaningPlan([DIR], plan, sel, l, s);
      EffectiveIsAll([DIR]);
      LongFileIsSwept(s);
      LongFileIsNotPortable();
      CleaningMeans([DIR], plan, sel, l, s);
      ApartFromDir();
      ApartFits(l, s, DIR, MANIFEST);
    }
  }

  lemma HomeIsAbove()
    ensures Above(HOME, MANIFEST)
  {
    assert MANIFEST[..1] == HOME;
  }

  lemma ApartFromDir()
    ensures !Above(DIR, MANIFEST) && !Above(DIR, INVENTORY) && MANIFEST != INVENTORY
  {
    assert MANIFEST[..1][0] != DIR[0] && INVENTORY[..1][0] != DIR[0];
  }

  lemma LongFileIsSwept(s: Sweep)
    requires Swept(s, ObservedOf(Crowded())) && s.effective == [DIR]
    ensures exists op :: op in SweepOperations(s) && op.path == LongFile()
  {
    CleanedTarget();
    var ob := ObservedOf(Crowded());
    var op := DeleteFile(LongFile(), ob.states[LongFile()]);
    assert LongFile()[..1] == DIR;
    assert Takes(s.effective[0], ob, LongFile());
    assert op in s.deletes;
  }

  // Adoption

  /** One empty file at the top. */
  function OneFile(p: Path): Snapshot { Snapshot([EmptyFile(p)], []) }
  function OneFileTree(p: Path): Tree { Tree(map[p := Node([], FILE_MODE)], map[]) }

  lemma OneFileObserves(p: Path)
    requires |p| == 1 && Parses(p)
    ensures ObservedOf(OneFile(p)) == Observed(map[p := ObservedState([], FILE_MODE)], map[])
    ensures Closed(OneFileTree(p)) && Observes(OneFile(p), OneFileTree(p))
    ensures GoodSnapshot(OneFile(p), Lower)
  {
    OneFileState(EmptyFile(p));
    assert ObservedFilePaths(OneFile(p)) == [p] && ObservedDirectoryPaths(OneFile(p)) == [];
    OneInOrder(p);
  }

  function EmptyText(p: Path): RenderFile { RenderFile(p, Text, FILE_MODE, []) }

  /** The file at `p` is adopted: declared for replacement, with clean maintenance and nothing to clean. */
  function AdoptionRequest(p: Path): Request {
    Request([], EmptyStore(SMALL), [EmptyText(p)], [], Some([Declaration(p, Replace)]), {}, CleanMaintenance, None, Some([]), SMALL, 0)
  }

  lemma EmptyTextIsGood(f: RenderFile)
    requires f == EmptyText(f.path) && Parses(f.path) && WithinLimits(f.path)
    ensures GoodFiles([f], Lower)
  {
    assert FilePathsIn([f]) == [f.path];
    OneInOrder(f.path);
  }

  lemma AdoptionIsSelectable(p: Path)
    requires |p| == 1 && Parses(p) && WithinLimits(p)
    ensures Selectable(AdoptionRequest(p), {p}, Lower)
  {
    EmptyTextIsGood(EmptyText(p));
    SortingIsOrder([]);
    var req := AdoptionRequest(p);
    assert req.managed[0].path == p && PathSet(req.managed) == {p} && OutputPathsIn(req.seeds) == [];
    assert req.declarations.value[0].path == p;
  }

  lemma AdoptionSelects(p: Path)
    ensures KeptBy(AdoptionRequest(p)) == {} && Stored(AdoptionRequest(p).seeds, AdoptionRequest(p).blobs)
    ensures FilesToInstall(AdoptionRequest(p), SelectionOf(AdoptionRequest(p), {})) == [EmptyText(p), EmptyText(MANIFEST)]
  {
    var req := AdoptionRequest(p);
    assert [EmptyText(p)][..0] == [];
    assert Left([EmptyText(p)], {}) == [EmptyText(p)] && SeedFiles([], req.blobs) == [];
  }

  lemma NewDirectoryNeeded(f: RenderFile)
    requires |f.path| == 2
    ensures RootOf(f.path, {}).Some?
  {
  }

  lemma TopHasPlace(f: RenderFile, m: RenderFile, p: Path)
    requires |p| == 1 && f.path == p && |m.path| == 2 && Parent(m.path) != p
    ensures Placeable(OutputsFor([f, m]), Observed(map[p := ObservedState([], FILE_MODE)], map[]), true)
  {
    assert OutputsFor([f, m]) == [OutputOf(f), OutputOf(m)];
    NewDirectoryNeeded(m);
    assert m.path[..1] == Parent(m.path);
  }

  lemma ManifestIsElsewhere(p: Path)
    requires p != HOME
    ensures |MANIFEST| == 2 && Parent(MANIFEST) != p
  {
    assert Parent(MANIFEST) == HOME;
  }

  lemma AdoptionHasPlace(p: Path)
    requires |p| == 1 && Parses(p) && p != HOME
    ensures Placeable(OutputsFor([EmptyText(p), EmptyText(MANIFEST)]), ObservedOf(OneFile(p)), true)
  {
    OneFileObserves(p);
    ManifestIsElsewhere(p);
    TopHasPlace(EmptyText(p), EmptyText(MANIFEST), p);
  }

  lemma ApartFromManifest(p: Path, files: seq<RenderFile>)
    requires p != HOME && |p| == 1 && files == [EmptyText(p), EmptyText(MANIFEST)]
    ensures Storable(files, SMALL)
  {
    ManifestIsElsewhere(p);
    assert MANIFEST[..1] == Parent(MANIFEST);
    EmptyFilesFit(files);
  }

  lemma AdoptionIsAccepted(p: Path)
    requires |p| == 1 && Parses(p) && WithinLimits(p) && p != HOME
    ensures RequestAccepted(AdoptionRequest(p), OneFile(p), Lower)
  {
    OneFileObserves(p);
    AdoptionIsSelectable(p);
    AdoptionSelects(p);
  }

  /**
   An adoption of a target without an inventory: with clean maintenance and no cleanup
   contract it compiles, is accepted, and deletes nothing.
   */
  lemma AdoptionIsPlannable(p: Path, plan: Plan, sel: Selection, l: Layout, s: Sweep)
    requires |p| == 1 && Parses(p) && WithinLimits(p) && p != HOME
    ensures Plannable(AdoptionRequest(p), OneFile(p), Lower) && INVENTORY !in ObservedOf(OneFile(p)).states
    ensures InitialPlan(AdoptionRequest(p), OneFile(p), plan, sel, l, s) ==>
      && Applied(OneFile(p), plan).Ok? && AllSurvive(plan.operations)
      && forall op :: op in plan.operations ==> !op.DeleteFile? && !op.RemoveEmptyDirectory?
  {
    AdoptionIsAccepted(p);
    AdoptionSelects(p);
    ApartFromManifest(p, [EmptyText(p), EmptyText(MANIFEST)]);
    AdoptionHasPlace(p);
    OneFileObserves(p);
    if InitialPlan(AdoptionRequest(p), OneFile(p), plan, sel, l, s) {
      RetainingPlanIsAccepted(AdoptionRequest(p), OneFile(p), OneFileTree(p), plan, sel, l, s);
    }
  }

  // Reconcile

  function Recorded(f: RenderFile): seq<Restore.Entry> { [Restore.EntryOf(f)] }

  lemma RecordedIsNotDrifted(p: Path)
    requires |p| == 1 && Parses(p)
    ensures Restore.NothingDrifted(Recorded(EmptyText(p)), ObservedOf(OneFile(p)))
  {
    OneFileObserves(p);
  }

  lemma RetiredGivesWay(p: Path, f: RenderFile, m: RenderFile)
    requires |p| == 1 && |f.path| == |m.path| == 2
    ensures Reconcile.Replaceable(Recorded(EmptyText(p)), [f], OutputsFor([f, m]), Observed(map[p := ObservedState([], FILE_MODE)], map[]))
  {
    var ob := Observed(map[p := ObservedState([], FILE_MODE)], map[]);
    var inventory, outputs := Recorded(EmptyText(p)), OutputsFor([f, m]);
    assert outputs == [OutputOf(f), OutputOf(m)];
    assert inventory[0].path == p && Reconcile.IsRetired(inventory, [f], p);
    assert Reconcile.RetiredView(inventory, [f], outputs, ob).states == map[];
    NewDirectoryNeeded(f);
    NewDirectoryNeeded(m);
  }

  /** A file that is retired and becomes a directory compiles, and is refused when it is applied. */
  lemma FileTurnedDirectoryIsRefused(
    p: Path, f: RenderFile, overwrite: bool, view: Observed, plan: Plan, l: Layout, deletes: seq<Operation>, removes: seq<Operation>)
    requires |p| == 1 && Parses(p) && f == EmptyText(f.path) && |f.path| == 2 && Parent(f.path) == p && p != HOME
    requires Parses(f.path) && WithinLimits(f.path)
    ensures Reconcile.Plannable(Recorded(EmptyText(p)), [f], Some([]), overwrite, OneFile(p), SMALL, Lower)
    ensures Reconcile.ReconcilePlan(Recorded(EmptyText(p)), [f], [], overwrite, ObservedOf(OneFile(p)), view, plan, l, deletes, removes)
      ==> Applied(OneFile(p), plan).Err?
  {
    RecordedIsNotDrifted(p);
    EmptyTextIsGood(f);
    OneFileObserves(p);
    RetiredFits(p, f);
    if Reconcile.ReconcilePlan(Recorded(EmptyText(p)), [f], [], overwrite, ObservedOf(OneFile(p)), view, plan, l, deletes, removes) {
      Reconcile.ReconcilePlanMeansOverlay(
        Recorded(EmptyText(p)), [f], [], overwrite, OneFile(p), OneFileTree(p), view, plan, l, deletes, removes);
      TurnsIntoDirectory(p, f, l);
    }
  }

  lemma RetiredFits(p: Path, f: RenderFile)
    requires |p| == 1 && Parses(p) && f == EmptyText(f.path) && |f.path| == 2
    ensures Reconcile.Reconcilable(Recorded(EmptyText(p)), [f], [], ObservedOf(OneFile(p)), SMALL)
  {
    var m := EmptyText(MANIFEST);
    assert Reconcile.ReconcileFiles([f], []) == [f, m];
    EmptyFilesFit([f, m]);
    OneFileObserves(p);
    RetiredGivesWay(p, f, m);
  }

  lemma TurnsIntoDirectory(p: Path, f: RenderFile, l: Layout)
    requires |p| == 1 && Parses(p) && |f.path| == 2 && Parent(f.path) == p
    requires |l.outputs| > 0 && l.outputs[0].path == f.path
    ensures !Reconcile.NoKindChange(Recorded(EmptyText(p)), [f], l, ObservedOf(OneFile(p)))
  {
    OneFileObserves(p);
    assert Recorded(EmptyText(p))[0].path == p && Reconcile.IsRetired(Recorded(EmptyText(p)), [f], p);
    assert AtOrAbove(p, l.outputs[0].path);
  }

  // Restore

  const NOTHING := Snapshot([], [])

  function Script(p: Path): RenderFile { RenderFile(p, Text, EXECUTABLE_MODE, []) }

  lemma NothingObserved()
    ensures ObservedOf(NOTHING) == Observed(map[], map[]) && GoodSnapshot(NOTHING, Lower)
    ensures Closed(Tree(map[], map[])) && Observes(NOTHING, Tree(map[], map[]))
  {
    SortingIsOrder([]);
    assert ObservedFilePaths(NOTHING) == [] && ObservedDirectoryPaths(NOTHING) == [];
  }

  lemma ScriptIsSelected(p: Path, requested: seq<Path>)
    requires requested == []
    ensures forall q :: Restore.IsSelected(Recorded(Script(p)), requested, Observed(map[], map[]), q) <==> q == p
  {
    assert Recorded(Script(p))[0].path == p;
  }

  lemma ScriptIsRestorable(p: Path)
    requires |p| == 1 && Parses(p) && WithinLimits(p)
    ensures Restore.RestoreAccepted(Recorded(Script(p)), [Script(p)], [], NOTHING, Lower)
    ensures Restore.Layable([Script(p)], ObservedOf(NOTHING), SMALL)
  {
    NothingObserved();
    ScriptIsSelected(p, []);
    assert FilePathsIn([Script(p)]) == [p];
    OneInOrder(p);
    EmptyFilesFit([Script(p)]);
    assert Script(p) in [Script(p)];
  }

  lemma ScriptIsNotText(p: Path, chosen: seq<RenderFile>, l: Layout, store: Store)
    requires StoredFrom(chosen, l.outputs, store) && Script(p) in chosen
    ensures !KindsAgree(l.outputs, store)
  {
    var i :| 0 <= i < |chosen| && chosen[i] == Script(p);
    assert l.outputs[i] in l.outputs;
    assert AnyExecuteBit(EXECUTABLE_MODE);
  }

  /**
   A missing file that is recorded as text with an execute bit: its restore compiles
   and is accepted, and whatever it leaves still differs from the record.
   */
  lemma ScriptNeverHeals(p: Path, plan: Plan, chosen: seq<RenderFile>, l: Layout, after: Tree)
    requires |p| == 1 && Parses(p) && WithinLimits(p)
    ensures Restore.RestoreAccepted(Recorded(Script(p)), [Script(p)], [], NOTHING, Lower)
    ensures Restore.Layable([Script(p)], ObservedOf(NOTHING), SMALL)
    ensures Restore.RestorePlan(Recorded(Script(p)), [Script(p)], [], ObservedOf(NOTHING), plan, chosen, l) ==>
      Restore.Leaves(NOTHING, plan, after) ==> !Restore.AsRecorded(after, Restore.EntryOf(Script(p)))
  {
    ScriptIsRestorable(p);
    if Restore.RestorePlan(Recorded(Script(p)), [Script(p)], [], ObservedOf(NOTHING), plan, chosen, l) && Restore.Leaves(NOTHING, plan, after) {
      NothingObserved();
      ScriptStaysDrifted(p, Recorded(Script(p)), Tree(map[], map[]), plan, chosen, l, after);
    }
  }

  lemma ScriptStaysDrifted(p: Path, inventory: seq<Restore.Entry>, t: Tree, plan: Plan, chosen: seq<RenderFile>, l: Layout, after: Tree)
    requires inventory == Recorded(Script(p)) && Closed(t) && Observes(NOTHING, t) && ObservedOf(NOTHING) == Observed(map[], map[])
    requires Restore.RestorePlan(inventory, [Script(p)], [], ObservedOf(NOTHING), plan, chosen, l)
    requires Restore.Leaves(NOTHING, plan, after)
    ensures !Restore.AsRecorded(after, Restore.EntryOf(Script(p)))
  {
    ScriptIsChosen(p, plan, chosen, l);
    ScriptIsNotText(p, chosen, l, plan.store);
    Restore.RestoreHeals(inventory, [Script(p)], NOTHING, t, plan, chosen, l, after);
  }

  lemma ScriptIsChosen(p: Path, plan: Plan, chosen: seq<RenderFile>, l: Layout)
    requires Restore.RestorePlan(Recorded(Script(p)), [Script(p)], [], Observed(map[], map[]), plan, chosen, l)
    ensures Script(p) in chosen
  {
    ScriptIsSelected(p, []);
    assert p in PathSet(chosen);
    var i :| 0 <= i < |chosen| && chosen[i].path == p;
    assert chosen[i] in chosen;
  }
}
