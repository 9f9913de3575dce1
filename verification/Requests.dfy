/** What a target holds after an accepted plan, said in terms of the request the plan was compiled for. */
module Requests {
  import opened Results
  import opened Paths
  import opened Sorting
  import opened Identity
  import opened Plans
  import opened Targets
  import opened Apply
  import opened Agreement
  import opened Outputs
  import opened Trees
  import opened Grouping
  import opened Maintenance
  import opened Layouts
  import opened Laying
  import opened Cleaning
  import opened Initial
  import opened Lines
  import opened Encoding
  import Restore
  import Reconcile

  /** A file may be installed exactly if its mode is 0644 or 0755, and text is the UTF-8 of some characters. */
  lemma InstallableContent(kind: Kind, mode: Mode, content: Bytes)
    ensures GoodContent(kind, mode, content) <==>
      (mode == 6 * 64 + 4 * 8 + 4 || mode == 7 * 64 + 5 * 8 + 5) && (kind.Text? ==> exists cs :: EncodeAll(cs) == content)
  {
    TextIsEncoded(content);
  }

  /** The target holds this file, byte for byte. */
  predicate Holds(r: ExpectedTarget, f: RenderFile) {
    f.path in r.files && r.files[f.path] == ExpectedFile(f.kind, f.mode, f.content)
  }

  // A first installation or adoption

  predicate IsSeed(req: Request, i: nat, f: RenderFile)
    requires i < |req.seeds|
  {
    var seed := req.seeds[i];
    seed.path == f.path && seed.kind == f.kind && seed.mode == f.mode && req.blobs.Get(seed.contentId) == Some(f.content)
  }

  predicate IsManifest(manifest: Option<Bytes>, f: RenderFile) {
    f.path == MANIFEST && f.kind == Text && f.mode == FILE_MODE && manifest == Some(f.content)
  }

  /** A seed, a managed or a lifecycle file that no declaration keeps, or the manifest. */
  ghost predicate Wanted(req: Request, f: RenderFile) {
    || IsManifest(req.manifest, f)
    || (!KeepsPath(req, f.path) && (f in req.managed || f in req.lifecycle || exists i :: 0 <= i < |req.seeds| && IsSeed(req, i, f)))
  }

  /** A declaration says to keep the existing file at `p`. */
  predicate KeepsPath(req: Request, p: Path) {
    req.declarations.Some? && exists d :: d in req.declarations.value && d.path == p && d.action.KeepExisting?
  }

  ghost predicate NothingWantedAt(req: Request, p: Path) {
    forall f: RenderFile :: f.path == p ==> !Wanted(req, f)
  }

  /** A wanted file lies below `p`. */
  ghost predicate WantedBelow(req: Request, p: Path) {
    exists f: RenderFile :: Wanted(req, f) && Above(p, f.path)
  }

  lemma KeepsAreKept(req: Request, p: Path)
    ensures KeepsPath(req, p) <==> p in KeptBy(req)
  {
    if req.declarations.Some? {
      var ds := req.declarations.value;
      if KeepsPath(req, p) {
        var d :| d in ds && d.path == p && d.action.KeepExisting?;
        var i :| 0 <= i < |ds| && ds[i] == d;
      }
    }
  }

  lemma SeedFileIsSeed(req: Request, f: RenderFile)
    requires Stored(req.seeds, req.blobs)
    ensures f in SeedFiles(req.seeds, req.blobs) <==> exists i :: 0 <= i < |req.seeds| && IsSeed(req, i, f)
  {
    var files := SeedFiles(req.seeds, req.blobs);
    if f in files {
      var i :| 0 <= i < |files| && files[i] == f;
      assert req.seeds[i] in req.seeds && IsSeed(req, i, f);
    }
    if i :| 0 <= i < |req.seeds| && IsSeed(req, i, f) {
      assert files[i] == f;
    }
  }

  lemma AllManagedFiles(req: Request, f: RenderFile)
    ensures f in AllManaged(req.managed, req.lifecycle) <==> f in req.managed || f in req.lifecycle
  {
    SameElements(req.managed + req.lifecycle, FileLess);
  }

  lemma InstalledAreWanted(req: Request, observed: set<Path>, sel: Selection, f: RenderFile)
    requires Selected(req, observed, sel) && req.manifest.Some?
    ensures f in FilesToInstall(req, sel) <==> Wanted(req, f)
  {
    KeepsAreKept(req, f.path);
    SeedFileIsSeed(req, f);
    AllManagedFiles(req, f);
  }

  lemma OutputsAreFiles(files: seq<RenderFile>, l: Layout, store: Store, p: Path)
    requires StoredFrom(files, l.outputs, store)
    ensures IsOutput(l, p) <==> exists f :: f in files && f.path == p
  {
    if IsOutput(l, p) {
      var i :| 0 <= i < |l.outputs| && l.outputs[i].path == p;
      assert files[i] in files;
    }
    if f :| f in files && f.path == p {
      var i :| 0 <= i < |files| && files[i] == f;
      assert l.outputs[i].path == p;
    }
  }

  lemma FilesAreHeld(files: seq<RenderFile>, l: Layout, store: Store, r: ExpectedTarget, f: RenderFile)
    requires StoredFrom(files, l.outputs, store) && f in files
    requires forall i :: 0 <= i < |l.outputs| ==> IsAsPlanned(l.outputs[i], store, r.files)
    ensures Holds(r, f)
  {
    var i :| 0 <= i < |files| && files[i] == f;
    assert IsAsPlanned(l.outputs[i], store, r.files);
  }

  /** Cleanup takes `p`: it is the inventory, or at a declared path, or below one that is no file. */
  ghost predicate CleanupTakes(req: Request, t: Tree, p: Path) {
    && req.maintenance.CleanMaintenance? && req.cleanup.Some?
    && (p == INVENTORY || exists c :: c in req.cleanup.value.cleanupPaths && DeclaredTakes(req, t, c, p))
  }

  /** A declared path that is itself a managed file is replaced and not cleaned. */
  ghost predicate DeclaredTakes(req: Request, t: Tree, c: Path, p: Path) {
    && !(exists f :: (f in req.managed || f in req.lifecycle) && f.path == c && !KeepsPath(req, c))
    && (c == p || (c !in t.files && Above(c, p)))
  }

  lemma ManagedPaths(req: Request, observed: set<Path>, sel: Selection, c: Path)
    requires Selected(req, observed, sel)
    ensures c in PathSet(sel.managed) <==>
      exists f :: (f in req.managed || f in req.lifecycle) && f.path == c && !KeepsPath(req, c)
  {
    KeepsAreKept(req, c);
    if c in PathSet(sel.managed) {
      var i :| 0 <= i < |sel.managed| && sel.managed[i].path == c;
      assert sel.managed[i] in sel.managed;
      AllManagedFiles(req, sel.managed[i]);
    }
    if f :| (f in req.managed || f in req.lifecycle) && f.path == c && !KeepsPath(req, c) {
      AllManagedFiles(req, f);
      assert f in sel.managed;
      var i :| 0 <= i < |sel.managed| && sel.managed[i] == f;
    }
  }

  lemma TakenIsDeclared(req: Request, t: Tree, ob: Observed, sel: Selection, s: Sweep, p: Path)
    requires Selected(req, ob.states.Keys, sel) && ob.states.Keys == t.files.Keys
    requires s.effective == EffectivePaths(req, sel) && Taken(s.effective, ob, p)
    ensures req.maintenance.CleanMaintenance? && req.cleanup.Some? && exists c :: c in req.cleanup.value.cleanupPaths && DeclaredTakes(req, t, c, p)
  {
    var k :| 0 <= k < |s.effective| && Takes(s.effective[k], ob, p);
    var c := s.effective[k];
    assert c in s.effective;
    ManagedPaths(req, ob.states.Keys, sel, c);
    assert DeclaredTakes(req, t, c, p);
  }

  lemma DeclaredIsTaken(req: Request, t: Tree, ob: Observed, sel: Selection, s: Sweep, c: Path, p: Path)
    requires Selected(req, ob.states.Keys, sel) && ob.states.Keys == t.files.Keys
    requires Cleans(req) && c in req.cleanup.value.cleanupPaths && DeclaredTakes(req, t, c, p)
    requires s.effective == EffectivePaths(req, sel)
    ensures Taken(s.effective, ob, p)
  {
    ManagedPaths(req, ob.states.Keys, sel, c);
    assert c in s.effective;
    var k :| 0 <= k < |s.effective| && s.effective[k] == c;
    assert Takes(s.effective[k], ob, p);
  }

  lemma GoneIsTaken(req: Request, snapshot: Snapshot, t: Tree, plan: Plan, sel: Selection, l: Layout, s: Sweep, p: Path)
    requires Observes(snapshot, t) && InitialPlan(req, snapshot, plan, sel, l, s)
    ensures Gone(s, ObservedOf(snapshot), p) <==> CleanupTakes(req, t, p)
  {
    var ob := ObservedOf(snapshot);
    if Taken(s.effective, ob, p) { TakenIsDeclared(req, t, ob, sel, s, p); }
    if Cleans(req) {
      if c :| c in req.cleanup.value.cleanupPaths && DeclaredTakes(req, t, c, p) { DeclaredIsTaken(req, t, ob, sel, s, c, p); }
    }
  }

  /** A path where the result is what was there, or nothing as there was nothing. */
  ghost predicate KeptAt(r: ExpectedTarget, t: Tree, p: Path) {
    if p in t.files then StaysAsWas(r, t, p) else p !in r.files
  }

  /** What an accepted initial plan leaves at `p`, where it wants nothing. */
  ghost predicate LeftAlone(req: Request, r: ExpectedTarget, t: Tree, p: Path) {
    if CleanupTakes(req, t, p) then p !in r.files else KeptAt(r, t, p)
  }

  lemma UnwantedAt(
    req: Request, snapshot: Snapshot, t: Tree, plan: Plan, sel: Selection, l: Layout, s: Sweep, r: ExpectedTarget, p: Path)
    requires Closed(t) && Observes(snapshot, t) && InitialPlan(req, snapshot, plan, sel, l, s)
    requires Overlaid(r, StartOverlay(snapshot), l, s, ObservedOf(snapshot), plan.store)
    requires NothingWantedAt(req, p)
    ensures LeftAlone(req, r, t, p)
  {
    var ob, files := ObservedOf(snapshot), FilesToInstall(req, sel);
    GoneIsTaken(req, snapshot, t, plan, sel, l, s, p);
    OutputsAreFiles(files, l, plan.store, p);
    if f :| f in files && f.path == p { InstalledAreWanted(req, ob.states.Keys, sel, f); }
    StartDescribes(snapshot, t);
    assert p in Nodes(StartOverlay(snapshot).files) <==> p in t.files;
  }

  /** The old directories stay unless cleanup takes them, and new ones stand above wanted files, at the directory mode. */
  ghost predicate DirectoryAsWanted(req: Request, r: ExpectedTarget, t: Tree, p: Path) {
    if p in t.dirs then
      if CleanupTakes(req, t, p) then p !in r.directories else p in r.directories && r.directories[p] == t.dirs[p]
    else
      && (p in r.directories <==> p != [] && WantedBelow(req, p))
      && (p in r.directories ==> r.directories[p] == DIRECTORY_MODE)
  }

  lemma BelowIsWanted(req: Request, observed: set<Path>, sel: Selection, l: Layout, store: Store, p: Path)
    requires Selected(req, observed, sel) && req.manifest.Some? && StoredFrom(FilesToInstall(req, sel), l.outputs, store)
    ensures (exists i :: 0 <= i < |l.outputs| && Above(p, l.outputs[i].path)) <==> WantedBelow(req, p)
  {
    var files := FilesToInstall(req, sel);
    if i :| 0 <= i < |l.outputs| && Above(p, l.outputs[i].path) {
      assert files[i] in files;
      InstalledAreWanted(req, observed, sel, files[i]);
    }
    if f: RenderFile :| Wanted(req, f) && Above(p, f.path) {
      InstalledAreWanted(req, observed, sel, f);
      var i :| 0 <= i < |files| && files[i] == f;
      assert Above(p, l.outputs[i].path);
    }
  }

  lemma DirectoryAt(
    req: Request, snapshot: Snapshot, t: Tree, plan: Plan, sel: Selection, l: Layout, s: Sweep, r: ExpectedTarget, p: Path)
    requires Closed(t) && Observes(snapshot, t) && InitialPlan(req, snapshot, plan, sel, l, s)
    requires Overlaid(r, StartOverlay(snapshot), l, s, ObservedOf(snapshot), plan.store) && Fits(l, s)
    ensures DirectoryAsWanted(req, r, t, p)
  {
    var ob := ObservedOf(snapshot);
    GoneIsTaken(req, snapshot, t, plan, sel, l, s, p);
    BelowIsWanted(req, ob.states.Keys, sel, l, plan.store, p);
    StartDescribes(snapshot, t);
    DirectoryFollows(req, ob, t, l, s, r, StartOverlay(snapshot), plan.store, p);
  }

  lemma DirectoryFollows(
    req: Request, ob: Observed, t: Tree, l: Layout, s: Sweep, r: ExpectedTarget, start: Overlay, store: Store, p: Path)
    requires ob.directoryStates.Keys == t.dirs.Keys && start.directories == t.dirs
    requires Overlaid(r, start, l, s, ob, store)
    requires Gone(s, ob, p) <==> CleanupTakes(req, t, p)
    requires (exists i :: 0 <= i < |l.outputs| && Above(p, l.outputs[i].path)) <==> WantedBelow(req, p)
    ensures DirectoryAsWanted(req, r, t, p)
  {
  }

  /**
   What an accepted initial plan comes to, in terms of its request: the target holds
   every seed with the bytes its id names, every managed and every lifecycle file, but
   for those a declaration keeps, and the manifest; at every other path it holds what
   was there, or nothing if cleanup takes it.
   */
  lemma InitialPlanInstallsTheRequest(
    req: Request, snapshot: Snapshot, t: Tree, plan: Plan, sel: Selection, l: Layout, s: Sweep)
    requires Closed(t) && Observes(snapshot, t) && InitialPlan(req, snapshot, plan, sel, l, s)
    requires Applied(snapshot, plan).Ok?
    ensures forall f: RenderFile :: Wanted(req, f) ==> Holds(Applied(snapshot, plan).value, f)
    ensures forall p :: NothingWantedAt(req, p) ==> LeftAlone(req, Applied(snapshot, plan).value, t, p)
    ensures forall p :: DirectoryAsWanted(req, Applied(snapshot, plan).value, t, p)
  {
    var r := Applied(snapshot, plan).value;
    InitialPlanMeansOverlay(req, snapshot, t, plan, sel, l, s);
    forall f: RenderFile | Wanted(req, f) ensures Holds(r, f) {
      InstalledAreWanted(req, ObservedOf(snapshot).states.Keys, sel, f);
      FilesAreHeld(FilesToInstall(req, sel), l, plan.store, r, f);
    }
    forall p | NothingWantedAt(req, p) ensures LeftAlone(req, r, t, p) {
      UnwantedAt(req, snapshot, t, plan, sel, l, s, r, p);
    }
    forall p ensures DirectoryAsWanted(req, r, t, p) { DirectoryAt(req, snapshot, t, plan, sel, l, s, r, p); }
  }

  // A reconcile

  /** A file of the new render, or the new manifest. */
  predicate Rendered(render: seq<RenderFile>, manifest: Bytes, f: RenderFile) {
    f in render || IsManifest(Some(manifest), f)
  }

  ghost predicate NothingRenderedAt(render: seq<RenderFile>, manifest: Bytes, p: Path) {
    forall f: RenderFile :: f.path == p ==> !Rendered(render, manifest, f)
  }

  ghost predicate RenderedBelow(render: seq<RenderFile>, manifest: Bytes, p: Path) {
    exists f: RenderFile :: Rendered(render, manifest, f) && Above(p, f.path)
  }

  /** Recorded, and no longer in the render. */
  predicate NoLongerRendered(inventory: seq<Restore.Entry>, render: seq<RenderFile>, p: Path) {
    (exists e :: e in inventory && e.path == p) && forall f :: f in render ==> f.path != p
  }

  lemma RetiredIsNoLongerRendered(inventory: seq<Restore.Entry>, render: seq<RenderFile>, p: Path)
    ensures Reconcile.IsRetired(inventory, render, p) <==> NoLongerRendered(inventory, render, p)
  {
    if e :| e in inventory && e.path == p {
      var i :| 0 <= i < |inventory| && inventory[i] == e;
    }
    if f :| f in render && f.path == p {
      var i :| 0 <= i < |render| && render[i] == f;
    }
  }

  lemma ReconciledAreRendered(render: seq<RenderFile>, manifest: Bytes, f: RenderFile)
    ensures f in Reconcile.ReconcileFiles(render, manifest) <==> Rendered(render, manifest, f)
  {
  }

  lemma RenderedBelowOutputs(render: seq<RenderFile>, manifest: Bytes, l: Layout, store: Store, p: Path)
    requires StoredFrom(Reconcile.ReconcileFiles(render, manifest), l.outputs, store)
    ensures (exists i :: 0 <= i < |l.outputs| && Above(p, l.outputs[i].path)) <==> RenderedBelow(render, manifest, p)
  {
    var files := Reconcile.ReconcileFiles(render, manifest);
    if i :| 0 <= i < |l.outputs| && Above(p, l.outputs[i].path) {
      assert files[i] in files;
      ReconciledAreRendered(render, manifest, files[i]);
    }
    if f: RenderFile :| Rendered(render, manifest, f) && Above(p, f.path) {
      ReconciledAreRendered(render, manifest, f);
      var i :| 0 <= i < |files| && files[i] == f;
      assert Above(p, l.outputs[i].path);
    }
  }

  lemma UnrenderedAt(
    inventory: seq<Restore.Entry>, render: seq<RenderFile>, manifest: Bytes, snapshot: Snapshot, t: Tree, r: ExpectedTarget,
    l: Layout, store: Store, p: Path)
    requires Observes(snapshot, t) && StoredFrom(Reconcile.ReconcileFiles(render, manifest), l.outputs, store)
    requires Reconcile.Reconciled(inventory, render, r, StartOverlay(snapshot), l, ObservedOf(snapshot), store)
    requires NothingRenderedAt(render, manifest, p)
    ensures if NoLongerRendered(inventory, render, p) then p !in r.files else KeptAt(r, t, p)
  {
    var files := Reconcile.ReconcileFiles(render, manifest);
    RetiredIsNoLongerRendered(inventory, render, p);
    OutputsAreFiles(files, l, store, p);
    if f :| f in files && f.path == p { ReconciledAreRendered(render, manifest, f); }
    StartDescribes(snapshot, t);
    assert p in Nodes(StartOverlay(snapshot).files) <==> p in t.files;
  }

  /** The old directories stay, and new ones stand above rendered files, at the directory mode. */
  ghost predicate DirectoryAsRendered(render: seq<RenderFile>, manifest: Bytes, r: ExpectedTarget, t: Tree, p: Path) {
    && (p in r.directories <==> p in t.dirs || (p != [] && RenderedBelow(render, manifest, p)))
    && (p in t.dirs ==> r.directories[p] == t.dirs[p])
  }

  /**
   What an accepted reconcile plan comes to: the target holds every file of the new
   render and the new manifest, byte for byte; a recorded file that is no longer
   rendered is gone; at every other path the target holds what was there.
   */
  lemma ReconcilePlanInstallsTheRender(
    inventory: seq<Restore.Entry>, render: seq<RenderFile>, manifest: Bytes, overwrite: bool, snapshot: Snapshot, t: Tree,
    view: Observed, plan: Plan, l: Layout, deletes: seq<Operation>, removes: seq<Operation>)
    requires Closed(t) && Observes(snapshot, t) && Applied(snapshot, plan).Ok?
    requires Reconcile.ReconcilePlan(inventory, render, manifest, overwrite, ObservedOf(snapshot), view, plan, l, deletes, removes)
    ensures forall f: RenderFile :: Rendered(render, manifest, f) ==> Holds(Applied(snapshot, plan).value, f)
    ensures forall p :: NothingRenderedAt(render, manifest, p) ==>
      if NoLongerRendered(inventory, render, p) then p !in Applied(snapshot, plan).value.files
      else KeptAt(Applied(snapshot, plan).value, t, p)
    ensures forall p :: DirectoryAsRendered(render, manifest, Applied(snapshot, plan).value, t, p)
  {
    var r, files := Applied(snapshot, plan).value, Reconcile.ReconcileFiles(render, manifest);
    Reconcile.ReconcilePlanMeansOverlay(inventory, render, manifest, overwrite, snapshot, t, view, plan, l, deletes, removes);
    forall f: RenderFile | Rendered(render, manifest, f) ensures Holds(r, f) {
      ReconciledAreRendered(render, manifest, f);
      FilesAreHeld(files, l, plan.store, r, f);
    }
    forall p | NothingRenderedAt(render, manifest, p)
      ensures if NoLongerRendered(inventory, render, p) then p !in r.files else KeptAt(r, t, p)
    {
      UnrenderedAt(inventory, render, manifest, snapshot, t, r, l, plan.store, p);
    }
    StartDescribes(snapshot, t);
    forall p ensures DirectoryAsRendered(render, manifest, r, t, p) {
      RenderedBelowOutputs(render, manifest, l, plan.store, p);
    }
  }

  // Drift and restore

  /** The target holds `f` as it is: the mode, the kind an observation reports, and its lines or, if binary, its bytes. */
  ghost predicate HoldsLike(t: Tree, f: RenderFile) {
    && f.path in t.files && t.files[f.path].mode == f.mode
    && ObservedKind(t.files[f.path].content, f.mode) == f.kind
    && if f.kind.Text? then SameLines(t.files[f.path].content, f.content) else t.files[f.path].content == f.content
  }

  /** A file is drifted from the record of what was rendered exactly if the target does not hold it like that. */
  lemma DriftIsReal(snapshot: Snapshot, t: Tree, f: RenderFile)
    requires Observes(snapshot, t)
    ensures Restore.Drifted(ObservedOf(snapshot), Restore.EntryOf(f)) <==> !HoldsLike(t, f)
  {
    if f.path in t.files { NormalFormsAreLines(t.files[f.path].content, f.content); }
  }

  /** The file that is rendered for `p` as it is recorded. */
  predicate RecordedAs(inventory: seq<Restore.Entry>, render: seq<RenderFile>, f: RenderFile) {
    f in render && Restore.EntryOf(f) in inventory
  }

  /** Which files an unrestricted restore selects: the recorded ones that the target no longer holds. */
  lemma DriftedAreChanged(inventory: seq<Restore.Entry>, snapshot: Snapshot, t: Tree, f: RenderFile)
    requires Observes(snapshot, t) && Restore.DistinctInventory(inventory) && Restore.EntryOf(f) in inventory
    ensures Restore.DriftedAt(inventory, ObservedOf(snapshot), f.path) <==> !HoldsLike(t, f)
  {
    DriftIsReal(snapshot, t, f);
    var k :| 0 <= k < |inventory| && inventory[k] == Restore.EntryOf(f);
  }

  /** At `f.path` stands `f`, byte for byte, or what stood there before and is like `f`. */
  ghost predicate RestoredAs(r: ExpectedTarget, t: Tree, f: RenderFile) {
    Holds(r, f) || (StaysAsWas(r, t, f.path) && HoldsLike(t, f))
  }

  /** The file that is rendered at `p` as it was recorded stands there. */
  ghost predicate RestoredAt(
    inventory: seq<Restore.Entry>, render: seq<RenderFile>, r: ExpectedTarget, t: Tree, p: Path)
  {
    exists f :: RecordedAs(inventory, render, f) && f.path == p && RestoredAs(r, t, f)
  }

  lemma MatchingIsLike(snapshot: Snapshot, t: Tree, f: RenderFile, o: Output, store: Store)
    requires Observes(snapshot, t) && o == OutputOf(f) && store.Get(o.contentId) == Some(f.content)
    ensures Restore.Matches(o, ObservedOf(snapshot), store) <==> HoldsLike(t, f)
  {
    if f.path in t.files { NormalFormsAreLines(t.files[f.path].content, f.content); }
  }

  lemma PlacedIsThere(l: Layout, o: Output)
    requires o in l.placed
    ensures IsPlaced(l, o.path)
  {
    var n :| 0 <= n < |l.placed| && l.placed[n] == o;
  }

  lemma ChosenIsRestored(
    inventory: seq<Restore.Entry>, render: seq<RenderFile>, requested: seq<Path>, snapshot: Snapshot, t: Tree, plan: Plan,
    chosen: seq<RenderFile>, l: Layout, u: Overlay, i: nat)
    requires Closed(t) && Observes(snapshot, t)
    requires Restore.RestorePlan(inventory, render, requested, ObservedOf(snapshot), plan, chosen, l)
    requires Installed(l, ObservedOf(snapshot), plan.store, StartOverlay(snapshot), u) && i < |chosen|
    ensures RestoredAs(ExpectedTarget(u.files, u.directories), t, chosen[i])
  {
    var ob, o := ObservedOf(snapshot), l.outputs[i];
    MatchingIsLike(snapshot, t, chosen[i], o, plan.store);
    StartDescribes(snapshot, t);
    if Effected(l, ob, o.path) {
      assert IsAsPlanned(o, plan.store, u.files);
    } else {
      assert o in l.outputs;
      assert o !in l.placed by { if o in l.placed { PlacedIsThere(l, o); } }
      assert Restore.Matches(o, ob, plan.store);
      assert o.path in Nodes(StartOverlay(snapshot).files);
    }
  }

  /**
   What an accepted restore plan comes to: every selected path is rendered as it was
   recorded, and the target holds that file byte for byte or, if it was requested
   without having drifted, holds it like that already; every other path is as it was.
   */
  lemma RestorePlanInstallsTheSelection(
    inventory: seq<Restore.Entry>, render: seq<RenderFile>, requested: seq<Path>, snapshot: Snapshot, t: Tree, plan: Plan,
    chosen: seq<RenderFile>, l: Layout)
    requires Closed(t) && Observes(snapshot, t) && Applied(snapshot, plan).Ok?
    requires Restore.RestorePlan(inventory, render, requested, ObservedOf(snapshot), plan, chosen, l)
    ensures forall p :: Restore.IsSelected(inventory, requested, ObservedOf(snapshot), p) ==>
      RestoredAt(inventory, render, Applied(snapshot, plan).value, t, p)
    ensures forall p :: !Restore.IsSelected(inventory, requested, ObservedOf(snapshot), p) ==>
      KeptAt(Applied(snapshot, plan).value, t, p)
  {
    var ob, start := ObservedOf(snapshot), StartOverlay(snapshot);
    Restore.RestorePlanMeansOverlay(inventory, render, requested, snapshot, t, plan, chosen, l);
    var u :| Installed(l, ob, plan.store, start, u) && Applied(snapshot, plan).value == ExpectedTarget(u.files, u.directories);
    forall p | Restore.IsSelected(inventory, requested, ob, p)
      ensures RestoredAt(inventory, render, ExpectedTarget(u.files, u.directories), t, p)
    {
      SelectedAt(inventory, render, requested, snapshot, t, plan, chosen, l, u, p);
    }
    forall p | !Restore.IsSelected(inventory, requested, ob, p) ensures KeptAt(ExpectedTarget(u.files, u.directories), t, p) {
      UnselectedIsKept(snapshot, t, chosen, l, plan.store, u, p);
    }
  }

  lemma SelectedAt(
    inventory: seq<Restore.Entry>, render: seq<RenderFile>, requested: seq<Path>, snapshot: Snapshot, t: Tree, plan: Plan,
    chosen: seq<RenderFile>, l: Layout, u: Overlay, p: Path)
    requires Closed(t) && Observes(snapshot, t)
    requires Restore.RestorePlan(inventory, render, requested, ObservedOf(snapshot), plan, chosen, l)
    requires Installed(l, ObservedOf(snapshot), plan.store, StartOverlay(snapshot), u)
    requires Restore.IsSelected(inventory, requested, ObservedOf(snapshot), p)
    ensures RestoredAt(inventory, render, ExpectedTarget(u.files, u.directories), t, p)
  {
    assert p in PathSet(chosen);
    var i :| 0 <= i < |chosen| && chosen[i].path == p;
    ChosenIsRestored(inventory, render, requested, snapshot, t, plan, chosen, l, u, i);
    assert RecordedAs(inventory, render, chosen[i]) by { assert chosen[i] in chosen; }
  }

  lemma UnselectedIsKept(snapshot: Snapshot, t: Tree, chosen: seq<RenderFile>, l: Layout, store: Store, u: Overlay, p: Path)
    requires Observes(snapshot, t) && Placed(l, ObservedOf(snapshot), store) && StoredFrom(chosen, l.outputs, store)
    requires Installed(l, ObservedOf(snapshot), store, StartOverlay(snapshot), u) && p !in PathSet(chosen)
    ensures KeptAt(ExpectedTarget(u.files, u.directories), t, p)
  {
    Restore.UnselectedIsNotEffected(l, ObservedOf(snapshot), store, chosen, p);
    StartDescribes(snapshot, t);
    assert p in Nodes(StartOverlay(snapshot).files) <==> p in t.files;
  }

  /** Without the override a reconcile starts only from a target that holds every recorded file like it was rendered. */
  lemma ReconcileStartsUnedited(
    inventory: seq<Restore.Entry>, render: seq<RenderFile>, manifest: Bytes, snapshot: Snapshot, t: Tree,
    view: Observed, plan: Plan, l: Layout, deletes: seq<Operation>, removes: seq<Operation>, f: RenderFile)
    requires Closed(t) && Observes(snapshot, t) && Restore.EntryOf(f) in inventory
    requires Reconcile.ReconcilePlan(inventory, render, manifest, false, ObservedOf(snapshot), view, plan, l, deletes, removes)
    ensures HoldsLike(t, f)
  {
    DriftIsReal(snapshot, t, f);
    var k :| 0 <= k < |inventory| && inventory[k] == Restore.EntryOf(f);
    assert !Restore.DriftedAt(inventory, ObservedOf(snapshot), f.path);
  }
}
