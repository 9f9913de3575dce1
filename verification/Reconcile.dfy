/** Reconcile: a new render over a recorded one, deleting what is no longer rendered. */
module Reconcile {
  import opened Results
  import opened Paths
  import opened Sorting
  import opened Identity
  import opened Plans
  import opened Orders
  import opened Targets
  import opened Inversion
  import opened Apply
  import opened Agreement
  import opened Outputs
  import opened Trees
  import opened Grouping
  import opened Overlays
  import opened Layouts
  import opened Laying
  import opened Maintenance
  import opened Cleaning
  import opened Soundness
  import opened Initial
  import opened Survival
  import opened Receipts
  import opened Restore

  /** Recorded, but no longer rendered. */
  predicate IsRetired(inventory: seq<Entry>, render: seq<RenderFile>, p: Path) {
    IsRecorded(inventory, p) && p !in PathSet(render)
  }

  function RetiredPaths(inventory: seq<Entry>, render: seq<RenderFile>): (r: seq<Path>)
    ensures forall p :: p in r <==> IsRetired(inventory, render, p)
  {
    if inventory == [] then [] else
      var front, p := RetiredPaths(inventory[..|inventory| - 1], render), inventory[|inventory| - 1].path;
      assert forall i :: 0 <= i < |inventory| - 1 ==> inventory[..|inventory| - 1][i] == inventory[i];
      assert inventory[|inventory| - 1].path == p;
      if p in PathSet(render) then front else front + [p]
  }

  lemma {:induction false} RetiredAreDistinct(inventory: seq<Entry>, render: seq<RenderFile>)
    requires DistinctInventory(inventory)
    ensures NoDuplicates(RetiredPaths(inventory, render))
    decreases |inventory|
  {
    if inventory != [] {
      var rest, p := inventory[..|inventory| - 1], inventory[|inventory| - 1].path;
      assert forall i :: 0 <= i < |rest| ==> rest[i] == inventory[i];
      RetiredAreDistinct(rest, render);
      forall q | q in RetiredPaths(rest, render) ensures q != p {
        var i :| 0 <= i < |rest| && rest[i].path == q;
        assert inventory[i].path != inventory[|inventory| - 1].path;
      }
      NoDuplicatesAppend(RetiredPaths(rest, render), p);
    }
  }

  // Planning as if the retired were gone

  ghost predicate DeletesExactly(deletes: seq<Operation>, gone: set<Path>, ob: Observed) {
    (forall op :: op in deletes <==> IsDeletion(op, ob) && op.path in gone) && Distinct(deletes)
  }

  lemma OneMoreDeletion(deletes: seq<Operation>, gone: set<Path>, p: Path, ob: Observed)
    requires DeletesExactly(deletes, gone, ob) && p !in gone
    ensures p in ob.states ==> DeletesExactly(deletes + [DeleteFile(p, ob.states[p])], gone + {p}, ob)
    ensures p !in ob.states ==> DeletesExactly(deletes, gone + {p}, ob)
  {
    forall k | 0 <= k < |deletes| ensures deletes[k].path != p { assert deletes[k] in deletes; }
  }

  /** Deletes the retired files that are there; a retired path must not have become a directory. */
  method DeleteRetired(retired: seq<Path>, ob: Observed)
    returns (r: Result<(seq<Operation>, map<Path, FileState>), Refused>)
    requires NoDuplicates(retired) && AllPresent(ob) && ob.states.Keys !! ob.directoryStates.Keys
    ensures r.Ok? <==> forall p :: p in retired ==> p !in ob.directoryStates
    ensures r.Ok? ==> (forall op :: op in r.value.0 <==> IsDeletion(op, ob) && op.path in retired) && Distinct(r.value.0)
    ensures r.Ok? ==> r.value.1 == ob.states - ToSet(retired)
    ensures r.Ok? && (forall p :: p in retired ==> Valid(p)) ==> InPathOrder(r.value.0)
  {
    var ordered := Sort(retired, PathLess);
    SameElements(retired, PathLess);
    SortKeepsNoDuplicates(retired, PathLess);
    var deletes: seq<Operation>, states := [], ob.states;
    ghost var gone: set<Path> := {};
    for i := 0 to |ordered|
      invariant forall p :: p in gone <==> p in ordered[..i]
      invariant forall p :: p in gone ==> p !in ob.directoryStates
      invariant DeletesExactly(deletes, gone, ob) && states == ob.states - gone
      invariant Along(deletes, ordered, i)
    {
      var p := ordered[i];
      assert p in ordered && ordered[..i + 1] == ordered[..i] + [p];
      assert p !in gone by { forall k | 0 <= k < i ensures ordered[..i][k] != p { assert ordered[k] != ordered[i]; } }
      OneMoreDeletion(deletes, gone, p, ob);
      AlongGrows(deletes, ordered, i, i + 1, DeleteFile(p, if p in ob.states then ob.states[p] else Absent));
      if p !in ob.states || ob.states[p].Absent? {
        if p in ob.directoryStates { return Err(InvalidTarget); }
      } else {
        deletes, states := deletes + [DeleteFile(p, ob.states[p])], states - {p};
      }
      gone := gone + {p};
    }
    assert ordered[..|ordered|] == ordered;
    assert gone == ToSet(retired);
    if forall p :: p in retired ==> Valid(p) { SortedPaths(retired); }
    return Ok((deletes, states));
  }

  predicate DeeperPath(a: Path, b: Path) {
    |a| > |b| || (|a| == |b| && PathLess(a, b))
  }

  lemma DeeperPathSorts(ps: seq<Path>)
    requires forall p :: p in ps ==> Valid(p)
    ensures Downward(Sort(ps, DeeperPath))
  {
    EntryLessIsStrict();
    forall a, b | a in ps && b in ps ensures DeeperPath(a, b) || DeeperPath(b, a) || a == b { PathOrderIsTotal(a, b); }
    SortSorts(ps, DeeperPath);
    SameElements(ps, DeeperPath);
    var r := Sort(ps, DeeperPath);
    forall i, j | 0 <= i < j < |r| ensures GoesBefore(r[i], r[j]) {
      assert r[i] in r && r[j] in r && !DeeperPath(r[j], r[i]);
      PathOrderIsTotal(r[i], r[j]);
    }
  }

  predicate IsPlainRemoval(op: Operation, ob: Observed) {
    op.RemoveEmptyDirectory? && op.path in ob.directoryStates && op.directoryBefore == ob.directoryStates[op.path]
  }

  /** Removes the observed directories at and below `c`, deepest first. */
  method RemoveBelow(c: Path, known: seq<Path>, ob: Observed, dirs: map<Path, DirectoryState>)
    returns (removes: seq<Operation>, left: map<Path, DirectoryState>)
    requires Maintenance.Lists(known, ob)
    ensures forall op :: op in removes <==> IsPlainRemoval(op, ob) && AtOrAbove(c, op.path)
    ensures left == dirs - DirectoriesFrom(c, ob)
    ensures (forall p :: p in known ==> Valid(p)) ==> InRemovalOrder(removes)
  {
    var ordered := Sort(known, DeeperPath);
    SameElements(known, DeeperPath);
    removes, left := [], dirs;
    ghost var gone: set<Path> := {};
    for i := 0 to |ordered|
      invariant forall p :: p in gone <==> p in ordered[..i] && p in ob.directoryStates && AtOrAbove(c, p)
      invariant forall op :: op in removes <==> IsPlainRemoval(op, ob) && op.path in gone
      invariant left == dirs - gone
      invariant Down(removes, ordered, i)
    {
      var p := ordered[i];
      assert ordered[..i + 1] == ordered[..i] + [p] && p in ordered[..i + 1];
      DownGrows(removes, ordered, i, i + 1, RemoveEmptyDirectory(p, if p in ob.directoryStates then ob.directoryStates[p] else DirectoryState(0, [])));
      if p in ob.directoryStates && AtOrAbove(c, p) {
        removes, left := removes + [RemoveEmptyDirectory(p, ob.directoryStates[p])], left - {p};
        gone := gone + {p};
      }
    }
    assert ordered[..|ordered|] == ordered;
    assert gone == DirectoriesFrom(c, ob);
    if forall p :: p in known ==> Valid(p) { DeeperPathSorts(known); }
  }

  /** A directory that gives way to an output: some output is at or above it and is itself a directory. */
  predicate GivesWay(outputs: seq<Output>, ob: Observed, p: Path) {
    && p in ob.directoryStates
    && exists i :: 0 <= i < |outputs| && outputs[i].path in ob.directoryStates && AtOrAbove(outputs[i].path, p)
  }

  /** The files below the directory are all retired, and there is a retired path below it. */
  predicate Vacated(c: Path, retired: seq<Path>, ob: Observed) {
    && (exists p :: p in retired && Above(c, p))
    && forall p :: p in ob.states && Above(c, p) ==> p in retired
  }

  function DirectoriesFrom(c: Path, ob: Observed): set<Path> {
    set p | p in ob.directoryStates && AtOrAbove(c, p)
  }

  /** The directories that give way to an output. */
  function Yielding(outputs: seq<Output>, ob: Observed): set<Path> {
    if outputs == [] then {} else
      Yielding(outputs[..|outputs| - 1], ob) + YieldingTo(outputs[|outputs| - 1], ob)
  }

  function YieldingTo(o: Output, ob: Observed): set<Path> {
    if o.path in ob.directoryStates then DirectoriesFrom(o.path, ob) else {}
  }

  lemma {:induction false} YieldingIsGivingWay(outputs: seq<Output>, ob: Observed, p: Path)
    ensures p in Yielding(outputs, ob) <==> GivesWay(outputs, ob, p)
    decreases |outputs|
  {
    if outputs != [] {
      var front, o := outputs[..|outputs| - 1], outputs[|outputs| - 1];
      YieldingIsGivingWay(front, ob, p);
      if GivesWay(front, ob, p) {
        var k :| 0 <= k < |front| && front[k].path in ob.directoryStates && AtOrAbove(front[k].path, p);
        assert outputs[k] == front[k];
      }
      if GivesWay(outputs, ob, p) && p !in YieldingTo(o, ob) {
        var k :| 0 <= k < |outputs| && outputs[k].path in ob.directoryStates && AtOrAbove(outputs[k].path, p);
        assert front[k] == outputs[k];
      }
    }
  }

  /** The directories in `gone` have been removed, the others are left. */
  ghost predicate Yielded(gone: set<Path>, ob: Observed, removes: seq<Operation>, dirs: map<Path, DirectoryState>) {
    && (forall op :: op in removes <==> IsPlainRemoval(op, ob) && op.path in gone)
    && dirs == ob.directoryStates - gone
  }

  lemma YieldedGrows(gone: set<Path>, ob: Observed, removes: seq<Operation>, dirs: map<Path, DirectoryState>,
                     more: seq<Operation>, left: map<Path, DirectoryState>, c: Path)
    requires Yielded(gone, ob, removes, dirs) && left == dirs - DirectoriesFrom(c, ob)
    requires forall op :: op in more <==> IsPlainRemoval(op, ob) && AtOrAbove(c, op.path)
    ensures Yielded(gone + DirectoriesFrom(c, ob), ob, removes + more, left)
  {
  }

  method CheckVacated(outputs: seq<Output>, retired: seq<Path>, ob: Observed) returns (r: Result<(), Refused>)
    ensures r.Ok? <==> forall i :: 0 <= i < |outputs| && outputs[i].path in ob.directoryStates ==>
      Vacated(outputs[i].path, retired, ob)
  {
    for i := 0 to |outputs|
      invariant forall k :: 0 <= k < i && outputs[k].path in ob.directoryStates ==> Vacated(outputs[k].path, retired, ob)
    {
      var c := outputs[i].path;
      if c in ob.directoryStates {
        var below, others := set p | p in retired && Above(c, p), set p | p in ob.states && Above(c, p) && p !in retired;
        if below == {} || others != {} {
          if below == {} { assert forall p :: p in retired && Above(c, p) ==> p in below; } else { var p :| p in others; }
          return Err(InvalidTarget);
        }
        assert Vacated(c, retired, ob) by {
          var q :| q in below;
          forall p | p in ob.states && Above(c, p) ensures p in retired { assert p !in others; }
        }
      }
    }
    return Ok(());
  }

  /** Directories standing where an output goes are removed, if all they hold is retired. */
  method RemoveRetiredDirectories(outputs: seq<Output>, retired: seq<Path>, known: seq<Path>, ob: Observed)
    returns (r: Result<(seq<Operation>, map<Path, DirectoryState>), Refused>)
    requires Maintenance.Lists(known, ob)
    ensures r.Ok? <==> forall i :: 0 <= i < |outputs| && outputs[i].path in ob.directoryStates ==>
      Vacated(outputs[i].path, retired, ob)
    ensures r.Ok? ==> Yielded(Yielding(outputs, ob), ob, r.value.0, r.value.1)
  {
    var vacated := CheckVacated(outputs, retired, ob);
    if vacated.Err? { return Err(vacated.error); }
    var removes: seq<Operation>, dirs := [], ob.directoryStates;
    for i := 0 to |outputs|
      invariant Yielded(Yielding(outputs[..i], ob), ob, removes, dirs)
    {
      var c := outputs[i].path;
      assert outputs[..i + 1][..i] == outputs[..i];
      if c in ob.directoryStates {
        var more, left := RemoveBelow(c, known, ob, dirs);
        YieldedGrows(Yielding(outputs[..i], ob), ob, removes, dirs, more, left, c);
        removes, dirs := removes + more, left;
      }
    }
    assert outputs[..|outputs|] == outputs;
    return Ok((removes, dirs));
  }

  /** The target as planned on: retired files deleted, directories that give way removed. */
  ghost predicate Retirement(
    inventory: seq<Entry>, render: seq<RenderFile>, outputs: seq<Output>, ob: Observed, view: Observed,
    deletes: seq<Operation>, removes: seq<Operation>)
  {
    && (forall op :: op in deletes <==> IsDeletion(op, ob) && IsRetired(inventory, render, op.path)) && Distinct(deletes)
    && Yielded(Yielding(outputs, ob), ob, removes, view.directoryStates)
    && view.states == ob.states - ToSet(RetiredPaths(inventory, render))
    && (forall p :: IsRetired(inventory, render, p) ==> p !in ob.directoryStates)
  }

  method Retire(inventory: seq<Entry>, render: seq<RenderFile>, outputs: seq<Output>, known: seq<Path>, ob: Observed)
    returns (r: Result<(seq<Operation>, seq<Operation>, Observed), Refused>)
    requires DistinctInventory(inventory) && AllPresent(ob) && Maintenance.Lists(known, ob)
    ensures r.Ok? ==> Retirement(inventory, render, outputs, ob, r.value.2, r.value.0, r.value.1)
    ensures r.Ok? <==>
      && (forall p :: IsRetired(inventory, render, p) ==> p !in ob.directoryStates)
      && (forall i :: 0 <= i < |outputs| && outputs[i].path in ob.directoryStates ==>
            Vacated(outputs[i].path, RetiredPaths(inventory, render), ob))
  {
    RetiredAreDistinct(inventory, render);
    var retired := RetiredPaths(inventory, render);
    var deleted := DeleteRetired(retired, ob);
    if deleted.Err? { return Err(deleted.error); }
    var removed := RemoveRetiredDirectories(outputs, retired, known, ob);
    if removed.Err? { return Err(removed.error); }
    return Ok((deleted.value.0, removed.value.0, Observed(deleted.value.1, removed.value.1)));
  }

  /** How a compiled reconcile plan is put together. */
  ghost predicate ReconcilePlan(
    inventory: seq<Entry>, render: seq<RenderFile>, manifest: Bytes, overwrite: bool, ob: Observed, view: Observed,
    plan: Plan, l: Layout, deletes: seq<Operation>, removes: seq<Operation>)
  {
    && plan.operations == deletes + removes + l.trees + l.plain
    && StoredFrom(ReconcileFiles(render, manifest), l.outputs, plan.store)
    && Everywhere(l, view, plan.store)
    && Retirement(inventory, render, l.outputs, ob, view, deletes, removes)
    && (!overwrite ==> NothingDrifted(inventory, ob))
  }

  /** What a reconcile writes: the render and the manifest. */
  function ReconcileFiles(render: seq<RenderFile>, manifest: Bytes): seq<RenderFile> {
    render + [RenderFile(MANIFEST, Text, FILE_MODE, manifest)]
  }

  /** Validation and the drift gate. */
  method CheckReconcile(inventory: seq<Entry>, render: seq<RenderFile>, overwrite: bool, snapshot: Snapshot, fold: Path -> Path)
    returns (r: Result<(), Refused>)
    requires DistinctInventory(inventory)
    ensures r.Ok? <==>
      && GoodSnapshot(snapshot, fold) && GoodFiles(render, fold)
      && (overwrite || NothingDrifted(inventory, ObservedOf(snapshot)))
    ensures r.Ok? ==> Maintenance.Lists(KnownPaths(snapshot), ObservedOf(snapshot))
    ensures r.Ok? ==> forall m :: ValidFiles(ReconcileFiles(render, m))
    ensures r.Ok? && MANIFEST !in PathSet(render) ==> forall m :: DistinctFiles(ReconcileFiles(render, m))
    ensures r.Ok? ==> InstallableFiles(render)
  {
    r := ValidateSnapshot(snapshot, fold);
    if r.Err? { return; }
    r := ValidateManaged(render, fold);
    if r.Err? { return; }
    var drifted := SelectDrifted(inventory, ObservedOf(snapshot));
    HasFirst(drifted);
    if drifted != [] && !overwrite { return Err(RenderContractViolation); }
    KnownIsListed(snapshot, fold);
    RenderStands(render, fold);
  }

  lemma RenderStands(render: seq<RenderFile>, fold: Path -> Path)
    requires GoodFiles(render, fold)
    ensures forall m :: ValidFiles(ReconcileFiles(render, m))
    ensures MANIFEST !in PathSet(render) ==> forall m :: DistinctFiles(ReconcileFiles(render, m))
    ensures InstallableFiles(render)
  {
    GoodFilesAreDistinct(render, fold);
    GoodFilesInstall(render, fold);
    forall m ensures ValidFiles(ReconcileFiles(render, m)) { WithManifest(render, m); }
    if MANIFEST !in PathSet(render) {
      forall m ensures DistinctFiles(ReconcileFiles(render, m)) { WithManifest(render, m); }
    }
  }

  lemma WithManifest(render: seq<RenderFile>, m: Bytes)
    requires DistinctFiles(render) && ValidFiles(render)
    ensures ValidFiles(ReconcileFiles(render, m))
    ensures MANIFEST !in PathSet(render) ==> DistinctFiles(ReconcileFiles(render, m))
  {
    if MANIFEST !in PathSet(render) { AppendIsDistinct(render, RenderFile(MANIFEST, Text, FILE_MODE, m)); }
  }

  /** A render with a file at the manifest's own path has two outputs there. */
  lemma RenderedManifestRepeats(render: seq<RenderFile>, manifest: Bytes, outputs: seq<Output>, store: Store)
    requires StoredFrom(ReconcileFiles(render, manifest), outputs, store) && MANIFEST in PathSet(render)
    ensures Repeats(outputs)
  {
    var i :| 0 <= i < |render| && render[i].path == MANIFEST;
    assert ReconcileFiles(render, manifest)[i] == render[i];
    assert RepeatsAt(outputs, i, |render|);
  }

  lemma {:induction false} EntriesAreApart(es: seq<PlannedEntry>, store: Store, t: ExpectedTarget)
    requires OverlayEntries(es, store, t).Ok?
    ensures DistinctEntries(es) && EntriesStand(es, OverlayEntries(es, store, t).value)
    decreases |es|
  {
    if es != [] {
      var front, last := es[..|es| - 1], es[|es| - 1];
      EntriesAreApart(front, store, t);
      OneMoreEntry(front, last, store, OverlayEntries(front, store, t).value);
      assert es == front + [last];
    }
  }

  predicate EntriesStand(es: seq<PlannedEntry>, t: ExpectedTarget) {
    forall e :: e in es ==> e.path in t.files || e.path in t.directories
  }

  lemma OneMoreEntry(front: seq<PlannedEntry>, last: PlannedEntry, store: Store, t: ExpectedTarget)
    requires DistinctEntries(front) && EntriesStand(front, t) && OverlayEntry(last, store, t).Ok?
    ensures DistinctEntries(front + [last]) && EntriesStand(front + [last], OverlayEntry(last, store, t).value)
  {
    forall i | 0 <= i < |front| ensures front[i].path != last.path { assert front[i] in front; }
  }

  lemma {:induction false} TreesAreApart(ops: seq<Operation>, ob: Observed, store: Store, o: Overlay, k: nat)
    requires OverlayAll(ops, ob, store, o).Ok? && k < |ops| && ops[k].CreateTree?
    ensures DistinctEntries(ops[k].tree.entries)
    decreases |ops|
  {
    if k == 0 {
      EntriesAreApart(ops[0].tree.entries, store,
        ExpectedTarget(o.files, o.directories[ops[0].path := ops[0].tree.rootMode]));
    } else {
      TreesAreApart(ops[1..], ob, store, OverlayStep(ops[0], ob, store, o).value, k - 1);
    }
  }

  /** A plan that repeats a path is refused when it is applied. */
  lemma RepeatIsRefused(snapshot: Snapshot, plan: Plan)
    requires RepeatsOperation(plan.operations)
    ensures Applied(snapshot, plan).Err?
  {
    var ops, ob, o := plan.operations, ObservedOf(snapshot), StartOverlay(snapshot);
    if OverlayAll(ops, ob, plan.store, o).Ok? {
      forall k | 0 <= k < |ops| && ops[k].CreateTree? ensures DistinctEntries(ops[k].tree.entries) {
        TreesAreApart(ops, ob, plan.store, o, k);
      }
      forall i, j | 0 <= i < j < |ops| ensures ops[i].path != ops[j].path { AcceptedApart(ops, ob, plan.store, o, i, j); }
    }
  }

  /** The target as planned on. */
  function RetiredView(inventory: seq<Entry>, render: seq<RenderFile>, outputs: seq<Output>, ob: Observed): Observed {
    Observed(ob.states - ToSet(RetiredPaths(inventory, render)), ob.directoryStates - Yielding(outputs, ob))
  }

  /**
   No retired path has become a directory, directories where outputs go hold nothing
   but retired files, and the outputs can be placed on what is left.
   */
  predicate Replaceable(inventory: seq<Entry>, render: seq<RenderFile>, outputs: seq<Output>, ob: Observed)
    requires outputs != []
  {
    && (forall p :: p in RetiredPaths(inventory, render) ==> p !in ob.directoryStates)
    && (forall i :: 0 <= i < |outputs| && outputs[i].path in ob.directoryStates ==>
          Vacated(outputs[i].path, RetiredPaths(inventory, render), ob))
    && Placeable(outputs, RetiredView(inventory, render, outputs, ob), false)
  }

  /** The render and the manifest can be stored, and put in the place of what is there. */
  predicate Reconcilable(inventory: seq<Entry>, render: seq<RenderFile>, manifest: Bytes, ob: Observed, limits: Limits) {
    && Storable(ReconcileFiles(render, manifest), limits)
    && Replaceable(inventory, render, OutputsFor(ReconcileFiles(render, manifest)), ob)
  }

  /**
   When there is a plan: the snapshot and the render are in order, nothing has drifted
   or drift is overwritten, the manifest could be built, and all can be reconciled.
   */
  ghost predicate Plannable(
    inventory: seq<Entry>, render: seq<RenderFile>, manifest: Option<Bytes>, overwrite: bool, snapshot: Snapshot,
    limits: Limits, fold: Path -> Path)
  {
    && GoodSnapshot(snapshot, fold) && GoodFiles(render, fold)
    && (overwrite || NothingDrifted(inventory, ObservedOf(snapshot)))
    && manifest.Some? && Reconcilable(inventory, render, manifest.value, ObservedOf(snapshot), limits)
  }

  /** The parts of a reconcile plan, and the target they were planned on. */
  datatype Parts = Parts(deletes: seq<Operation>, removes: seq<Operation>, view: Observed, layout: Layout)

  /** The retired go, and the outputs are placed on what they leave. */
  method RetireAndPlace(inventory: seq<Entry>, render: seq<RenderFile>, outputs: seq<Output>, store: Store, snapshot: Snapshot)
    returns (r: Result<Parts, Refused>)
    requires DistinctInventory(inventory) && AllPresent(ObservedOf(snapshot)) && Stored(outputs, store) && outputs != []
    requires Maintenance.Lists(KnownPaths(snapshot), ObservedOf(snapshot))
    ensures r.Ok? <==> Replaceable(inventory, render, outputs, ObservedOf(snapshot))
    ensures r.Ok? ==>
      && r.value.layout.outputs == outputs && LaidOut(r.value.layout, r.value.view, store)
      && Retirement(inventory, render, outputs, ObservedOf(snapshot), r.value.view, r.value.deletes, r.value.removes)
    ensures r.Ok? && WellFormed(outputs) ==> Everywhere(r.value.layout, r.value.view, store)
  {
    var ob := ObservedOf(snapshot);
    var retired := Retire(inventory, render, outputs, KnownPaths(snapshot), ob);
    if retired.Err? { return Err(retired.error); }
    var (deletes, removes, view) := retired.value;
    assert view == RetiredView(inventory, render, outputs, ob);
    var laid := PlaceOutputs(outputs, view, store, false);
    if laid.Err? { return Err(laid.error); }
    return Ok(Parts(deletes, removes, view, laid.value));
  }

  method PlanReconciled(inventory: seq<Entry>, render: seq<RenderFile>, manifest: Bytes, snapshot: Snapshot, limits: Limits)
    returns (r: Result<(Parts, Store), Refused>)
    requires DistinctInventory(inventory) && AllPresent(ObservedOf(snapshot))
    requires Maintenance.Lists(KnownPaths(snapshot), ObservedOf(snapshot)) && ValidFiles(ReconcileFiles(render, manifest))
    ensures r.Ok? <==> Reconcilable(inventory, render, manifest, ObservedOf(snapshot), limits)
    ensures r.Ok? ==> var p := r.value.0;
      && StoredFrom(ReconcileFiles(render, manifest), p.layout.outputs, r.value.1) && LaidOut(p.layout, p.view, r.value.1)
      && Retirement(inventory, render, p.layout.outputs, ObservedOf(snapshot), p.view, p.deletes, p.removes)
    ensures r.Ok? && DistinctFiles(ReconcileFiles(render, manifest)) ==> Everywhere(r.value.0.layout, r.value.0.view, r.value.1)
  {
    var files := ReconcileFiles(render, manifest);
    var stored := StoreOutputs(files, limits);
    if stored.Err? { return Err(stored.error); }
    var (outputs, store) := stored.value;
    StoredFromIsStored(files, outputs, store);
    StoredAreOutputs(files, outputs, store);
    var parts := RetireAndPlace(inventory, render, outputs, store, snapshot);
    if parts.Err? { return Err(parts.error); }
    return Ok((parts.value, store));
  }

  lemma RepeatedIsRefused(
    render: seq<RenderFile>, manifest: Bytes, snapshot: Snapshot, plan: Plan, view: Observed, l: Layout, front: seq<Operation>)
    requires StoredFrom(ReconcileFiles(render, manifest), l.outputs, plan.store) && LaidOut(l, view, plan.store)
    requires MANIFEST in PathSet(render) && plan.operations == front + l.trees + l.plain
    ensures RepeatsOperation(plan.operations) && Applied(snapshot, plan).Err?
  {
    RenderedManifestRepeats(render, manifest, l.outputs, plan.store);
    RepeatIsLaidTwice(l, view, plan.store, front);
    RepeatIsRefused(snapshot, plan);
  }

  /**
   `manifest` is the candidate manifest, if one could be built.  Compiles exactly what
   is plannable with a plan, the `candidate`, within the limits.  A render that places
   a file at the manifest's own path is compiled like any other, to a plan that
   repeats that path and is refused when it is applied.
   */
  method CompileReconcilePlan(
    inventory: seq<Entry>, render: seq<RenderFile>, manifest: Option<Bytes>, overwrite: bool, snapshot: Snapshot,
    limits: Limits, target: nat, fold: Path -> Path)
    returns (r: Result<Plan, Refused>, ghost candidate: Plan, ghost view: Observed, ghost l: Layout,
             ghost deletes: seq<Operation>, ghost removes: seq<Operation>)
    requires DistinctInventory(inventory) && ClosedView(ObservedOf(snapshot)) && AllPresent(ObservedOf(snapshot))
    ensures Plannable(inventory, render, manifest, overwrite, snapshot, limits, fold) ==>
      candidate.kind == OperationKind.Reconcile && InstallableFiles(render)
    ensures Plannable(inventory, render, manifest, overwrite, snapshot, limits, fold) && MANIFEST !in PathSet(render) ==>
      ReconcilePlan(inventory, render, manifest.value, overwrite, ObservedOf(snapshot), view, candidate, l, deletes, removes)
    ensures Plannable(inventory, render, manifest, overwrite, snapshot, limits, fold) && MANIFEST in PathSet(render) ==>
      RepeatsOperation(candidate.operations) && Applied(snapshot, candidate).Err?
    ensures r.Ok? <==>
      && Plannable(inventory, render, manifest, overwrite, snapshot, limits, fold)
      && WithinPlanLimits(candidate.operations, limits)
    ensures r.Ok? ==> r.value == candidate
    ensures r.Ok? ==>
      && Plannable(inventory, render, manifest, overwrite, snapshot, limits, fold)
      && WithinPlanLimits(r.value.operations, limits) && (MANIFEST in PathSet(render) ==> Applied(snapshot, r.value).Err?)
  {
    view, l, deletes, removes := ObservedOf(snapshot), Layout([], [], [], []), [], [];
    candidate := Plan(OperationKind.Reconcile, target, [], EmptyStore(limits));
    var valid := CheckReconcile(inventory, render, overwrite, snapshot, fold);
    if valid.Err? { return Err(valid.error), candidate, view, l, deletes, removes; }
    if manifest.None? { return Err(InvalidManifest), candidate, view, l, deletes, removes; }
    var planned := PlanReconciled(inventory, render, manifest.value, snapshot, limits);
    if planned.Err? { return Err(planned.error), candidate, view, l, deletes, removes; }
    var (parts, store) := planned.value;
    view, l, deletes, removes := parts.view, parts.layout, parts.deletes, parts.removes;
    var operations := parts.deletes + parts.removes + parts.layout.trees + parts.layout.plain;
    candidate := Plan(OperationKind.Reconcile, target, operations, store);
    if MANIFEST in PathSet(render) {
      RepeatedIsRefused(render, manifest.value, snapshot, candidate, view, l, deletes + removes);
    }
    var within := CheckPlanLimits(operations, limits);
    if within.Err? { return Err(within.error), candidate, view, l, deletes, removes; }
    r := Ok(Plan(OperationKind.Reconcile, target, operations, store));
  }

  // What a compiled reconcile plan means

  /** No output is a directory now, and none is at or below a retired file. */
  predicate NoKindChange(inventory: seq<Entry>, render: seq<RenderFile>, l: Layout, ob: Observed) {
    && (forall i :: 0 <= i < |l.outputs| ==> l.outputs[i].path !in ob.directoryStates)
    && (forall i, p :: 0 <= i < |l.outputs| && p in ob.states && IsRetired(inventory, render, p) ==>
          !AtOrAbove(p, l.outputs[i].path))
  }

  lemma DeletedPaths(
    inventory: seq<Entry>, render: seq<RenderFile>, outputs: seq<Output>, ob: Observed, view: Observed,
    deletes: seq<Operation>, removes: seq<Operation>, p: Path)
    requires Retirement(inventory, render, outputs, ob, view, deletes, removes)
    ensures p in OpPaths(deletes) <==> p in ob.states && IsRetired(inventory, render, p)
    ensures p in view.states <==> p in ob.states && !IsRetired(inventory, render, p)
  {
    if p in OpPaths(deletes) {
      var i :| 0 <= i < |deletes| && deletes[i].path == p;
      assert deletes[i] in deletes;
    }
    if p in ob.states && IsRetired(inventory, render, p) { assert DeleteFile(p, ob.states[p]) in deletes; }
    assert p in ToSet(RetiredPaths(inventory, render)) <==> IsRetired(inventory, render, p);
  }

  lemma NothingGivesWay(outputs: seq<Output>, ob: Observed)
    requires forall i :: 0 <= i < |outputs| ==> outputs[i].path !in ob.directoryStates
    ensures Yielding(outputs, ob) == {}
  {
    forall p ensures p !in Yielding(outputs, ob) { YieldingIsGivingWay(outputs, ob, p); }
  }

  lemma ViewIsClosed(
    inventory: seq<Entry>, render: seq<RenderFile>, l: Layout, ob: Observed, view: Observed,
    deletes: seq<Operation>, removes: seq<Operation>)
    requires ClosedView(ob) && Retirement(inventory, render, l.outputs, ob, view, deletes, removes)
    requires NoKindChange(inventory, render, l, ob)
    ensures removes == [] && view.directoryStates == ob.directoryStates && ClosedView(view)
  {
    NothingGivesWay(l.outputs, ob);
    HasFirst(removes);
    assert ob.directoryStates - {} == ob.directoryStates;
    forall p | p in view.states || p in view.directoryStates ensures Valid(p) && ParentSeen(view, p) {
      assert ParentSeen(ob, p);
    }
  }

  ghost function AfterDeletes(deletes: seq<Operation>, o: Overlay): Overlay {
    Overlay(o.files - OpPaths(deletes), o.directories, o.written + OpPaths(deletes))
  }

  lemma DeletesGoFirst(
    inventory: seq<Entry>, render: seq<RenderFile>, l: Layout, ob: Observed, view: Observed, store: Store,
    deletes: seq<Operation>, removes: seq<Operation>, o: Overlay)
    requires Base(ob, ob, o) && o.written == {} && Retirement(inventory, render, l.outputs, ob, view, deletes, removes)
    ensures OverlayAll(deletes, ob, store, o) == Ok(AfterDeletes(deletes, o))
  {
    forall i | 0 <= i < |deletes| ensures DeleteReady(deletes[i], ob, o) { assert deletes[i] in deletes; }
    DeletesAccepted(deletes, ob, store, o);
  }

  lemma ViewIsBase(
    inventory: seq<Entry>, render: seq<RenderFile>, l: Layout, ob: Observed, view: Observed,
    deletes: seq<Operation>, removes: seq<Operation>, o: Overlay)
    requires Base(ob, ob, o) && Retirement(inventory, render, l.outputs, ob, view, deletes, removes)
    requires NoKindChange(inventory, render, l, ob)
    ensures Base(ob, view, AfterDeletes(deletes, o))
  {
    ViewIsClosed(inventory, render, l, ob, view, deletes, removes);
    forall p ensures p in o.files && p !in OpPaths(deletes) <==> p in view.states {
      DeletedPaths(inventory, render, l.outputs, ob, view, deletes, removes, p);
    }
  }

  /** A path at or above an output is not one of the retired files. */
  lemma WantedIsSpare(
    inventory: seq<Entry>, render: seq<RenderFile>, l: Layout, ob: Observed, view: Observed,
    deletes: seq<Operation>, removes: seq<Operation>, o: Overlay, p: Path, i: nat)
    requires Retirement(inventory, render, l.outputs, ob, view, deletes, removes) && NoKindChange(inventory, render, l, ob)
    requires o.written == {} && i < |l.outputs| && AtOrAbove(p, l.outputs[i].path)
    requires view.directoryStates == ob.directoryStates
    ensures Spare(ob, view, AfterDeletes(deletes, o), p)
  {
    DeletedPaths(inventory, render, l.outputs, ob, view, deletes, removes, p);
  }

  lemma ReconcileIsUnspent(
    inventory: seq<Entry>, render: seq<RenderFile>, l: Layout, ob: Observed, view: Observed, store: Store,
    deletes: seq<Operation>, removes: seq<Operation>, o: Overlay)
    requires ClosedView(ob) && o.written == {} && Placed(l, view, store)
    requires Retirement(inventory, render, l.outputs, ob, view, deletes, removes) && NoKindChange(inventory, render, l, ob)
    ensures Unspent(l, ob, view, AfterDeletes(deletes, o))
  {
    var u := AfterDeletes(deletes, o);
    ViewIsClosed(inventory, render, l, ob, view, deletes, removes);
    forall n | 0 <= n < |l.placed| ensures Spare(ob, view, u, l.placed[n].path) && l.placed[n].path !in ob.directoryStates {
      assert PlacedAt(l, view, store, n);
      var i :| 0 <= i < |l.outputs| && l.outputs[i] == l.placed[n];
      WantedIsSpare(inventory, render, l, ob, view, deletes, removes, o, l.placed[n].path, i);
    }
    forall k, p | 0 <= k < |l.trees| && l.trees[k].CreateTree? && TreeTouches(l.trees[k], p) ensures Spare(ob, view, u, p) {
      var i := TouchedAboveOutput(l, view, store, k, p);
      WantedIsSpare(inventory, render, l, ob, view, deletes, removes, o, p, i);
    }
  }

  lemma TouchedAboveOutput(l: Layout, view: Observed, store: Store, k: nat, p: Path) returns (i: nat)
    requires ClosedView(view) && Placed(l, view, store) && k < |l.trees|
    requires l.trees[k].CreateTree? && TreeTouches(l.trees[k], p)
    ensures i < |l.outputs| && AtOrAbove(p, l.outputs[i].path)
  {
    TouchedIsWanted(l, view, store, k, p);
    i :| 0 <= i < |l.outputs| && AtOrAbove(p, l.outputs[i].path);
  }

  lemma ReconcileAccepted(
    inventory: seq<Entry>, render: seq<RenderFile>, ob: Observed, view: Observed,
    store: Store, l: Layout, deletes: seq<Operation>, removes: seq<Operation>, o: Overlay)
    requires Base(ob, ob, o) && o.written == {}
    requires Placed(l, view, store) && Retirement(inventory, render, l.outputs, ob, view, deletes, removes)
    requires NoKindChange(inventory, render, l, ob)
    ensures removes == [] && OverlayAll(deletes + (l.trees + l.plain), ob, store, o).Ok?
    ensures Installed(l, view, store, AfterDeletes(deletes, o), OverlayAll(deletes + (l.trees + l.plain), ob, store, o).value)
  {
    ViewIsClosed(inventory, render, l, ob, view, deletes, removes);
    DeletesGoFirst(inventory, render, l, ob, view, store, deletes, removes, o);
    ViewIsBase(inventory, render, l, ob, view, deletes, removes, o);
    ReconcileIsUnspent(inventory, render, l, ob, view, store, deletes, removes, o);
    LayoutAccepted(l, ob, view, store, AfterDeletes(deletes, o));
    OverlayConcat(deletes, l.trees + l.plain, ob, store, o);
  }

  // Accepted only then

  /** The parent of an observed path at or above an output stays where it is. */
  lemma ParentStaysInView(l: Layout, ob: Observed, p: Path, i: nat)
    requires ClosedView(ob) && WellFormed(l.outputs) && Seen(ob, p) && i < |l.outputs| && AtOrAbove(p, l.outputs[i].path)
    requires |p| > 1
    ensures Parent(p) in ob.directoryStates && Parent(p) !in Yielding(l.outputs, ob)
  {
    assert ParentSeen(ob, p);
    YieldingIsGivingWay(l.outputs, ob, Parent(p));
    assert forall k :: 0 <= k < |l.outputs| ==> !Above(l.outputs[k].path, l.outputs[i].path);
    if GivesWay(l.outputs, ob, Parent(p)) {
      var k :| 0 <= k < |l.outputs| && l.outputs[k].path in ob.directoryStates && AtOrAbove(l.outputs[k].path, Parent(p));
      AboveParent(l.outputs[k].path, p);
      AboveTransitive(l.outputs[k].path, p, l.outputs[i].path);
    }
  }

  lemma NearestIs(p: Path, dirs: set<Path>, k: nat, j: nat)
    requires j <= k <= |p| && (j == 0 || p[..j] in dirs) && forall m :: j < m <= k ==> p[..m] !in dirs
    ensures Nearest(p, dirs, k) == j
  {
  }

  /** A retired file above an output is the root of the tree that would hold the output. */
  lemma RetiredIsRoot(ob: Observed, view: Observed, p: Path, q: Path)
    requires ClosedView(ob) && p in ob.states && Above(p, q) && Valid(q)
    requires view.directoryStates.Keys <= ob.directoryStates.Keys
    requires |p| == 1 || Parent(p) in view.directoryStates
    ensures RootOf(q, view.directoryStates.Keys) == Some(p)
  {
    var dirs := view.directoryStates.Keys;
    forall m | |p| - 1 < m <= |q| - 1 ensures q[..m] !in dirs {
      if m == |p| {
        assert q[..m] == p;
      } else if q[..m] in dirs {
        assert Above(p, q[..m]);
        SeenAncestors(ob, p, q[..m]);
      }
    }
    assert |p| > 1 ==> Parent(p) == q[..|p| - 1];
    NearestIs(q, dirs, |q| - 1, |p| - 1);
    assert Parents(q)[|p| - 1] == q[..|p|] == p;
  }

  /** Some operation of the layout acts on the path of an uncovered output. */
  lemma UncoveredHasOperation(l: Layout, view: Observed, store: Store, i: nat)
    requires Everywhere(l, view, store) && i < |l.outputs|
    requires RootOf(l.outputs[i].path, view.directoryStates.Keys).None?
    ensures exists op :: op in l.trees + l.plain && op.path == l.outputs[i].path
  {
    var o := l.outputs[i];
    assert o in l.outputs;
    assert forall j :: 0 <= j < |l.outputs| && l.outputs[j].path == o.path ==>
      RootOf(l.outputs[j].path, view.directoryStates.Keys).None?;
    assert o in l.placed;
    var n :| 0 <= n < |l.placed| && l.placed[n] == o;
    assert PlacedAt(l, view, store, n);
    assert l.plain[n] in l.trees + l.plain;
  }

  lemma RootHasOperation(l: Layout, view: Observed, store: Store, i: nat)
    requires Placed(l, view, store) && i < |l.outputs|
    requires RootOf(l.outputs[i].path, view.directoryStates.Keys).Some?
    ensures exists op :: op in l.trees + l.plain && op.path == RootOf(l.outputs[i].path, view.directoryStates.Keys).value
  {
    var root := RootOf(l.outputs[i].path, view.directoryStates.Keys).value;
    assert root in Roots(l.outputs, view.directoryStates.Keys);
    var k :| 0 <= k < |l.trees| && l.trees[k].path == root;
    assert l.trees[k] in l.trees + l.plain;
  }

  lemma NoRootBelowSeen(ob: Observed, view: Observed, p: Path)
    requires Valid(p) && (|p| == 1 || Parent(p) in view.directoryStates)
    ensures RootOf(p, view.directoryStates.Keys).None?
  {
    if |p| > 1 { NearestIs(p, view.directoryStates.Keys, |p| - 1, |p| - 1); }
  }

  lemma Clash(deletes: seq<Operation>, removes: seq<Operation>, trees: seq<Operation>, plain: seq<Operation>, a: Operation)
    requires a in deletes || a in removes
    requires exists b :: b in trees + plain && b.path == a.path
    ensures !Distinct(deletes + removes + trees + plain)
  {
    var b :| b in trees + plain && b.path == a.path;
    assert a in deletes + removes;
    assert deletes + removes + trees + plain == deletes + removes + (trees + plain);
    if Distinct(deletes + removes + (trees + plain)) { DistinctParts(deletes + removes, trees + plain); }
  }

  /** An output that is a directory now makes two operations on one path. */
  lemma DirectoryOutputClashes(
    inventory: seq<Entry>, render: seq<RenderFile>, manifest: Bytes, overwrite: bool, ob: Observed, view: Observed,
    plan: Plan, l: Layout, deletes: seq<Operation>, removes: seq<Operation>, i: nat)
    requires ClosedView(ob) && ReconcilePlan(inventory, render, manifest, overwrite, ob, view, plan, l, deletes, removes)
    requires i < |l.outputs| && l.outputs[i].path in ob.directoryStates
    ensures !Distinct(plan.operations)
  {
    var p := l.outputs[i].path;
    if |p| > 1 { ParentStaysInView(l, ob, p, i); }
    NoRootBelowSeen(ob, view, p);
    UncoveredHasOperation(l, view, plan.store, i);
    YieldingIsGivingWay(l.outputs, ob, p);
    var removal := RemoveEmptyDirectory(p, ob.directoryStates[p]);
    assert removal in removes;
    Clash(deletes, removes, l.trees, l.plain, removal);
  }

  lemma RetiredAboveClashes(
    inventory: seq<Entry>, render: seq<RenderFile>, manifest: Bytes, overwrite: bool, ob: Observed, view: Observed,
    plan: Plan, l: Layout, deletes: seq<Operation>, removes: seq<Operation>, i: nat, p: Path)
    requires ClosedView(ob) && ReconcilePlan(inventory, render, manifest, overwrite, ob, view, plan, l, deletes, removes)
    requires i < |l.outputs| && p in ob.states && IsRetired(inventory, render, p) && AtOrAbove(p, l.outputs[i].path)
    ensures !Distinct(plan.operations)
  {
    var q := l.outputs[i].path;
    if |p| > 1 { ParentStaysInView(l, ob, p, i); }
    if p == q {
      NoRootBelowSeen(ob, view, p);
      UncoveredHasOperation(l, view, plan.store, i);
    } else {
      RetiredIsRoot(ob, view, p, q);
      RootHasOperation(l, view, plan.store, i);
    }
    var deletion := DeleteFile(p, ob.states[p]);
    assert deletion in deletes;
    Clash(deletes, removes, l.trees, l.plain, deletion);
  }

  /** Every output at its bytes and mode, no retired file left, everything else as it was. */
  ghost predicate Reconciled(
    inventory: seq<Entry>, render: seq<RenderFile>, r: ExpectedTarget, start: Overlay, l: Layout, ob: Observed, store: Store)
  {
    && (forall p :: p in r.files <==> IsOutput(l, p) || (p in start.files && !IsRetired(inventory, render, p)))
    && (forall i :: 0 <= i < |l.outputs| ==> IsAsPlanned(l.outputs[i], store, r.files))
    && (forall p :: p in r.files && !IsOutput(l, p) ==> r.files[p] == start.files[p])
    && (forall p :: p in r.directories <==> p in start.directories || NewlyAbove(l, ob, p))
    && (forall p :: p in start.directories ==> r.directories[p] == start.directories[p])
  }

  lemma EverythingIsEffected(l: Layout, view: Observed, store: Store, p: Path)
    requires Everywhere(l, view, store)
    ensures Effected(l, view, p) <==> IsOutput(l, p)
  {
    if IsPlaced(l, p) {
      var n :| 0 <= n < |l.placed| && l.placed[n].path == p;
      assert PlacedAt(l, view, store, n);
    }
    if IsOutput(l, p) && p !in Covered(l.outputs, view.directoryStates.Keys) {
      var i :| 0 <= i < |l.outputs| && l.outputs[i].path == p;
      assert l.outputs[i] in l.outputs && l.outputs[i] in l.placed;
      var n :| 0 <= n < |l.placed| && l.placed[n] == l.outputs[i];
    }
  }

  lemma InstalledIsReconciled(
    inventory: seq<Entry>, render: seq<RenderFile>, l: Layout, ob: Observed, view: Observed, store: Store,
    deletes: seq<Operation>, removes: seq<Operation>, o: Overlay, u: Overlay)
    requires Base(ob, ob, o) && Retirement(inventory, render, l.outputs, ob, view, deletes, removes)
    requires Everywhere(l, view, store) && view.directoryStates == ob.directoryStates
    requires Installed(l, view, store, AfterDeletes(deletes, o), u)
    ensures Reconciled(inventory, render, ExpectedTarget(u.files, u.directories), o, l, ob, store)
  {
    forall p ensures (p in OpPaths(deletes) <==> p in ob.states && IsRetired(inventory, render, p))
      && (Effected(l, view, p) <==> IsOutput(l, p)) && (NewlyAbove(l, view, p) <==> NewlyAbove(l, ob, p))
    {
      DeletedPaths(inventory, render, l.outputs, ob, view, deletes, removes, p);
      EverythingIsEffected(l, view, store, p);
    }
    forall i | 0 <= i < |l.outputs| ensures IsAsPlanned(l.outputs[i], store, u.files) {
      assert IsOutput(l, l.outputs[i].path);
    }
  }

  lemma AcceptedKeepsKinds(
    inventory: seq<Entry>, render: seq<RenderFile>, manifest: Bytes, overwrite: bool, ob: Observed, view: Observed,
    plan: Plan, l: Layout, deletes: seq<Operation>, removes: seq<Operation>)
    requires ClosedView(ob) && Distinct(plan.operations)
    requires ReconcilePlan(inventory, render, manifest, overwrite, ob, view, plan, l, deletes, removes)
    ensures NoKindChange(inventory, render, l, ob)
  {
    forall i | 0 <= i < |l.outputs| ensures l.outputs[i].path !in ob.directoryStates {
      if l.outputs[i].path in ob.directoryStates {
        DirectoryOutputClashes(inventory, render, manifest, overwrite, ob, view, plan, l, deletes, removes, i);
      }
    }
    forall i, p | 0 <= i < |l.outputs| && p in ob.states && IsRetired(inventory, render, p)
      ensures !AtOrAbove(p, l.outputs[i].path)
    {
      if AtOrAbove(p, l.outputs[i].path) {
        RetiredAboveClashes(inventory, render, manifest, overwrite, ob, view, plan, l, deletes, removes, i, p);
      }
    }
  }

  lemma WithoutRemoves(a: seq<Operation>, b: seq<Operation>, c: seq<Operation>, d: seq<Operation>)
    requires b == []
    ensures a + b + c + d == a + (c + d)
  {
  }

  lemma KeptKindsReconcile(
    inventory: seq<Entry>, render: seq<RenderFile>, ob: Observed, view: Observed, store: Store, l: Layout,
    deletes: seq<Operation>, removes: seq<Operation>, o: Overlay, ops: seq<Operation>)
    requires Base(ob, ob, o) && o.written == {} && ops == deletes + removes + l.trees + l.plain
    requires Everywhere(l, view, store) && Retirement(inventory, render, l.outputs, ob, view, deletes, removes)
    requires NoKindChange(inventory, render, l, ob)
    ensures OverlayAll(ops, ob, store, o).Ok?
    ensures var u := OverlayAll(ops, ob, store, o).value;
      Reconciled(inventory, render, ExpectedTarget(u.files, u.directories), o, l, ob, store)
  {
    ReconcileAccepted(inventory, render, ob, view, store, l, deletes, removes, o);
    WithoutRemoves(deletes, removes, l.trees, l.plain);
    ViewIsClosed(inventory, render, l, ob, view, deletes, removes);
    InstalledIsReconciled(inventory, render, l, ob, view, store, deletes, removes, o, OverlayAll(ops, ob, store, o).value);
  }

  /**
   A reconcile plan is accepted exactly when no output changes kind with what is
   there: none is a directory now, and none lies at or below a retired file.  It then
   ends with the new render and manifest in place and no retired file left, and
   touches nothing else.
   */
  lemma ReconcilePlanMeansOverlay(
    inventory: seq<Entry>, render: seq<RenderFile>, manifest: Bytes, overwrite: bool, snapshot: Snapshot, t: Tree,
    view: Observed, plan: Plan, l: Layout, deletes: seq<Operation>, removes: seq<Operation>)
    requires Closed(t) && Observes(snapshot, t)
    requires ReconcilePlan(inventory, render, manifest, overwrite, ObservedOf(snapshot), view, plan, l, deletes, removes)
    ensures Applied(snapshot, plan).Ok? <==> NoKindChange(inventory, render, l, ObservedOf(snapshot))
    ensures Applied(snapshot, plan).Ok? ==>
      Reconciled(inventory, render, Applied(snapshot, plan).value, StartOverlay(snapshot), l, ObservedOf(snapshot), plan.store)
  {
    var ob, o := ObservedOf(snapshot), StartOverlay(snapshot);
    StartIsBase(snapshot, t);
    if Applied(snapshot, plan).Ok? {
      AcceptedAreDistinct(plan.operations, ob, plan.store, o);
      AcceptedKeepsKinds(inventory, render, manifest, overwrite, ob, view, plan, l, deletes, removes);
    }
    if NoKindChange(inventory, render, l, ob) {
      KeptKindsReconcile(inventory, render, ob, view, plan.store, l, deletes, removes, o, plan.operations);
    }
  }

  /** Without the override every recorded file that is replaced or deleted was as recorded. */
  lemma ReconcileLosesNoEdits(
    inventory: seq<Entry>, render: seq<RenderFile>, manifest: Bytes, snapshot: Snapshot, t: Tree,
    view: Observed, plan: Plan, l: Layout, deletes: seq<Operation>, removes: seq<Operation>, e: Entry)
    requires Closed(t) && Observes(snapshot, t) && e in inventory
    requires ReconcilePlan(inventory, render, manifest, false, ObservedOf(snapshot), view, plan, l, deletes, removes)
    ensures AsRecorded(t, e)
  {
    var ob := ObservedOf(snapshot);
    var k :| 0 <= k < |inventory| && inventory[k] == e;
    assert !DriftedAt(inventory, ob, e.path);
    DriftIsObserved(ob, t, e);
  }

  lemma ReconcileIsGood(
    inventory: seq<Entry>, render: seq<RenderFile>, ob: Observed, view: Observed, t: Tree, store: Store, l: Layout,
    deletes: seq<Operation>, removes: seq<Operation>)
    requires Closed(t) && ObservedTree(ob, t) && Placed(l, view, store)
    requires Retirement(inventory, render, l.outputs, ob, view, deletes, removes) && NoKindChange(inventory, render, l, ob)
    ensures forall op :: op in deletes + removes + l.trees + l.plain ==>
      GoodOperation(op, store, t) && !op.RemoveEmptyDirectory?
  {
    ObservedIsClosed(ob, t);
    ViewIsClosed(inventory, render, l, ob, view, deletes, removes);
    LayoutIsGood(l, view, store, t);
    LayoutRemovesNothing(l, view, store);
    forall op | op in deletes ensures GoodOperation(op, store, t) && !op.RemoveEmptyDirectory? {
      DeletionIsSound(op, ob, t, store);
    }
    assert forall op :: op in deletes + removes + l.trees + l.plain ==> op in deletes || op in l.trees || op in l.plain;
  }

  /** A reconcile without kind changes can be executed crash-safely, and removes no directory. */
  lemma ReconcileExecutes(
    inventory: seq<Entry>, render: seq<RenderFile>, manifest: Bytes, overwrite: bool, snapshot: Snapshot, t: Tree,
    view: Observed, plan: Plan, l: Layout, deletes: seq<Operation>, removes: seq<Operation>)
    requires Closed(t) && Observes(snapshot, t)
    requires ReconcilePlan(inventory, render, manifest, overwrite, ObservedOf(snapshot), view, plan, l, deletes, removes)
    requires NoKindChange(inventory, render, l, ObservedOf(snapshot))
    ensures Executable(plan.operations, plan.store, t)
    ensures Leaves(snapshot, plan, After(plan.operations, plan.store, t, |plan.operations|))
    ensures forall op :: op in plan.operations ==> !op.RemoveEmptyDirectory?
  {
    var ops := plan.operations;
    ReconcilePlanMeansOverlay(inventory, render, manifest, overwrite, snapshot, t, view, plan, l, deletes, removes);
    ReconcileIsGood(inventory, render, ObservedOf(snapshot), view, t, plan.store, l, deletes, removes);
    NothingRemoved(ops, plan.store, t);
    GoodPlanIsSound(plan, t);
    AcceptedPlansExecute(snapshot, plan, t);
  }

  lemma NothingRemoved(ops: seq<Operation>, store: Store, t: Tree)
    requires forall op :: op in ops ==> GoodOperation(op, store, t) && !op.RemoveEmptyDirectory?
    ensures ParentsStand(ops, t)
  {
    forall i | 0 <= i < |ops| ensures ops[i] in ops && GoodOperation(ops[i], store, t) && !ops[i].RemoveEmptyDirectory? { }
  }

  /**
   Recovery can rebuild a compiled reconcile plan without kind changes exactly when
   every retired path it deletes is an acceptable one.
   */
  lemma ReconcilePlanSurvives(
    inventory: seq<Entry>, render: seq<RenderFile>, manifest: Bytes, overwrite: bool, ob: Observed, view: Observed,
    plan: Plan, l: Layout, deletes: seq<Operation>, removes: seq<Operation>)
    requires ClosedView(ob) && InstallableFiles(render) && NoKindChange(inventory, render, l, ob)
    requires ReconcilePlan(inventory, render, manifest, overwrite, ob, view, plan, l, deletes, removes)
    ensures AllSurvive(plan.operations) <==>
      forall p :: p in ob.states && IsRetired(inventory, render, p) ==> Portable(p)
  {
    RenderSurvives(render, manifest, l.outputs, plan.store);
    ViewIsClosed(inventory, render, l, ob, view, deletes, removes);
    LayoutSurvives(l, view, plan.store);
    DeletionsSurvive(inventory, render, ob, deletes);
    PartsSurvive(plan.operations, deletes, removes, l.trees, l.plain);
  }

  lemma RenderSurvives(render: seq<RenderFile>, manifest: Bytes, outputs: seq<Output>, store: Store)
    requires InstallableFiles(render) && StoredFrom(ReconcileFiles(render, manifest), outputs, store)
    ensures AllInstallable(outputs)
  {
    ManifestIsPortable();
    InstalledOutputsSurvive(ReconcileFiles(render, manifest), outputs, store);
  }

  lemma PartsSurvive(ops: seq<Operation>, a: seq<Operation>, b: seq<Operation>, c: seq<Operation>, d: seq<Operation>)
    requires ops == a + b + c + d && b == [] && forall op :: op in c || op in d ==> Survives(op)
    ensures AllSurvive(ops) <==> forall op :: op in a ==> Survives(op)
  {
    SurvivorsOf(ops);
    assert forall op :: op in ops <==> op in a || op in c || op in d;
  }

  lemma DeletionsSurvive(inventory: seq<Entry>, render: seq<RenderFile>, ob: Observed, deletes: seq<Operation>)
    requires forall op :: op in deletes <==> IsDeletion(op, ob) && IsRetired(inventory, render, op.path)
    ensures (forall op :: op in deletes ==> Survives(op)) <==>
      forall p :: p in ob.states && IsRetired(inventory, render, p) ==> Portable(p)
  {
    forall p | p in ob.states && IsRetired(inventory, render, p)
      ensures DeleteFile(p, ob.states[p]) in deletes && (Survives(DeleteFile(p, ob.states[p])) <==> Portable(p))
    {
    }
  }
}
