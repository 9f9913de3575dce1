/** Restore: writing certified bytes back over whatever drifted from its record. */
module Restore {
  import opened Results
  import opened Paths
  import opened Sorting
  import opened Identity
  import opened Plans
  import opened Targets
  import opened Inversion
  import opened Apply
  import opened Agreement
  import opened Outputs
  import opened Trees
  import opened Grouping
  import opened Overlays
  import opened Layouts
  import opened Laying
  import opened Maintenance
  import opened Cleaning
  import opened Soundness
  import opened Initial
  import opened Survival
  import opened Receipts

  /** One line of the managed inventory. */
  datatype Entry = Entry(path: Path, kind: Kind, mode: Mode, sha256: Digest)

  function EntryOf(f: RenderFile): Entry {
    Entry(f.path, f.kind, f.mode, IdentityOf(f.content, f.kind).normalized)
  }

  /** The observed file is not the recorded one. */
  predicate Drifted(ob: Observed, e: Entry) {
    || e.path !in ob.states || ob.states[e.path].Absent?
    || ob.states[e.path].identity.kind != e.kind
    || ob.states[e.path].identity.normalized != e.sha256
    || ob.states[e.path].mode != e.mode
  }

  predicate DistinctInventory(inventory: seq<Entry>) {
    forall i, j :: 0 <= i < j < |inventory| ==> inventory[i].path != inventory[j].path
  }

  predicate IsRecorded(inventory: seq<Entry>, p: Path) {
    exists i :: 0 <= i < |inventory| && inventory[i].path == p
  }

  predicate DriftedAt(inventory: seq<Entry>, ob: Observed, p: Path) {
    exists i :: 0 <= i < |inventory| && inventory[i].path == p && Drifted(ob, inventory[i])
  }

  // What is selected

  lemma NoDuplicatesAppend(ps: seq<Path>, p: Path)
    requires NoDuplicates(ps) && p !in ps
    ensures NoDuplicates(ps + [p])
  {
    assert forall i :: 0 <= i < |ps| ==> ps[i] in ps;
  }

  lemma HasFirst<T>(s: seq<T>)
    ensures s != [] ==> exists x :: x in s
  {
    if s != [] { assert s[0] in s; }
  }

  method SelectDrifted(inventory: seq<Entry>, ob: Observed) returns (ps: seq<Path>)
    requires DistinctInventory(inventory)
    ensures forall p :: p in ps <==> DriftedAt(inventory, ob, p)
    ensures NoDuplicates(ps)
  {
    ps := [];
    for i := 0 to |inventory|
      invariant forall p :: p in ps <==> exists k :: 0 <= k < i && inventory[k].path == p && Drifted(ob, inventory[k])
      invariant NoDuplicates(ps)
    {
      forall p | p in ps ensures p != inventory[i].path {
        var k :| 0 <= k < i && inventory[k].path == p && Drifted(ob, inventory[k]);
      }
      if Drifted(ob, inventory[i]) {
        NoDuplicatesAppend(ps, inventory[i].path);
        ps := ps + [inventory[i].path];
      }
    }
  }

  /** The requested paths, sorted, each once; refused if one is not recorded. */
  method SelectRequested(inventory: seq<Entry>, requested: seq<Path>) returns (r: Result<seq<Path>, Refused>)
    ensures r.Ok? <==> forall p :: p in requested ==> IsRecorded(inventory, p)
    ensures r.Ok? ==> (forall p :: p in r.value <==> p in requested) && NoDuplicates(r.value)
  {
    var once: seq<Path> := [];
    for i := 0 to |requested|
      invariant forall p :: p in once <==> p in requested[..i]
      invariant NoDuplicates(once)
    {
      assert requested[..i + 1] == requested[..i] + [requested[i]];
      if requested[i] !in once { once := once + [requested[i]]; }
    }
    assert requested[..|requested|] == requested;
    var ps := Sort(once, PathLess);
    SameElements(once, PathLess);
    SortKeepsNoDuplicates(once, PathLess);
    for i := 0 to |ps|
      invariant forall k :: 0 <= k < i ==> IsRecorded(inventory, ps[k])
    {
      if !IsRecorded(inventory, ps[i]) {
        assert ps[i] in requested;
        return Err(InvalidTarget);
      }
    }
    return Ok(ps);
  }

  function FindFile(render: seq<RenderFile>, p: Path): (r: Option<RenderFile>)
    ensures r.Some? ==> r.value in render && r.value.path == p
    ensures r.None? ==> forall f :: f in render ==> f.path != p
  {
    if render == [] then None
    else if render[0].path == p then Some(render[0])
    else FindFile(render[1..], p)
  }

  function FindEntry(inventory: seq<Entry>, p: Path): (r: Option<Entry>)
    ensures r.Some? ==> r.value in inventory && r.value.path == p
    ensures r.None? ==> !IsRecorded(inventory, p)
  {
    if inventory == [] then None
    else if inventory[0].path == p then Some(inventory[0])
    else
      assert forall i :: 1 <= i < |inventory| ==> inventory[1..][i - 1] == inventory[i];
      FindEntry(inventory[1..], p)
  }

  /** Each selected path is rendered exactly as it is recorded. */
  ghost predicate Certified(inventory: seq<Entry>, render: seq<RenderFile>, ps: seq<Path>, chosen: seq<RenderFile>) {
    && |chosen| == |ps|
    && forall i :: 0 <= i < |ps| ==> chosen[i].path == ps[i] && chosen[i] in render && EntryOf(chosen[i]) in inventory
  }

  /** The path is rendered, and as it is recorded. */
  predicate RenderedAsRecorded(inventory: seq<Entry>, render: seq<RenderFile>, p: Path) {
    && FindFile(render, p).Some? && FindEntry(inventory, p).Some?
    && EntryOf(FindFile(render, p).value) == FindEntry(inventory, p).value
  }

  /** Where paths are distinct, whichever file and entry are found first are the only ones. */
  lemma {:induction false} FoundIsTheOne(inventory: seq<Entry>, render: seq<RenderFile>, p: Path)
    requires DistinctInventory(inventory) && DistinctFiles(render)
    ensures RenderedAsRecorded(inventory, render, p) <==> exists f :: f in render && f.path == p && EntryOf(f) in inventory
  {
    if f :| f in render && f.path == p && EntryOf(f) in inventory {
      var i :| 0 <= i < |render| && render[i] == f;
      var j :| 0 <= j < |inventory| && inventory[j] == EntryOf(f);
      var file, entry := FindFile(render, p), FindEntry(inventory, p);
      assert file.Some? && entry.Some?;
      var k :| 0 <= k < |render| && render[k] == file.value;
      var m :| 0 <= m < |inventory| && inventory[m] == entry.value;
      assert k == i && m == j;
    }
  }

  method CertifySelected(inventory: seq<Entry>, render: seq<RenderFile>, ps: seq<Path>)
    returns (r: Result<seq<RenderFile>, Refused>)
    requires forall p :: p in ps ==> IsRecorded(inventory, p)
    ensures r.Ok? <==> forall p :: p in ps ==> RenderedAsRecorded(inventory, render, p)
    ensures r.Ok? ==> Certified(inventory, render, ps, r.value)
    ensures ps == [] ==> r == Ok([])
  {
    var chosen: seq<RenderFile> := [];
    for i := 0 to |ps|
      invariant |chosen| == i
      invariant forall k :: 0 <= k < i ==>
        chosen[k].path == ps[k] && chosen[k] in render && EntryOf(chosen[k]) in inventory
      invariant forall k :: 0 <= k < i ==> RenderedAsRecorded(inventory, render, ps[k])
    {
      var entry, file := FindEntry(inventory, ps[i]), FindFile(render, ps[i]);
      assert ps[i] in ps;
      if file.None? || EntryOf(file.value) != entry.value { return Err(RenderContractViolation); }
      chosen := chosen + [file.value];
    }
    return Ok(chosen);
  }

  // The operations

  /** The observed file already is what would be written, newlines aside. */
  predicate Matches(o: Output, ob: Observed, store: Store)
    requires store.Get(o.contentId).Some?
  {
    && o.path in ob.states && ob.states[o.path].Present?
    && ob.states[o.path].identity.kind == Resolved(o, store).identity.kind
    && ob.states[o.path].identity.normalized == Resolved(o, store).identity.normalized
    && ob.states[o.path].mode == o.mode
  }

  function RestoreOperation(o: Output, ob: Observed, store: Store): Option<Operation>
    requires store.Get(o.contentId).Some?
  {
    if o.path !in ob.states || ob.states[o.path].Absent? then Some(CreateFile(o.path, Absent, Resolved(o, store)))
    else if Matches(o, ob, store) then None
    else Some(ReplaceFile(o.path, ob.states[o.path], Resolved(o, store)))
  }

  ghost predicate AllPresent(ob: Observed) {
    forall p :: p in ob.states ==> ob.states[p].Present?
  }

  /** The placed outputs are the uncovered ones that differ from what is observed. */
  ghost predicate OnlyDiffering(l: Layout, ob: Observed, store: Store) {
    && Stored(l.outputs, store)
    && forall o :: o in l.placed <==>
      o in Uncovered(l.outputs, Covered(l.outputs, ob.directoryStates.Keys)) && !Matches(o, ob, store)
  }

  method RestoreFlat(uncovered: seq<Output>, ob: Observed, store: Store)
    returns (plain: seq<Operation>, placed: seq<Output>)
    requires Stored(uncovered, store) && DistinctOutputs(uncovered) && AllPresent(ob)
    ensures PlainFor(plain, placed, ob, store) && DistinctOutputs(placed)
    ensures forall o :: o in placed <==> o in uncovered && !Matches(o, ob, store)
  {
    plain, placed := [], [];
    for i := 0 to |uncovered|
      invariant PlainFor(plain, placed, ob, store) && DistinctOutputs(placed)
      invariant forall o :: o in placed <==> o in uncovered[..i] && !Matches(o, ob, store)
    {
      var o := uncovered[i];
      assert o in uncovered && uncovered[..i + 1] == uncovered[..i] + [o];
      var op := RestoreOperation(o, ob, store);
      if op.Some? {
        assert op.value == PlainOperation(o, ob, store);
        forall x | x in placed ensures x.path != o.path {
          var k :| 0 <= k < i && uncovered[k] == x;
        }
        DistinctAppend(placed, o);
        plain, placed := plain + [op.value], placed + [o];
      }
    }
    assert uncovered[..|uncovered|] == uncovered;
  }

  /** Named to be restored, or drifted where nothing is named. */
  predicate IsSelected(inventory: seq<Entry>, requested: seq<Path>, ob: Observed, p: Path) {
    if requested == [] then DriftedAt(inventory, ob, p) else p in requested
  }

  /** How a compiled restore plan is put together. */
  ghost predicate RestorePlan(
    inventory: seq<Entry>, render: seq<RenderFile>, requested: seq<Path>, ob: Observed, plan: Plan,
    chosen: seq<RenderFile>, l: Layout)
  {
    && plan.operations == l.trees + l.plain
    && StoredFrom(chosen, l.outputs, plan.store)
    && Placed(l, ob, plan.store) && OnlyDiffering(l, ob, plan.store)
    && (forall f :: f in chosen ==> f in render && EntryOf(f) in inventory)
    && (forall p :: p in PathSet(chosen) <==> IsSelected(inventory, requested, ob, p))
  }

  lemma CertifiedPaths(inventory: seq<Entry>, render: seq<RenderFile>, ps: seq<Path>, chosen: seq<RenderFile>)
    requires Certified(inventory, render, ps, chosen) && NoDuplicates(ps) && ValidFiles(render)
    ensures DistinctFiles(chosen) && ValidFiles(chosen)
    ensures forall p :: p in PathSet(chosen) <==> p in ps
    ensures forall f :: f in chosen ==> f in render && EntryOf(f) in inventory
  {
    forall i | 0 <= i < |chosen| ensures Valid(chosen[i].path) {
      var k :| 0 <= k < |render| && render[k] == chosen[i];
    }
    forall p ensures p in PathSet(chosen) <==> p in ps {
      if i :| 0 <= i < |chosen| && chosen[i].path == p { assert ps[i] == p; }
      if i :| 0 <= i < |ps| && ps[i] == p { assert chosen[i].path == p; }
    }
  }

  lemma RestoreLayout(l: Layout, ob: Observed, store: Store)
    requires WellFormed(l.outputs) && Stored(l.outputs, store) && !AnyBlocked(l.outputs, ob.states.Keys)
    requires TreesFor(l.trees, l.outputs, ob, store)
    requires PlainFor(l.plain, l.placed, ob, store) && DistinctOutputs(l.placed)
    requires forall o :: o in l.placed <==>
      o in Uncovered(l.outputs, Covered(l.outputs, ob.directoryStates.Keys)) && !Matches(o, ob, store)
    ensures Placed(l, ob, store) && OnlyDiffering(l, ob, store)
  {
    forall i | 0 <= i < |l.placed| ensures PlacedAt(l, ob, store, i) {
      assert l.placed[i] in l.placed;
      UncoveredHasNoRoot(l.outputs, ob.directoryStates.Keys, l.placed[i]);
    }
  }

  ghost predicate NothingDrifted(inventory: seq<Entry>, ob: Observed) {
    forall p :: !DriftedAt(inventory, ob, p)
  }

  lemma TreesAreRooted(trees: seq<Operation>, outputs: seq<Output>, ob: Observed, store: Store)
    requires TreesFor(trees, outputs, ob, store)
    ensures forall op :: op in trees ==> op.path in Roots(outputs, ob.directoryStates.Keys)
  {
    forall op | op in trees ensures op.path in Roots(outputs, ob.directoryStates.Keys) {
      var k :| 0 <= k < |trees| && trees[k] == op;
    }
  }

  lemma NothingToLay(trees: seq<Operation>, plain: seq<Operation>, placed: seq<Output>, ob: Observed, store: Store)
    requires TreesFor(trees, [], ob, store) && PlainFor(plain, placed, ob, store) && forall o :: o !in placed
    ensures trees + plain == [] && TouchedPaths([]) == {}
  {
    HasFirst(placed);
    TreesAreRooted(trees, [], ob, store);
    HasFirst(trees);
  }

  /**
   The snapshot and the render are in order, what is requested is recorded, and
   everything selected is rendered exactly as it is recorded.
   */
  ghost predicate RestoreAccepted(
    inventory: seq<Entry>, render: seq<RenderFile>, requested: seq<Path>, snapshot: Snapshot, fold: Path -> Path)
  {
    && GoodSnapshot(snapshot, fold) && GoodFiles(render, fold)
    && (forall p :: p in requested ==> IsRecorded(inventory, p))
    && forall p :: IsSelected(inventory, requested, ObservedOf(snapshot), p) ==>
      exists f :: f in render && f.path == p && EntryOf(f) in inventory
  }

  lemma SelectedAreRendered(inventory: seq<Entry>, render: seq<RenderFile>, ps: seq<Path>)
    requires DistinctInventory(inventory) && DistinctFiles(render)
    ensures (forall p :: p in ps ==> RenderedAsRecorded(inventory, render, p)) <==>
      forall p :: p in ps ==> exists f :: f in render && f.path == p && EntryOf(f) in inventory
  {
    forall p | p in ps
      ensures RenderedAsRecorded(inventory, render, p) <==> exists f :: f in render && f.path == p && EntryOf(f) in inventory
    {
      FoundIsTheOne(inventory, render, p);
    }
  }

  /** The selected files, once each. */
  ghost predicate IsSelection(
    inventory: seq<Entry>, render: seq<RenderFile>, requested: seq<Path>, ob: Observed, chosen: seq<RenderFile>)
  {
    && DistinctFiles(chosen) && (forall f :: f in chosen ==> f in render && EntryOf(f) in inventory)
    && forall p :: p in PathSet(chosen) <==> IsSelected(inventory, requested, ob, p)
  }

  /** The files can be stored, and no observed file stands above one of them. */
  predicate Layable(files: seq<RenderFile>, ob: Observed, limits: Limits) {
    Storable(files, limits) && !AnyBlocked(OutputsFor(files), ob.states.Keys)
  }

  method SelectRestored(inventory: seq<Entry>, requested: seq<Path>, ob: Observed) returns (r: Result<seq<Path>, Refused>)
    requires DistinctInventory(inventory)
    ensures r.Ok? <==> forall p :: p in requested ==> IsRecorded(inventory, p)
    ensures r.Ok? ==> NoDuplicates(r.value) && forall p :: p in r.value ==> IsRecorded(inventory, p)
    ensures r.Ok? ==> forall p :: p in r.value <==> IsSelected(inventory, requested, ob, p)
  {
    if requested != [] {
      r := SelectRequested(inventory, requested);
    } else {
      var drifted := SelectDrifted(inventory, ob);
      assert forall p :: DriftedAt(inventory, ob, p) ==> IsRecorded(inventory, p);
      r := Ok(drifted);
    }
  }

  /** Validates, selects, and certifies what is selected. */
  method ChooseRestored(
    inventory: seq<Entry>, render: seq<RenderFile>, requested: seq<Path>, snapshot: Snapshot, fold: Path -> Path)
    returns (r: Result<seq<RenderFile>, Refused>)
    requires DistinctInventory(inventory)
    ensures r.Ok? <==> RestoreAccepted(inventory, render, requested, snapshot, fold)
    ensures r.Ok? ==> IsSelection(inventory, render, requested, ObservedOf(snapshot), r.value) && ValidFiles(r.value)
    ensures r.Ok? ==> InstallableFiles(render)
    ensures r.Ok? && requested == [] && NothingDrifted(inventory, ObservedOf(snapshot)) ==> r.value == []
  {
    var valid := ValidateSnapshot(snapshot, fold);
    if valid.Err? { return Err(valid.error); }
    var managed := ValidateManaged(render, fold);
    if managed.Err? { return Err(managed.error); }
    GoodFilesAreDistinct(render, fold);
    GoodFilesInstall(render, fold);
    var selected := SelectRestored(inventory, requested, ObservedOf(snapshot));
    if selected.Err? { return Err(selected.error); }
    HasFirst(selected.value);
    SelectedAreRendered(inventory, render, selected.value);
    r := CertifySelected(inventory, render, selected.value);
    if r.Ok? { CertifiedPaths(inventory, render, selected.value, r.value); }
  }

  /** Lays out what has been chosen: trees where hierarchies are new, and an operation for each other file that differs. */
  method LayRestored(chosen: seq<RenderFile>, ob: Observed, limits: Limits, target: nat)
    returns (r: Result<Plan, Refused>, ghost l: Layout)
    requires DistinctFiles(chosen) && ValidFiles(chosen) && AllPresent(ob)
    ensures r.Ok? <==> Layable(chosen, ob, limits)
    ensures r.Ok? ==>
      && r.value.operations == l.trees + l.plain && r.value.kind == OperationKind.Restore
      && StoredFrom(chosen, l.outputs, r.value.store) && Placed(l, ob, r.value.store) && OnlyDiffering(l, ob, r.value.store)
    ensures r.Ok? && chosen == [] ==> r.value.operations == []
  {
    l := Layout([], [], [], []);
    var stored := StoreOutputs(chosen, limits);
    if stored.Err? { return Err(stored.error), l; }
    var (outputs, store) := stored.value;
    StoredFromIsStored(chosen, outputs, store);
    StoredAreOutputs(chosen, outputs, store);
    var built := BuildTrees(outputs, ob, store);
    if built.Err? { return Err(built.error), l; }
    var (trees, covered) := built.value;
    var uncovered := Uncovered(outputs, covered);
    forall o | o in uncovered ensures store.Get(o.contentId).Some? { assert o in outputs; }
    UncoveredDistinct(outputs, covered);
    var plain, placed := RestoreFlat(uncovered, ob, store);
    l := Layout(outputs, placed, plain, trees);
    RestoreLayout(l, ob, store);
    if outputs == [] { NothingToLay(trees, plain, placed, ob, store); }
    r := Ok(Plan(OperationKind.Restore, target, trees + plain, store));
  }

  lemma NothingIsLayable(ob: Observed, limits: Limits)
    ensures Layable([], ob, limits) && WithinPlanLimits([], limits)
  {
    assert NewContents([], EmptyStore(limits).index.Keys) == [];
    assert OutputsFor([]) == [] && TouchedPaths([]) == {};
  }

  /**
   A restore of a complete observation of regular files and directories.  It compiles
   exactly if the request is accepted, what it selects, `chosen`, can be laid out, and
   the plan, the `candidate`, is within the limits.
   */
  method CompileRestorePlan(
    inventory: seq<Entry>, render: seq<RenderFile>, requested: seq<Path>, snapshot: Snapshot, limits: Limits,
    target: nat, fold: Path -> Path)
    returns (r: Result<Plan, Refused>, ghost candidate: Plan, ghost chosen: seq<RenderFile>, ghost l: Layout)
    requires DistinctInventory(inventory) && ClosedView(ObservedOf(snapshot)) && AllPresent(ObservedOf(snapshot))
    ensures RestoreAccepted(inventory, render, requested, snapshot, fold) ==>
      IsSelection(inventory, render, requested, ObservedOf(snapshot), chosen) && InstallableFiles(render)
    ensures RestoreAccepted(inventory, render, requested, snapshot, fold) && Layable(chosen, ObservedOf(snapshot), limits) ==>
      RestorePlan(inventory, render, requested, ObservedOf(snapshot), candidate, chosen, l) && candidate.kind == OperationKind.Restore
    ensures r.Ok? <==>
      && RestoreAccepted(inventory, render, requested, snapshot, fold) && Layable(chosen, ObservedOf(snapshot), limits)
      && WithinPlanLimits(candidate.operations, limits)
    ensures r.Ok? ==> r.value == candidate
    ensures GoodSnapshot(snapshot, fold) && GoodFiles(render, fold) && requested == [] && NothingDrifted(inventory, ObservedOf(snapshot))
      ==> r.Ok? && r.value.operations == []
  {
    chosen, l, candidate := [], Layout([], [], [], []), Plan(OperationKind.Restore, target, [], EmptyStore(limits));
    var selection := ChooseRestored(inventory, render, requested, snapshot, fold);
    if selection.Err? { return Err(selection.error), candidate, chosen, l; }
    chosen := selection.value;
    if chosen == [] { NothingIsLayable(ObservedOf(snapshot), limits); }
    r, l := LayRestored(selection.value, ObservedOf(snapshot), limits, target);
    if r.Err? { return; }
    candidate := r.value;
    var within := CheckPlanLimits(r.value.operations, limits);
    if within.Err? { r := Err(within.error); }
  }

  // What a compiled restore plan means

  /** No selected path is an observed directory. */
  predicate NoneIsDirectory(l: Layout, ob: Observed) {
    forall i :: 0 <= i < |l.outputs| ==> l.outputs[i].path !in ob.directoryStates
  }

  lemma {:induction false} WritesMeetNoDirectory(ops: seq<Operation>, ob: Observed, store: Store, o: Overlay)
    requires OverlayAll(ops, ob, store, o).Ok?
    ensures forall op :: op in ops && IsWrite(op) ==> op.path !in ob.directoryStates
    decreases |ops|
  {
    if ops != [] {
      WritesMeetNoDirectory(ops[1..], ob, store, OverlayStep(ops[0], ob, store, o).value);
      assert forall op :: op in ops ==> op == ops[0] || op in ops[1..];
    }
  }

  /** An uncovered output that is an observed directory gets an operation, which cannot be accepted. */
  lemma DirectoryIsPlaced(l: Layout, ob: Observed, store: Store, i: nat)
    requires ClosedView(ob) && Placed(l, ob, store) && OnlyDiffering(l, ob, store)
    requires i < |l.outputs| && l.outputs[i].path in ob.directoryStates
    ensures l.outputs[i] in l.placed
  {
    var dirs, o := ob.directoryStates.Keys, l.outputs[i];
    assert !Blocked(o.path, ob.states.Keys);
    if RootOf(o.path, dirs).Some? { RootIsHighestAbsent(ob, o.path, RootOf(o.path, dirs).value); }
    assert o.path !in Covered(l.outputs, dirs);
    assert o in l.outputs;
  }

  lemma PlacedHasWrite(l: Layout, ob: Observed, store: Store, o: Output)
    requires Placed(l, ob, store) && o in l.placed
    ensures exists op :: op in l.plain && IsWrite(op) && op.path == o.path
  {
    var n :| 0 <= n < |l.placed| && l.placed[n] == o;
    assert PlacedAt(l, ob, store, n);
    assert l.plain[n] in l.plain;
  }

  lemma RestoreIsUnspent(l: Layout, ob: Observed, store: Store, o: Overlay)
    requires Placed(l, ob, store) && NoneIsDirectory(l, ob) && o.written == {}
    ensures Unspent(l, ob, ob, o)
  {
    forall i | 0 <= i < |l.placed| ensures Spare(ob, ob, o, l.placed[i].path) && l.placed[i].path !in ob.directoryStates {
      assert PlacedAt(l, ob, store, i);
    }
  }

  /**
   A restore plan is accepted exactly when no selected path is an observed
   directory, and then leaves everything but the written outputs and the
   directories above them as it was.
   */
  lemma RestorePlanMeansOverlay(
    inventory: seq<Entry>, render: seq<RenderFile>, requested: seq<Path>, snapshot: Snapshot, t: Tree, plan: Plan,
    chosen: seq<RenderFile>, l: Layout)
    requires Closed(t) && Observes(snapshot, t)
    requires RestorePlan(inventory, render, requested, ObservedOf(snapshot), plan, chosen, l)
    ensures Applied(snapshot, plan).Ok? <==> NoneIsDirectory(l, ObservedOf(snapshot))
    ensures Applied(snapshot, plan).Ok? ==>
      exists u :: Installed(l, ObservedOf(snapshot), plan.store, StartOverlay(snapshot), u)
        && Applied(snapshot, plan).value == ExpectedTarget(u.files, u.directories)
  {
    var ob, o := ObservedOf(snapshot), StartOverlay(snapshot);
    StartIsBase(snapshot, t);
    if NoneIsDirectory(l, ob) {
      RestoreIsUnspent(l, ob, plan.store, o);
      LayoutAccepted(l, ob, ob, plan.store, o);
    }
    if Applied(snapshot, plan).Ok? {
      WritesMeetNoDirectory(plan.operations, ob, plan.store, o);
      forall i | 0 <= i < |l.outputs| ensures l.outputs[i].path !in ob.directoryStates {
        if l.outputs[i].path in ob.directoryStates {
          DirectoryIsPlaced(l, ob, plan.store, i);
          PlacedHasWrite(l, ob, plan.store, l.outputs[i]);
        }
      }
    }
  }

  // Healing

  /** What an observation of `t` would find at the entry's path is what is recorded. */
  predicate AsRecorded(t: Tree, e: Entry) {
    && e.path in t.files
    && var s := ObserveFile(t, e.path);
       s.identity.kind == e.kind && s.identity.normalized == e.sha256 && s.mode == e.mode
  }

  lemma DriftIsObserved(ob: Observed, t: Tree, e: Entry)
    requires ObservedTree(ob, t)
    ensures Drifted(ob, e) <==> !AsRecorded(t, e)
  {
  }

  /** A file with certified bytes is as recorded exactly when its declared kind is the one an observation reports. */
  lemma WrittenIsRecorded(t: Tree, f: RenderFile)
    requires f.path in t.files && t.files[f.path] == Node(f.content, f.mode)
    ensures AsRecorded(t, EntryOf(f)) <==> f.kind == ObservedKind(f.content, f.mode)
  {
  }

  /** `after` is what an accepted plan leaves of the target. */
  ghost predicate Leaves(snapshot: Snapshot, plan: Plan, after: Tree) {
    && Applied(snapshot, plan).Ok?
    && Describes(Overlay(Applied(snapshot, plan).value.files, Applied(snapshot, plan).value.directories, {}), after)
  }

  lemma SelectedIsDrifted(
    inventory: seq<Entry>, render: seq<RenderFile>, ob: Observed, plan: Plan, chosen: seq<RenderFile>, l: Layout, i: nat)
    requires DistinctInventory(inventory) && RestorePlan(inventory, render, [], ob, plan, chosen, l) && i < |chosen|
    ensures EntryOf(chosen[i]) in inventory && Drifted(ob, EntryOf(chosen[i]))
  {
    assert chosen[i] in chosen && chosen[i].path in PathSet(chosen);
    var k :| 0 <= k < |inventory| && inventory[k].path == chosen[i].path && Drifted(ob, inventory[k]);
    var m :| 0 <= m < |inventory| && inventory[m] == EntryOf(chosen[i]);
    assert k == m;
  }

  /** Unrestricted, every selected output is written. */
  lemma SelectedIsWritten(
    inventory: seq<Entry>, render: seq<RenderFile>, ob: Observed, plan: Plan, chosen: seq<RenderFile>, l: Layout, i: nat)
    requires DistinctInventory(inventory) && RestorePlan(inventory, render, [], ob, plan, chosen, l) && i < |chosen|
    ensures Effected(l, ob, l.outputs[i].path)
  {
    SelectedIsDrifted(inventory, render, ob, plan, chosen, l, i);
    var o := l.outputs[i];
    assert o in l.outputs;
    if o.path !in Covered(l.outputs, ob.directoryStates.Keys) {
      assert o in l.placed;
      var n :| 0 <= n < |l.placed| && l.placed[n] == o;
    }
  }

  lemma HealedOutput(
    inventory: seq<Entry>, render: seq<RenderFile>, snapshot: Snapshot, t: Tree, plan: Plan,
    chosen: seq<RenderFile>, l: Layout, after: Tree, i: nat)
    requires Closed(t) && Observes(snapshot, t) && DistinctInventory(inventory)
    requires RestorePlan(inventory, render, [], ObservedOf(snapshot), plan, chosen, l) && Leaves(snapshot, plan, after)
    requires i < |chosen|
    ensures chosen[i].path in after.files && after.files[chosen[i].path] == Node(chosen[i].content, chosen[i].mode)
  {
    var ob := ObservedOf(snapshot);
    RestorePlanMeansOverlay(inventory, render, [], snapshot, t, plan, chosen, l);
    var u :| Installed(l, ob, plan.store, StartOverlay(snapshot), u)
      && Applied(snapshot, plan).value == ExpectedTarget(u.files, u.directories);
    SelectedIsWritten(inventory, render, ob, plan, chosen, l, i);
    assert IsAsPlanned(l.outputs[i], plan.store, u.files);
    assert chosen[i].path in Nodes(u.files);
  }

  lemma UnselectedStays(
    inventory: seq<Entry>, render: seq<RenderFile>, requested: seq<Path>, snapshot: Snapshot, t: Tree, plan: Plan,
    chosen: seq<RenderFile>, l: Layout, after: Tree, p: Path)
    requires Closed(t) && Observes(snapshot, t)
    requires RestorePlan(inventory, render, requested, ObservedOf(snapshot), plan, chosen, l) && Leaves(snapshot, plan, after)
    requires p !in PathSet(chosen)
    ensures p in after.files <==> p in t.files
    ensures p in t.files ==> after.files[p] == t.files[p]
  {
    var ob, o := ObservedOf(snapshot), StartOverlay(snapshot);
    RestorePlanMeansOverlay(inventory, render, requested, snapshot, t, plan, chosen, l);
    var u :| Installed(l, ob, plan.store, o, u) && Applied(snapshot, plan).value == ExpectedTarget(u.files, u.directories);
    StartDescribes(snapshot, t);
    UnselectedIsNotEffected(l, ob, plan.store, chosen, p);
    assert p in Nodes(u.files) <==> p in u.files;
    assert p in Nodes(o.files) <==> p in o.files;
  }

  lemma UnselectedIsNotEffected(l: Layout, ob: Observed, store: Store, chosen: seq<RenderFile>, p: Path)
    requires Placed(l, ob, store) && StoredFrom(chosen, l.outputs, store) && p !in PathSet(chosen)
    ensures !Effected(l, ob, p)
  {
    forall i | 0 <= i < |l.outputs| ensures l.outputs[i].path != p {
      assert chosen[i].path == l.outputs[i].path && chosen[i].path in PathSet(chosen);
    }
    forall n | 0 <= n < |l.placed| ensures l.placed[n].path != p { assert PlacedAt(l, ob, store, n); }
  }

  /**
   An unrestricted restore heals: afterwards every recorded entry is as recorded,
   exactly if every file it wrote is of the kind an observation reports.
   */
  lemma RestoreHeals(
    inventory: seq<Entry>, render: seq<RenderFile>, snapshot: Snapshot, t: Tree, plan: Plan,
    chosen: seq<RenderFile>, l: Layout, after: Tree)
    requires Closed(t) && Observes(snapshot, t) && DistinctInventory(inventory)
    requires RestorePlan(inventory, render, [], ObservedOf(snapshot), plan, chosen, l) && Leaves(snapshot, plan, after)
    ensures (forall e :: e in inventory ==> AsRecorded(after, e)) <==> KindsAgree(l.outputs, plan.store)
  {
    var ob := ObservedOf(snapshot);
    forall i | 0 <= i < |chosen|
      ensures EntryOf(chosen[i]) in inventory
      ensures AsRecorded(after, EntryOf(chosen[i])) <==> chosen[i].kind == ObservedKind(chosen[i].content, chosen[i].mode)
    {
      SelectedIsDrifted(inventory, render, ob, plan, chosen, l, i);
      HealedOutput(inventory, render, snapshot, t, plan, chosen, l, after, i);
      WrittenIsRecorded(after, chosen[i]);
    }
    forall e | e in inventory && e.path !in PathSet(chosen) ensures AsRecorded(after, e) {
      UnselectedStays(inventory, render, [], snapshot, t, plan, chosen, l, after, e.path);
      UndriftedStays(inventory, render, ob, t, plan, chosen, l, e);
    }
    KindsOfChosen(chosen, l.outputs, plan.store);
    forall e | e in inventory && e.path in PathSet(chosen)
      ensures exists i :: 0 <= i < |chosen| && EntryOf(chosen[i]) == e
    {
      var i := EntryOfSelected(inventory, render, ob, plan, chosen, l, e);
    }
  }

  lemma UndriftedStays(
    inventory: seq<Entry>, render: seq<RenderFile>, ob: Observed, t: Tree, plan: Plan,
    chosen: seq<RenderFile>, l: Layout, e: Entry)
    requires ObservedTree(ob, t) && RestorePlan(inventory, render, [], ob, plan, chosen, l)
    requires e in inventory && e.path !in PathSet(chosen)
    ensures AsRecorded(t, e)
  {
    var k :| 0 <= k < |inventory| && inventory[k] == e;
    assert Drifted(ob, inventory[k]) ==> DriftedAt(inventory, ob, e.path);
    DriftIsObserved(ob, t, e);
  }

  lemma EntryOfSelected(
    inventory: seq<Entry>, render: seq<RenderFile>, ob: Observed, plan: Plan, chosen: seq<RenderFile>, l: Layout, e: Entry)
    returns (i: nat)
    requires DistinctInventory(inventory) && RestorePlan(inventory, render, [], ob, plan, chosen, l)
    requires e in inventory && e.path in PathSet(chosen)
    ensures i < |chosen| && EntryOf(chosen[i]) == e
  {
    i :| 0 <= i < |chosen| && chosen[i].path == e.path;
    assert chosen[i] in chosen;
    var k :| 0 <= k < |inventory| && inventory[k] == e;
    var m :| 0 <= m < |inventory| && inventory[m] == EntryOf(chosen[i]);
    assert k == m;
  }

  lemma KindsOfChosen(chosen: seq<RenderFile>, outputs: seq<Output>, store: Store)
    requires StoredFrom(chosen, outputs, store)
    ensures KindsAgree(outputs, store) <==>
      forall i :: 0 <= i < |chosen| ==> chosen[i].kind == ObservedKind(chosen[i].content, chosen[i].mode)
  {
    forall i | 0 <= i < |chosen| ensures outputs[i] in outputs && outputs[i] == OutputOf(chosen[i]) { }
  }

  /** After a healing restore nothing is drifted any more, so a second one is empty. */
  lemma RestoreIsFixedPoint(
    inventory: seq<Entry>, render: seq<RenderFile>, snapshot: Snapshot, t: Tree, plan: Plan,
    chosen: seq<RenderFile>, l: Layout, again: Snapshot, after: Tree)
    requires Closed(t) && Observes(snapshot, t) && DistinctInventory(inventory)
    requires RestorePlan(inventory, render, [], ObservedOf(snapshot), plan, chosen, l) && Leaves(snapshot, plan, after)
    requires Observes(again, after)
    ensures NothingDrifted(inventory, ObservedOf(again)) <==> KindsAgree(l.outputs, plan.store)
  {
    RestoreHeals(inventory, render, snapshot, t, plan, chosen, l, after);
    var ob := ObservedOf(again);
    forall e ensures Drifted(ob, e) <==> !AsRecorded(after, e) { DriftIsObserved(ob, after, e); }
    assert forall k :: 0 <= k < |inventory| ==> inventory[k] in inventory;
    if NothingDrifted(inventory, ob) {
      forall e | e in inventory ensures AsRecorded(after, e) {
        var k :| 0 <= k < |inventory| && inventory[k] == e;
        assert !DriftedAt(inventory, ob, e.path);
      }
    }
  }

  /** An unrestricted plan is empty exactly when nothing is drifted. */
  lemma EmptyIfNothingDrifted(
    inventory: seq<Entry>, render: seq<RenderFile>, ob: Observed, plan: Plan, chosen: seq<RenderFile>, l: Layout)
    requires ClosedView(ob) && DistinctInventory(inventory) && RestorePlan(inventory, render, [], ob, plan, chosen, l)
    ensures plan.operations == [] <==> NothingDrifted(inventory, ob)
  {
    HasFirst(chosen);
    assert PlainFor(l.plain, l.placed, ob, plan.store) by {
      forall i | 0 <= i < |l.placed|
        ensures plan.store.Get(l.placed[i].contentId).Some? && l.plain[i] == PlainOperation(l.placed[i], ob, plan.store)
      {
        assert PlacedAt(l, ob, plan.store, i);
      }
    }
    if NothingDrifted(inventory, ob) {
      assert forall f :: f in chosen ==> f.path in PathSet(chosen);
      NothingToLay(l.trees, l.plain, l.placed, ob, plan.store);
    }
    if p :| DriftedAt(inventory, ob, p) {
      assert p in PathSet(chosen);
      var i :| 0 <= i < |chosen| && chosen[i].path == p;
      SelectedIsWritten(inventory, render, ob, plan, chosen, l, i);
      if !IsPlaced(l, l.outputs[i].path) {
        var j :| 0 <= j < |l.outputs| && RootOf(l.outputs[j].path, ob.directoryStates.Keys).Some? && l.outputs[j].path == p;
        assert RootOf(l.outputs[j].path, ob.directoryStates.Keys).value in Roots(l.outputs, ob.directoryStates.Keys);
      }
    }
  }

  /** A restore can be executed crash-safely, leaves what the overlay says, and removes no directory. */
  lemma RestoreExecutes(
    inventory: seq<Entry>, render: seq<RenderFile>, requested: seq<Path>, snapshot: Snapshot, t: Tree, plan: Plan,
    chosen: seq<RenderFile>, l: Layout)
    requires Closed(t) && Observes(snapshot, t)
    requires RestorePlan(inventory, render, requested, ObservedOf(snapshot), plan, chosen, l)
    requires NoneIsDirectory(l, ObservedOf(snapshot))
    ensures Executable(plan.operations, plan.store, t)
    ensures Leaves(snapshot, plan, After(plan.operations, plan.store, t, |plan.operations|))
    ensures forall op :: op in plan.operations ==> !op.RemoveEmptyDirectory?
  {
    var ob, ops := ObservedOf(snapshot), plan.operations;
    RestorePlanMeansOverlay(inventory, render, requested, snapshot, t, plan, chosen, l);
    ObservedIsClosed(ob, t);
    LayoutIsGood(l, ob, plan.store, t);
    LayoutRemovesNothing(l, ob, plan.store);
    forall op | op in ops ensures GoodOperation(op, plan.store, t) && !op.RemoveEmptyDirectory? {
      assert op in l.trees || op in l.plain;
    }
    forall i | 0 <= i < |ops| ensures ops[i] in ops && GoodOperation(ops[i], plan.store, t) && !ops[i].RemoveEmptyDirectory? { }
    GoodPlanIsSound(plan, t);
    AcceptedPlansExecute(snapshot, plan, t);
  }

  /** Recovery can always rebuild a compiled restore plan. */
  lemma RestorePlanSurvives(
    inventory: seq<Entry>, render: seq<RenderFile>, requested: seq<Path>, ob: Observed, plan: Plan,
    chosen: seq<RenderFile>, l: Layout)
    requires ClosedView(ob) && InstallableFiles(render)
    requires RestorePlan(inventory, render, requested, ob, plan, chosen, l)
    ensures AllSurvive(plan.operations)
  {
    InstalledOutputsSurvive(chosen, l.outputs, plan.store);
    LayoutSurvives(l, ob, plan.store);
    SurvivorsOf(plan.operations);
  }
}
