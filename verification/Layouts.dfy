/**
 Laying outputs over a target: files written in place and trees created whole are
 accepted together, in either order, and leave exactly the outputs.
 */
module Layouts {
  import opened Results
  import opened Paths
  import opened Sorting
  import opened Identity
  import opened Plans
  import opened Rollback
  import opened Targets
  import opened Inversion
  import opened Apply
  import opened Outputs
  import opened Trees
  import opened Grouping
  import opened Overlays

  /** `placed` are the uncovered outputs that get an operation of their own, in `plain`. */
  datatype Layout = Layout(outputs: seq<Output>, placed: seq<Output>, plain: seq<Operation>, trees: seq<Operation>)

  ghost predicate Placed(l: Layout, view: Observed, store: Store) {
    && WellFormed(l.outputs) && Stored(l.outputs, store) && !AnyBlocked(l.outputs, view.states.Keys)
    && TreesFor(l.trees, l.outputs, view, store)
    && |l.plain| == |l.placed|
    && (forall i, j :: 0 <= i < j < |l.placed| ==> l.placed[i].path != l.placed[j].path)
    && (forall i :: 0 <= i < |l.placed| ==> PlacedAt(l, view, store, i))
  }

  ghost predicate PlacedAt(l: Layout, view: Observed, store: Store, i: nat)
    requires i < |l.placed| && |l.plain| == |l.placed|
  {
    var o := l.placed[i];
    && o in l.outputs && RootOf(o.path, view.directoryStates.Keys).None?
    && store.Get(o.contentId).Some? && l.plain[i] == PlainOperation(o, view, store)
  }

  predicate IsPlaced(l: Layout, p: Path) {
    exists i :: 0 <= i < |l.placed| && l.placed[i].path == p
  }

  /** The overlay so far is at `view`, a part of what was observed. */
  ghost predicate Base(ob: Observed, view: Observed, o: Overlay) {
    && ClosedView(view)
    && o.files.Keys == view.states.Keys && o.directories.Keys == view.directoryStates.Keys
    && (forall p :: p in view.states ==> p in ob.states && ob.states[p] == view.states[p])
    && view.directoryStates.Keys <= ob.directoryStates.Keys
  }

  /** Nothing laid was written before, or observed and taken away since. */
  ghost predicate Unspent(l: Layout, ob: Observed, view: Observed, o: Overlay) {
    && (forall i :: 0 <= i < |l.placed| ==> Spare(ob, view, o, l.placed[i].path) && l.placed[i].path !in ob.directoryStates)
    && (forall k, p :: 0 <= k < |l.trees| && l.trees[k].CreateTree? && TreeTouches(l.trees[k], p) ==> Spare(ob, view, o, p))
  }

  predicate Spare(ob: Observed, view: Observed, o: Overlay, p: Path) {
    p !in o.written && (Seen(ob, p) ==> Seen(view, p))
  }

  // Trees

  lemma TouchedBelowRoot(l: Layout, view: Observed, store: Store, k: nat, p: Path)
    requires ClosedView(view) && Placed(l, view, store) && k < |l.trees|
    requires l.trees[k].CreateTree? && TreeTouches(l.trees[k], p)
    ensures AtOrAbove(l.trees[k].path, p) && !Seen(view, p) && Valid(p)
  {
    var op := l.trees[k];
    assert TreeOperationFor(op, l.outputs, view, store);
    if p == op.path {
      assert op.path in Roots(l.outputs, view.directoryStates.Keys);
      var i :| 0 <= i < |l.outputs| && RootOf(l.outputs[i].path, view.directoryStates.Keys) == Some(op.path);
      RootIsHighestAbsent(view, l.outputs[i].path, op.path);
    } else {
      var e :| e in op.tree.entries && e.path == p;
      TreeEntriesBelow(op, l.outputs, view, store, e);
    }
  }

  lemma TreesAreApart(l: Layout, view: Observed, store: Store)
    requires ClosedView(view) && Placed(l, view, store)
    ensures TreesApart(l.trees)
  {
    TreesPartition(l.trees, l.outputs, view, store);
    forall i, j, p | 0 <= i < j < |l.trees| && l.trees[i].CreateTree? && l.trees[j].CreateTree? && TreeTouches(l.trees[i], p)
      ensures !TreeTouches(l.trees[j], p)
    {
      TouchedBelowRoot(l, view, store, i, p);
      if TreeTouches(l.trees[j], p) { TouchedBelowRoot(l, view, store, j, p); }
    }
  }

  lemma SortedAreDistinct(es: seq<PlannedEntry>)
    requires Sorted(es, PlannedPathLess)
    ensures DistinctEntries(es)
  {
    EntryLessIsStrict();
    forall i, j | 0 <= i < j < |es| ensures es[i].path != es[j].path {
      assert PlannedPathLess(es[i], es[j]);
    }
  }

  lemma BuiltIsReady(l: Layout, ob: Observed, view: Observed, store: Store, o: Overlay, k: nat)
    requires Placed(l, view, store) && ClosedView(view) && k < |l.trees|
    requires forall p :: l.trees[k].CreateTree? && TreeTouches(l.trees[k], p) ==>
      Spare(ob, view, o, p) && (!Seen(view, p) ==> p !in o.files && p !in o.directories)
    ensures TreeReady(l.trees[k], ob, store, o)
    ensures forall e :: e in l.trees[k].tree.entries ==> e.path != l.trees[k].path
  {
    var op := l.trees[k];
    assert TreeOperationFor(op, l.outputs, view, store);
    SortedAreDistinct(op.tree.entries);
    forall p | TreeTouches(op, p)
      ensures p !in o.written && p !in ob.states && p !in ob.directoryStates && p !in o.files && p !in o.directories
    {
      TouchedBelowRoot(l, view, store, k, p);
    }
    forall e | e in op.tree.entries ensures e.path != op.path {
      TreeEntriesBelow(op, l.outputs, view, store, e);
    }
  }

  /** No tree touches the path of an output that is written in place. */
  lemma PlacedOffTrees(l: Layout, view: Observed, store: Store, i: nat, k: nat)
    requires ClosedView(view) && Placed(l, view, store) && i < |l.placed| && k < |l.trees|
    ensures l.trees[k].CreateTree? && !TreeTouches(l.trees[k], l.placed[i].path)
  {
    var op, p := l.trees[k], l.placed[i].path;
    assert TreeOperationFor(op, l.outputs, view, store) && PlacedAt(l, view, store, i);
    var m :| 0 <= m < |l.outputs| && l.outputs[m] == l.placed[i];
    UncoveredShape(p, view.directoryStates.Keys);
    assert op.path in Roots(l.outputs, view.directoryStates.Keys);
    var n :| 0 <= n < |l.outputs| && RootOf(l.outputs[n].path, view.directoryStates.Keys) == Some(op.path);
    RootIsHighestAbsent(view, l.outputs[n].path, op.path);
    assert !Above(l.outputs[m].path, l.outputs[n].path);
    AboveParent(op.path, p);
    if TreeTouches(op, p) { TouchedBelowRoot(l, view, store, k, p); }
  }

  // Files

  lemma PlainIsReady(l: Layout, ob: Observed, view: Observed, store: Store, o: Overlay, i: nat)
    requires Placed(l, view, store) && i < |l.placed|
    requires Spare(ob, view, o, l.placed[i].path)
    requires forall p :: p in view.states ==> p in ob.states && ob.states[p] == view.states[p]
    requires view.directoryStates.Keys <= ob.directoryStates.Keys
    requires l.placed[i].path !in ob.directoryStates && l.placed[i].path !in o.directories
    ensures WriteReady(l.plain[i], ob, store, o)
  {
    assert PlacedAt(l, view, store, i);
  }

  lemma PlainIsDistinct(l: Layout, view: Observed, store: Store)
    requires Placed(l, view, store)
    ensures Distinct(l.plain)
    ensures forall i :: 0 <= i < |l.plain| ==> l.plain[i].path == l.placed[i].path && IsWrite(l.plain[i])
  {
    forall i | 0 <= i < |l.plain| ensures l.plain[i].path == l.placed[i].path && IsWrite(l.plain[i]) {
      assert PlacedAt(l, view, store, i);
    }
  }

  // What is left

  /** The outputs that are written: those placed and those covered by a tree. */
  ghost predicate Effected(l: Layout, view: Observed, p: Path) {
    IsPlaced(l, p) || p in Covered(l.outputs, view.directoryStates.Keys)
  }

  /** A directory that is new: absent, and above an output. */
  ghost predicate NewlyAbove(l: Layout, view: Observed, p: Path) {
    p != [] && p !in view.directoryStates && exists i :: 0 <= i < |l.outputs| && Above(p, l.outputs[i].path)
  }

  ghost predicate TreesHold(ops: seq<Operation>, store: Store) {
    forall i :: 0 <= i < |ops| ==>
      ops[i].CreateTree? && HasBlobs(ops[i].tree.entries, store) && DistinctEntries(ops[i].tree.entries)
  }

  lemma {:induction false} UntouchedByTrees(ops: seq<Operation>, store: Store, p: Path)
    requires TreesHold(ops, store) && forall i :: 0 <= i < |ops| ==> !TreeTouches(ops[i], p)
    ensures p !in TreeFiles(ops, store) && p !in TreeDirectories(ops) && p !in TreePaths(ops)
    decreases |ops|
  {
    if ops != [] {
      EntryMapKeys(ops[0], store, p);
      UntouchedByTrees(ops[1..], store, p);
    }
  }

  /** A path touched by one tree only is there as that tree has it. */
  lemma {:induction false} TouchedByTree(ops: seq<Operation>, store: Store, p: Path, i: nat)
    requires TreesHold(ops, store) && i < |ops| && TreeTouches(ops[i], p)
    requires forall j :: 0 <= j < |ops| && j != i ==> !TreeTouches(ops[j], p)
    ensures p in TreeFiles(ops, store) <==> p in TreeFilesOf(ops[i], store)
    ensures p in TreeFiles(ops, store) ==> TreeFiles(ops, store)[p] == TreeFilesOf(ops[i], store)[p]
    ensures p in TreeDirectories(ops) <==> p in TreeDirectoriesOf(ops[i])
    ensures p in TreeDirectories(ops) ==> TreeDirectories(ops)[p] == TreeDirectoriesOf(ops[i])[p]
    ensures p in TreePaths(ops)
    decreases |ops|
  {
    if i == 0 {
      UntouchedByTrees(ops[1..], store, p);
    } else {
      EntryMapKeys(ops[0], store, p);
      TouchedByTree(ops[1..], store, p, i - 1);
    }
  }

  lemma TreesAreHeld(l: Layout, view: Observed, store: Store)
    requires Placed(l, view, store)
    ensures TreesHold(l.trees, store)
  {
    forall i | 0 <= i < |l.trees|
      ensures l.trees[i].CreateTree? && HasBlobs(l.trees[i].tree.entries, store) && DistinctEntries(l.trees[i].tree.entries)
    {
      assert TreeOperationFor(l.trees[i], l.outputs, view, store);
      SortedAreDistinct(l.trees[i].tree.entries);
    }
  }

  lemma OnlyOneTouches(l: Layout, view: Observed, store: Store, p: Path, i: nat)
    requires ClosedView(view) && Placed(l, view, store)
    requires i < |l.trees| && l.trees[i].CreateTree? && TreeTouches(l.trees[i], p)
    ensures forall j :: 0 <= j < |l.trees| && j != i ==> l.trees[j].CreateTree? && !TreeTouches(l.trees[j], p)
  {
    TreesAreApart(l, view, store);
    forall j | 0 <= j < |l.trees| && j != i ensures l.trees[j].CreateTree? && !TreeTouches(l.trees[j], p) {
      assert TreeOperationFor(l.trees[j], l.outputs, view, store);
    }
  }

  /** A covered output is a file of some tree, as it was planned. */
  lemma CoveredIsLaid(l: Layout, view: Observed, store: Store, o: Output)
    requires ClosedView(view) && Placed(l, view, store)
    requires o in l.outputs && o.path in Covered(l.outputs, view.directoryStates.Keys)
    ensures o.path in TreeFiles(l.trees, store) && store.Get(o.contentId).Some?
    ensures TreeFiles(l.trees, store)[o.path] == ExpectedOf(o, store)
    ensures o.path !in TreeDirectories(l.trees)
  {
    CoveredIsHeld(l.trees, l.outputs, view, store, o);
    var k :| 0 <= k < |l.trees| && HoldsOutput(l.trees[k], o, store);
    var e := PlannedFileEntry(o.path, Resolved(o, store));
    assert e in l.trees[k].tree.entries && TreeTouches(l.trees[k], o.path);
    TreesAreHeld(l, view, store);
    OnlyOneTouches(l, view, store, o.path, k);
    TouchedByTree(l.trees, store, o.path, k);
    assert TreeOperationFor(l.trees[k], l.outputs, view, store);
    TreeEntriesBelow(l.trees[k], l.outputs, view, store, e);
    HeldFile(l.trees[k], store, e);
  }

  /** A file entry of a tree is one of its files and none of its directories. */
  lemma HeldFile(op: Operation, store: Store, e: PlannedEntry)
    requires op.CreateTree? && HasBlobs(op.tree.entries, store) && DistinctEntries(op.tree.entries)
    requires e in op.tree.entries && e.PlannedFileEntry? && e.path != op.path
    ensures FileEntered(e, TreeFilesOf(op, store), store) && e.path !in TreeDirectoriesOf(op)
  {
    EntryMapsAt(op.tree.entries, store);
    FileIsNoDirectory(op.tree.entries, e);
  }

  lemma FileIsNoDirectory(es: seq<PlannedEntry>, e: PlannedEntry)
    requires DistinctEntries(es) && e in es && e.PlannedFileEntry?
    ensures forall d :: d in es && d.PlannedDirectoryEntry? ==> d.path != e.path
  {
    var i :| 0 <= i < |es| && es[i] == e;
    forall d | d in es && d.PlannedDirectoryEntry? ensures d.path != e.path {
      var j :| 0 <= j < |es| && es[j] == d;
      assert i < j ==> es[i].path != es[j].path;
      assert j < i ==> es[j].path != es[i].path;
    }
  }

  /** The tree that covers an output below a new directory holds that directory. */
  lemma NewDirectoryTouched(l: Layout, view: Observed, store: Store, p: Path) returns (k: nat)
    requires ClosedView(view) && Placed(l, view, store) && NewlyAbove(l, view, p)
    ensures k < |l.trees| && l.trees[k].CreateTree? && TreeTouches(l.trees[k], p)
    ensures p == l.trees[k].path || PlannedDirectoryAt(l.trees[k].tree.entries, p)
  {
    var dirs := view.directoryStates.Keys;
    var i :| 0 <= i < |l.outputs| && Above(p, l.outputs[i].path);
    var q := l.outputs[i].path;
    AboveParent(p, q);
    if RootOf(q, dirs) == None {
      UncoveredShape(q, dirs);
      assert Seen(view, Parent(q));
      if p != Parent(q) { SeenAncestors(view, p, Parent(q)); }
    }
    var root := RootOf(q, dirs).value;
    RootIsHighestAbsent(view, q, root);
    AncestorsComparable(root, p, q);
    assert AtOrAbove(root, p);
    assert root in Roots(l.outputs, dirs);
    k :| 0 <= k < |l.trees| && l.trees[k].path == root;
    assert TreeOperationFor(l.trees[k], l.outputs, view, store);
    if p != root { BetweenIsPlanned(l.trees[k], l.outputs, view, store, p, i); }
  }

  /** What a tree holds at a path it touches: a directory at the root or a planned one, a file otherwise. */
  lemma HeldKind(l: Layout, view: Observed, store: Store, k: nat, p: Path)
    requires ClosedView(view) && Placed(l, view, store) && k < |l.trees|
    requires l.trees[k].CreateTree? && TreeTouches(l.trees[k], p)
    ensures var op := l.trees[k];
      var isDirectory := p == op.path || PlannedDirectoryAt(op.tree.entries, p);
      && (p in TreeDirectoriesOf(op) <==> isDirectory)
      && (p in TreeFilesOf(op, store) <==> !isDirectory)
      && (isDirectory ==> TreeDirectoriesOf(op)[p] == DIRECTORY_MODE)
  {
    var op := l.trees[k];
    assert TreeOperationFor(op, l.outputs, view, store);
    SortedAreDistinct(op.tree.entries);
    forall e | e in op.tree.entries
      ensures e.path != op.path
      ensures e.PlannedDirectoryEntry? ==> e.mode == DIRECTORY_MODE
    {
      TreeEntriesBelow(op, l.outputs, view, store, e);
    }
    assert op.tree.rootMode == DIRECTORY_MODE;
    KindAt(op, store, p);
  }

  lemma KindAt(op: Operation, store: Store, p: Path)
    requires op.CreateTree? && HasBlobs(op.tree.entries, store) && DistinctEntries(op.tree.entries) && TreeTouches(op, p)
    requires op.tree.rootMode == DIRECTORY_MODE && forall e :: e in op.tree.entries ==>
      e.path != op.path && (e.PlannedDirectoryEntry? ==> e.mode == DIRECTORY_MODE)
    ensures var isDirectory := p == op.path || PlannedDirectoryAt(op.tree.entries, p);
      && (p in TreeDirectoriesOf(op) <==> isDirectory)
      && (p in TreeFilesOf(op, store) <==> !isDirectory)
      && (isDirectory ==> TreeDirectoriesOf(op)[p] == DIRECTORY_MODE)
  {
    EntryMapsAt(op.tree.entries, store);
    if p != op.path {
      var e :| e in op.tree.entries && e.path == p;
      if e.PlannedFileEntry? { FileIsNoDirectory(op.tree.entries, e); } else { DirectoryIsNoFile(op.tree.entries, e); }
    }
  }

  lemma DirectoryIsNoFile(es: seq<PlannedEntry>, e: PlannedEntry)
    requires DistinctEntries(es) && e in es && e.PlannedDirectoryEntry?
    ensures forall f :: f in es && f.PlannedFileEntry? ==> f.path != e.path
  {
    forall f | f in es && f.PlannedFileEntry? ensures f.path != e.path { FileIsNoDirectory(es, f); }
  }

  /** Every path a tree touches is a covered output or a new directory above one. */
  lemma TouchedIsWanted(l: Layout, view: Observed, store: Store, k: nat, p: Path)
    requires ClosedView(view) && Placed(l, view, store) && k < |l.trees|
    requires l.trees[k].CreateTree? && TreeTouches(l.trees[k], p)
    ensures if p == l.trees[k].path || PlannedDirectoryAt(l.trees[k].tree.entries, p) then NewlyAbove(l, view, p)
            else p in Covered(l.outputs, view.directoryStates.Keys)
  {
    var op, dirs := l.trees[k], view.directoryStates.Keys;
    assert TreeOperationFor(op, l.outputs, view, store);
    TouchedBelowRoot(l, view, store, k, p);
    if p == op.path {
      assert op.path in Roots(l.outputs, dirs);
      var i :| 0 <= i < |l.outputs| && RootOf(l.outputs[i].path, dirs) == Some(p);
      RootShape(l.outputs[i].path, dirs, p);
    } else {
      var e :| e in op.tree.entries && e.path == p && (PlannedDirectoryAt(op.tree.entries, p) ==> e.PlannedDirectoryEntry?);
      WantedEntry(l, view, store, k, e);
    }
  }

  lemma WantedEntry(l: Layout, view: Observed, store: Store, k: nat, e: PlannedEntry)
    requires ClosedView(view) && Placed(l, view, store) && k < |l.trees|
    requires l.trees[k].CreateTree? && e in l.trees[k].tree.entries
    ensures if e.PlannedDirectoryEntry? then NewlyAbove(l, view, e.path)
            else e.path in Covered(l.outputs, view.directoryStates.Keys)
  {
    var op, dirs := l.trees[k], view.directoryStates.Keys;
    assert TreeOperationFor(op, l.outputs, view, store);
    TreeEntriesBelow(op, l.outputs, view, store, e);
    if e.PlannedDirectoryEntry? {
      var i := DirectoryOrigin(op, l.outputs, view, store, e);
    } else {
      var i := FileOrigin(op, l.outputs, view, store, e);
    }
  }

  lemma DirectoryOrigin(op: Operation, outputs: seq<Output>, view: Observed, store: Store, e: PlannedEntry) returns (i: nat)
    requires TreeOperationFor(op, outputs, view, store) && e in op.tree.entries && e.PlannedDirectoryEntry?
    ensures i < |outputs| && Above(e.path, outputs[i].path)
  {
    var group := Group(outputs, op.path, view.directoryStates.Keys);
    assert DirectoryOf(e, op.path, group, view);
    var n :| 0 <= n < |group| && Above(e.path, group[n].path);
    assert group[n] in group;
    i :| 0 <= i < |outputs| && outputs[i] == group[n];
  }

  lemma FileOrigin(op: Operation, outputs: seq<Output>, view: Observed, store: Store, e: PlannedEntry) returns (i: nat)
    requires TreeOperationFor(op, outputs, view, store) && e in op.tree.entries && e.PlannedFileEntry?
    ensures i < |outputs| && e.path == outputs[i].path
    ensures RootOf(outputs[i].path, view.directoryStates.Keys).Some?
  {
    var group := Group(outputs, op.path, view.directoryStates.Keys);
    assert FileOf(e, group, store);
    var n :| 0 <= n < |group| && e.path == group[n].path;
    assert group[n] in group;
    i :| 0 <= i < |outputs| && outputs[i] == group[n];
  }

  /** The trees create exactly the covered outputs and the new directories above them. */
  lemma TreesLay(l: Layout, view: Observed, store: Store, p: Path)
    requires ClosedView(view) && Placed(l, view, store)
    ensures p in TreeFiles(l.trees, store) <==> p in Covered(l.outputs, view.directoryStates.Keys)
    ensures p in TreeDirectories(l.trees) <==> NewlyAbove(l, view, p)
    ensures p in TreeDirectories(l.trees) ==> TreeDirectories(l.trees)[p] == DIRECTORY_MODE
    ensures p in TreePaths(l.trees) <==> p in TreeFiles(l.trees, store) || p in TreeDirectories(l.trees)
  {
    TreesAreHeld(l, view, store);
    if k :| 0 <= k < |l.trees| && TreeTouches(l.trees[k], p) {
      OnlyOneTouches(l, view, store, p, k);
      TouchedByTree(l.trees, store, p, k);
      HeldKind(l, view, store, k, p);
      TouchedIsWanted(l, view, store, k, p);
      TouchedIsOneKind(l, view, store, k, p);
    } else {
      UntouchedByTrees(l.trees, store, p);
      UntouchedIsUnwanted(l, view, store, p);
    }
  }

  lemma TouchedIsOneKind(l: Layout, view: Observed, store: Store, k: nat, p: Path)
    requires ClosedView(view) && Placed(l, view, store) && k < |l.trees|
    requires l.trees[k].CreateTree? && TreeTouches(l.trees[k], p)
    ensures !(NewlyAbove(l, view, p) && p in Covered(l.outputs, view.directoryStates.Keys))
  {
    if p in Covered(l.outputs, view.directoryStates.Keys) {
      var i :| 0 <= i < |l.outputs| && l.outputs[i].path == p;
      assert forall j :: 0 <= j < |l.outputs| ==> !Above(l.outputs[i].path, l.outputs[j].path);
    }
  }

  lemma UntouchedIsUnwanted(l: Layout, view: Observed, store: Store, p: Path)
    requires ClosedView(view) && Placed(l, view, store)
    requires forall k :: 0 <= k < |l.trees| && l.trees[k].CreateTree? ==> !TreeTouches(l.trees[k], p)
    ensures !NewlyAbove(l, view, p) && p !in Covered(l.outputs, view.directoryStates.Keys)
  {
    if NewlyAbove(l, view, p) { var k := NewDirectoryTouched(l, view, store, p); }
    if p in Covered(l.outputs, view.directoryStates.Keys) {
      var i :| 0 <= i < |l.outputs| && l.outputs[i].path == p;
      CoveredIsHeld(l.trees, l.outputs, view, store, l.outputs[i]);
    }
  }

  // Acceptance

  lemma PlacedUntouched(l: Layout, view: Observed, store: Store, i: nat)
    requires ClosedView(view) && Placed(l, view, store) && i < |l.placed|
    ensures var p := l.placed[i].path;
      p !in TreeFiles(l.trees, store) && p !in TreeDirectories(l.trees) && p !in TreePaths(l.trees)
  {
    TreesAreHeld(l, view, store);
    forall k | 0 <= k < |l.trees| ensures l.trees[k].CreateTree? && !TreeTouches(l.trees[k], l.placed[i].path) {
      PlacedOffTrees(l, view, store, i, k);
    }
    UntouchedByTrees(l.trees, store, l.placed[i].path);
  }

  /** The overlay with the placed outputs written. */
  ghost function WithFiles(l: Layout, store: Store, o: Overlay): Overlay {
    Overlay(o.files + FilesWritten(l.plain, store), o.directories, o.written + OpPaths(l.plain))
  }

  /** The overlay with the trees created. */
  ghost function WithTrees(l: Layout, store: Store, o: Overlay): Overlay {
    Overlay(o.files + TreeFiles(l.trees, store), o.directories + TreeDirectories(l.trees), o.written + TreePaths(l.trees))
  }

  lemma PlainKeys(l: Layout, view: Observed, store: Store)
    requires Placed(l, view, store)
    ensures FilesWritten(l.plain, store).Keys == OpPaths(l.plain)
    ensures forall p :: p in OpPaths(l.plain) <==> IsPlaced(l, p)
  {
    PlainIsDistinct(l, view, store);
    forall i | 0 <= i < |l.plain| ensures IsWrite(l.plain[i]) && store.Get(l.plain[i].planned.contentId).Some? {
      assert PlacedAt(l, view, store, i);
    }
    FilesWrittenAt(l.plain, store);
    forall p ensures p in OpPaths(l.plain) <==> IsPlaced(l, p) {
      if p in OpPaths(l.plain) {
        var i :| 0 <= i < |l.plain| && l.plain[i].path == p;
        assert l.placed[i].path == p;
      }
      if i :| 0 <= i < |l.placed| && l.placed[i].path == p { assert l.plain[i].path == p; }
    }
  }

  lemma PlainValue(l: Layout, view: Observed, store: Store, i: nat)
    requires Placed(l, view, store) && i < |l.placed|
    ensures store.Get(l.placed[i].contentId).Some? && l.placed[i].path in FilesWritten(l.plain, store)
    ensures FilesWritten(l.plain, store)[l.placed[i].path] == ExpectedOf(l.placed[i], store)
  {
    PlainIsDistinct(l, view, store);
    forall i | 0 <= i < |l.plain| ensures IsWrite(l.plain[i]) && store.Get(l.plain[i].planned.contentId).Some? {
      assert PlacedAt(l, view, store, i);
    }
    FilesWrittenAt(l.plain, store);
    assert PlacedAt(l, view, store, i);
  }

  lemma FilesAccepted(l: Layout, ob: Observed, view: Observed, store: Store, o: Overlay, u: Overlay)
    requires Base(ob, view, o) && Placed(l, view, store) && Unspent(l, ob, view, o)
    requires u == o || u == WithTrees(l, store, o)
    ensures OverlayAll(l.plain, ob, store, u) == Ok(WithFiles(l, store, u))
  {
    PlainIsDistinct(l, view, store);
    forall i | 0 <= i < |l.plain| ensures WriteReady(l.plain[i], ob, store, u) {
      PlacedUntouched(l, view, store, i);
      PlainIsReady(l, ob, view, store, u, i);
    }
    WritesAccepted(l.plain, ob, store, u);
  }

  lemma TouchedStaysSpare(l: Layout, ob: Observed, view: Observed, store: Store, o: Overlay, k: nat, p: Path)
    requires Base(ob, view, o) && Placed(l, view, store) && Unspent(l, ob, view, o) && k < |l.trees|
    requires l.trees[k].CreateTree? && TreeTouches(l.trees[k], p)
    ensures var u := WithFiles(l, store, o);
      Spare(ob, view, u, p) && p !in u.files && p !in u.directories
  {
    assert Spare(ob, view, o, p);
    PlainKeys(l, view, store);
    TouchedBelowRoot(l, view, store, k, p);
    if IsPlaced(l, p) {
      var i :| 0 <= i < |l.placed| && l.placed[i].path == p;
      PlacedOffTrees(l, view, store, i, k);
    }
  }

  lemma TreeStandsReady(l: Layout, ob: Observed, view: Observed, store: Store, o: Overlay, u: Overlay, k: nat)
    requires Base(ob, view, o) && Placed(l, view, store) && Unspent(l, ob, view, o) && k < |l.trees|
    requires u == o || u == WithFiles(l, store, o)
    ensures TreeReady(l.trees[k], ob, store, u)
    ensures forall e :: e in l.trees[k].tree.entries ==> e.path != l.trees[k].path
  {
    forall p | l.trees[k].CreateTree? && TreeTouches(l.trees[k], p)
      ensures Spare(ob, view, u, p) && (!Seen(view, p) ==> p !in u.files && p !in u.directories)
    {
      TouchedStaysSpare(l, ob, view, store, o, k, p);
    }
    BuiltIsReady(l, ob, view, store, u, k);
  }

  lemma TreesAreAccepted(l: Layout, ob: Observed, view: Observed, store: Store, o: Overlay, u: Overlay)
    requires Base(ob, view, o) && Placed(l, view, store) && Unspent(l, ob, view, o)
    requires u == o || u == WithFiles(l, store, o)
    ensures OverlayAll(l.trees, ob, store, u) == Ok(WithTrees(l, store, u))
  {
    TreesAreApart(l, view, store);
    forall k | 0 <= k < |l.trees|
      ensures TreeReady(l.trees[k], ob, store, u)
      ensures forall e :: e in l.trees[k].tree.entries ==> e.path != l.trees[k].path
    {
      TreeStandsReady(l, ob, view, store, o, u, k);
    }
    TreesAccepted(l.trees, ob, store, u);
  }

  /** What laying the outputs over `o` leaves. */
  ghost predicate Installed(l: Layout, view: Observed, store: Store, o: Overlay, u: Overlay) {
    && (forall p :: p in u.files <==> p in o.files || Effected(l, view, p))
    && (forall p :: p in o.files && !Effected(l, view, p) ==> u.files[p] == o.files[p])
    && (forall i :: 0 <= i < |l.outputs| && Effected(l, view, l.outputs[i].path) ==> IsAsPlanned(l.outputs[i], store, u.files))
    && (forall p :: p in u.directories <==> p in o.directories || NewlyAbove(l, view, p))
    && (forall p :: p in u.directories ==>
          u.directories[p] == if p in o.directories then o.directories[p] else DIRECTORY_MODE)
    && (forall p :: p in u.written <==> p in o.written || Effected(l, view, p) || NewlyAbove(l, view, p))
  }

  predicate IsAsPlanned(o: Output, store: Store, files: map<Path, ExpectedFile>) {
    store.Get(o.contentId).Some? && o.path in files && files[o.path] == ExpectedOf(o, store)
  }

  lemma FilesAndTreesApart(l: Layout, view: Observed, store: Store)
    requires ClosedView(view) && Placed(l, view, store)
    ensures FilesWritten(l.plain, store).Keys !! TreeFiles(l.trees, store).Keys
  {
    PlainKeys(l, view, store);
    forall p | p in OpPaths(l.plain) ensures p !in TreeFiles(l.trees, store) {
      var i :| 0 <= i < |l.placed| && l.placed[i].path == p;
      PlacedUntouched(l, view, store, i);
    }
  }

  lemma OutputIsAsPlanned(l: Layout, view: Observed, store: Store, o: Overlay, i: nat)
    requires ClosedView(view) && Placed(l, view, store) && i < |l.outputs|
    requires Effected(l, view, l.outputs[i].path)
    ensures IsAsPlanned(l.outputs[i], store, WithTrees(l, store, WithFiles(l, store, o)).files)
  {
    var p := l.outputs[i].path;
    if p in Covered(l.outputs, view.directoryStates.Keys) {
      assert l.outputs[i] in l.outputs;
      CoveredIsLaid(l, view, store, l.outputs[i]);
    } else {
      var n :| 0 <= n < |l.placed| && l.placed[n].path == p;
      assert PlacedAt(l, view, store, n);
      var m :| 0 <= m < |l.outputs| && l.outputs[m] == l.placed[n];
      assert m == i;
      PlainValue(l, view, store, n);
      TreesLay(l, view, store, p);
    }
  }

  lemma InstalledAt(l: Layout, view: Observed, store: Store, o: Overlay, p: Path)
    requires ClosedView(view) && Placed(l, view, store)
    ensures var u := WithTrees(l, store, WithFiles(l, store, o));
      && (p in u.files <==> p in o.files || Effected(l, view, p))
      && (p in o.files && !Effected(l, view, p) ==> u.files[p] == o.files[p])
      && (p in u.directories <==> p in o.directories || NewlyAbove(l, view, p))
      && (p in u.directories ==> u.directories[p] == if NewlyAbove(l, view, p) then DIRECTORY_MODE else o.directories[p])
      && (p in u.written <==> p in o.written || Effected(l, view, p) || NewlyAbove(l, view, p))
  {
    PlainKeys(l, view, store);
    TreesLay(l, view, store, p);
  }

  lemma LaidIsInstalled(l: Layout, ob: Observed, view: Observed, store: Store, o: Overlay)
    requires Base(ob, view, o) && Placed(l, view, store)
    ensures Installed(l, view, store, o, WithTrees(l, store, WithFiles(l, store, o)))
  {
    var u := WithTrees(l, store, WithFiles(l, store, o));
    forall p
      ensures p in u.files <==> p in o.files || Effected(l, view, p)
      ensures p in o.files && !Effected(l, view, p) ==> u.files[p] == o.files[p]
      ensures p in u.directories <==> p in o.directories || NewlyAbove(l, view, p)
      ensures p in u.directories ==> u.directories[p] == if p in o.directories then o.directories[p] else DIRECTORY_MODE
      ensures p in u.written <==> p in o.written || Effected(l, view, p) || NewlyAbove(l, view, p)
    {
      InstalledAt(l, view, store, o, p);
    }
    forall i | 0 <= i < |l.outputs| && Effected(l, view, l.outputs[i].path) ensures IsAsPlanned(l.outputs[i], store, u.files) {
      OutputIsAsPlanned(l, view, store, o, i);
    }
  }

  lemma MergesCommute<V>(a: map<Path, V>, b: map<Path, V>, c: map<Path, V>)
    requires b.Keys !! c.Keys
    ensures a + b + c == a + c + b
  {
  }

  /** A layout is accepted with its files first or its trees first, and leaves the same. */
  lemma LayoutAccepted(l: Layout, ob: Observed, view: Observed, store: Store, o: Overlay)
    requires Base(ob, view, o) && Placed(l, view, store) && Unspent(l, ob, view, o)
    ensures OverlayAll(l.plain + l.trees, ob, store, o).Ok?
    ensures OverlayAll(l.trees + l.plain, ob, store, o) == OverlayAll(l.plain + l.trees, ob, store, o)
    ensures Installed(l, view, store, o, OverlayAll(l.plain + l.trees, ob, store, o).value)
  {
    FilesAccepted(l, ob, view, store, o, o);
    TreesAreAccepted(l, ob, view, store, o, WithFiles(l, store, o));
    OverlayConcat(l.plain, l.trees, ob, store, o);
    TreesAreAccepted(l, ob, view, store, o, o);
    FilesAccepted(l, ob, view, store, o, WithTrees(l, store, o));
    OverlayConcat(l.trees, l.plain, ob, store, o);
    FilesAndTreesApart(l, view, store);
    MergesCommute(o.files, FilesWritten(l.plain, store), TreeFiles(l.trees, store));
    assert o.written + OpPaths(l.plain) + TreePaths(l.trees) == o.written + TreePaths(l.trees) + OpPaths(l.plain);
    LaidIsInstalled(l, ob, view, store, o);
  }
}
