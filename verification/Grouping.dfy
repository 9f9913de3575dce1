/** What grouping under new hierarchies amounts to on a parent-closed observation. */
module Grouping {
  import opened Results
  import opened Paths
  import opened Sorting
  import opened Identity
  import opened Plans
  import opened Targets
  import opened Inversion
  import opened Apply
  import opened Agreement
  import opened Outputs
  import opened Trees

  predicate Seen(ob: Observed, p: Path) {
    p in ob.states || p in ob.directoryStates
  }

  predicate ParentSeen(ob: Observed, p: Path) {
    |p| == 1 || (|p| > 1 && Parent(p) in ob.directoryStates)
  }

  /** Every ancestor of an observed path is an observed directory. */
  ghost predicate ClosedView(ob: Observed) {
    && ob.states.Keys !! ob.directoryStates.Keys
    && forall p :: p in ob.states || p in ob.directoryStates ==> Valid(p) && ParentSeen(ob, p)
  }

  lemma ObservedIsClosed(ob: Observed, t: Tree)
    requires Closed(t) && ObservedTree(ob, t)
    ensures ClosedView(ob)
  {
    forall p | p in ob.states || p in ob.directoryStates ensures Valid(p) && ParentSeen(ob, p) {
      assert p in t.files.Keys + t.dirs.Keys;
    }
  }

  lemma {:induction false} SeenAncestors(ob: Observed, a: Path, p: Path)
    requires ClosedView(ob) && Seen(ob, p) && a != [] && Above(a, p)
    ensures a in ob.directoryStates
    decreases |p|
  {
    AboveParent(a, p);
    if a != Parent(p) { SeenAncestors(ob, a, Parent(p)); }
  }

  /** The root of a covered output is just below the deepest observed directory above the output. */
  lemma RootShape(p: Path, dirs: set<Path>, root: Path)
    requires p != [] && RootOf(p, dirs) == Some(root)
    ensures root != [] && Above(root, p)
    ensures |root| == 1 || Parent(root) in dirs
    ensures forall a :: AtOrAbove(root, a) && Above(a, p) ==> a !in dirs
  {
    var k := Nearest(p, dirs, |p| - 1);
    assert root == Parents(p)[k] == p[..k + 1];
    assert Parent(root) == p[..k];
    forall a | AtOrAbove(root, a) && Above(a, p) ensures a !in dirs {
      assert a == p[..|a|];
    }
  }

  lemma UncoveredShape(p: Path, dirs: set<Path>)
    requires p != [] && RootOf(p, dirs) == None
    ensures |p| == 1 || Parent(p) in dirs
  {
    assert Nearest(p, dirs, |p| - 1) == |p| - 1;
  }

  /** Nothing is observed at or below the root of a covered output: it is the highest absent ancestor. */
  lemma RootIsHighestAbsent(ob: Observed, p: Path, root: Path)
    requires ClosedView(ob) && Valid(p) && !Blocked(p, ob.states.Keys)
    requires RootOf(p, ob.directoryStates.Keys) == Some(root)
    ensures Valid(root) && Above(root, p) && ParentSeen(ob, root)
    ensures forall q :: AtOrAbove(root, q) ==> !Seen(ob, q)
    ensures forall a :: a != [] && Above(a, root) ==> a in ob.directoryStates
  {
    var dirs := ob.directoryStates.Keys;
    RootShape(p, dirs, root);
    assert root == p[..|root|];
    forall q | AtOrAbove(root, q) ensures !Seen(ob, q) {
      if Seen(ob, q) && root != q { SeenAncestors(ob, root, q); }
    }
    forall a | a != [] && Above(a, root) ensures a in ob.directoryStates {
      AboveParent(a, root);
      if a != Parent(root) { SeenAncestors(ob, a, Parent(root)); }
    }
  }

  /** The roots of two outputs are the same or neither is above the other. */
  lemma RootsIncomparable(ob: Observed, p: Path, q: Path, a: Path, b: Path)
    requires ClosedView(ob) && Valid(p) && Valid(q) && !Blocked(p, ob.states.Keys) && !Blocked(q, ob.states.Keys)
    requires RootOf(p, ob.directoryStates.Keys) == Some(a) && RootOf(q, ob.directoryStates.Keys) == Some(b)
    ensures !Above(a, b)
  {
    RootIsHighestAbsent(ob, p, a);
    RootIsHighestAbsent(ob, q, b);
    assert AtOrAbove(a, a);
  }

  /** The output an entry of a built tree is there for. */
  lemma EntryOrigin(op: Operation, outputs: seq<Output>, ob: Observed, store: Store, e: PlannedEntry) returns (i: nat)
    requires TreeOperationFor(op, outputs, ob, store) && e in op.tree.entries
    ensures i < |outputs| && RootOf(outputs[i].path, ob.directoryStates.Keys) == Some(op.path)
    ensures AtOrAbove(e.path, outputs[i].path)
    ensures e.path == outputs[i].path || Above(op.path, e.path)
  {
    var group := Group(outputs, op.path, ob.directoryStates.Keys);
    var k: nat;
    if FileOf(e, group, store) {
      k :| 0 <= k < |group| && e.path == group[k].path;
    } else {
      assert DirectoryOf(e, op.path, group, ob);
      k :| 0 <= k < |group| && Above(e.path, group[k].path);
    }
    assert group[k] in group;
    i :| 0 <= i < |outputs| && outputs[i] == group[k];
  }

  /** Everything a built tree creates lies below its root, and nothing of it was observed. */
  lemma TreeEntriesBelow(op: Operation, outputs: seq<Output>, ob: Observed, store: Store, e: PlannedEntry)
    requires ClosedView(ob) && WellFormed(outputs) && !AnyBlocked(outputs, ob.states.Keys)
    requires TreeOperationFor(op, outputs, ob, store) && e in op.tree.entries
    ensures Valid(e.path) && Above(op.path, e.path) && !Seen(ob, e.path)
  {
    var i := EntryOrigin(op, outputs, ob, store, e);
    RootIsHighestAbsent(ob, outputs[i].path, op.path);
    OnTheWay(op.path, e.path, outputs[i].path);
  }

  lemma OnTheWay(root: Path, p: Path, q: Path)
    requires Valid(q) && Above(root, q) && AtOrAbove(p, q) && (p == q || Above(root, p))
    ensures Valid(p) && Above(root, p)
  {
    assert p == q[..|p|];
  }

  /** A directory strictly between the root and an output is planned. */
  lemma BetweenIsPlanned(op: Operation, outputs: seq<Output>, ob: Observed, store: Store, a: Path, i: nat)
    requires ClosedView(ob) && WellFormed(outputs) && !AnyBlocked(outputs, ob.states.Keys)
    requires TreeOperationFor(op, outputs, ob, store)
    requires i < |outputs| && RootOf(outputs[i].path, ob.directoryStates.Keys) == Some(op.path)
    requires Above(op.path, a) && Above(a, outputs[i].path)
    ensures PlannedDirectoryAt(op.tree.entries, a)
  {
    var group := Group(outputs, op.path, ob.directoryStates.Keys);
    assert outputs[i] in group;
    var k :| 0 <= k < |group| && group[k] == outputs[i];
    RootIsHighestAbsent(ob, outputs[i].path, op.path);
    assert !Seen(ob, a);
    assert DirectoryOf(PlannedDirectoryEntry(a, DIRECTORY_MODE), op.path, group, ob);
    assert PlannedDirectoryEntry(a, DIRECTORY_MODE) in op.tree.entries;
  }

  lemma ContentCanonical(tree: PlannedTree, store: Store)
    requires HasBlobs(tree.entries, store) && Sorted(tree.entries, PlannedPathLess)
    ensures Canonical(PlannedContent(tree, store).entries)
  {
    var es := PlannedContent(tree, store).entries;
    forall i, j | 0 <= i < j < |es| ensures EntryPathLess(es[i], es[j]) {
      assert PlannedPathLess(tree.entries[i], tree.entries[j]);
    }
  }

  lemma EntryParents(op: Operation, outputs: seq<Output>, ob: Observed, store: Store, e: PlannedEntry)
    requires ClosedView(ob) && WellFormed(outputs) && !AnyBlocked(outputs, ob.states.Keys)
    requires TreeOperationFor(op, outputs, ob, store) && e in op.tree.entries
    ensures Valid(e.path) && Above(op.path, e.path)
    ensures Parent(e.path) == op.path || PlannedDirectoryAt(op.tree.entries, Parent(e.path))
  {
    TreeEntriesBelow(op, outputs, ob, store, e);
    var i := EntryOrigin(op, outputs, ob, store, e);
    if Parent(e.path) != op.path {
      AboveParent(op.path, e.path);
      AboveParent(Parent(e.path), e.path);
      AboveTransitive(Parent(e.path), e.path, outputs[i].path);
      BetweenIsPlanned(op, outputs, ob, store, Parent(e.path), i);
    }
  }

  /** A built tree has every intermediate directory, in path order, under its recorded hash. */
  lemma BuiltTreeIsSound(op: Operation, outputs: seq<Output>, ob: Observed, store: Store)
    requires ClosedView(ob) && WellFormed(outputs) && !AnyBlocked(outputs, ob.states.Keys)
    requires TreeOperationFor(op, outputs, ob, store) && op.path in Roots(outputs, ob.directoryStates.Keys)
    ensures Valid(op.path) && SoundTree(op.path, op.tree, store) && ParentSeen(ob, op.path)
  {
    ContentCanonical(op.tree, store);
    forall e | e in op.tree.entries
      ensures Valid(e.path) && Above(op.path, e.path)
      ensures ParentPlanned(op.path, op.tree.entries, e)
    {
      EntryParents(op, outputs, ob, store, e);
    }
    var i :| 0 <= i < |outputs| && RootOf(outputs[i].path, ob.directoryStates.Keys) == Some(op.path);
    RootIsHighestAbsent(ob, outputs[i].path, op.path);
  }

  /**
   Grouping is a partition: no path belongs to two trees, and the trees together hold
   exactly the covered outputs.
   */
  lemma TreesPartition(trees: seq<Operation>, outputs: seq<Output>, ob: Observed, store: Store)
    requires ClosedView(ob) && WellFormed(outputs) && !AnyBlocked(outputs, ob.states.Keys)
    requires TreesFor(trees, outputs, ob, store) && Stored(outputs, store)
    ensures forall i, j :: 0 <= i < j < |trees| ==> !AtOrAbove(trees[i].path, trees[j].path) && !Above(trees[j].path, trees[i].path)
    ensures forall i, j, p :: 0 <= i < j < |trees| && AtOrAbove(trees[i].path, p) ==> !AtOrAbove(trees[j].path, p)
    ensures forall o :: o in outputs && o.path in Covered(outputs, ob.directoryStates.Keys) ==>
      exists k :: 0 <= k < |trees| && HoldsOutput(trees[k], o, store)
  {
    var dirs := ob.directoryStates.Keys;
    forall i, j | 0 <= i < |trees| && 0 <= j < |trees| && i != j
      ensures !AtOrAbove(trees[i].path, trees[j].path)
    {
      assert trees[i].path in Roots(outputs, dirs) && trees[j].path in Roots(outputs, dirs);
      var m :| 0 <= m < |outputs| && RootOf(outputs[m].path, dirs) == Some(trees[i].path);
      var n :| 0 <= n < |outputs| && RootOf(outputs[n].path, dirs) == Some(trees[j].path);
      RootsIncomparable(ob, outputs[m].path, outputs[n].path, trees[i].path, trees[j].path);
    }
    forall i, j, p | 0 <= i < j < |trees| && AtOrAbove(trees[i].path, p) ensures !AtOrAbove(trees[j].path, p) {
      if AtOrAbove(trees[j].path, p) { AncestorsComparable(trees[i].path, trees[j].path, p); }
    }
    forall o | o in outputs && o.path in Covered(outputs, dirs)
      ensures exists k :: 0 <= k < |trees| && HoldsOutput(trees[k], o, store)
    {
      CoveredIsHeld(trees, outputs, ob, store, o);
    }
  }

  predicate HoldsOutput(op: Operation, o: Output, store: Store) {
    op.CreateTree? && store.Get(o.contentId).Some? && PlannedFileEntry(o.path, Resolved(o, store)) in op.tree.entries
  }

  lemma CoveredIsHeld(trees: seq<Operation>, outputs: seq<Output>, ob: Observed, store: Store, o: Output)
    requires TreesFor(trees, outputs, ob, store) && Stored(outputs, store)
    requires o in outputs && o.path in Covered(outputs, ob.directoryStates.Keys)
    ensures exists k :: 0 <= k < |trees| && HoldsOutput(trees[k], o, store)
  {
    var dirs := ob.directoryStates.Keys;
    var i :| 0 <= i < |outputs| && RootOf(outputs[i].path, dirs).Some? && outputs[i].path == o.path;
    var root := RootOf(o.path, dirs).value;
    assert root in Roots(outputs, dirs);
    var k :| 0 <= k < |trees| && trees[k].path == root;
    assert TreeOperationFor(trees[k], outputs, ob, store);
    OutputIsHeld(trees[k], outputs, ob, store, o);
  }

  lemma OutputIsHeld(op: Operation, outputs: seq<Output>, ob: Observed, store: Store, o: Output)
    requires TreeOperationFor(op, outputs, ob, store) && Stored(outputs, store)
    requires o in outputs && RootOf(o.path, ob.directoryStates.Keys) == Some(op.path)
    ensures HoldsOutput(op, o, store)
  {
    var group := Group(outputs, op.path, ob.directoryStates.Keys);
    assert o in group;
    var k :| 0 <= k < |group| && group[k] == o;
    assert FileOf(PlannedFileEntry(o.path, Resolved(o, store)), group, store);
  }
}
