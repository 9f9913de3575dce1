/** From files to a layout: interning, the nesting check, trees, and operations for the rest. */
module Laying {
  import opened Results
  import opened Paths
  import opened Sorting
  import opened Identity
  import opened Plans
  import opened Orders
  import opened Apply
  import opened Outputs
  import opened Trees
  import opened Grouping
  import opened Overlays
  import opened Layouts

  predicate DistinctFiles(files: seq<RenderFile>) {
    forall i, j :: 0 <= i < j < |files| ==> files[i].path != files[j].path
  }

  predicate ValidFiles(files: seq<RenderFile>) {
    forall i :: 0 <= i < |files| ==> Valid(files[i].path)
  }

  /** The outputs of `files`, with their bytes in the store. */
  ghost predicate StoredFrom(files: seq<RenderFile>, outputs: seq<Output>, store: Store) {
    && |outputs| == |files|
    && forall i :: 0 <= i < |files| ==>
      outputs[i] == OutputOf(files[i]) && store.Get(outputs[i].contentId) == Some(files[i].content)
  }

  /** The files fit the store's limits, and none is above another. */
  predicate Storable(files: seq<RenderFile>, limits: Limits) {
    && Internable(files, EmptyStore(limits))
    && forall i, j :: 0 <= i < |files| && 0 <= j < |files| ==> !Above(files[i].path, files[j].path)
  }

  /** Interns every file and refuses nested outputs. */
  method StoreOutputs(files: seq<RenderFile>, limits: Limits) returns (r: Result<(seq<Output>, Store), Refused>)
    requires ValidFiles(files)
    ensures r.Ok? <==> Storable(files, limits)
    ensures r.Ok? ==> StoredFrom(files, r.value.0, r.value.1)
    ensures r.Ok? && DistinctFiles(files) ==> WellFormed(r.value.0)
  {
    var interned := InternOutputs(files, EmptyStore(limits));
    if interned.Err? { return Err(interned.error); }
    var (outputs, store) := interned.value;
    assert forall i :: 0 <= i < |files| ==> outputs[i].path == files[i].path && files[i].path != [];
    var flat := ValidateNoNestedOutputs(outputs);
    if flat.Err? { return Err(flat.error); }
    return Ok((outputs, store));
  }

  lemma StoredFromIsStored(files: seq<RenderFile>, outputs: seq<Output>, store: Store)
    requires StoredFrom(files, outputs, store)
    ensures Stored(outputs, store)
  {
    forall o | o in outputs ensures store.Get(o.contentId).Some? {
      var i :| 0 <= i < |outputs| && outputs[i] == o;
    }
  }

  lemma {:induction false} UncoveredConcat(a: seq<Output>, b: seq<Output>, covered: set<Path>)
    ensures Uncovered(a + b, covered) == Uncovered(a, covered) + Uncovered(b, covered)
    decreases |b|
  {
    if b == [] {
      assert a + b == a;
    } else {
      assert (a + b)[..|a + b| - 1] == a + b[..|b| - 1];
      UncoveredConcat(a, b[..|b| - 1], covered);
    }
  }

  predicate DistinctOutputs(outputs: seq<Output>) {
    forall i, j :: 0 <= i < j < |outputs| ==> outputs[i].path != outputs[j].path
  }

  lemma DistinctAppend(outputs: seq<Output>, o: Output)
    requires DistinctOutputs(outputs) && forall x :: x in outputs ==> x.path != o.path
    ensures DistinctOutputs(outputs + [o])
  {
    assert forall i :: 0 <= i < |outputs| ==> outputs[i] in outputs;
  }

  lemma {:induction false} UncoveredDistinct(outputs: seq<Output>, covered: set<Path>)
    requires DistinctOutputs(outputs)
    ensures DistinctOutputs(Uncovered(outputs, covered))
    decreases |outputs|
  {
    if outputs != [] {
      var rest, o := outputs[..|outputs| - 1], outputs[|outputs| - 1];
      assert forall i :: 0 <= i < |rest| ==> rest[i] == outputs[i];
      UncoveredDistinct(rest, covered);
      var front := Uncovered(rest, covered);
      forall x | x in front ensures x.path != o.path {
        var k :| 0 <= k < |rest| && rest[k] == x;
        assert outputs[k].path != outputs[|outputs| - 1].path;
      }
      DistinctAppend(front, o);
    }
  }

  ghost predicate PlainFor(plain: seq<Operation>, placed: seq<Output>, view: Observed, store: Store) {
    && |plain| == |placed|
    && forall i :: 0 <= i < |placed| ==>
      store.Get(placed[i].contentId).Some? && plain[i] == PlainOperation(placed[i], view, store)
  }

  /** Every output has its operation: in a tree, or of its own where no directory stands. */
  ghost predicate Everywhere(l: Layout, view: Observed, store: Store) {
    && Placed(l, view, store)
    && l.placed == Uncovered(l.outputs, Covered(l.outputs, view.directoryStates.Keys))
    && forall i :: 0 <= i < |l.placed| ==> l.placed[i].path !in view.directoryStates
  }

  /** The same, of outputs that may repeat a path. */
  ghost predicate LaidOut(l: Layout, view: Observed, store: Store) {
    && Stored(l.outputs, store) && TreesFor(l.trees, l.outputs, view, store)
    && l.placed == Uncovered(l.outputs, Covered(l.outputs, view.directoryStates.Keys))
    && PlainFor(l.plain, l.placed, view, store)
  }

  lemma UncoveredHasNoRoot(outputs: seq<Output>, dirs: set<Path>, o: Output)
    requires o in Uncovered(outputs, Covered(outputs, dirs))
    ensures o in outputs && RootOf(o.path, dirs).None?
  {
    var i :| 0 <= i < |outputs| && outputs[i] == o;
    assert forall k :: 0 <= k < |outputs| && RootOf(outputs[k].path, dirs).Some? ==>
      outputs[k].path in Covered(outputs, dirs);
  }

  lemma LayoutStands(l: Layout, view: Observed, store: Store)
    requires WellFormed(l.outputs) && Stored(l.outputs, store) && !AnyBlocked(l.outputs, view.states.Keys)
    requires TreesFor(l.trees, l.outputs, view, store)
    requires l.placed == Uncovered(l.outputs, Covered(l.outputs, view.directoryStates.Keys))
    requires PlainFor(l.plain, l.placed, view, store)
    requires forall o :: o in l.placed ==> o.path !in view.directoryStates
    ensures Everywhere(l, view, store)
  {
    UncoveredDistinct(l.outputs, Covered(l.outputs, view.directoryStates.Keys));
    forall i | 0 <= i < |l.placed| ensures PlacedAt(l, view, store, i) && l.placed[i].path !in view.directoryStates {
      assert l.placed[i] in l.placed;
      UncoveredHasNoRoot(l.outputs, view.directoryStates.Keys, l.placed[i]);
    }
  }

  /** What is to be installed, as outputs. */
  function OutputsFor(files: seq<RenderFile>): (r: seq<Output>)
    ensures |r| == |files| && forall i :: 0 <= i < |files| ==> r[i] == OutputOf(files[i])
  {
    seq(|files|, i requires 0 <= i < |files| => OutputOf(files[i]))
  }

  lemma StoredAreOutputs(files: seq<RenderFile>, outputs: seq<Output>, store: Store)
    requires StoredFrom(files, outputs, store)
    ensures outputs == OutputsFor(files)
  {
  }

  /**
   No observed file stands above an output, and no directory where an output goes
   that no new tree covers; with `refuseLast`, the last output is no observed file.
   */
  predicate Placeable(outputs: seq<Output>, view: Observed, refuseLast: bool)
    requires |outputs| > 0
  {
    && !AnyBlocked(outputs, view.states.Keys)
    && (forall o :: o in outputs && RootOf(o.path, view.directoryStates.Keys).None? ==> o.path !in view.directoryStates)
    && (refuseLast ==> RootOf(outputs[|outputs| - 1].path, view.directoryStates.Keys).Some?
                       || outputs[|outputs| - 1].path !in view.states)
  }

  /** Stores and places `files` on `view`, or refuses. */
  method LayFiles(files: seq<RenderFile>, view: Observed, limits: Limits, refuseLast: bool)
    returns (r: Result<(Layout, Store), Refused>)
    requires ValidFiles(files) && |files| > 0
    ensures r.Ok? <==> Storable(files, limits) && Placeable(OutputsFor(files), view, refuseLast)
    ensures r.Ok? ==> StoredFrom(files, r.value.0.outputs, r.value.1) && LaidOut(r.value.0, view, r.value.1)
    ensures r.Ok? && DistinctFiles(files) ==> Everywhere(r.value.0, view, r.value.1)
    ensures r.Ok? ==> r.value.0.outputs == OutputsFor(files) && InPathOrder(r.value.0.trees)
  {
    var stored := StoreOutputs(files, limits);
    if stored.Err? { return Err(stored.error); }
    var (outputs, store) := stored.value;
    StoredFromIsStored(files, outputs, store);
    StoredAreOutputs(files, outputs, store);
    forall o | o in outputs ensures Valid(o.path) {
      var i :| 0 <= i < |outputs| && outputs[i] == o;
      assert Valid(files[i].path);
    }
    var laid := PlaceOutputs(outputs, view, store, refuseLast);
    if laid.Err? { return Err(laid.error); }
    return Ok((laid.value, store));
  }

  lemma PlainConcat(a: seq<Operation>, b: seq<Operation>, x: seq<Output>, y: seq<Output>, view: Observed, store: Store)
    requires PlainFor(a, x, view, store) && PlainFor(b, y, view, store)
    ensures PlainFor(a + b, x + y, view, store)
  {
  }

  /** An operation for each output no tree covers, in their order; with `refuseLast`, the last must not be an observed file. */
  method ClassifyUncovered(outputs: seq<Output>, covered: set<Path>, view: Observed, store: Store, refuseLast: bool)
    returns (r: Result<seq<Operation>, Refused>)
    requires |outputs| > 0
    ensures r.Ok? <==>
      && (forall o :: o in Uncovered(outputs[..|outputs| - 1], covered) ==> Classifiable(o, view, store, false))
      && (forall o :: o in Uncovered([outputs[|outputs| - 1]], covered) ==> Classifiable(o, view, store, refuseLast))
    ensures r.Ok? ==> PlainFor(r.value, Uncovered(outputs, covered), view, store)
  {
    var front, last := outputs[..|outputs| - 1], [outputs[|outputs| - 1]];
    assert outputs == front + last;
    UncoveredConcat(front, last, covered);
    var first := ClassifyOutputs(Uncovered(front, covered), view, store, false);
    if first.Err? { return Err(first.error); }
    var final := ClassifyOutputs(Uncovered(last, covered), view, store, refuseLast);
    if final.Err? { return Err(final.error); }
    PlainConcat(first.value, final.value, Uncovered(front, covered), Uncovered(last, covered), view, store);
    return Ok(first.value + final.value);
  }

  lemma UncoveredIsRootless(outputs: seq<Output>, part: seq<Output>, covered: set<Path>, dirs: set<Path>)
    requires covered == Covered(outputs, dirs) && forall o :: o in part ==> o in outputs
    ensures forall o :: o in Uncovered(part, covered) <==> o in part && RootOf(o.path, dirs).None?
  {
    forall o | o in part ensures o.path !in covered <==> RootOf(o.path, dirs).None? {
      var i :| 0 <= i < |outputs| && outputs[i] == o;
    }
  }

  /** What is not covered can be classified exactly if it can be placed. */
  lemma ClassifiedIsPlaced(outputs: seq<Output>, covered: set<Path>, view: Observed, store: Store, refuseLast: bool)
    requires Stored(outputs, store) && |outputs| > 0 && covered == Covered(outputs, view.directoryStates.Keys)
    requires !AnyBlocked(outputs, view.states.Keys)
    ensures Placeable(outputs, view, refuseLast) <==>
      && (forall o :: o in Uncovered(outputs[..|outputs| - 1], covered) ==> Classifiable(o, view, store, false))
      && (forall o :: o in Uncovered([outputs[|outputs| - 1]], covered) ==> Classifiable(o, view, store, refuseLast))
  {
    var front, last, dirs := outputs[..|outputs| - 1], outputs[|outputs| - 1], view.directoryStates.Keys;
    assert outputs == front + [last];
    UncoveredIsRootless(outputs, front, covered, dirs);
    UncoveredIsRootless(outputs, [last], covered, dirs);
    PartsArePlaced(front, last, view, store, refuseLast);
  }

  lemma PartsArePlaced(front: seq<Output>, last: Output, view: Observed, store: Store, refuseLast: bool)
    requires Stored(front + [last], store) && !AnyBlocked(front + [last], view.states.Keys)
    ensures Placeable(front + [last], view, refuseLast) <==>
      && (forall o :: o in front && RootOf(o.path, view.directoryStates.Keys).None? ==> Classifiable(o, view, store, false))
      && (RootOf(last.path, view.directoryStates.Keys).None? ==> Classifiable(last, view, store, refuseLast))
  {
    var outputs := front + [last];
    assert outputs[|outputs| - 1] == last && last in outputs;
    assert forall o :: o in front ==> o in outputs;
  }

  lemma PlacedStand(l: Layout, view: Observed, store: Store, refuseLast: bool)
    requires WellFormed(l.outputs) && LaidOut(l, view, store) && |l.outputs| > 0 && Placeable(l.outputs, view, refuseLast)
    ensures Everywhere(l, view, store)
  {
    forall o | o in l.placed ensures o.path !in view.directoryStates { UncoveredHasNoRoot(l.outputs, view.directoryStates.Keys, o); }
    LayoutStands(l, view, store);
  }

  /**
   Trees for outputs under new hierarchies, an operation each for the rest.  With
   `refuseLast`, the last output must not be an observed file.
   */
  method PlaceOutputs(outputs: seq<Output>, view: Observed, store: Store, refuseLast: bool)
    returns (r: Result<Layout, Refused>)
    requires Stored(outputs, store) && |outputs| > 0
    ensures r.Ok? ==> r.value.outputs == outputs && LaidOut(r.value, view, store)
    ensures r.Ok? && WellFormed(outputs) ==> Everywhere(r.value, view, store)
    ensures r.Ok? && refuseLast ==>
      RootOf(outputs[|outputs| - 1].path, view.directoryStates.Keys).Some? || outputs[|outputs| - 1].path !in view.states
    ensures r.Ok? <==> Placeable(outputs, view, refuseLast)
    ensures r.Ok? && ValidPaths(outputs) ==> InPathOrder(r.value.trees)
  {
    var built := BuildTrees(outputs, view, store);
    if built.Err? { return Err(built.error); }
    var (trees, covered) := built.value;
    ClassifiedIsPlaced(outputs, covered, view, store, refuseLast);
    var plain := ClassifyUncovered(outputs, covered, view, store, refuseLast);
    if plain.Err? { return Err(plain.error); }
    var l := Layout(outputs, Uncovered(outputs, covered), plain.value, trees);
    if WellFormed(outputs) { PlacedStand(l, view, store, refuseLast); }
    return Ok(l);
  }

  // Outputs that repeat a path

  lemma RepeatsAppend(outputs: seq<Output>, o: Output)
    ensures Repeats(outputs) ==> Repeats(outputs + [o])
    ensures (exists x :: x in outputs && x.path == o.path) ==> Repeats(outputs + [o])
  {
    var all := outputs + [o];
    if Repeats(outputs) {
      var a: nat, b: nat :| RepeatsAt(outputs, a, b);
      assert RepeatsAt(all, a, b);
    }
    if x :| x in outputs && x.path == o.path {
      var a: nat :| a < |outputs| && outputs[a] == x;
      assert RepeatsAt(all, a, |outputs|);
    }
  }

  /** A group is what is left without the paths that belong elsewhere. */
  lemma {:induction false} GroupIsLeft(outputs: seq<Output>, root: Path, dirs: set<Path>, elsewhere: set<Path>)
    requires forall o :: o in outputs ==> (o.path in elsewhere <==> RootOf(o.path, dirs) != Some(root))
    ensures Group(outputs, root, dirs) == Uncovered(outputs, elsewhere)
    decreases |outputs|
  {
    if outputs != [] {
      var front, last := outputs[..|outputs| - 1], outputs[|outputs| - 1];
      assert last in outputs && forall o :: o in front ==> o in outputs;
      GroupIsLeft(front, root, dirs, elsewhere);
    }
  }

  lemma GroupRepeats(outputs: seq<Output>, root: Path, dirs: set<Path>, i: nat, j: nat)
    requires i < j < |outputs| && outputs[i].path == outputs[j].path && RootOf(outputs[i].path, dirs) == Some(root)
    ensures Repeats(Group(outputs, root, dirs))
  {
    var elsewhere := set o | o in outputs && RootOf(o.path, dirs) != Some(root) :: o.path;
    GroupIsLeft(outputs, root, dirs, elsewhere);
    UncoveredRepeats(outputs, elsewhere, i, j);
  }

  lemma {:induction false} UncoveredRepeats(outputs: seq<Output>, covered: set<Path>, i: nat, j: nat)
    requires i < j < |outputs| && outputs[i].path == outputs[j].path && outputs[i].path !in covered
    ensures Repeats(Uncovered(outputs, covered))
    decreases |outputs|
  {
    var front, last := outputs[..|outputs| - 1], outputs[|outputs| - 1];
    var before := Uncovered(front, covered);
    if j < |front| { UncoveredRepeats(front, covered, i, j); } else { UncoveredIn(front, covered, i); }
    assert Uncovered(outputs, covered) == if last.path in covered then before else before + [last];
    RepeatsAppend(before, last);
  }

  lemma UncoveredIn(outputs: seq<Output>, covered: set<Path>, i: nat)
    requires i < |outputs| && outputs[i].path !in covered
    ensures outputs[i] in Uncovered(outputs, covered)
  {
  }

  /** A tree whose entries repeat a path, or two operations at one path. */
  predicate RepeatsOperation(ops: seq<Operation>) {
    || (exists k :: 0 <= k < |ops| && ops[k].CreateTree? && !DistinctEntries(ops[k].tree.entries))
    || (exists i, j :: 0 <= i < j < |ops| && ops[i].path == ops[j].path)
  }

  lemma RepeatInTree(l: Layout, view: Observed, store: Store, i: nat, j: nat) returns (k: nat)
    requires LaidOut(l, view, store) && i < j < |l.outputs| && l.outputs[i].path == l.outputs[j].path
    requires RootOf(l.outputs[i].path, view.directoryStates.Keys).Some?
    ensures k < |l.trees| && l.trees[k].CreateTree? && !DistinctEntries(l.trees[k].tree.entries)
  {
    var dirs := view.directoryStates.Keys;
    var root := RootOf(l.outputs[i].path, dirs).value;
    assert root in Roots(l.outputs, dirs);
    k :| 0 <= k < |l.trees| && l.trees[k].path == root;
    GroupRepeats(l.outputs, root, dirs, i, j);
    assert TreeOperationFor(l.trees[k], l.outputs, view, store);
  }

  lemma RepeatInPlain(l: Layout, view: Observed, store: Store, i: nat, j: nat) returns (a: nat, b: nat)
    requires LaidOut(l, view, store) && i < j < |l.outputs| && l.outputs[i].path == l.outputs[j].path
    requires RootOf(l.outputs[i].path, view.directoryStates.Keys).None?
    ensures a < b < |l.plain| && l.plain[a].path == l.plain[b].path
  {
    var dirs := view.directoryStates.Keys;
    assert l.outputs[i].path !in Covered(l.outputs, dirs);
    UncoveredRepeats(l.outputs, Covered(l.outputs, dirs), i, j);
    a, b :| RepeatsAt(l.placed, a, b);
    assert l.plain[a].path == l.placed[a].path && l.plain[b].path == l.placed[b].path;
  }

  /** Outputs that repeat a path are laid out twice: in one tree, or by two operations. */
  lemma RepeatIsLaidTwice(l: Layout, view: Observed, store: Store, front: seq<Operation>)
    requires LaidOut(l, view, store) && Repeats(l.outputs)
    ensures RepeatsOperation(front + l.trees + l.plain)
  {
    var i: nat, j: nat :| RepeatsAt(l.outputs, i, j);
    if RootOf(l.outputs[i].path, view.directoryStates.Keys).Some? {
      var k := RepeatInTree(l, view, store, i, j);
      TreeShows(front, l.trees, l.plain, k);
    } else {
      var a, b := RepeatInPlain(l, view, store, i, j);
      PlainShows(front, l.trees, l.plain, a, b);
    }
  }

  lemma TreeShows(front: seq<Operation>, trees: seq<Operation>, plain: seq<Operation>, k: nat)
    requires k < |trees| && trees[k].CreateTree? && !DistinctEntries(trees[k].tree.entries)
    ensures RepeatsOperation(front + trees + plain)
  {
    assert (front + trees + plain)[|front| + k] == trees[k];
  }

  lemma PlainShows(front: seq<Operation>, trees: seq<Operation>, plain: seq<Operation>, a: nat, b: nat)
    requires a < b < |plain| && plain[a].path == plain[b].path
    ensures RepeatsOperation(front + trees + plain)
  {
    var ops, at := front + trees + plain, |front| + |trees|;
    assert ops[at + a] == plain[a] && ops[at + b] == plain[b];
  }
}
