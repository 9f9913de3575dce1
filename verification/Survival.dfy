/** Which compiled plans are carried whole by their receipts, so that recovery can rebuild them. */
module Survival {
  import opened Results
  import opened Paths
  import opened Sorting
  import opened Identity
  import opened Plans
  import opened Apply
  import opened Receipts
  import opened Outputs
  import opened Trees
  import opened Grouping
  import opened Overlays
  import opened Layouts

  lemma {:induction false} Utf8LengthConcat(a: string, b: string)
    ensures Utf8Length(a + b) == Utf8Length(a) + Utf8Length(b)
    decreases |a|
  {
    if a == [] {
      assert a + b == b;
    } else {
      assert (a + b)[1..] == a[1..] + b;
      Utf8LengthConcat(a[1..], b);
    }
  }

  lemma {:induction false} AncestorIsShorter(a: Path, p: Path)
    requires a != [] && Above(a, p)
    ensures Utf8Length(Render(a)) <= Utf8Length(Render(p))
    decreases |a|
  {
    assert p[0] == p[..|a|][0] == a[0];
    if |a| == 1 {
      Utf8LengthConcat(p[0] + "/", Render(p[1..]));
      Utf8LengthConcat(p[0], "/");
    } else {
      assert p[1..][..|a| - 1] == p[..|a|][1..] == a[1..];
      AncestorIsShorter(a[1..], p[1..]);
      Utf8LengthConcat(p[0] + "/", Render(p[1..]));
      Utf8LengthConcat(a[0] + "/", Render(a[1..]));
    }
  }

  /** The ancestors of an acceptable path are acceptable. */
  lemma AncestorIsPortable(a: Path, p: Path)
    requires Portable(p) && a != [] && Above(a, p)
    ensures Portable(a)
  {
    AncestorIsShorter(a, p);
    forall i | 0 <= i < |a| ensures a[i] == p[i] { assert p[..|a|][i] == p[i]; }
  }

  predicate Installable(p: Path, mode: Mode) {
    Portable(p) && InstallMode(mode)
  }

  predicate AllInstallable(outputs: seq<Output>) {
    forall i :: 0 <= i < |outputs| ==> Installable(outputs[i].path, outputs[i].mode)
  }

  lemma PlainSurvives(l: Layout, view: Observed, store: Store, i: nat)
    requires Placed(l, view, store) && AllInstallable(l.outputs) && i < |l.plain|
    ensures Survives(l.plain[i])
  {
    assert PlacedAt(l, view, store, i);
    var m :| 0 <= m < |l.outputs| && l.outputs[m] == l.placed[i];
  }

  lemma EntrySurvivesToo(op: Operation, outputs: seq<Output>, view: Observed, store: Store, e: PlannedEntry)
    requires TreeOperationFor(op, outputs, view, store) && AllInstallable(outputs) && e in op.tree.entries
    ensures EntrySurvives(e)
  {
    var group := Group(outputs, op.path, view.directoryStates.Keys);
    if e.PlannedFileEntry? {
      assert FileOf(e, group, store);
      var n :| 0 <= n < |group| && store.Get(group[n].contentId).Some? &&
        e == PlannedFileEntry(group[n].path, Resolved(group[n], store));
      assert group[n] in group;
      var i :| 0 <= i < |outputs| && outputs[i] == group[n];
    } else {
      var i := DirectoryOrigin(op, outputs, view, store, e);
      assert DirectoryOf(e, op.path, group, view);
      AncestorIsPortable(e.path, outputs[i].path);
    }
  }

  lemma TreeSurvives(l: Layout, view: Observed, store: Store, k: nat)
    requires ClosedView(view) && Placed(l, view, store) && AllInstallable(l.outputs) && k < |l.trees|
    ensures Survives(l.trees[k])
  {
    var op := l.trees[k];
    assert TreeOperationFor(op, l.outputs, view, store);
    SortedAreDistinct(op.tree.entries);
    forall i | 0 <= i < |op.tree.entries| ensures EntrySurvives(op.tree.entries[i]) {
      EntrySurvivesToo(op, l.outputs, view, store, op.tree.entries[i]);
    }
    assert op.path in Roots(l.outputs, view.directoryStates.Keys);
    var i :| 0 <= i < |l.outputs| && RootOf(l.outputs[i].path, view.directoryStates.Keys) == Some(op.path);
    RootShape(l.outputs[i].path, view.directoryStates.Keys, op.path);
    AncestorIsPortable(op.path, l.outputs[i].path);
  }

  /** Whatever is laid survives in the receipt. */
  lemma LayoutSurvives(l: Layout, view: Observed, store: Store)
    requires ClosedView(view) && Placed(l, view, store) && AllInstallable(l.outputs)
    ensures forall op :: op in l.plain || op in l.trees ==> Survives(op)
  {
    forall op | op in l.plain || op in l.trees ensures Survives(op) {
      if op in l.plain {
        var i :| 0 <= i < |l.plain| && l.plain[i] == op;
        PlainSurvives(l, view, store, i);
      } else {
        var k :| 0 <= k < |l.trees| && l.trees[k] == op;
        TreeSurvives(l, view, store, k);
      }
    }
  }
}
