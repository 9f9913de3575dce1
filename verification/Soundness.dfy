/** Compiled plans are sound: their recorded old states, identities and trees are what the executor needs. */
module Soundness {
  import opened Results
  import opened Paths
  import opened Sorting
  import opened Identity
  import opened Plans
  import opened Rollback
  import opened Targets
  import opened Inversion
  import opened Capture
  import opened Apply
  import opened Agreement
  import opened Outputs
  import opened Trees
  import opened Grouping
  import opened Overlays
  import opened Maintenance
  import opened Layouts
  import opened Cleaning

  /** Every output is declared with the kind an observation of it will report. */
  predicate KindsAgree(outputs: seq<Output>, store: Store) {
    forall o :: o in outputs && store.Get(o.contentId).Some? ==>
      o.kind == ObservedKind(store.Get(o.contentId).value, o.mode)
  }

  /** What is planned on is part of the target, as observed. */
  ghost predicate PartOf(view: Observed, t: Tree) {
    && ClosedView(view)
    && (forall p :: p in view.states ==> p in t.files && view.states[p] == ObserveFile(t, p))
    && (forall p :: p in view.directoryStates ==> p in t.dirs)
  }

  lemma PlainIsSound(l: Layout, ob: Observed, store: Store, t: Tree, i: nat)
    requires PartOf(ob, t) && Placed(l, ob, store) && i < |l.plain|
    ensures SoundOperation(l.plain[i], store)
  {
    assert PlacedAt(l, ob, store, i);
    var o := l.placed[i];
    var m :| 0 <= m < |l.outputs| && l.outputs[m] == o;
  }

  lemma TreeIsSound(l: Layout, ob: Observed, store: Store, k: nat)
    requires ClosedView(ob) && Placed(l, ob, store) && k < |l.trees|
    ensures SoundOperation(l.trees[k], store) && ParentSeen(ob, l.trees[k].path)
  {
    assert TreeOperationFor(l.trees[k], l.outputs, ob, store);
    assert l.trees[k].path in Roots(l.outputs, ob.directoryStates.Keys);
    BuiltTreeIsSound(l.trees[k], l.outputs, ob, store);
  }

  lemma DeletionIsSound(op: Operation, ob: Observed, t: Tree, store: Store)
    requires Closed(t) && ObservedTree(ob, t) && IsDeletion(op, ob)
    ensures SoundOperation(op, store) && ParentStands(t, op.path)
  {
    assert op.path in t.files.Keys + t.dirs.Keys;
  }

  lemma RemovalIsSound(op: Operation, ob: Observed, t: Tree, store: Store)
    requires Closed(t) && ObservedTree(ob, t) && IsRemoval(op, ob)
    ensures SoundOperation(op, store) && ParentStands(t, op.path)
  {
    assert op.path in t.files.Keys + t.dirs.Keys;
  }

  lemma PlainParent(l: Layout, ob: Observed, store: Store, i: nat)
    requires Placed(l, ob, store) && i < |l.plain|
    ensures ParentSeen(ob, l.plain[i].path)
  {
    assert PlacedAt(l, ob, store, i);
    var m :| 0 <= m < |l.outputs| && l.outputs[m] == l.placed[i];
    UncoveredShape(l.placed[i].path, ob.directoryStates.Keys);
  }

  /** Every operation is sound and has its parent in the observed target. */
  ghost predicate GoodOperation(op: Operation, store: Store, t: Tree) {
    SoundOperation(op, store) && ParentStands(t, op.path)
  }

  lemma LayoutIsGood(l: Layout, ob: Observed, store: Store, t: Tree)
    requires PartOf(ob, t) && Placed(l, ob, store)
    ensures forall op :: op in l.plain || op in l.trees ==> GoodOperation(op, store, t)
  {
    forall op | op in l.plain || op in l.trees ensures GoodOperation(op, store, t) {
      if op in l.plain {
        var i :| 0 <= i < |l.plain| && l.plain[i] == op;
        PlainIsSound(l, ob, store, t, i);
        PlainParent(l, ob, store, i);
      } else {
        var k :| 0 <= k < |l.trees| && l.trees[k] == op;
        TreeIsSound(l, ob, store, k);
      }
    }
  }

  lemma SweepIsGood(s: Sweep, ob: Observed, store: Store, t: Tree)
    requires Closed(t) && ObservedTree(ob, t) && Swept(s, ob)
    ensures forall op :: op in SweepOperations(s) ==> GoodOperation(op, store, t)
  {
    forall op | op in SweepOperations(s) ensures GoodOperation(op, store, t) {
      assert op in s.deletes || op in s.removes || op in s.inventory;
      if op in s.removes { RemovalIsSound(op, ob, t, store); } else { DeletionIsSound(op, ob, t, store); }
    }
  }

  /** In `front + removes + last`, only `removes` holds removals. */
  lemma RemovalsInTheMiddle(front: seq<Operation>, removes: seq<Operation>, last: seq<Operation>, i: nat)
    requires forall op :: op in front ==> !op.RemoveEmptyDirectory?
    requires forall op :: op in last ==> !op.RemoveEmptyDirectory?
    requires i < |front + removes + last| && (front + removes + last)[i].RemoveEmptyDirectory?
    ensures |front| <= i < |front| + |removes| && (front + removes + last)[i] == removes[i - |front|]
  {
    var ops := front + removes + last;
    forall k | 0 <= k < |front| ensures !ops[k].RemoveEmptyDirectory? { assert front[k] in front; }
    forall m | |front| + |removes| <= m < |ops| ensures !ops[m].RemoveEmptyDirectory? {
      assert ops[m] == last[m - |front| - |removes|] && last[m - |front| - |removes|] in last;
    }
  }

  /** No parent of a later operation is removed before it: removals run deepest first, and the inventory's parent stays. */
  lemma RemovedParents(l: Layout, s: Sweep, ob: Observed, front: seq<Operation>, i: nat, j: nat)
    requires Swept(s, ob) && Fits(l, s) && ClosedView(ob)
    requires forall op :: op in front ==> !op.RemoveEmptyDirectory?
    requires var ops := front + s.removes + s.inventory;
      i < j < |ops| && ops[i].RemoveEmptyDirectory? && ops[j].path != []
    ensures var ops := front + s.removes + s.inventory;
      |ops[j].path| == 1 || Parent(ops[j].path) != ops[i].path
  {
    RemovalsInTheMiddle(front, s.removes, s.inventory, i);
    if j < |front| + |s.removes| {
      assert |s.removes[i - |front|].path| >= |s.removes[j - |front|].path|;
    } else {
      InventoryParentStays(l, s, ob, i - |front|);
    }
  }

  lemma InventoryParentStays(l: Layout, s: Sweep, ob: Observed, k: nat)
    requires ClosedView(ob) && Swept(s, ob) && Fits(l, s) && s.inventory != [] && k < |s.removes|
    ensures Parent(INVENTORY) != s.removes[k].path
  {
    assert s.removes[k] in s.removes;
    var m :| 0 <= m < |s.effective| && Takes(s.effective[m], ob, s.removes[k].path);
    if Parent(INVENTORY) == s.removes[k].path { AboveParent(s.effective[m], INVENTORY); }
  }

  lemma LayoutRemovesNothing(l: Layout, ob: Observed, store: Store)
    requires Placed(l, ob, store)
    ensures forall op :: op in l.plain || op in l.trees ==> !op.DeleteFile? && !op.RemoveEmptyDirectory?
  {
    forall op | op in l.plain || op in l.trees ensures !op.DeleteFile? && !op.RemoveEmptyDirectory? {
      if op in l.plain {
        var i :| 0 <= i < |l.plain| && l.plain[i] == op;
        assert PlacedAt(l, ob, store, i);
      }
    }
  }

  lemma LaidPlanIsGood(plan: Plan, ob: Observed, t: Tree, l: Layout, s: Sweep)
    requires Closed(t) && ObservedTree(ob, t)
    requires plan.operations == l.plain + l.trees + SweepOperations(s)
    requires Placed(l, ob, plan.store) && Swept(s, ob)
    ensures forall op :: op in plan.operations ==> GoodOperation(op, plan.store, t)
  {
    ObservedIsClosed(ob, t);
    LayoutIsGood(l, ob, plan.store, t);
    SweepIsGood(s, ob, plan.store, t);
  }

  lemma LaidParentsStand(plan: Plan, ob: Observed, t: Tree, l: Layout, s: Sweep)
    requires ClosedView(ob) && plan.operations == l.plain + l.trees + SweepOperations(s)
    requires Placed(l, ob, plan.store) && Swept(s, ob) && Fits(l, s)
    requires forall op :: op in plan.operations ==> GoodOperation(op, plan.store, t)
    ensures ParentsStand(plan.operations, t)
  {
    var ops := plan.operations;
    forall i | 0 <= i < |ops| ensures GoodOperation(ops[i], plan.store, t) { assert ops[i] in ops; }
    LayoutRemovesNothing(l, ob, plan.store);
    var front := l.plain + l.trees + s.deletes;
    assert ops == front + s.removes + s.inventory;
    forall op | op in front ensures !op.RemoveEmptyDirectory? {
      assert op in l.plain || op in l.trees || op in s.deletes;
    }
    forall i, j | 0 <= i < j < |ops| && ops[i].RemoveEmptyDirectory?
      ensures |ops[j].path| == 1 || Parent(ops[j].path) != ops[i].path
    {
      assert GoodOperation(ops[j], plan.store, t);
      RemovedParents(l, s, ob, front, i, j);
    }
  }

  /**
   A laid plan whose sweep fits can be executed on the observed target, with every
   prefix of it open to rollback, and ends in exactly the overlay's files, modes and
   directories; so a crash-safe run installs the overlay or nothing.
   */
  lemma LaidPlanExecutes(snapshot: Snapshot, plan: Plan, t: Tree, l: Layout, s: Sweep)
    requires Closed(t) && Observes(snapshot, t)
    requires plan.operations == l.plain + l.trees + SweepOperations(s)
    requires Complete(l, s, ObservedOf(snapshot), plan.store) && Swept(s, ObservedOf(snapshot))
    requires Fits(l, s)
    ensures Applied(snapshot, plan).Ok?
    ensures Executable(plan.operations, plan.store, t)
    ensures Closed(After(plan.operations, plan.store, t, |plan.operations|))
    ensures Describes(Overlay(Applied(snapshot, plan).value.files, Applied(snapshot, plan).value.directories, {}),
                      After(plan.operations, plan.store, t, |plan.operations|))
  {
    var ob := ObservedOf(snapshot);
    LaidPlanMeansOverlay(snapshot, plan, t, l, s);
    ObservedIsClosed(ob, t);
    LaidPlanIsGood(plan, ob, t, l, s);
    LaidParentsStand(plan, ob, t, l, s);
    GoodPlanIsSound(plan, t);
    AcceptedPlansExecute(snapshot, plan, t);
    Intermediate(plan.operations, plan.store, t, |plan.operations|);
  }

  // Which laid plans can be sealed

  lemma DeclaredKind(o: Output, view: Observed, store: Store)
    requires store.Get(o.contentId).Some?
    ensures KindAgrees(PlainOperation(o, view, store)) <==> o.kind == ObservedKind(store.Get(o.contentId).value, o.mode)
  {
  }

  /**
   Of a laid plan, only the files with an operation of their own are judged by kind:
   those are all the kinds the candidate gate sees, whatever the trees cover.
   */
  lemma LaidKinds(ops: seq<Operation>, view: Observed, store: Store, l: Layout)
    requires Placed(l, view, store)
    requires forall op :: op in ops && (op.CreateFile? || op.ReplaceFile?) ==> op in l.plain
    requires forall op :: op in l.plain ==> op in ops
    ensures KindsDeclared(ops) <==> KindsAgree(l.placed, store)
  {
    forall i | 0 <= i < |l.placed|
      ensures l.plain[i] in ops && store.Get(l.placed[i].contentId).Some?
      ensures KindAgrees(l.plain[i]) <==> l.placed[i].kind == ObservedKind(store.Get(l.placed[i].contentId).value, l.placed[i].mode)
    {
      assert PlacedAt(l, view, store, i);
      assert l.plain[i] in l.plain;
      DeclaredKind(l.placed[i], view, store);
    }
    if KindsDeclared(ops) {
      forall o | o in l.placed && store.Get(o.contentId).Some?
        ensures o.kind == ObservedKind(store.Get(o.contentId).value, o.mode)
      {
        var i :| 0 <= i < |l.placed| && l.placed[i] == o;
        assert KindAgrees(l.plain[i]);
      }
    }
    if KindsAgree(l.placed, store) {
      forall op | op in ops ensures KindAgrees(op) {
        if op.CreateFile? || op.ReplaceFile? {
          var i :| 0 <= i < |l.plain| && l.plain[i] == op;
          assert l.placed[i] in l.placed;
        }
      }
    }
  }

  /** An executed laid plan passes the candidate gate if and only if the kinds of the files it places agree. */
  lemma LaidPlanSeals(snapshot: Snapshot, plan: Plan, t: Tree, l: Layout, s: Sweep)
    requires Closed(t) && Observes(snapshot, t)
    requires plan.operations == l.plain + l.trees + SweepOperations(s)
    requires Complete(l, s, ObservedOf(snapshot), plan.store) && Swept(s, ObservedOf(snapshot)) && Fits(l, s)
    ensures Executable(plan.operations, plan.store, t)
    ensures SealedVerification(plan,
      CapturePlan(plan.operations, After(plan.operations, plan.store, t, |plan.operations|))) == Intact
      <==> KindsAgree(l.placed, plan.store)
  {
    LaidPlanExecutes(snapshot, plan, t, l, s);
    EndPassesItsGate(plan, t);
    SweptKinds(plan, ObservedOf(snapshot), l, s);
  }

  lemma SweptKinds(plan: Plan, ob: Observed, l: Layout, s: Sweep)
    requires Placed(l, ob, plan.store) && Swept(s, ob) && plan.operations == l.plain + l.trees + SweepOperations(s)
    ensures KindsDeclared(plan.operations) <==> KindsAgree(l.placed, plan.store)
  {
    forall op | op in plan.operations && (op.CreateFile? || op.ReplaceFile?) ensures op in l.plain {
      assert op in l.plain || op in l.trees || op in s.deletes || op in s.removes || op in s.inventory;
    }
    LaidKinds(plan.operations, ob, plan.store, l);
  }

  lemma GoodPlanIsSound(plan: Plan, t: Tree)
    requires forall op :: op in plan.operations ==> GoodOperation(op, plan.store, t)
    ensures SoundPlan(plan.operations, plan.store)
  {
    forall op | op in plan.operations ensures SoundOperation(op, plan.store) {
      assert GoodOperation(op, plan.store, t);
    }
  }
}
