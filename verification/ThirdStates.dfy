/**
 Rollback on an arbitrary target, foreign edits included: what it cannot
 recognise it leaves alone, and what it restores it restores exactly.
 */
module ThirdStates {
  import opened Results
  import opened Paths
  import opened Sorting
  import opened Identity
  import opened Plans
  import opened Rollback
  import opened Targets
  import opened Inversion

  /** The path of `op` is exactly at the recorded old state, directories read in full. */
  ghost predicate ExactlyOld(op: Operation, t: Tree) {
    if FileOperation(op) then op.path !in t.dirs && ObserveFile(t, op.path) == op.before
    else op.path !in t.files
         && DeepState(t, op.path) == (if op.CreateTree? then None else Some(op.directoryBefore))
  }

  ghost predicate SameOutside(op: Operation, t: Tree, u: Tree) {
    forall p :: !Touches(op, p) ==> SameAt(t, u, p)
  }

  // Going forward

  /** What `op` is to write is in the store. */
  predicate NewStored(op: Operation, store: Store) {
    && (op.CreateFile? || op.ReplaceFile? ==> store.Get(op.planned.contentId).Some?)
    && (op.CreateTree? ==> HasBlobs(op.tree.entries, store))
  }

  lemma OldFileIsObserved(before: FileState, node: Node)
    requires before.Present? && ObservedShape(before)
    ensures OldFileMatches(before, node) <==> ObservedState(node.content, node.mode) == before
  {
  }

  /** An operation is applied exactly where its parent stands, its path is exactly at the recorded old state, and its content is stored. */
  lemma ApplyIsExact(op: Operation, store: Store, t: Tree)
    requires Closed(t) && ShapedOperation(op)
    ensures ApplyOperation(op, store, t).Some? <==>
      ParentStands(t, op.path) && ExactlyOld(op, t) && NewStored(op, store)
  {
    if op.ReplaceFile? || op.DeleteFile? {
      if op.path in t.files { OldFileIsObserved(op.before, t.files[op.path]); }
    } else if op.RemoveEmptyDirectory? {
      EntriesBelowEmpty(t, op.path);
    }
  }

  // Going back

  lemma RemoveTreeKeepsClosed(t: Tree, root: Path)
    requires Closed(t)
    ensures Closed(RemoveTree(t, root))
  {
    var u := RemoveTree(t, root);
    forall p | p in u.files.Keys + u.dirs.Keys ensures Valid(p) && ParentStands(u, p) {
      assert p in t.files.Keys + t.dirs.Keys;
      AboveParent(root, p);
    }
  }

  lemma FileRollbackIsExact(op: Operation, backup: Option<Node>, t: Tree)
    requires Closed(t) && FileOperation(op) && ShapedOperation(op)
    requires AttemptRollback(op, backup, t).Done?
    ensures var u := AttemptRollback(op, backup, t).tree;
      Closed(u) && SameOutside(op, t, u) && ExactlyOld(op, u)
  {
    var r := AttemptRollback(op, backup, t);
    if r.restoredNow {
      if op.CreateFile? {
        RemoveFileKeepsClosed(t, op.path);
      } else {
        WriteKeepsClosed(t, op.path, backup.value);
        assert backup.value.content == op.before.identity.raw.content;
      }
    }
  }

  lemma RestoredDirectoryIsExact(t: Tree, p: Path, mode: Mode)
    requires Closed(t) && Valid(p) && !Exists(t, p) && ParentStands(t, p)
    ensures var u := t.(dirs := t.dirs[p := mode]);
      Closed(u) && DeepState(u, p) == Some(DirectoryState(mode, []))
  {
    var u := t.(dirs := t.dirs[p := mode]);
    forall q | q in u.files.Keys + u.dirs.Keys ensures Valid(q) && ParentStands(u, q) {
      if q != p { assert q in t.files.Keys + t.dirs.Keys; }
    }
    AbsentHasNothingBelow(t, p);
    forall q ensures q !in Below(u, p) {
      if Above(p, q) { assert !Exists(t, q) && q != p; }
    }
    EntriesBelowEmpty(u, p);
  }

  lemma RemovedTreeIsGone(t: Tree, root: Path)
    ensures var u := RemoveTree(t, root);
      root !in u.files && root !in u.dirs && forall p :: !AtOrAbove(root, p) ==> SameAt(t, u, p)
  {
  }

  lemma TreeRollbackIsExact(op: Operation, backup: Option<Node>, t: Tree)
    requires Closed(t) && op.CreateTree? && ShapedOperation(op)
    requires AttemptRollback(op, backup, t).Done?
    ensures var u := AttemptRollback(op, backup, t).tree;
      Closed(u) && SameOutside(op, t, u) && ExactlyOld(op, u)
  {
    var r := AttemptRollback(op, backup, t);
    if r.restoredNow {
      RemoveTreeKeepsClosed(t, op.path);
      assert r.tree == RemoveTree(t, op.path);
      RemovedTreeIsGone(t, op.path);
    }
  }

  lemma RemovalRollbackIsExact(op: Operation, backup: Option<Node>, t: Tree)
    requires Closed(t) && op.RemoveEmptyDirectory? && ShapedOperation(op)
    requires AttemptRollback(op, backup, t).Done?
    ensures var u := AttemptRollback(op, backup, t).tree;
      Closed(u) && SameOutside(op, t, u) && ExactlyOld(op, u)
  {
    if AttemptRollback(op, backup, t).restoredNow { RestoredDirectoryIsExact(t, op.path, op.directoryBefore.rootMode); }
  }

  lemma RollbackIsExact(op: Operation, backup: Option<Node>, t: Tree)
    requires Closed(t) && ShapedOperation(op)
    requires AttemptRollback(op, backup, t).Done?
    ensures var u := AttemptRollback(op, backup, t).tree;
      Closed(u) && SameOutside(op, t, u) && ExactlyOld(op, u)
  {
    if FileOperation(op) { FileRollbackIsExact(op, backup, t); }
    else if op.CreateTree? { TreeRollbackIsExact(op, backup, t); }
    else { RemovalRollbackIsExact(op, backup, t); }
  }

  ghost predicate SameTouched(op: Operation, t: Tree, u: Tree) {
    forall p :: Touches(op, p) ==> SameAt(t, u, p)
  }

  predicate Apart(ops: seq<Operation>) {
    forall i, j :: 0 <= i < j < |ops| ==> Independent(ops[i], ops[j])
  }

  /** Two independent operations touch no common path. */
  lemma IndependentTouchApart(a: Operation, b: Operation, p: Path)
    requires Independent(a, b) && Touches(a, p)
    ensures !Touches(b, p)
  {
    if Touches(b, p) { AncestorsComparable(a.path, b.path, p); }
  }

  /** After the whole pass: an operation's own path at its old state, judged without what is below a directory. */
  ghost predicate OldOrKept(ops: seq<Operation>, j: nat, t: Tree, u: Tree)
    requires j < |ops|
  {
    AtOldState(ops[j], u) || SameTouched(ops[j], t, u)
  }

  /**
   Whatever the target holds, a rollback pass leaves every operation's path either
   at its recorded old state or untouched, and changes no path outside the plan.
   */
  lemma {:induction false} ThirdStatesAreKept(ops: seq<Operation>, backups: map<nat, Node>, i: nat, t: Tree)
    requires Closed(t) && i <= |ops| && Apart(ops)
    requires forall op :: op in ops ==> ShapedOperation(op)
    ensures var u := RollbackPass(ops, backups, i, t).tree;
      && Closed(u)
      && (forall p :: (forall j :: 0 <= j < i ==> !Touches(ops[j], p)) ==> SameAt(t, u, p))
      && (forall j :: 0 <= j < i ==> OldOrKept(ops, j, t, u))
    decreases i
  {
    if i > 0 {
      var op := ops[i - 1];
      assert op in ops;
      var r := AttemptRollback(op, Lookup(backups, i - 1), t);
      if r.Done? {
        RollbackIsExact(op, Lookup(backups, i - 1), t);
        var s := r.tree;
        ThirdStatesAreKept(ops, backups, i - 1, s);
        var u := RollbackPass(ops, backups, i - 1, s).tree;
        forall p | forall j :: 0 <= j < i ==> !Touches(ops[j], p) ensures SameAt(t, u, p) {
          assert SameAt(t, s, p) && SameAt(s, u, p);
        }
        forall j | 0 <= j < i ensures OldOrKept(ops, j, t, u) {
          if j == i - 1 {
            forall k | 0 <= k < i - 1 ensures !Touches(ops[k], op.path) { assert Independent(ops[k], op); }
            assert SameAt(s, u, op.path);
          } else {
            assert OldOrKept(ops, j, s, u);
            if SameTouched(ops[j], s, u) {
              forall p | Touches(ops[j], p) ensures SameAt(t, u, p) {
                assert Independent(ops[j], op);
                IndependentTouchApart(ops[j], op, p);
                assert SameAt(t, s, p) && SameAt(s, u, p);
              }
            }
          }
        }
      }
    }
  }
}
