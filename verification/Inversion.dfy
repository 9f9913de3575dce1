/**
 Rolling back any executed prefix of a plan gives back the exact old target.
 */
module Inversion {
  import opened Results
  import opened Paths
  import opened Sorting
  import opened Identity
  import opened Plans
  import opened Rollback
  import opened Targets

  // One created tree

  /** Entries strictly below `root`, every intermediate directory included, in path order. */
  ghost predicate SoundEntries(root: Path, es: seq<TreeEntry>) {
    && Canonical(es)
    && (forall i :: 0 <= i < |es| ==> Valid(es[i].path) && Above(root, es[i].path))
    && (forall i {:trigger ParentIn(root, es, i)} :: 0 <= i < |es| ==> ParentIn(root, es, i))
  }

  predicate ParentIn(root: Path, es: seq<TreeEntry>, i: nat)
    requires i < |es|
  {
    es[i].path != [] && (Parent(es[i].path) == root || DirectoryIn(es, Parent(es[i].path)))
  }

  predicate DirectoryIn(es: seq<TreeEntry>, p: Path) {
    exists j :: 0 <= j < |es| && es[j].DirectoryEntry? && es[j].path == p
  }

  lemma SoundTreeEntries(root: Path, tree: PlannedTree, store: Store)
    requires SoundTree(root, tree, store)
    ensures SoundEntries(root, PlannedContent(tree, store).entries)
  {
    var es := PlannedContent(tree, store).entries;
    forall i | 0 <= i < |es|
      ensures Valid(es[i].path) && Above(root, es[i].path) && ParentIn(root, es, i)
    {
      assert es[i].path == tree.entries[i].path && tree.entries[i] in tree.entries;
      assert ParentPlanned(root, tree.entries, tree.entries[i]);
      if Parent(es[i].path) != root {
        var e :| e in tree.entries && e.PlannedDirectoryEntry? && e.path == Parent(es[i].path);
        var j :| 0 <= j < |tree.entries| && tree.entries[j] == e;
        assert es[j].DirectoryEntry? && es[j].path == e.path;
      }
    }
  }

  ghost predicate NothingBelow(t: Tree, root: Path) {
    forall p :: Above(root, p) ==> !Exists(t, p)
  }

  lemma AbsentHasNothingBelow(t: Tree, root: Path)
    requires Closed(t) && root != [] && !Exists(t, root)
    ensures NothingBelow(t, root)
  {
    forall p | Above(root, p) ensures !Exists(t, p) {
      if Exists(t, p) { ClosedAncestors(t, root, p); }
    }
  }

  ghost predicate HoldsEntries(u: Tree, root: Path, es: seq<TreeEntry>) {
    && (forall p :: p in Below(u, root) <==> exists i :: 0 <= i < |es| && es[i].path == p)
    && (forall i :: 0 <= i < |es| ==> Exists(u, es[i].path) && EntryAt(u, es[i].path) == es[i])
  }

  lemma EntryKeysAbove(root: Path, es: seq<TreeEntry>)
    requires SoundEntries(root, es)
    ensures forall p :: p in EntryFiles(es) || p in EntryDirs(es) ==> Above(root, p)
    ensures EntryFiles(es).Keys !! EntryDirs(es).Keys
  {
    EntryMaps(es);
  }

  lemma AddTreeFrame(t: Tree, root: Path, state: DirectoryState)
    requires SoundEntries(root, state.entries) && NothingBelow(t, root) && !Exists(t, root)
    requires t.files.Keys !! t.dirs.Keys
    ensures var u := AddTree(t, root, state);
      && (forall p :: !AtOrAbove(root, p) ==> SameAt(t, u, p))
      && u.files.Keys !! u.dirs.Keys
      && root in u.dirs && u.dirs[root] == state.rootMode
  {
    EntryKeysAbove(root, state.entries);
    assert !Above(root, root);
  }

  lemma AddTreeHolds(t: Tree, root: Path, state: DirectoryState)
    requires SoundEntries(root, state.entries) && NothingBelow(t, root)
    ensures HoldsEntries(AddTree(t, root, state), root, state.entries)
  {
    var es := state.entries;
    EntryMaps(es);
    var u := AddTree(t, root, state);
    assert !Above(root, root);
    forall p ensures p in Below(u, root) <==> exists i :: 0 <= i < |es| && es[i].path == p {
      if Above(root, p) { assert !Exists(t, p); }
      assert p in Below(u, root) <==> p in EntryFiles(es) || p in EntryDirs(es);
    }
    forall i | 0 <= i < |es| ensures Exists(u, es[i].path) && EntryAt(u, es[i].path) == es[i] {
      assert Above(root, es[i].path);
      assert !Exists(t, es[i].path);
      assert es[i].FileEntry? || es[i].path in EntryDirs(es);
    }
  }

  lemma HeldEntriesObserved(u: Tree, root: Path, es: seq<TreeEntry>)
    requires Closed(u) && Canonical(es) && HoldsEntries(u, root, es)
    ensures EntriesBelow(u, root) == es
  {
    PathsBelowListed(u, root);
    var ps := Listing(Below(u, root), PathLess);
    var qs := seq(|es|, i requires 0 <= i < |es| => es[i].path);
    assert Sorted(qs, PathLess) by {
      forall i, j | 0 <= i < j < |qs| ensures PathLess(qs[i], qs[j]) {
        assert EntryPathLess(es[i], es[j]);
      }
    }
    forall p ensures p in ps <==> p in qs {
      assert p in ps <==> p in Below(u, root);
      if i :| 0 <= i < |es| && es[i].path == p { assert qs[i] == p; }
    }
    EntryLessIsStrict();
    SortedUnique(ps, qs, PathLess);
    var bs := EntriesBelow(u, root);
    forall i | 0 <= i < |es| ensures bs[i] == es[i] {
      assert bs[i] == EntryAt(u, ps[i]) && ps[i] == qs[i];
    }
  }

  lemma AddTreeParents(t: Tree, root: Path, state: DirectoryState, p: Path)
    requires Closed(t) && Valid(root) && !Exists(t, root) && ParentStands(t, root)
    requires SoundEntries(root, state.entries) && NothingBelow(t, root)
    requires Exists(AddTree(t, root, state), p)
    ensures Valid(p) && ParentStands(AddTree(t, root, state), p)
  {
    var es := state.entries;
    var u := AddTree(t, root, state);
    AddTreeFrame(t, root, state);
    if Above(root, p) {
      AddTreeHolds(t, root, state);
      assert p in Below(u, root);
      var i :| 0 <= i < |es| && es[i].path == p;
      assert ParentIn(root, es, i);
      if Parent(p) != root {
        var j :| 0 <= j < |es| && es[j].DirectoryEntry? && es[j].path == Parent(p);
        assert EntryAt(u, es[j].path) == es[j];
      }
    } else {
      if p != root {
        assert SameAt(t, u, p);
        assert p in t.files.Keys + t.dirs.Keys;
      }
      if |p| > 1 {
        AboveParent(root, p);
        assert SameAt(t, u, Parent(p));
      }
    }
  }

  /** What a created tree looks like to the observer that captures it. */
  lemma CreatedTreeState(root: Path, tree: PlannedTree, store: Store, t: Tree)
    requires Closed(t) && Valid(root) && !Exists(t, root) && ParentStands(t, root)
    requires SoundTree(root, tree, store)
    ensures var u := AddTree(t, root, PlannedContent(tree, store));
      && Closed(u)
      && (forall p :: !AtOrAbove(root, p) ==> SameAt(t, u, p))
      && DeepState(u, root) == Some(PlannedContent(tree, store))
  {
    var content := PlannedContent(tree, store);
    var u := AddTree(t, root, content);
    SoundTreeEntries(root, tree, store);
    AbsentHasNothingBelow(t, root);
    AddTreeFrame(t, root, content);
    forall p | p in u.files.Keys + u.dirs.Keys ensures Valid(p) && ParentStands(u, p) {
      AddTreeParents(t, root, content, p);
    }
    AddTreeHolds(t, root, content);
    HeldEntriesObserved(u, root, content.entries);
  }

  // One operation

  lemma WriteKeepsClosed(t: Tree, p: Path, node: Node)
    requires Closed(t) && Valid(p) && ParentStands(t, p) && p !in t.dirs
    ensures Closed(WriteFile(t, p, node))
  {
    var u := WriteFile(t, p, node);
    forall q | q in u.files.Keys + u.dirs.Keys ensures Valid(q) && ParentStands(u, q) {
      if q != p { assert q in t.files.Keys + t.dirs.Keys; }
    }
  }

  lemma RemoveFileKeepsClosed(t: Tree, p: Path)
    requires Closed(t)
    ensures Closed(RemoveFile(t, p))
  {
    var u := RemoveFile(t, p);
    forall q | q in u.files.Keys + u.dirs.Keys ensures Valid(q) && ParentStands(u, q) {
      assert q in t.files.Keys + t.dirs.Keys;
    }
  }

  lemma RemoveDirectoryKeepsClosed(t: Tree, p: Path)
    requires Closed(t) && Below(t, p) == {}
    ensures Closed(t.(dirs := t.dirs - {p}))
  {
    var u := t.(dirs := t.dirs - {p});
    forall q | q in u.files.Keys + u.dirs.Keys ensures Valid(q) && ParentStands(u, q) {
      assert q in t.files.Keys + t.dirs.Keys;
      assert q !in Below(t, p);
    }
  }

  lemma TreeFrame(op: Operation, store: Store, t: Tree)
    requires Closed(t) && op.CreateTree? && SoundOperation(op, store) && ApplyOperation(op, store, t).Some?
    ensures Closed(ApplyOperation(op, store, t).value)
    ensures forall p :: !Touches(op, p) ==> SameAt(t, ApplyOperation(op, store, t).value, p)
  {
    CreatedTreeState(op.path, op.tree, store, t);
  }

  /** An apply effect changes nothing outside its own path or tree, and keeps the tree a tree. */
  lemma ApplyFrame(op: Operation, store: Store, t: Tree)
    requires Closed(t) && SoundOperation(op, store)
    requires ApplyOperation(op, store, t).Some?
    ensures Closed(ApplyOperation(op, store, t).value)
    ensures forall p :: !Touches(op, p) ==> SameAt(t, ApplyOperation(op, store, t).value, p)
  {
    match op
    case CreateFile(p, _, planned) => WriteKeepsClosed(t, p, Node(store.Get(planned.contentId).value, planned.mode));
    case ReplaceFile(p, _, planned) => WriteKeepsClosed(t, p, Node(store.Get(planned.contentId).value, planned.mode));
    case DeleteFile(p, _) => RemoveFileKeepsClosed(t, p);
    case CreateTree(_, _, _) => TreeFrame(op, store, t);
    case RemoveEmptyDirectory(p, _) => RemoveDirectoryKeepsClosed(t, p);
  }

  /** The backup a preparation takes: the node at the path of a replace or delete. */
  function BackupOf(op: Operation, t: Tree): Option<Node> {
    if (op.ReplaceFile? || op.DeleteFile?) && op.path in t.files then Some(t.files[op.path]) else None
  }

  lemma CreatedTreeInverts(root: Path, tree: PlannedTree, store: Store, t: Tree)
    requires Closed(t) && Valid(root) && !Exists(t, root) && ParentStands(t, root)
    requires SoundTree(root, tree, store)
    ensures RemoveTree(AddTree(t, root, PlannedContent(tree, store)), root) == t
  {
    var u := AddTree(t, root, PlannedContent(tree, store));
    CreatedTreeState(root, tree, store, t);
    AbsentHasNothingBelow(t, root);
    var r := RemoveTree(u, root);
    forall p ensures SameAt(r, t, p) {
      if AtOrAbove(root, p) { assert !Exists(t, p); } else { assert SameAt(t, u, p); }
    }
    SameEverywhere(r, t);
  }

  lemma TreeStepInverts(op: Operation, store: Store, t: Tree)
    requires Closed(t) && op.CreateTree? && SoundOperation(op, store)
    requires ApplyOperation(op, store, t).Some?
    ensures AttemptRollback(op, None, ApplyOperation(op, store, t).value) == Done(t, true)
  {
    var u := ApplyOperation(op, store, t).value;
    CreatedTreeState(op.path, op.tree, store, t);
    assert op.path in u.files.Keys + u.dirs.Keys;
    CreatedTreeRecognised(op, store, u);
    CreatedTreeInverts(op.path, op.tree, store, t);
  }

  lemma CreatedTreeRecognised(op: Operation, store: Store, u: Tree)
    requires op.CreateTree? && op.treeBefore == None && HasBlobs(op.tree.entries, store)
    requires op.tree.hash == TreeHash(PlannedContent(op.tree, store))
    requires op.path !in u.files && ParentStands(u, op.path) && DeepState(u, op.path) == Some(PlannedContent(op.tree, store))
    ensures AttemptRollback(op, None, u) == Done(RemoveTree(u, op.path), true)
  {
    assert TreeMatches(op.tree, DeepState(u, op.path).value);
  }

  /**
   Once executed, the rollback executor takes `op` for done: its planned file, read
   by bytes alone, is the planned or the old state.  A planned file that is UTF-8
   with an execute bit and recorded as observed, that is as binary, is neither.
   */
  predicate RecognisedNew(op: Operation) {
    FileOperation(op) ==> ByBytes(PlannedState(op)) == op.before || ByBytes(PlannedState(op)) == PlannedState(op)
  }

  /** While it is not executed, the rollback executor recognises the old file of `op`. */
  predicate RecognisedOld(op: Operation) {
    FileOperation(op) ==> ByBytes(op.before) == op.before || ByBytes(op.before) == PlannedState(op)
  }

  /** Undoing `op` right after it puts something back: all but a file written over with itself. */
  predicate PutsBack(op: Operation) {
    FileOperation(op) ==> ByBytes(PlannedState(op)) != op.before
  }

  /** The executor mistakes the untouched old file of `op` for the planned one, and writes it back over itself. */
  predicate Rewrites(op: Operation) {
    FileOperation(op) && ByBytes(op.before) != op.before
  }

  lemma FileStepInverts(op: Operation, store: Store, t: Tree)
    requires Closed(t) && FileOperation(op) && SoundOperation(op, store) && AtOldState(op, t)
    requires ApplyOperation(op, store, t).Some?
    ensures AttemptRollback(op, BackupOf(op, t), ApplyOperation(op, store, t).value)
      == if RecognisedNew(op) then Done(t, PutsBack(op)) else ThirdStateKept
  {
    var u := ApplyOperation(op, store, t).value;
    assert RollbackView(u, op.path) == ByBytes(PlannedState(op));
    if op.CreateFile? {
      assert RemoveFile(u, op.path).files == t.files;
    } else {
      assert WriteFile(u, op.path, t.files[op.path]).files == t.files;
      if !PutsBack(op) { assert u.files == t.files; }
    }
  }

  /**
   Rolling back an operation that has just been executed gives back the tree before
   it, if the executor recognises what was written, and otherwise is a third state.
   */
  lemma ExecutedStepInverts(op: Operation, store: Store, t: Tree)
    requires Closed(t) && SoundOperation(op, store) && AtOldState(op, t)
    requires ApplyOperation(op, store, t).Some?
    ensures AttemptRollback(op, BackupOf(op, t), ApplyOperation(op, store, t).value)
      == if RecognisedNew(op) then Done(t, PutsBack(op)) else ThirdStateKept
  {
    if FileOperation(op) {
      FileStepInverts(op, store, t);
    } else if op.CreateTree? {
      TreeStepInverts(op, store, t);
    } else {
      var u := ApplyOperation(op, store, t).value;
      assert op.path in t.files.Keys + t.dirs.Keys;
      assert u.dirs[op.path := op.directoryBefore.rootMode] == t.dirs;
    }
  }

  /** Nothing is below a directory that is still to be removed. */
  ghost predicate RemovalReady(op: Operation, t: Tree) {
    op.RemoveEmptyDirectory? ==> Below(t, op.path) == {}
  }

  /**
   Rolling back an operation that was not executed changes nothing.  It completes
   exactly when the executor recognises the old file, and no directory to be removed
   still holds something: the executor reads the whole directory, and the recorded
   old state lists it as empty.
   */
  lemma UnexecutedStepKeeps(op: Operation, backup: Option<Node>, t: Tree)
    requires Closed(t) && ShapedOperation(op) && AtOldState(op, t) && ParentStands(t, op.path)
    requires op.ReplaceFile? || op.DeleteFile? ==> backup == BackupOf(op, t)
    ensures AttemptRollback(op, backup, t)
      == if RecognisedOld(op) && RemovalReady(op, t) then Done(t, Rewrites(op)) else ThirdStateKept
  {
    if FileOperation(op) {
      UnexecutedFileKeeps(op, backup, t);
    } else if op.RemoveEmptyDirectory? {
      EntriesBelowEmpty(t, op.path);
    }
  }

  lemma UnexecutedFileKeeps(op: Operation, backup: Option<Node>, t: Tree)
    requires FileOperation(op) && ShapedOperation(op) && AtOldState(op, t) && ParentStands(t, op.path)
    requires op.ReplaceFile? || op.DeleteFile? ==> backup == BackupOf(op, t)
    ensures AttemptRollback(op, backup, t) == if RecognisedOld(op) then Done(t, Rewrites(op)) else ThirdStateKept
  {
    assert RollbackView(t, op.path) == ByBytes(op.before);
    if op.path in t.files { assert WriteFile(t, op.path, t.files[op.path]).files == t.files; }
  }

  lemma OldStateFrame(a: Operation, b: Operation, store: Store, t: Tree)
    requires Closed(t) && SoundOperation(a, store) && Independent(a, b)
    requires AtOldState(b, t) && ApplyOperation(a, store, t).Some?
    ensures AtOldState(b, ApplyOperation(a, store, t).value)
  {
    ApplyFrame(a, store, t);
    assert SameAt(t, ApplyOperation(a, store, t).value, b.path);
  }

  // Whole runs

  /** Every operation of `ops`, in order, is accepted by the executor. */
  ghost predicate Runs(ops: seq<Operation>, store: Store, t: Tree) {
    ops == [] ||
    (ApplyOperation(ops[0], store, t).Some? && Runs(ops[1..], store, ApplyOperation(ops[0], store, t).value))
  }

  /** The target after the first `k` operations. */
  ghost function After(ops: seq<Operation>, store: Store, t: Tree, k: nat): Tree
    requires Runs(ops, store, t) && k <= |ops|
    decreases k
  {
    if k == 0 then t else After(ops[1..], store, ApplyOperation(ops[0], store, t).value, k - 1)
  }

  /** A plan that can be executed on `t` and whose operations stay out of each other's way. */
  ghost predicate Executable(ops: seq<Operation>, store: Store, t: Tree) {
    && Closed(t)
    && Runs(ops, store, t)
    && (forall op :: op in ops ==> SoundOperation(op, store) && AtOldState(op, t) && ParentStands(t, op.path))
    && (forall i, j :: 0 <= i < j < |ops| ==> Independent(ops[i], ops[j]))
    && (forall i, j :: 0 <= i < j < |ops| ==> |ops[j].path| > 1 ==> Parent(ops[j].path) != ops[i].path || !ops[i].RemoveEmptyDirectory?)
  }

  lemma {:induction false} AfterStep(ops: seq<Operation>, store: Store, t: Tree, k: nat)
    requires Runs(ops, store, t) && k < |ops|
    ensures ApplyOperation(ops[k], store, After(ops, store, t, k)) == Some(After(ops, store, t, k + 1))
    decreases k
  {
    if k > 0 {
      AfterStep(ops[1..], store, ApplyOperation(ops[0], store, t).value, k - 1);
    }
  }

  /** `b` can still be judged at its old state after the independent `a` has been executed. */
  lemma LaterStands(a: Operation, b: Operation, store: Store, t: Tree)
    requires Closed(t) && SoundOperation(a, store) && Independent(a, b) && Valid(b.path)
    requires |b.path| > 1 && a.RemoveEmptyDirectory? ==> Parent(b.path) != a.path
    requires AtOldState(b, t) && ParentStands(t, b.path) && ApplyOperation(a, store, t).Some?
    ensures AtOldState(b, ApplyOperation(a, store, t).value)
    ensures ParentStands(ApplyOperation(a, store, t).value, b.path)
    ensures SameAt(t, ApplyOperation(a, store, t).value, b.path)
  {
    OldStateFrame(a, b, store, t);
    ApplyFrame(a, store, t);
    var u, p := ApplyOperation(a, store, t).value, b.path;
    if |p| > 1 {
      AboveParent(a.path, p);
      assert !Touches(a, Parent(p));
      assert SameAt(t, u, Parent(p));
    }
  }

  lemma SameAtTransitive(s: Tree, t: Tree, u: Tree, p: Path)
    requires SameAt(s, t, p) && SameAt(t, u, p)
    ensures SameAt(s, u, p)
  {
  }

  /** Operation `j` can be judged at its old state in `s`, which agrees with `t` at its path. */
  predicate Waiting(ops: seq<Operation>, t: Tree, s: Tree, j: nat)
    requires j < |ops|
  {
    AtOldState(ops[j], s) && ParentStands(s, ops[j].path) && SameAt(t, s, ops[j].path)
  }

  lemma WaitingStays(ops: seq<Operation>, store: Store, t: Tree, s: Tree, k: nat, j: nat)
    requires k < j < |ops| && Closed(s) && SoundOperation(ops[k], store) && ApplyOperation(ops[k], store, s).Some?
    requires Independent(ops[k], ops[j]) && Valid(ops[j].path) && Waiting(ops, t, s, j)
    requires |ops[j].path| > 1 ==> Parent(ops[j].path) != ops[k].path || !ops[k].RemoveEmptyDirectory?
    ensures Waiting(ops, t, ApplyOperation(ops[k], store, s).value, j)
  {
    LaterStands(ops[k], ops[j], store, s);
    SameAtTransitive(t, s, ApplyOperation(ops[k], store, s).value, ops[j].path);
  }

  /** `s` is a tree, and everything from operation `k` on waits in it. */
  ghost predicate AllWaiting(ops: seq<Operation>, t: Tree, s: Tree, k: nat) {
    Closed(s) && forall j {:trigger Waiting(ops, t, s, j)} :: k <= j < |ops| ==> Waiting(ops, t, s, j)
  }

  /** What a plan that can be executed says of its operation `k`. */
  ghost predicate StepFacts(ops: seq<Operation>, store: Store, k: nat)
    requires k < |ops|
  {
    && SoundOperation(ops[k], store)
    && (forall i :: 0 <= i < k ==> Independent(ops[i], ops[k]))
    && (forall j :: k < j < |ops| ==> StandsClear(ops[k], ops[j]))
  }

  /** `b`, later than `a`, is independent of it and keeps its parent. */
  predicate StandsClear(a: Operation, b: Operation) {
    && Independent(a, b) && Valid(b.path)
    && (|b.path| > 1 ==> Parent(b.path) != a.path || !a.RemoveEmptyDirectory?)
  }

  /** The targets a plan passes through. */
  ghost predicate Trail(ops: seq<Operation>, store: Store, ts: seq<Tree>) {
    && |ts| == |ops| + 1
    && forall k {:trigger TrailStep(ops, store, ts, k)} :: 0 <= k < |ops| ==> TrailStep(ops, store, ts, k)
  }

  ghost predicate TrailStep(ops: seq<Operation>, store: Store, ts: seq<Tree>, k: nat)
    requires k < |ops| && |ts| == |ops| + 1
  {
    StepFacts(ops, store, k) && ApplyOperation(ops[k], store, ts[k]) == Some(ts[k + 1])
  }

  lemma FactsOfStep(ops: seq<Operation>, store: Store, t: Tree, k: nat)
    requires Executable(ops, store, t) && k < |ops|
    ensures StepFacts(ops, store, k)
  {
    assert ops[k] in ops;
    forall j | k < j < |ops| ensures StandsClear(ops[k], ops[j]) { assert ops[j] in ops; }
  }

  ghost function TargetsOf(ops: seq<Operation>, store: Store, t: Tree): (ts: seq<Tree>)
    requires Runs(ops, store, t)
    ensures |ts| == |ops| + 1 && forall k :: 0 <= k <= |ops| ==> ts[k] == After(ops, store, t, k)
  {
    seq(|ops| + 1, k requires 0 <= k < |ops| + 1 => After(ops, store, t, k))
  }

  lemma ExecutionTrail(ops: seq<Operation>, store: Store, t: Tree)
    requires Executable(ops, store, t)
    ensures Trail(ops, store, TargetsOf(ops, store, t))
  {
    var ts := TargetsOf(ops, store, t);
    forall k | 0 <= k < |ops| ensures TrailStep(ops, store, ts, k) {
      FactsOfStep(ops, store, t, k);
      AfterStep(ops, store, t, k);
    }
  }

  lemma IntermediateStep(ops: seq<Operation>, store: Store, t: Tree, k: nat, s: Tree, u: Tree)
    requires k < |ops| && StepFacts(ops, store, k) && AllWaiting(ops, t, s, k)
    requires ApplyOperation(ops[k], store, s) == Some(u)
    ensures AllWaiting(ops, t, u, k + 1)
  {
    ApplyFrame(ops[k], store, s);
    forall j | k < j < |ops| ensures Waiting(ops, t, u, j) {
      assert StandsClear(ops[k], ops[j]) && Waiting(ops, t, s, j);
      WaitingStays(ops, store, t, s, k, j);
    }
  }

  lemma AtStart(ops: seq<Operation>, store: Store, t: Tree)
    requires Executable(ops, store, t)
    ensures AllWaiting(ops, t, t, 0)
  {
    assert forall j :: 0 <= j < |ops| ==> ops[j] in ops;
  }

  lemma {:induction false} WaitingAlong(ops: seq<Operation>, store: Store, t: Tree, ts: seq<Tree>, k: nat)
    requires Trail(ops, store, ts) && k <= |ops| && AllWaiting(ops, t, ts[0], 0)
    ensures AllWaiting(ops, t, ts[k], k)
    decreases k
  {
    if k > 0 {
      WaitingAlong(ops, store, t, ts, k - 1);
      StepAlong(ops, store, t, ts, k - 1);
    }
  }

  lemma StepAlong(ops: seq<Operation>, store: Store, t: Tree, ts: seq<Tree>, k: nat)
    requires Trail(ops, store, ts) && k < |ops| && AllWaiting(ops, t, ts[k], k)
    ensures AllWaiting(ops, t, ts[k + 1], k + 1)
  {
    assert TrailStep(ops, store, ts, k);
    IntermediateStep(ops, store, t, k, ts[k], ts[k + 1]);
  }

  /** What holds of every intermediate target. */
  lemma Intermediate(ops: seq<Operation>, store: Store, t: Tree, k: nat)
    requires Executable(ops, store, t) && k <= |ops|
    ensures Closed(After(ops, store, t, k))
    ensures forall j :: k <= j < |ops| ==> Waiting(ops, t, After(ops, store, t, k), j)
  {
    AtStart(ops, store, t);
    ExecutionTrail(ops, store, t);
    WaitingAlong(ops, store, t, TargetsOf(ops, store, t), k);
  }

  // Rolling back

  datatype PassOutcome = Restored(tree: Tree) | Stuck(tree: Tree, at: nat)

  /** Rolls back operations `i - 1` down to 0, stopping at the first one that does not complete. */
  ghost function RollbackPass(ops: seq<Operation>, backups: map<nat, Node>, i: nat, t: Tree): PassOutcome
    requires i <= |ops|
    decreases i
  {
    if i == 0 then Restored(t) else
      match AttemptRollback(ops[i - 1], Lookup(backups, i - 1), t)
      case Done(u, _) => RollbackPass(ops, backups, i - 1, u)
      case _ => Stuck(t, i - 1)
  }

  function Lookup(backups: map<nat, Node>, i: nat): Option<Node> {
    if i in backups then Some(backups[i]) else None
  }

  /** Every replace or delete has its old content backed up. */
  predicate BackedUp(ops: seq<Operation>, backups: map<nat, Node>, t: Tree) {
    forall i :: 0 <= i < |ops| && (ops[i].ReplaceFile? || ops[i].DeleteFile?) ==>
      ops[i].path in t.files && i in backups && backups[i] == t.files[ops[i].path]
  }

  /** Undoing operation `k` right after it. */
  lemma StepBack(ops: seq<Operation>, store: Store, t: Tree, backups: map<nat, Node>, k: nat)
    requires Executable(ops, store, t) && BackedUp(ops, backups, t) && k < |ops|
    ensures AttemptRollback(ops[k], Lookup(backups, k), After(ops, store, t, k + 1))
      == if RecognisedNew(ops[k]) then Done(After(ops, store, t, k), PutsBack(ops[k])) else ThirdStateKept
  {
    Intermediate(ops, store, t, k);
    AfterStep(ops, store, t, k);
    var s, u := After(ops, store, t, k), After(ops, store, t, k + 1);
    assert Waiting(ops, t, s, k) && ops[k] in ops;
    ExecutedStepInverts(ops[k], store, s);
    if ops[k].ReplaceFile? || ops[k].DeleteFile? {
      assert BackupOf(ops[k], s) == Lookup(backups, k);
    } else {
      assert AttemptRollback(ops[k], Lookup(backups, k), u) == AttemptRollback(ops[k], None, u);
    }
  }

  /** The executor recognises what each of the first `k` operations wrote. */
  predicate AllNewRecognised(ops: seq<Operation>, k: nat)
    requires k <= |ops|
  {
    forall j :: 0 <= j < k ==> RecognisedNew(ops[j])
  }

  /** One of the targets of the run, no later than `k` operations in. */
  ghost predicate PrefixState(ops: seq<Operation>, store: Store, t: Tree, k: nat, u: Tree)
    requires Runs(ops, store, t) && k <= |ops|
  {
    exists m :: 0 <= m <= k && u == After(ops, store, t, m)
  }

  /** A pass that starts where execution stopped restores the old target, or stops at the first third state. */
  lemma {:induction false} RollbackOfExecuted(
    ops: seq<Operation>, store: Store, t: Tree, backups: map<nat, Node>, k: nat)
    requires Executable(ops, store, t) && BackedUp(ops, backups, t) && k <= |ops|
    ensures AllNewRecognised(ops, k) ==> RollbackPass(ops, backups, k, After(ops, store, t, k)) == Restored(t)
    ensures !AllNewRecognised(ops, k) ==>
      RollbackPass(ops, backups, k, After(ops, store, t, k)).Stuck? &&
      PrefixState(ops, store, t, k, RollbackPass(ops, backups, k, After(ops, store, t, k)).tree)
    decreases k
  {
    if k > 0 {
      var s, u := After(ops, store, t, k - 1), After(ops, store, t, k);
      StepBack(ops, store, t, backups, k - 1);
      PassUnfolds(ops, backups, k, u, AttemptRollback(ops[k - 1], Lookup(backups, k - 1), u));
      RollbackOfExecuted(ops, store, t, backups, k - 1);
      NewlyRecognised(ops, k);
    }
  }

  lemma PassUnfolds(ops: seq<Operation>, backups: map<nat, Node>, i: nat, t: Tree, r: RollbackOutcome)
    requires 0 < i <= |ops| && r == AttemptRollback(ops[i - 1], Lookup(backups, i - 1), t)
    ensures RollbackPass(ops, backups, i, t) == if r.Done? then RollbackPass(ops, backups, i - 1, r.tree) else Stuck(t, i - 1)
  {
  }

  lemma NewlyRecognised(ops: seq<Operation>, k: nat)
    requires 0 < k <= |ops|
    ensures AllNewRecognised(ops, k) <==> AllNewRecognised(ops, k - 1) && RecognisedNew(ops[k - 1])
  {
  }

  /** Rolling back operation `j`, not executed in `s`, keeps `s`, and completes exactly when it is recognised. */
  ghost predicate KeepsWaiting(ops: seq<Operation>, backups: map<nat, Node>, s: Tree, j: nat)
    requires j < |ops|
  {
    AttemptRollback(ops[j], Lookup(backups, j), s) ==
      if RecognisedOld(ops[j]) && RemovalReady(ops[j], s) then Done(s, Rewrites(ops[j])) else ThirdStateKept
  }

  /** The executor recognises operations `k` up to `i` as not executed. */
  ghost predicate AllOldRecognised(ops: seq<Operation>, k: nat, i: nat, t: Tree)
    requires i <= |ops|
  {
    forall j :: k <= j < i ==> RecognisedOld(ops[j]) && RemovalReady(ops[j], t)
  }

  lemma {:induction false} PassOverWaiting(ops: seq<Operation>, backups: map<nat, Node>, s: Tree, k: nat, i: nat)
    requires k <= i <= |ops|
    requires forall j :: k <= j < i ==> KeepsWaiting(ops, backups, s, j)
    ensures AllOldRecognised(ops, k, i, s) ==> RollbackPass(ops, backups, i, s) == RollbackPass(ops, backups, k, s)
    ensures !AllOldRecognised(ops, k, i, s) ==>
      RollbackPass(ops, backups, i, s).Stuck? && RollbackPass(ops, backups, i, s).tree == s
    decreases i
  {
    if k < i {
      assert KeepsWaiting(ops, backups, s, i - 1);
      if RecognisedOld(ops[i - 1]) && RemovalReady(ops[i - 1], s) { PassOverWaiting(ops, backups, s, k, i - 1); }
    }
  }

  lemma WaitingIsKept(ops: seq<Operation>, store: Store, t: Tree, backups: map<nat, Node>, k: nat, j: nat)
    requires Executable(ops, store, t) && BackedUp(ops, backups, t) && k <= j < |ops|
    ensures KeepsWaiting(ops, backups, After(ops, store, t, k), j)
  {
    Intermediate(ops, store, t, k);
    assert Waiting(ops, t, After(ops, store, t, k), j) && ops[j] in ops;
    UnexecutedStepKeeps(ops[j], Lookup(backups, j), After(ops, store, t, k));
  }

  /**
   The main result.  After any executed prefix, and also when an earlier rollback
   was interrupted anywhere, a rollback pass gives back the exact old target if and
   only if the executor recognises every written file, every old file, and every
   directory still to be removed as empty.  Otherwise it stops at a target the run
   had passed through.
   */
  lemma RollbackInvertsPrefix(
    ops: seq<Operation>, store: Store, t: Tree, backups: map<nat, Node>, k: nat, i: nat)
    requires Executable(ops, store, t) && BackedUp(ops, backups, t) && k <= i <= |ops|
    ensures var r, s := RollbackPass(ops, backups, i, After(ops, store, t, k)), After(ops, store, t, k);
      if AllNewRecognised(ops, k) && AllOldRecognised(ops, k, i, s) then r == Restored(t)
      else r.Stuck? && PrefixState(ops, store, t, k, r.tree)
  {
    forall j | k <= j < i ensures KeepsWaiting(ops, backups, After(ops, store, t, k), j) {
      WaitingIsKept(ops, store, t, backups, k, j);
    }
    PassOverWaiting(ops, backups, After(ops, store, t, k), k, i);
    RollbackOfExecuted(ops, store, t, backups, k);
  }
}
