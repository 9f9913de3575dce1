/** Capturing the paths a plan refers to, and what the capture shows of every executed prefix. */
module Capture {
  import opened Results
  import opened Paths
  import opened Sorting
  import opened Identity
  import opened Plans
  import opened Rollback
  import opened Targets
  import opened Inversion

  function EntryFilePaths(es: seq<PlannedEntry>): set<Path> {
    set e | e in es && e.PlannedFileEntry? :: e.path
  }

  function EntryDirectoryPaths(es: seq<PlannedEntry>): set<Path> {
    set e | e in es && e.PlannedDirectoryEntry? :: e.path
  }

  function FilePathsOf(op: Operation): set<Path> {
    if FileOperation(op) then {op.path} else if op.CreateTree? then EntryFilePaths(op.tree.entries) else {}
  }

  function DirectoryPathsOf(op: Operation): set<Path> {
    if FileOperation(op) then {} else
    {op.path} + (if op.CreateTree? then EntryDirectoryPaths(op.tree.entries) else {})
  }

  function FilePaths(ops: seq<Operation>): set<Path> {
    if ops == [] then {} else FilePathsOf(ops[0]) + FilePaths(ops[1..])
  }

  function DirectoryPaths(ops: seq<Operation>): set<Path> {
    if ops == [] then {} else DirectoryPathsOf(ops[0]) + DirectoryPaths(ops[1..])
  }

  function TreeRoots(ops: seq<Operation>): set<Path> {
    set op | op in ops && op.CreateTree? :: op.path
  }

  function CapturedFiles(ps: seq<Path>, t: Tree): seq<ObservedFile> {
    if ps == [] then [] else
      var p := ps[|ps| - 1];
      CapturedFiles(ps[..|ps| - 1], t)
      + if p in t.files then [ObservedFile(p, ObserveFile(t, p), t.files[p].content)] else []
  }

  /** Tree roots are read in full, every other directory by its mode alone. */
  ghost function CapturedState(roots: set<Path>, t: Tree, p: Path): Option<DirectoryState> {
    if p in roots then DeepState(t, p) else ShallowState(t, p)
  }

  ghost function CapturedDirectories(ps: seq<Path>, roots: set<Path>, t: Tree): seq<ObservedDirectory> {
    if ps == [] then [] else
      var p := ps[|ps| - 1];
      CapturedDirectories(ps[..|ps| - 1], roots, t)
      + if p in t.dirs then [ObservedDirectory(p, CapturedState(roots, t, p).value)] else []
  }

  ghost function CapturePlan(ops: seq<Operation>, t: Tree): Snapshot {
    Snapshot(CapturedFiles(Listing(FilePaths(ops), PathLess), t),
             CapturedDirectories(Listing(DirectoryPaths(ops), PathLess), TreeRoots(ops), t))
  }

  lemma {:induction false} CapturedFileStates(ps: seq<Path>, t: Tree)
    ensures forall p :: p in FileStates(CapturedFiles(ps, t)) <==> p in ps && p in t.files
    ensures forall p :: p in FileStates(CapturedFiles(ps, t)) ==> FileStates(CapturedFiles(ps, t))[p] == ObserveFile(t, p)
    decreases |ps|
  {
    if ps != [] {
      var front, p := ps[..|ps| - 1], ps[|ps| - 1];
      CapturedFileStates(front, t);
      var es := CapturedFiles(ps, t);
      assert forall q :: q in ps <==> q in front || q == p;
      if p in t.files { assert es[..|es| - 1] == CapturedFiles(front, t); } else { assert es == CapturedFiles(front, t); }
    }
  }

  lemma {:induction false} CapturedDirectoryStates(ps: seq<Path>, roots: set<Path>, t: Tree)
    ensures forall p :: p in DirectoryStates(CapturedDirectories(ps, roots, t)) <==> p in ps && p in t.dirs
    ensures forall p :: p in DirectoryStates(CapturedDirectories(ps, roots, t)) ==>
      Some(DirectoryStates(CapturedDirectories(ps, roots, t))[p]) == CapturedState(roots, t, p)
    decreases |ps|
  {
    if ps != [] {
      var front, p := ps[..|ps| - 1], ps[|ps| - 1];
      CapturedDirectoryStates(front, roots, t);
      var es := CapturedDirectories(ps, roots, t);
      assert forall q :: q in ps <==> q in front || q == p;
      if p in t.dirs {
        assert es[..|es| - 1] == CapturedDirectories(front, roots, t);
      } else {
        assert es == CapturedDirectories(front, roots, t);
      }
    }
  }

  lemma {:induction false} PathsOfOperation(ops: seq<Operation>, op: Operation)
    requires op in ops
    ensures FilePathsOf(op) <= FilePaths(ops) && DirectoryPathsOf(op) <= DirectoryPaths(ops)
    decreases |ops|
  {
    if op != ops[0] { PathsOfOperation(ops[1..], op); }
  }

  /** What the capture says about the path of an operation of the plan. */
  lemma CaptureShows(ops: seq<Operation>, t: Tree, op: Operation)
    requires op in ops
    ensures var s := CapturePlan(ops, t);
      if FileOperation(op) then Current(FileStates(s.files), op.path) == ObserveFile(t, op.path)
      else CurrentDirectory(DirectoryStates(s.directories), op.path) == CapturedState(TreeRoots(ops), t, op.path)
  {
    PathsOfOperation(ops, op);
    if FileOperation(op) {
      SameElements(Enumerate(FilePaths(ops)), PathLess);
      CapturedFileStates(Listing(FilePaths(ops), PathLess), t);
    } else {
      SameElements(Enumerate(DirectoryPaths(ops)), PathLess);
      CapturedDirectoryStates(Listing(DirectoryPaths(ops), PathLess), TreeRoots(ops), t);
    }
  }

  /** Paths of independent operations are not both a tree root and a removal. */
  lemma RemovalIsNoRoot(ops: seq<Operation>, op: Operation)
    requires op in ops && op.RemoveEmptyDirectory?
    requires forall i, j :: 0 <= i < j < |ops| ==> Independent(ops[i], ops[j])
    ensures op.path !in TreeRoots(ops)
  {
    var i :| 0 <= i < |ops| && ops[i] == op;
    forall j | 0 <= j < |ops| && ops[j].CreateTree? ensures ops[j].path != op.path {
      if i < j { assert Independent(ops[i], ops[j]); } else { assert Independent(ops[j], ops[i]); }
    }
  }

  // The state of each operation's path along a run

  lemma DeepStateFrame(t: Tree, u: Tree, root: Path)
    requires forall p :: AtOrAbove(root, p) ==> SameAt(t, u, p)
    ensures DeepState(t, root) == DeepState(u, root)
  {
    assert SameAt(t, u, root);
    assert Below(t, root) == Below(u, root) by {
      forall p ensures p in Below(t, root) <==> p in Below(u, root) {
        if Above(root, p) { assert SameAt(t, u, p); }
      }
    }
    SameElements(Enumerate(Below(t, root)), PathLess);
    var ps := Listing(Below(t, root), PathLess);
    forall i | 0 <= i < |ps| ensures EntriesBelow(t, root)[i] == EntriesBelow(u, root)[i] {
      assert ps[i] in ps;
      assert SameAt(t, u, ps[i]);
    }
    assert EntriesBelow(t, root) == EntriesBelow(u, root);
  }

  predicate HoldsFile(f: PlannedFile, p: Path, store: Store, t: Tree) {
    p in t.files && store.Get(f.contentId).Some? && t.files[p] == Node(store.Get(f.contentId).value, f.mode)
  }

  /** The path of `op` holds what `op` planned. */
  ghost predicate AtCandidate(op: Operation, store: Store, t: Tree) {
    match op
    case CreateFile(p, _, f) => HoldsFile(f, p, store, t)
    case ReplaceFile(p, _, f) => HoldsFile(f, p, store, t)
    case DeleteFile(p, _) => p !in t.files
    case CreateTree(p, _, tree) => HasBlobs(tree.entries, store) && DeepState(t, p) == Some(PlannedContent(tree, store))
    case RemoveEmptyDirectory(p, _) => p !in t.dirs
  }

  lemma AppliedIsCandidate(op: Operation, store: Store, t: Tree)
    requires Closed(t) && SoundOperation(op, store) && ApplyOperation(op, store, t).Some?
    ensures AtCandidate(op, store, ApplyOperation(op, store, t).value)
  {
    if op.CreateTree? { CreatedTreeState(op.path, op.tree, store, t); }
  }

  lemma CandidateFrame(a: Operation, b: Operation, store: Store, t: Tree)
    requires Closed(t) && SoundOperation(b, store) && Independent(a, b)
    requires AtCandidate(a, store, t) && ApplyOperation(b, store, t).Some?
    ensures AtCandidate(a, store, ApplyOperation(b, store, t).value)
  {
    ApplyFrame(b, store, t);
    var u := ApplyOperation(b, store, t).value;
    assert SameAt(t, u, a.path);
    if a.CreateTree? {
      forall p | AtOrAbove(a.path, p) ensures SameAt(t, u, p) {
        if Touches(b, p) { AncestorsComparable(a.path, b.path, p); }
      }
      DeepStateFrame(t, u, a.path);
    }
  }

  lemma {:induction false} CandidatesAlong(ops: seq<Operation>, store: Store, ts: seq<Tree>, k: nat, i: nat)
    requires Trail(ops, store, ts) && i < k <= |ops|
    requires forall n :: 0 <= n <= |ops| ==> Closed(ts[n])
    ensures AtCandidate(ops[i], store, ts[k])
    decreases k
  {
    assert TrailStep(ops, store, ts, k - 1);
    if i == k - 1 {
      AppliedIsCandidate(ops[i], store, ts[i]);
    } else {
      CandidatesAlong(ops, store, ts, k - 1, i);
      CandidateFrame(ops[i], ops[k - 1], store, ts[k - 1]);
    }
  }

  lemma ExecutedAreCandidates(ops: seq<Operation>, store: Store, t: Tree, k: nat, i: nat)
    requires Executable(ops, store, t) && i < k <= |ops|
    ensures AtCandidate(ops[i], store, After(ops, store, t, k))
  {
    var ts := TargetsOf(ops, store, t);
    ExecutionTrail(ops, store, t);
    forall n | 0 <= n <= |ops| ensures Closed(ts[n]) { Intermediate(ops, store, t, n); }
    CandidatesAlong(ops, store, ts, k, i);
  }

  // What the plan-level gates and reducers say of a run

  lemma OldStateIsRestored(plan: Plan, t: Tree, op: Operation)
    requires op in plan.operations && ShapedOperation(op) && AtOldState(op, t)
    requires forall i, j :: 0 <= i < j < |plan.operations| ==> Independent(plan.operations[i], plan.operations[j])
    ensures var s := CapturePlan(plan.operations, t);
      RollbackDecisionOf(op, FileStates(s.files), DirectoryStates(s.directories)) == AlreadyRestored
  {
    CaptureShows(plan.operations, t, op);
    if op.RemoveEmptyDirectory? { RemovalIsNoRoot(plan.operations, op); }
  }

  /** What an observation of a file recorded as `s` reports. */
  function AsObserved(s: FileState): FileState {
    if s.Present? then ObservedState(s.identity.raw.content, s.mode) else Absent
  }

  /** The planned file of `op` is declared with the kind an observation of it will report. */
  predicate KindAgrees(op: Operation) {
    FileOperation(op) ==> AsObserved(PlannedState(op)) == PlannedState(op)
  }

  /** An observation of what `op` wrote is its planned or its old state. */
  predicate ObservedEither(op: Operation) {
    FileOperation(op) ==> AsObserved(PlannedState(op)) == PlannedState(op) || AsObserved(PlannedState(op)) == op.before
  }

  /** What is decided at a path that holds the candidate. */
  lemma CandidateDecided(op: Operation, store: Store, files: map<Path, FileState>, directories: map<Path, DirectoryState>)
    requires SoundOperation(op, store)
    requires FileOperation(op) ==> Current(files, op.path) == AsObserved(PlannedState(op))
    requires op.CreateTree? ==> CurrentDirectory(directories, op.path) == Some(PlannedContent(op.tree, store))
    requires op.RemoveEmptyDirectory? ==> CurrentDirectory(directories, op.path) == None
    ensures RollbackDecisionOf(op, files, directories).RollbackThirdState? <==> !ObservedEither(op)
    ensures SealedDecisionOf(op, files, directories) == AlreadyCandidate <==> KindAgrees(op)
  {
  }

  lemma CandidateIsDecided(plan: Plan, t: Tree, op: Operation)
    requires op in plan.operations && SoundOperation(op, plan.store) && AtCandidate(op, plan.store, t)
    requires forall i, j :: 0 <= i < j < |plan.operations| ==> Independent(plan.operations[i], plan.operations[j])
    ensures var s := CapturePlan(plan.operations, t);
      && (RollbackDecisionOf(op, FileStates(s.files), DirectoryStates(s.directories)).RollbackThirdState? <==> !ObservedEither(op))
      && (SealedDecisionOf(op, FileStates(s.files), DirectoryStates(s.directories)) == AlreadyCandidate <==> KindAgrees(op))
  {
    var s := CapturePlan(plan.operations, t);
    CaptureShows(plan.operations, t, op);
    if op.RemoveEmptyDirectory? { RemovalIsNoRoot(plan.operations, op); }
    if op.CreateTree? { assert op.path in TreeRoots(plan.operations); }
    CandidateDecided(op, plan.store, FileStates(s.files), DirectoryStates(s.directories));
  }

  /**
   The plan-level reducers, which read removed directories by mode alone, after any
   executed prefix: operations from `k` on are already restored; those before it are
   at their candidate exactly if their declared kind is the observed one, and a third
   state exactly if what is observed is neither the planned nor the old state.
   */
  lemma PrefixIsDecided(plan: Plan, t: Tree, k: nat)
    requires Executable(plan.operations, plan.store, t) && k <= |plan.operations|
    ensures var s := CapturePlan(plan.operations, After(plan.operations, plan.store, t, k));
      forall i :: 0 <= i < |plan.operations| ==>
        && (k <= i ==> RollbackSteps(plan, s)[i].decision.AlreadyRestored?)
        && (i < k ==>
              && (SealedSteps(plan, s)[i].decision.AlreadyCandidate? <==> KindAgrees(plan.operations[i]))
              && (RollbackSteps(plan, s)[i].decision.RollbackThirdState? <==> !ObservedEither(plan.operations[i])))
  {
    var ops, u := plan.operations, After(plan.operations, plan.store, t, k);
    var s := CapturePlan(ops, u);
    Intermediate(ops, plan.store, t, k);
    forall i | 0 <= i < |ops|
      ensures k <= i ==> RollbackSteps(plan, s)[i].decision.AlreadyRestored?
      ensures i < k ==> (SealedSteps(plan, s)[i].decision.AlreadyCandidate? <==> KindAgrees(ops[i]))
      ensures i < k ==> (RollbackSteps(plan, s)[i].decision.RollbackThirdState? <==> !ObservedEither(ops[i]))
    {
      assert ops[i] in ops;
      if k <= i {
        assert Waiting(ops, t, u, i);
        OldStateIsRestored(plan, u, ops[i]);
      } else {
        ExecutedAreCandidates(ops, plan.store, t, k, i);
        CandidateIsDecided(plan, u, ops[i]);
      }
    }
  }

  lemma AllRestoredIsIntact(plan: Plan, s: Snapshot)
    requires forall i :: 0 <= i < |plan.operations| ==> RollbackSteps(plan, s)[i].decision.AlreadyRestored?
    ensures RestoredVerification(plan, s) == Intact
  {
    FirstUnrestoredIntact(RollbackSteps(plan, s));
  }

  lemma NothingExecuted(ops: seq<Operation>, store: Store, t: Tree)
    requires Runs(ops, store, t)
    ensures After(ops, store, t, 0) == t
  {
  }

  /** The untouched target passes the pre-state gate. */
  lemma StartPassesItsGate(plan: Plan, t: Tree)
    requires Executable(plan.operations, plan.store, t)
    ensures RestoredVerification(plan, CapturePlan(plan.operations, t)) == Intact
  {
    PrefixIsDecided(plan, t, 0);
    NothingExecuted(plan.operations, plan.store, t);
    AllRestoredIsIntact(plan, CapturePlan(plan.operations, t));
  }

  /** Every file the plan writes is declared with the kind an observation of it reports. */
  predicate KindsDeclared(ops: seq<Operation>) {
    forall op :: op in ops ==> KindAgrees(op)
  }

  /** The fully executed target passes the candidate gate if and only if the kinds of its written files agree. */
  lemma EndPassesItsGate(plan: Plan, t: Tree)
    requires Executable(plan.operations, plan.store, t)
    ensures SealedVerification(plan,
      CapturePlan(plan.operations, After(plan.operations, plan.store, t, |plan.operations|))) == Intact
      <==> KindsDeclared(plan.operations)
  {
    var ops := plan.operations;
    var steps := SealedSteps(plan, CapturePlan(ops, After(ops, plan.store, t, |ops|)));
    PrefixIsDecided(plan, t, |ops|);
    FirstUnsealedIntact(steps);
    if forall i :: 0 <= i < |steps| ==> steps[i].decision.AlreadyCandidate? {
      forall op | op in ops ensures KindAgrees(op) {
        var i :| 0 <= i < |ops| && ops[i] == op;
        assert steps[i].decision.AlreadyCandidate?;
      }
    }
    if KindsDeclared(ops) {
      forall i | 0 <= i < |steps| ensures steps[i].decision.AlreadyCandidate? { assert ops[i] in ops; }
    }
  }

  /** Captured directories list their entries in path order. */
  lemma CapturesAreCanonical(ops: seq<Operation>, t: Tree)
    requires Closed(t)
    ensures CanonicalSnapshot(CapturePlan(ops, t))
  {
    var ps, roots := Listing(DirectoryPaths(ops), PathLess), TreeRoots(ops);
    CapturedDirectoryStates(ps, roots, t);
    forall p | p in DirectoryStates(CapturedDirectories(ps, roots, t))
      ensures Canonical(DirectoryStates(CapturedDirectories(ps, roots, t))[p].entries)
    {
      EntriesBelowCanonical(t, p);
    }
  }

  /** On any target, a live run and a recovery judge the same captures to be the pre-state and the candidate. */
  lemma GatesAgreeOnTargets(plan: Plan, t: Tree)
    requires Closed(t) && TreesHashed(plan)
    ensures var s := CapturePlan(plan.operations, t);
      && (RestoredVerification(plan, s) == Intact <==> SnapshotMatchesPreconditions(plan, s))
      && (SealedVerification(plan, s) == Intact <==> SnapshotMatchesCandidate(plan, s))
  {
    CapturesAreCanonical(plan.operations, t);
    RestoredGatesAgree(plan, CapturePlan(plan.operations, t));
    SealedGatesAgree(plan, CapturePlan(plan.operations, t));
  }
}
