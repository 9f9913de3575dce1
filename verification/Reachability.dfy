/**
 The worlds that runs do come to, and what a plan has to be like for a recovery to
 complete after every crash.
 */
module Reachability {
  import opened Results
  import opened Paths
  import opened Identity
  import opened Plans
  import opened Rollback
  import opened Targets
  import opened Inversion
  import opened Capture
  import opened Machine
  import opened Receipts
  import opened Journals
  import opened Crashes
  import opened Atomicity
  import opened Recoveries

  /** The targets a transaction passes through, from `t`, if its plan runs there. */
  ghost function SettingFrom(c: Compiled, t: Tree): (g: Setting)
  {
    var n := |c.plan.operations|;
    if Runs(c.plan.operations, c.plan.store, t)
    then Setting(c, seq(n + 1, k requires 0 <= k < n + 1 => After(c.plan.operations, c.plan.store, t, k)))
    else Setting(c, seq(n + 1, _ => t))
  }

  lemma ExecutableIsGood(c: Compiled, t: Tree)
    requires WellCompiled(c) && Executable(c.plan.operations, c.plan.store, t) && AllSurvive(c.plan.operations)
    ensures SettingFrom(c, t).Good() && SettingFrom(c, t).Before() == t
    ensures SettingFrom(c, t).Candidate() == After(c.plan.operations, c.plan.store, t, |c.plan.operations|)
  {
    NothingExecuted(c.plan.operations, c.plan.store, t);
    var g := SettingFrom(c, t);
    forall k: nat | k <= g.Count() ensures g.StateIs(k) { }
  }

  // Worlds of a run

  /** Some run comes to `w`. */
  ghost predicate Reached(g: Setting, w: World)
  {
    exists ws: seq<World> :: Behaviour(g, ws) && ws[|ws| - 1] == w
  }

  function FirstWorld(g: Setting): World
  {
    World(Disk(EMPTY_ROOT, g.Before(), map[], map[]), Live(NeedRevalidation(g.c, [AcquireLockKind]), AcquireLock, false), None)
  }

  lemma FirstIsReached(g: Setting)
    ensures Reached(g, FirstWorld(g))
  {
    var ws := [FirstWorld(g)];
    assert Behaviour(g, ws) && ws[|ws| - 1] == FirstWorld(g);
  }

  lemma AppendedSteps(g: Setting, ws: seq<World>, w: World, i: nat)
    requires Behaviour(g, ws) && NextWorld(g, ws[|ws| - 1], w) && i < |ws|
    ensures StepAt(g, ws + [w], i)
  {
    if i < |ws| - 1 { assert StepAt(g, ws, i); }
  }

  lemma NextIsReached(g: Setting, w: World, w': World)
    requires Reached(g, w) && NextWorld(g, w, w')
    ensures Reached(g, w')
  {
    var ws: seq<World> :| Behaviour(g, ws) && ws[|ws| - 1] == w;
    var vs := ws + [w'];
    forall i | 0 <= i < |vs| - 1 ensures StepAt(g, vs, i) { AppendedSteps(g, ws, w', i); }
    assert Behaviour(g, vs) && vs[|vs| - 1] == w';
  }

  lemma ReachedIsConsistent(g: Setting, w: World)
    requires g.Good() && Reached(g, w)
    ensures Consistent(g, w)
  {
    var ws: seq<World> :| Behaviour(g, ws) && ws[|ws| - 1] == w;
    var i := |ws| - 1;
    BehavioursAreConsistent(g, ws, i);
  }

  // Single steps

  /** A live process between two effects, in a run. */
  ghost predicate Ready(g: Setting, w: World)
  {
    Reached(g, w) && w.process.Live? && !w.process.half
  }

  lemma ReadyFacts(g: Setting, w: World)
    requires g.Good() && Ready(g, w)
    ensures var s := w.process.s;
      && Coherent(s) && s.c == g.c && w.process.request == RequestFor(s) && w.disk.root.pending.None?
      && Fits(g, w.disk, w.last, s)
    ensures DiskInv(g, w.disk, w.last)
  {
    ReachedIsConsistent(g, w);
    ConsistentLive(g, w);
  }

  lemma ConsistentLive(g: Setting, w: World)
    requires Consistent(g, w) && w.process.Live? && !w.process.half
    ensures var s := w.process.s;
      && Coherent(s) && s.c == g.c && w.process.request == RequestFor(s) && w.disk.root.pending.None?
      && Fits(g, w.disk, w.last, s)
    ensures DiskInv(g, w.disk, w.last)
  {
  }

  lemma EffectIsReached(g: Setting, w: World, d: Disk, o: Observation)
    requires Ready(g, w) && WellCompiled(w.process.s.c)
    requires LiveEffect(w.disk, w.process.s, w.process.request, d, o)
    ensures Reached(g, World(d, Continue(w.process.s, o), w.last))
  {
    var w' := World(d, Continue(w.process.s, o), w.last);
    assert LiveStep(g, w, w');
    NextIsReached(g, w, w');
  }

  function HalfWritten(w: World): World
    requires w.process.Live? && w.process.request.PersistJournal?
  {
    World(w.disk.(root := PendingWritten(w.disk.root, RecordFor(w.process.s.c, w.process.request.phase, []))),
          Live(w.process.s, w.process.request, true), w.last)
  }

  function Persisted(w: World): World
    requires w.process.Live? && w.process.request.PersistJournal? && WellCompiled(w.process.s.c)
  {
    World(w.disk.(root := PendingRenamed(HalfWritten(w).disk.root)),
          Continue(w.process.s, JournalPersisted(w.process.request.phase)), Some(w.process.request.phase))
  }

  lemma HalfIsReached(g: Setting, w: World)
    requires Ready(g, w) && WellCompiled(w.process.s.c)
    requires w.process.request.PersistJournal? && w.disk.root.pending.None?
    ensures Reached(g, HalfWritten(w))
  {
    assert GoodContainers(w.process.s.c, w.process.request.phase, []);
    assert LiveStep(g, w, HalfWritten(w));
    NextIsReached(g, w, HalfWritten(w));
  }

  lemma PersistedIsReached(g: Setting, w: World)
    requires Ready(g, w) && WellCompiled(w.process.s.c)
    requires w.process.request.PersistJournal? && w.disk.root.pending.None?
    ensures Reached(g, Persisted(w))
  {
    HalfIsReached(g, w);
    assert LiveStep(g, HalfWritten(w), Persisted(w));
    NextIsReached(g, HalfWritten(w), Persisted(w));
  }

  lemma CrashIsReached(g: Setting, w: World)
    requires Reached(g, w)
    ensures Reached(g, w.(process := Down))
  {
    assert CrashStep(w, w.(process := Down));
    NextIsReached(g, w, w.(process := Down));
  }

  // The live run, up to any number of applied operations

  lemma OpeningContinues(c: Compiled, snapshot: Snapshot)
    requires WellCompiled(c) && SnapshotMatchesPreconditions(c.plan, snapshot)
    ensures Continue(NeedRevalidation(c, [AcquireLockKind]), LockAcquired)
      == Live(NeedRevalidation(c, [AcquireLockKind, ObserveAgainKind]), ObserveAgain, false)
    ensures Continue(NeedRevalidation(c, [AcquireLockKind, ObserveAgainKind]), Reobserved(snapshot))
      == Live(NeedPlannedJournal(c, snapshot, [AcquireLockKind, ObserveAgainKind, PersistJournalKind]), PersistJournal(PlannedPhase), false)
  {
    assert [AcquireLockKind] + [ObserveAgainKind] == [AcquireLockKind, ObserveAgainKind];
    assert [AcquireLockKind, ObserveAgainKind] + [PersistJournalKind] == [AcquireLockKind, ObserveAgainKind, PersistJournalKind];
  }

  lemma Opens(g: Setting) returns (w: World)
    requires g.Good()
    ensures Ready(g, w) && w.process.s.NeedPlannedJournal?
  {
    var s := CapturePlan(g.Operations(), g.Before());
    StartPassesItsGate(g.c.plan, g.Before());
    RestoredGatesAgree(g.c.plan, s);
    OpeningContinues(g.c, s);
    var first := FirstWorld(g);
    FirstIsReached(g);
    EffectIsReached(g, first, first.disk, LockAcquired);
    var second := World(first.disk, Continue(first.process.s, LockAcquired), None);
    EffectIsReached(g, second, first.disk, Reobserved(s));
    w := World(first.disk, Continue(second.process.s, Reobserved(s)), None);
  }

  lemma {:induction false} BackupIsOfOld(ops: seq<Operation>, first: nat, s: PreparationSpec)
    requires s in PreparationSpecsFrom(ops, first) && s.role.Backup?
    ensures first <= s.index < first + |ops|
    ensures ops[s.index - first].ReplaceFile? || ops[s.index - first].DeleteFile?
    decreases |ops|
  {
    if s !in PreparationSpecsOf(ops[0], first) {
      BackupIsOfOld(ops[1..], first + 1, s);
    }
  }

  lemma OldFileIsThere(op: Operation, t: Tree)
    requires ShapedOperation(op) && AtOldState(op, t) && (op.ReplaceFile? || op.DeleteFile?)
    ensures op.path in t.files && OldFileMatches(op.before, t.files[op.path])
  {
  }

  lemma OldFileOf(ops: seq<Operation>, store: Store, t: Tree, i: nat)
    requires Executable(ops, store, t) && i < |ops| && (ops[i].ReplaceFile? || ops[i].DeleteFile?)
    ensures ops[i].path in t.files && OldFileMatches(ops[i].before, t.files[ops[i].path])
  {
    assert ops[i] in ops;
    OldFileIsThere(ops[i], t);
  }

  lemma PrepareWorks(g: Setting, i: nat, d: Disk) returns (u: Disk)
    requires g.Good() && i < |g.c.preparations| && d.tree == g.Before()
    ensures PrepareEffect(g.c, g.c.preparations[i].spec, d, u)
  {
    var spec := g.c.preparations[i].spec;
    u := d;
    if spec.role.Backup? {
      BackupIsReady(g.c, g.Before(), i);
      u := TakeBackup(d, spec.index, d.tree.files[g.Operations()[spec.index].path]);
    }
  }

  lemma ReservedSpec(c: Compiled, i: nat)
    requires WellCompiled(c) && i < |c.preparations|
    ensures c.preparations[i].spec in PreparationSpecs(c.plan)
  {
    assert PreparationSpecs(c.plan)[i] in PreparationSpecs(c.plan);
  }

  lemma BackupIsReady(c: Compiled, t: Tree, i: nat)
    requires WellCompiled(c) && Executable(c.plan.operations, c.plan.store, t)
    requires i < |c.preparations| && c.preparations[i].spec.role.Backup?
    ensures var ops, j := c.plan.operations, c.preparations[i].spec.index;
      && j < |ops| && (ops[j].ReplaceFile? || ops[j].DeleteFile?)
      && ops[j].path in t.files && OldFileMatches(ops[j].before, t.files[ops[j].path])
  {
    ReservedSpec(c, i);
    var spec := c.preparations[i].spec;
    var j := spec.index;
    BackupIsOfOld(c.plan.operations, 0, spec);
    OldFileOf(c.plan.operations, c.plan.store, t, j);
  }

  lemma PreparedNext(g: Setting, w: World) returns (w': World)
    requires g.Good() && Ready(g, w) && w.process.s.Preparing?
    ensures Ready(g, w')
    ensures var i := w.process.s.cursor;
      if i + 1 < |g.c.preparations| then w'.process.s.Preparing? && w'.process.s.cursor == i + 1
      else w'.process.s.NeedMutatingJournal?
  {
    var s := w.process.s;
    ReadyFacts(g, w);
    var u := PrepareWorks(g, s.cursor, w.disk);
    EffectIsReached(g, w, u, PreparationCompleted(s.c.preparations[s.cursor]));
    AfterPrepare(s);
    w' := World(u, Continue(s, PreparationCompleted(s.c.preparations[s.cursor])), w.last);
  }

  lemma {:induction false} Prepares(g: Setting, w: World) returns (w': World)
    requires g.Good() && Ready(g, w)
    requires w.process.s.NeedMutatingJournal? || (w.process.s.Preparing? && w.process.s.cursor < |g.c.preparations|)
    ensures Ready(g, w') && w'.process.s.NeedMutatingJournal?
    decreases if w.process.s.Preparing? then |g.c.preparations| - w.process.s.cursor else 0
  {
    w' := w;
    if w.process.s.Preparing? {
      w' := PreparedNext(g, w);
      w' := Prepares(g, w');
    }
  }

  lemma PersistsNext(g: Setting, w: World) returns (w': World)
    requires g.Good() && Ready(g, w) && RequestFor(w.process.s).PersistJournal?
    ensures Ready(g, w') && Coherent(w.process.s) && w.process.s.c == g.c
    ensures w'.process.s == Continue(w.process.s, JournalPersisted(RequestFor(w.process.s).phase)).s
  {
    ReadyFacts(g, w);
    PersistedIsReached(g, w);
    AfterPersist(w.process.s);
    w' := Persisted(w);
  }

  /** The run stands before operation `k`, or has applied them all. */
  ghost predicate AtOperation(g: Setting, w: World, k: nat)
  {
    Ready(g, w) && if k < g.Count() then w.process.s.Installing? && w.process.s.cursor == k else w.process.s.Verifying?
  }

  lemma Mutates(g: Setting) returns (w: World)
    requires g.Good()
    ensures AtOperation(g, w, 0)
  {
    var begun := Opens(g);
    var planned := PersistsNext(g, begun);
    AfterPersist(begun.process.s);
    var prepared := Prepares(g, planned);
    w := PersistsNext(g, prepared);
    AfterPersist(prepared.process.s);
  }

  lemma AppliesNext(g: Setting, w: World, k: nat) returns (w': World)
    requires g.Good() && AtOperation(g, w, k) && k < g.Count()
    ensures AtOperation(g, w', k + 1)
  {
    var s := w.process.s;
    ReadyFacts(g, w);
    GoodForward(g, k);
    var d := w.disk.(tree := g.At(k + 1));
    EffectIsReached(g, w, d, OperationApplied(k));
    AfterApply(s);
    w' := World(d, Continue(s, OperationApplied(k)), w.last);
  }

  lemma {:induction false} Applies(g: Setting, k: nat) returns (w: World)
    requires g.Good() && k <= g.Count()
    ensures AtOperation(g, w, k)
    decreases k
  {
    if k == 0 {
      w := Mutates(g);
    } else {
      var before := Applies(g, k - 1);
      w := AppliesNext(g, before, k - 1);
    }
  }

  // Crashes while the target changes

  /** A crash under MUTATING that left no pending write. */
  predicate MutatingCrash(w: World) {
    w.process.Down? && w.last == Some(MutatingPhase) && w.disk.root.pending.None?
  }

  /** One before which nothing was rolled back through a container. */
  predicate CleanCrash(w: World) {
    MutatingCrash(w) && w.disk.containers == map[]
  }

  /** A run can crash cleanly after any number of operations. */
  lemma CrashesAnywhere(g: Setting, k: nat) returns (w: World)
    requires g.Good() && k <= g.Count()
    ensures Reached(g, w) && CleanCrash(w) && w.disk.tree == g.At(k)
    ensures DiskInv(g, w.disk, w.last)
  {
    var v := Applies(g, k);
    ReadyFacts(g, v);
    CrashIsReached(g, v);
    w := v.(process := Down);
  }

  // When every clean crash can be recovered from

  /** What an operation leaves alone was in the old target, or is still there. */
  lemma NewPathStays(op: Operation, store: Store, t: Tree, s: Tree, u: Tree, p: Path)
    requires ShapedOperation(op) && AtOldState(op, t) && ApplyOperation(op, store, s) == Some(u)
    requires Exists(s, p) && !Exists(t, p)
    ensures Exists(u, p)
  {
  }

  predicate OldStates(ops: seq<Operation>, t: Tree) {
    forall op :: op in ops ==> ShapedOperation(op) && AtOldState(op, t)
  }

  lemma {:induction false} NewPathsStay(ops: seq<Operation>, store: Store, t: Tree, ts: seq<Tree>, k: nat, j: nat, p: Path)
    requires Trail(ops, store, ts) && OldStates(ops, t) && k <= j <= |ops|
    requires !Exists(t, p) && Exists(ts[k], p)
    ensures Exists(ts[j], p)
    decreases j - k
  {
    if k < j {
      assert TrailStep(ops, store, ts, k) && ops[k] in ops;
      NewPathStays(ops[k], store, t, ts[k], ts[k + 1], p);
      NewPathsStay(ops, store, t, ts, k + 1, j, p);
    }
  }

  lemma EmptyBelowGrows(ops: seq<Operation>, store: Store, t: Tree, ts: seq<Tree>, k: nat, j: nat, root: Path)
    requires Trail(ops, store, ts) && OldStates(ops, t) && k <= j <= |ops| && Below(t, root) == {}
    ensures Below(ts[k], root) <= Below(ts[j], root)
  {
    forall p | p in Below(ts[k], root) ensures p in Below(ts[j], root) {
      assert p in Below(t, root) <==> Exists(t, p);
      NewPathsStay(ops, store, t, ts, k, j, p);
    }
  }

  /** A directory to be removed that was empty at the start is empty until it is removed. */
  lemma StaysEmpty(ops: seq<Operation>, store: Store, t: Tree, k: nat, j: nat)
    requires Executable(ops, store, t) && k <= j < |ops| && ops[j].RemoveEmptyDirectory?
    requires Below(t, ops[j].path) == {}
    ensures Below(After(ops, store, t, k), ops[j].path) == {}
  {
    var ts := TargetsOf(ops, store, t);
    ExecutionTrail(ops, store, t);
    EmptyBelowGrows(ops, store, t, ts, k, j, ops[j].path);
    assert TrailStep(ops, store, ts, j);
  }

  /** The executor recognises every old and every written file of the plan by its bytes. */
  predicate AllRecognised(ops: seq<Operation>) {
    forall op :: op in ops ==> RecognisedNew(op) && RecognisedOld(op)
  }

  /** A UTF-8 file with an execute bit. */
  predicate IsScript(s: FileState) {
    s.Present? && IsUtf8(s.identity.raw.content) && AnyExecuteBit(s.mode)
  }

  lemma ObservedByBytes(s: FileState)
    requires AsObserved(s) == s
    ensures ByBytes(s) == s <==> !IsScript(s)
    ensures IsScript(s) ==> forall u: FileState :: AsObserved(u) == u ==> ByBytes(s) != u
  {
    if IsScript(s) {
      forall u: FileState | AsObserved(u) == u ensures ByBytes(s) != u { }
    }
  }

  /**
   Where the declared kinds are the observed ones, what rollback does not recognise
   is exactly the scripts: a planned or an old file that is UTF-8 with an execute bit.
   */
  lemma ScriptsAreTheException(ops: seq<Operation>)
    requires KindsDeclared(ops) && forall op :: op in ops ==> ShapedOperation(op)
    ensures AllRecognised(ops) <==>
      forall op :: op in ops && FileOperation(op) ==> !IsScript(PlannedState(op)) && !IsScript(op.before)
  {
    forall op | op in ops && FileOperation(op)
      ensures RecognisedNew(op) && RecognisedOld(op) <==> !IsScript(PlannedState(op)) && !IsScript(op.before)
    {
      ScriptIsNotRecognised(op);
    }
  }

  lemma ScriptIsNotRecognised(op: Operation)
    requires FileOperation(op) && ShapedOperation(op) && KindAgrees(op)
    ensures RecognisedNew(op) <==> !IsScript(PlannedState(op))
    ensures RecognisedOld(op) <==> !IsScript(op.before)
  {
    assert AsObserved(op.before) == op.before;
    ObservedByBytes(PlannedState(op));
    ObservedByBytes(op.before);
  }

  /** Every directory the plan removes is empty in the old target. */
  ghost predicate RemovalsEmpty(ops: seq<Operation>, t: Tree) {
    forall op :: op in ops ==> RemovalReady(op, t)
  }

  lemma OpenAtBothEnds(ops: seq<Operation>, store: Store, t: Tree)
    requires Executable(ops, store, t)
    requires OpenToRollback(ops, After(ops, store, t, 0)) && OpenToRollback(ops, After(ops, store, t, |ops|))
    ensures AllRecognised(ops) && RemovalsEmpty(ops, t)
  {
    OpenAfter(ops, store, t, 0);
    OpenAfter(ops, store, t, |ops|);
    forall op | op in ops ensures RecognisedNew(op) && RecognisedOld(op) && RemovalReady(op, t) {
      var j :| 0 <= j < |ops| && ops[j] == op;
      assert RecognisedNew(ops[j]);
    }
  }

  lemma OpenAlong(ops: seq<Operation>, store: Store, t: Tree, k: nat)
    requires Executable(ops, store, t) && k <= |ops| && AllRecognised(ops) && RemovalsEmpty(ops, t)
    ensures OpenToRollback(ops, After(ops, store, t, k))
    ensures AllNewRecognised(ops, k) && AllOldRecognised(ops, k, |ops|, After(ops, store, t, k))
  {
    forall j | 0 <= j < k ensures RecognisedNew(ops[j]) { assert ops[j] in ops; }
    forall j | k <= j < |ops| ensures RecognisedOld(ops[j]) && RemovalReady(ops[j], After(ops, store, t, k)) {
      assert ops[j] in ops;
      if ops[j].RemoveEmptyDirectory? { StaysEmpty(ops, store, t, k, j); }
    }
    OpenAfter(ops, store, t, k);
  }

  /** Newly reserved containers, all with one token. */
  function Reserved(c: Compiled, token: Digest): (cs: seq<PreparationIdentity>)
    ensures ContainersReserve(c.plan, c.transaction, cs)
    ensures forall x :: x in cs ==> x.token == token
  {
    seq(|RollbackSpecs(c.plan)|, i requires 0 <= i < |RollbackSpecs(c.plan)| =>
      PreparationIdentity(c.transaction, RollbackSpecs(c.plan)[i], token))
  }

  lemma MutatingRecord(g: Setting, d: Disk)
    requires DiskInv(g, d, Some(MutatingPhase))
    ensures d.root.journal.Some?
    ensures Recoverable(g, d) <==> d.root.pending.None? && d.containers == map[] && OpenToRollback(g.Operations(), d.tree)
  {
  }

  /** Every recovery from `w` completes. */
  ghost predicate Recovers(g: Setting, w: World) {
    forall own :: FreshContainers(g.c, w.disk, own) ==> RecoverOnce(g, own, w.disk).Ended?
  }

  /** No recovery from `w` completes. */
  ghost predicate Sticks(g: Setting, w: World) {
    forall own :: FreshContainers(g.c, w.disk, own) ==> RecoverOnce(g, own, w.disk).GivenUp?
  }

  lemma MutatingFate(g: Setting, w: World)
    requires g.Good() && Reached(g, w) && MutatingCrash(w)
    ensures w.disk.containers == map[] && OpenToRollback(g.Operations(), w.disk.tree) ==> Recovers(g, w)
    ensures w.disk.containers != map[] || !OpenToRollback(g.Operations(), w.disk.tree) ==> Sticks(g, w)
  {
    ReachedIsConsistent(g, w);
    MutatingRecord(g, w.disk);
    forall own | FreshContainers(g.c, w.disk, own)
      ensures RecoverOnce(g, own, w.disk).Ended? <==> Recoverable(g, w.disk)
    {
      RecoveryCompletes(g, own, w.disk, w.last);
    }
  }

  /** A fresh reservation exists, so a world is not both. */
  lemma NotBoth(g: Setting, w: World, token: Digest)
    requires forall i :: i in w.disk.containers ==> w.disk.containers[i].token != token
    ensures !(Recovers(g, w) && Sticks(g, w))
  {
    assert FreshContainers(g.c, w.disk, Reserved(g.c, token));
  }

  lemma ClosedCrashSticks(g: Setting, k: nat) returns (w: World)
    requires g.Good() && k <= g.Count() && !OpenToRollback(g.Operations(), g.At(k))
    ensures Reached(g, w) && CleanCrash(w) && w.disk.tree == g.At(k) && Sticks(g, w) && !Recovers(g, w)
  {
    w := CrashesAnywhere(g, k);
    MutatingFate(g, w);
    NotBoth(g, w, Sha256([]));
  }

  /**
   For a plan that can be executed: a recovery completes after every crash under
   MUTATING that left no pending write and no rollback container, if and only if the
   executor recognises by their bytes all files the plan replaces, deletes or
   writes, and every directory the plan removes is empty in the old target.
   */
  lemma CleanCrashesRecover(g: Setting)
    requires g.Good()
    ensures (forall w :: Reached(g, w) && CleanCrash(w) ==> Recovers(g, w)) <==>
      AllRecognised(g.Operations()) && RemovalsEmpty(g.Operations(), g.Before())
  {
    var ops, store := g.Operations(), g.c.plan.store;
    if AllRecognised(ops) && RemovalsEmpty(ops, g.Before()) {
      forall w | Reached(g, w) && CleanCrash(w) ensures Recovers(g, w) { OpenCrashRecovers(g, w); }
    } else {
      assert g.StateIs(0) && g.StateIs(g.Count());
      if OpenToRollback(ops, g.At(0)) && OpenToRollback(ops, g.At(g.Count())) {
        OpenAtBothEnds(ops, store, g.Before());
      }
      var w := ClosedCrashSticks(g, if OpenToRollback(ops, g.At(0)) then g.Count() else 0);
    }
  }

  lemma OpenCrashRecovers(g: Setting, w: World)
    requires g.Good() && AllRecognised(g.Operations()) && RemovalsEmpty(g.Operations(), g.Before())
    requires Reached(g, w) && CleanCrash(w)
    ensures Recovers(g, w)
  {
    ReachedIsConsistent(g, w);
    var k: nat :| k <= g.Count() && w.disk.tree == g.At(k);
    assert g.StateIs(k);
    OpenAlong(g.Operations(), g.c.plan.store, g.Before(), k);
    MutatingFate(g, w);
  }
}
