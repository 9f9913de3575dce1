/**
 The rollback and sealed-forward reducers, the phase gates of a live run, and the
 phase gates of recovery.
 */
module Rollback {
  import opened Results
  import opened Paths
  import opened Sorting
  import opened Identity
  import opened Plans

  datatype RollbackDecision =
    | AlreadyRestored
    | RestoreOldFile
    | RemoveCreatedTree
    | RestoreEmptyDirectory
    | RollbackThirdState

  datatype SealedDecision = AlreadyCandidate | SealedThirdState

  function Current(states: map<Path, FileState>, p: Path): FileState {
    if p in states then states[p] else Absent
  }

  function CurrentDirectory(states: map<Path, DirectoryState>, p: Path): Option<DirectoryState> {
    if p in states then Some(states[p]) else None
  }

  function RollbackFileStep(before: FileState, planned: FileState, current: FileState): RollbackDecision {
    if current == before then AlreadyRestored
    else if current == planned then RestoreOldFile
    else RollbackThirdState
  }

  predicate TreeMatches(tree: PlannedTree, current: DirectoryState) {
    TreeHash(current) == tree.hash
  }

  function RollbackDirectoryStep(op: Operation, current: Option<DirectoryState>): (r: RollbackDecision)
    requires !FileOperation(op)
    ensures r.RestoreEmptyDirectory? ==> op.RemoveEmptyDirectory? && current.None?
  {
    match op
    case CreateTree(_, before, tree) =>
      if current == before then AlreadyRestored
      else if current.Some? && TreeMatches(tree, current.value) then RemoveCreatedTree
      else RollbackThirdState
    case RemoveEmptyDirectory(_, before) =>
      if current == Some(before) then AlreadyRestored
      else if current.None? then RestoreEmptyDirectory
      else RollbackThirdState
  }

  function SealedFileStep(planned: FileState, current: FileState): SealedDecision {
    if current == planned then AlreadyCandidate else SealedThirdState
  }

  function SealedDirectoryStep(op: Operation, current: Option<DirectoryState>): SealedDecision
    requires !FileOperation(op)
  {
    match op
    case CreateTree(_, _, tree) =>
      if current.Some? && TreeMatches(tree, current.value) then AlreadyCandidate else SealedThirdState
    case RemoveEmptyDirectory(_, _) =>
      if current.None? then AlreadyCandidate else SealedThirdState
  }

  function RollbackDecisionOf(op: Operation, files: map<Path, FileState>,
                              directories: map<Path, DirectoryState>): RollbackDecision {
    if FileOperation(op) then RollbackFileStep(op.before, PlannedState(op), Current(files, op.path))
    else RollbackDirectoryStep(op, CurrentDirectory(directories, op.path))
  }

  function SealedDecisionOf(op: Operation, files: map<Path, FileState>,
                            directories: map<Path, DirectoryState>): SealedDecision {
    if FileOperation(op) then SealedFileStep(PlannedState(op), Current(files, op.path))
    else SealedDirectoryStep(op, CurrentDirectory(directories, op.path))
  }

  datatype RollbackStep = RollbackStep(index: nat, path: Path, decision: RollbackDecision)
  datatype SealedStep = SealedStep(index: nat, path: Path, decision: SealedDecision)

  function RollbackSteps(plan: Plan, snapshot: Snapshot): (r: seq<RollbackStep>)
    ensures |r| == |plan.operations|
  {
    var files, directories := FileStates(snapshot.files), DirectoryStates(snapshot.directories);
    seq(|plan.operations|, i requires 0 <= i < |plan.operations| =>
      RollbackStep(i, plan.operations[i].path, RollbackDecisionOf(plan.operations[i], files, directories)))
  }

  function SealedSteps(plan: Plan, snapshot: Snapshot): (r: seq<SealedStep>)
    ensures |r| == |plan.operations|
  {
    var files, directories := FileStates(snapshot.files), DirectoryStates(snapshot.directories);
    seq(|plan.operations|, i requires 0 <= i < |plan.operations| =>
      SealedStep(i, plan.operations[i].path, SealedDecisionOf(plan.operations[i], files, directories)))
  }

  // The gates of recovery: the first step that is not terminal is a third state

  datatype Verification = Intact | ThirdStateFound(path: Path)

  function FirstUnrestored(steps: seq<RollbackStep>): Verification {
    if steps == [] then Intact
    else if !steps[0].decision.AlreadyRestored? then ThirdStateFound(steps[0].path)
    else FirstUnrestored(steps[1..])
  }

  function RestoredVerification(plan: Plan, snapshot: Snapshot): Verification {
    FirstUnrestored(RollbackSteps(plan, snapshot))
  }

  function FirstUnsealed(steps: seq<SealedStep>): Verification {
    if steps == [] then Intact
    else if !steps[0].decision.AlreadyCandidate? then ThirdStateFound(steps[0].path)
    else FirstUnsealed(steps[1..])
  }

  function SealedVerification(plan: Plan, snapshot: Snapshot): Verification {
    FirstUnsealed(SealedSteps(plan, snapshot))
  }

  // The gates of a live run

  predicate FileStateMatches(observed: FileState, expected: FileState) {
    if expected.Present? then observed.Present? && observed == expected else observed.Absent?
  }

  predicate PreconditionMatches(op: Operation, files: map<Path, FileState>,
                                directories: map<Path, DirectoryState>) {
    match op
    case CreateFile(p, before, _) => FileStateMatches(Current(files, p), before)
    case ReplaceFile(p, before, _) => FileStateMatches(Current(files, p), before)
    case DeleteFile(p, before) => FileStateMatches(Current(files, p), before)
    case CreateTree(p, before, _) =>
      if before.None? then p !in directories else CurrentDirectory(directories, p) == before
    case RemoveEmptyDirectory(p, before) => CurrentDirectory(directories, p) == Some(before)
  }

  predicate SnapshotMatchesPreconditions(plan: Plan, snapshot: Snapshot) {
    var files, directories := FileStates(snapshot.files), DirectoryStates(snapshot.directories);
    forall op :: op in plan.operations ==> PreconditionMatches(op, files, directories)
  }

  predicate CandidateMatches(op: Operation, files: map<Path, FileState>,
                             directories: map<Path, DirectoryState>, store: Store)
    requires op.CreateTree? ==> HasBlobs(op.tree.entries, store)
  {
    match op
    case CreateFile(p, _, planned) =>
      p in files && files[p].Present? && files[p].identity == planned.identity && files[p].mode == planned.mode
    case ReplaceFile(p, _, planned) =>
      p in files && files[p].Present? && files[p].identity == planned.identity && files[p].mode == planned.mode
    case DeleteFile(p, _) => p !in files || files[p].Absent?
    case CreateTree(p, _, tree) => p in directories && directories[p] == PlannedContent(tree, store)
    case RemoveEmptyDirectory(p, _) => p !in directories
  }

  /** The blobs of every planned tree are stored, as the planner leaves them. */
  predicate TreesStored(plan: Plan) {
    forall op :: op in plan.operations && op.CreateTree? ==> HasBlobs(op.tree.entries, plan.store)
  }

  predicate SnapshotMatchesCandidate(plan: Plan, snapshot: Snapshot)
    requires TreesStored(plan)
  {
    var files, directories := FileStates(snapshot.files), DirectoryStates(snapshot.directories);
    forall op :: op in plan.operations ==> CandidateMatches(op, files, directories, plan.store)
  }

  // The two pairs of gates agree

  lemma {:induction false} FirstUnrestoredIntact(steps: seq<RollbackStep>)
    ensures FirstUnrestored(steps) == Intact <==>
      forall i :: 0 <= i < |steps| ==> steps[i].decision.AlreadyRestored?
    decreases |steps|
  {
    if steps != [] {
      FirstUnrestoredIntact(steps[1..]);
      assert forall i :: 0 < i < |steps| ==> steps[i] == steps[1..][i - 1];
    }
  }

  lemma {:induction false} FirstUnsealedIntact(steps: seq<SealedStep>)
    ensures FirstUnsealed(steps) == Intact <==>
      forall i :: 0 <= i < |steps| ==> steps[i].decision.AlreadyCandidate?
    decreases |steps|
  {
    if steps != [] {
      FirstUnsealedIntact(steps[1..]);
      assert forall i :: 0 < i < |steps| ==> steps[i] == steps[1..][i - 1];
    }
  }

  /** Recovery reads "pre-state intact" from exactly the snapshots a live run accepts as pre-state. */
  lemma RestoredGatesAgree(plan: Plan, snapshot: Snapshot)
    ensures RestoredVerification(plan, snapshot) == Intact <==> SnapshotMatchesPreconditions(plan, snapshot)
  {
    var files, directories := FileStates(snapshot.files), DirectoryStates(snapshot.directories);
    var steps := RollbackSteps(plan, snapshot);
    FirstUnrestoredIntact(steps);
    forall i | 0 <= i < |steps|
      ensures steps[i].decision.AlreadyRestored? <==> PreconditionMatches(plan.operations[i], files, directories)
    {
    }
    if forall i :: 0 <= i < |steps| ==> steps[i].decision.AlreadyRestored? {
      forall op | op in plan.operations ensures PreconditionMatches(op, files, directories) {
        var i :| 0 <= i < |steps| && plan.operations[i] == op;
        assert steps[i].decision.AlreadyRestored?;
      }
    }
  }

  /** The recorded hash of a planned tree is the hash of its planned content, listed in path order. */
  ghost predicate TreesHashed(plan: Plan) {
    && TreesStored(plan)
    && forall op :: op in plan.operations && op.CreateTree? ==>
      && op.tree.hash == TreeHash(PlannedContent(op.tree, plan.store))
      && Canonical(PlannedContent(op.tree, plan.store).entries)
  }

  /** Every observed directory lists its entries in path order. */
  ghost predicate CanonicalSnapshot(snapshot: Snapshot) {
    forall p :: p in DirectoryStates(snapshot.directories) ==>
      Canonical(DirectoryStates(snapshot.directories)[p].entries)
  }

  /**
   Recovery reads "candidate intact", by tree hash, from exactly the snapshots a
   live run seals, by equality.
   */
  lemma SealedGatesAgree(plan: Plan, snapshot: Snapshot)
    requires TreesHashed(plan) && CanonicalSnapshot(snapshot)
    ensures SealedVerification(plan, snapshot) == Intact <==> SnapshotMatchesCandidate(plan, snapshot)
  {
    var files, directories := FileStates(snapshot.files), DirectoryStates(snapshot.directories);
    var steps := SealedSteps(plan, snapshot);
    FirstUnsealedIntact(steps);
    forall i | 0 <= i < |steps|
      ensures steps[i].decision.AlreadyCandidate? <==>
        (plan.operations[i] in plan.operations && CandidateMatches(plan.operations[i], files, directories, plan.store))
    {
      var op := plan.operations[i];
      assert op in plan.operations;
      if op.CreateTree? && op.path in directories {
        TreeHashIsEquality(directories[op.path], PlannedContent(op.tree, plan.store));
      }
    }
    if forall i :: 0 <= i < |steps| ==> steps[i].decision.AlreadyCandidate? {
      forall op | op in plan.operations ensures CandidateMatches(op, files, directories, plan.store) {
        var i :| 0 <= i < |steps| && plan.operations[i] == op;
        assert steps[i].decision.AlreadyCandidate?;
      }
    }
  }

  lemma {:induction false} FirstUnrestoredNames(steps: seq<RollbackStep>) returns (i: nat)
    requires FirstUnrestored(steps) != Intact
    ensures i < |steps| && FirstUnrestored(steps) == ThirdStateFound(steps[i].path) && !steps[i].decision.AlreadyRestored?
    ensures forall j :: 0 <= j < i ==> steps[j].decision.AlreadyRestored?
    decreases |steps|
  {
    i := 0;
    if steps[0].decision.AlreadyRestored? {
      var k := FirstUnrestoredNames(steps[1..]);
      i := k + 1;
      assert forall j :: 0 < j < i ==> steps[j] == steps[1..][j - 1];
    }
  }

  lemma {:induction false} FirstUnsealedNames(steps: seq<SealedStep>) returns (i: nat)
    requires FirstUnsealed(steps) != Intact
    ensures i < |steps| && FirstUnsealed(steps) == ThirdStateFound(steps[i].path) && !steps[i].decision.AlreadyCandidate?
    ensures forall j :: 0 <= j < i ==> steps[j].decision.AlreadyCandidate?
    decreases |steps|
  {
    i := 0;
    if steps[0].decision.AlreadyCandidate? {
      var k := FirstUnsealedNames(steps[1..]);
      i := k + 1;
      assert forall j :: 0 < j < i ==> steps[j] == steps[1..][j - 1];
    }
  }

  lemma PreStateDecided(op: Operation, snapshot: Snapshot)
    ensures var files, directories := FileStates(snapshot.files), DirectoryStates(snapshot.directories);
      RollbackDecisionOf(op, files, directories).AlreadyRestored? <==> PreconditionMatches(op, files, directories)
  {
  }

  /** The path a refused pre-state names is that of the first operation, in plan order, that is not at its old state. */
  lemma RefusedPreStateIsFirst(plan: Plan, snapshot: Snapshot) returns (i: nat)
    requires RestoredVerification(plan, snapshot) != Intact
    ensures i < |plan.operations| && RestoredVerification(plan, snapshot) == ThirdStateFound(plan.operations[i].path)
    ensures var files, directories := FileStates(snapshot.files), DirectoryStates(snapshot.directories);
      && !PreconditionMatches(plan.operations[i], files, directories)
      && forall j :: 0 <= j < i ==> PreconditionMatches(plan.operations[j], files, directories)
  {
    i := FirstUnrestoredNames(RollbackSteps(plan, snapshot));
    var steps := RollbackSteps(plan, snapshot);
    forall j | 0 <= j <= i ensures steps[j].decision.AlreadyRestored? <==>
      PreconditionMatches(plan.operations[j], FileStates(snapshot.files), DirectoryStates(snapshot.directories)) {
      PreStateDecided(plan.operations[j], snapshot);
    }
  }

  lemma CandidateDecided(plan: Plan, op: Operation, snapshot: Snapshot)
    requires TreesHashed(plan) && CanonicalSnapshot(snapshot) && op in plan.operations
    ensures var files, directories := FileStates(snapshot.files), DirectoryStates(snapshot.directories);
      SealedDecisionOf(op, files, directories).AlreadyCandidate? <==> CandidateMatches(op, files, directories, plan.store)
  {
    var directories := DirectoryStates(snapshot.directories);
    if op.CreateTree? && op.path in directories {
      TreeHashIsEquality(directories[op.path], PlannedContent(op.tree, plan.store));
    }
  }

  /** The path a refused candidate names is that of the first operation that is not at its new state. */
  lemma RefusedCandidateIsFirst(plan: Plan, snapshot: Snapshot) returns (i: nat)
    requires TreesHashed(plan) && CanonicalSnapshot(snapshot) && SealedVerification(plan, snapshot) != Intact
    ensures i < |plan.operations| && SealedVerification(plan, snapshot) == ThirdStateFound(plan.operations[i].path)
    ensures var files, directories := FileStates(snapshot.files), DirectoryStates(snapshot.directories);
      && plan.operations[i] in plan.operations && !CandidateMatches(plan.operations[i], files, directories, plan.store)
      && forall j :: 0 <= j < i ==> plan.operations[j] in plan.operations && CandidateMatches(plan.operations[j], files, directories, plan.store)
  {
    i := FirstUnsealedNames(SealedSteps(plan, snapshot));
    var steps := SealedSteps(plan, snapshot);
    forall j | 0 <= j <= i ensures plan.operations[j] in plan.operations && (steps[j].decision.AlreadyCandidate? <==>
      CandidateMatches(plan.operations[j], FileStates(snapshot.files), DirectoryStates(snapshot.directories), plan.store)) {
      CandidateDecided(plan, plan.operations[j], snapshot);
    }
  }

  // The reserved artifacts of a plan

  datatype Role = Stage | Backup | RollbackContainer
  datatype ArtifactKind = FileArtifact | DirectoryArtifact

  datatype PreparationSpec = PreparationSpec(
    index: nat, role: Role, kind: ArtifactKind, raw: Option<Digest>, mode: Mode)

  /** Stages hold new content; backups hold old content. */
  function PreparationSpecsOf(op: Operation, index: nat): seq<PreparationSpec> {
    match op
    case CreateFile(_, _, planned) =>
      [PreparationSpec(index, Stage, FileArtifact, Some(planned.identity.raw), planned.mode)]
    case ReplaceFile(_, before, planned) =>
      [PreparationSpec(index, Stage, FileArtifact, Some(planned.identity.raw), planned.mode)]
      + BackupSpecs(before, index, Backup)
    case DeleteFile(_, before) => BackupSpecs(before, index, Backup)
    case CreateTree(_, _, tree) => [PreparationSpec(index, Stage, DirectoryArtifact, None, tree.rootMode)]
    case RemoveEmptyDirectory(_, _) => []
  }

  function BackupSpecs(before: FileState, index: nat, role: Role): seq<PreparationSpec> {
    if before.Absent? then []
    else [PreparationSpec(index, role, FileArtifact, Some(before.identity.raw), before.mode)]
  }

  /** The container an operation needs to put its old state back. */
  function RollbackSpecsOf(op: Operation, index: nat): seq<PreparationSpec> {
    match op
    case CreateFile(_, _, _) => []
    case ReplaceFile(_, before, _) => BackupSpecs(before, index, RollbackContainer)
    case DeleteFile(_, before) => BackupSpecs(before, index, RollbackContainer)
    case CreateTree(_, _, tree) =>
      [PreparationSpec(index, RollbackContainer, DirectoryArtifact, None, tree.rootMode)]
    case RemoveEmptyDirectory(_, before) =>
      [PreparationSpec(index, RollbackContainer, DirectoryArtifact, None, before.rootMode)]
  }

  function PreparationSpecsFrom(ops: seq<Operation>, first: nat): seq<PreparationSpec> {
    if ops == [] then [] else PreparationSpecsOf(ops[0], first) + PreparationSpecsFrom(ops[1..], first + 1)
  }

  function RollbackSpecsFrom(ops: seq<Operation>, first: nat): seq<PreparationSpec> {
    if ops == [] then [] else RollbackSpecsOf(ops[0], first) + RollbackSpecsFrom(ops[1..], first + 1)
  }

  function PreparationSpecs(plan: Plan): seq<PreparationSpec> {
    PreparationSpecsFrom(plan.operations, 0)
  }

  function RollbackSpecs(plan: Plan): seq<PreparationSpec> {
    RollbackSpecsFrom(plan.operations, 0)
  }

  /** `s` reserves a place for the new content of `op`, with its digest and mode. */
  predicate StageOf(s: PreparationSpec, op: Operation) {
    && s.role.Stage?
    && if FileOperation(op) then
         var planned := PlannedState(op);
         planned.Present? && s.kind.FileArtifact? && s.raw == Some(planned.identity.raw) && s.mode == planned.mode
       else
         op.CreateTree? && s.kind.DirectoryArtifact? && s.raw == None && s.mode == op.tree.rootMode
  }

  /** `s` reserves a place of role `role` for the old file of `op`, with its digest and mode. */
  predicate OldFileOf(s: PreparationSpec, role: Role, op: Operation) {
    && s.role == role && s.kind.FileArtifact?
    && (op.ReplaceFile? || op.DeleteFile?) && op.before.Present?
    && s.raw == Some(op.before.identity.raw) && s.mode == op.before.mode
  }

  /** `s` reserves the container `op` is rolled back through: its old file, the tree it created, or the directory it removed. */
  predicate ContainerOf(s: PreparationSpec, op: Operation) {
    || OldFileOf(s, RollbackContainer, op)
    || (&& s.role.RollbackContainer? && s.kind.DirectoryArtifact? && s.raw == None
        && match op
           case CreateTree(_, _, tree) => s.mode == tree.rootMode
           case RemoveEmptyDirectory(_, before) => s.mode == before.rootMode
           case _ => false)
  }

  /** By operation, and a stage before the backup of the same operation. */
  ghost predicate InReservationOrder(specs: seq<PreparationSpec>) {
    forall i, j :: 0 <= i < j < |specs| ==>
      specs[i].index < specs[j].index || (specs[i].index == specs[j].index && specs[i].role.Stage? && specs[j].role.Backup?)
  }

  lemma ReservedForOne(op: Operation, index: nat)
    ensures forall s :: s in PreparationSpecsOf(op, index) <==> s.index == index && (StageOf(s, op) || OldFileOf(s, Backup, op))
    ensures InReservationOrder(PreparationSpecsOf(op, index))
  {
    if op.ReplaceFile? && op.before.Present? {
      var stage := PreparationSpec(index, Stage, FileArtifact, Some(op.planned.identity.raw), op.planned.mode);
      var backup := PreparationSpec(index, Backup, FileArtifact, Some(op.before.identity.raw), op.before.mode);
      assert PreparationSpecsOf(op, index) == [stage, backup];
    }
  }

  lemma ContainerForOne(op: Operation, index: nat)
    ensures forall s :: s in RollbackSpecsOf(op, index) <==> s.index == index && ContainerOf(s, op)
    ensures InReservationOrder(RollbackSpecsOf(op, index))
  {
  }

  predicate Reserves(s: PreparationSpec, ops: seq<Operation>, first: nat) {
    first <= s.index < first + |ops| && (StageOf(s, ops[s.index - first]) || OldFileOf(s, Backup, ops[s.index - first]))
  }

  predicate ReservesContainer(s: PreparationSpec, ops: seq<Operation>, first: nat) {
    first <= s.index < first + |ops| && ContainerOf(s, ops[s.index - first])
  }

  lemma OrderedConcat(a: seq<PreparationSpec>, b: seq<PreparationSpec>, index: nat)
    requires InReservationOrder(a) && InReservationOrder(b)
    requires (forall s :: s in a ==> s.index == index) && forall s :: s in b ==> s.index > index
    ensures InReservationOrder(a + b)
  {
    assert forall i :: 0 <= i < |a| ==> a[i] in a;
    assert forall i :: 0 <= i < |b| ==> b[i] in b;
  }

  lemma {:induction false} ReservedFrom(ops: seq<Operation>, first: nat)
    ensures forall s :: s in PreparationSpecsFrom(ops, first) <==> Reserves(s, ops, first)
    ensures InReservationOrder(PreparationSpecsFrom(ops, first))
    decreases |ops|
  {
    if ops != [] {
      ReservedFrom(ops[1..], first + 1);
      ReservedForOne(ops[0], first);
      OrderedConcat(PreparationSpecsOf(ops[0], first), PreparationSpecsFrom(ops[1..], first + 1), first);
    }
  }

  lemma {:induction false} ContainersFrom(ops: seq<Operation>, first: nat)
    ensures forall s :: s in RollbackSpecsFrom(ops, first) <==> ReservesContainer(s, ops, first)
    ensures InReservationOrder(RollbackSpecsFrom(ops, first))
    decreases |ops|
  {
    if ops != [] {
      ContainersFrom(ops[1..], first + 1);
      ContainerForOne(ops[0], first);
      OrderedConcat(RollbackSpecsOf(ops[0], first), RollbackSpecsFrom(ops[1..], first + 1), first);
    }
  }

  /**
   A plan reserves exactly a stage for each new content, with the planned digest and
   mode, a backup for each file it replaces or deletes, with the old ones, and for
   rolling back a container for each old state, all in plan order.
   */
  lemma ReservationsAreExact(plan: Plan)
    ensures forall s :: s in PreparationSpecs(plan) <==>
      s.index < |plan.operations| && (StageOf(s, plan.operations[s.index]) || OldFileOf(s, Backup, plan.operations[s.index]))
    ensures forall s :: s in RollbackSpecs(plan) <==>
      s.index < |plan.operations| && ContainerOf(s, plan.operations[s.index])
    ensures InReservationOrder(PreparationSpecs(plan)) && InReservationOrder(RollbackSpecs(plan))
  {
    ReservedFrom(plan.operations, 0);
    ContainersFrom(plan.operations, 0);
    assert forall s :: Reserves(s, plan.operations, 0) <==>
      s.index < |plan.operations| && (StageOf(s, plan.operations[s.index]) || OldFileOf(s, Backup, plan.operations[s.index]));
    assert forall s :: ReservesContainer(s, plan.operations, 0) <==>
      s.index < |plan.operations| && ContainerOf(s, plan.operations[s.index]);
  }

  datatype CleanupItem =
    | CleanStage(index: nat)
    | CleanBackup(index: nat)
    | CleanRollback(index: nat)
    | CleanTransactionDirectory
    | CleanJournal

  function CleanupOfPreparation(spec: PreparationSpec): seq<CleanupItem> {
    match spec.role
    case Stage => [CleanStage(spec.index)]
    case Backup => [CleanBackup(spec.index)]
    case RollbackContainer => []
  }

  function CleanupOfPreparations(specs: seq<PreparationSpec>): seq<CleanupItem> {
    if specs == [] then [] else CleanupOfPreparation(specs[0]) + CleanupOfPreparations(specs[1..])
  }

  function CleanupOfContainers(specs: seq<PreparationSpec>): (r: seq<CleanupItem>)
    ensures |r| == |specs|
    ensures forall i :: 0 <= i < |r| ==> r[i] == CleanRollback(specs[i].index)
  {
    seq(|specs|, i requires 0 <= i < |specs| => CleanRollback(specs[i].index))
  }

  /** `sealed` picks the forward inventory; otherwise rollback containers are cleaned too. */
  function Cleanup(plan: Plan, isSealed: bool): seq<CleanupItem> {
    CleanupOfPreparations(PreparationSpecs(plan))
    + (if isSealed then [] else CleanupOfContainers(RollbackSpecs(plan)))
    + [CleanTransactionDirectory, CleanJournal]
  }

  lemma {:induction false} PreparationsReserveNoContainer(ops: seq<Operation>, first: nat)
    ensures forall s :: s in PreparationSpecsFrom(ops, first) ==>
      !s.role.RollbackContainer? && first <= s.index < first + |ops|
    decreases |ops|
  {
    if ops != [] { PreparationsReserveNoContainer(ops[1..], first + 1); }
  }

  lemma {:induction false} CleanupOfPreparationsCovers(specs: seq<PreparationSpec>)
    requires forall s :: s in specs ==> !s.role.RollbackContainer?
    ensures |CleanupOfPreparations(specs)| == |specs|
    ensures forall i :: 0 <= i < |specs| ==>
      CleanupOfPreparations(specs)[i] ==
        (if specs[i].role.Stage? then CleanStage(specs[i].index) else CleanBackup(specs[i].index))
    decreases |specs|
  {
    if specs != [] {
      assert specs[0] in specs;
      CleanupOfPreparationsCovers(specs[1..]);
      assert forall i :: 0 < i < |specs| ==> specs[i] == specs[1..][i - 1];
    }
  }

  /** One cleanup item per reserved artifact, then the transaction directory, and the journal last. */
  lemma CleanupShape(plan: Plan, isSealed: bool)
    ensures |Cleanup(plan, isSealed)| ==
      |PreparationSpecs(plan)| + (if isSealed then 0 else |RollbackSpecs(plan)|) + 2
    ensures Cleanup(plan, isSealed)[|Cleanup(plan, isSealed)| - 2] == CleanTransactionDirectory
    ensures Cleanup(plan, isSealed)[|Cleanup(plan, isSealed)| - 1] == CleanJournal
    ensures forall i :: 0 <= i < |Cleanup(plan, isSealed)| - 2 ==>
      !Cleanup(plan, isSealed)[i].CleanJournal? && !Cleanup(plan, isSealed)[i].CleanTransactionDirectory?
    ensures forall s :: s in PreparationSpecs(plan) && s.role.Backup? ==>
      CleanBackup(s.index) in Cleanup(plan, isSealed)[..|Cleanup(plan, isSealed)| - 2]
  {
    var specs := PreparationSpecs(plan);
    PreparationsReserveNoContainer(plan.operations, 0);
    CleanupOfPreparationsCovers(specs);
    var items := Cleanup(plan, isSealed);
    forall s | s in specs && s.role.Backup? ensures CleanBackup(s.index) in items[..|items| - 2] {
      var i :| 0 <= i < |specs| && specs[i] == s;
      assert items[..|items| - 2][i] == CleanBackup(s.index);
    }
  }
}
