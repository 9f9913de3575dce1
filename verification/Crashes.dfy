/**
 Whole runs of an install transaction: the live machine, crashes at any moment,
 and recoveries that may crash in turn.  No process other than these writes.
 */
module Crashes {
  import opened Results
  import opened Paths
  import opened Identity
  import opened Plans
  import opened Rollback
  import opened Targets
  import opened Inversion
  import opened Capture
  import opened Machine
  import opened Receipts
  import opened Journals

  /** One compiled transaction and the targets it passes through: `At(k)` is the target after `k` operations. */
  datatype Setting = Setting(c: Compiled, states: seq<Tree>)
  {
    function Operations(): seq<Operation> { c.plan.operations }
    function Count(): nat { |c.plan.operations| }

    function At(k: nat): Tree { if k < |states| then states[k] else Tree(map[], map[]) }
    function Before(): Tree { At(0) }
    function Candidate(): Tree { At(Count()) }

    ghost predicate StateIs(k: nat) {
      Runs(c.plan.operations, c.plan.store, Before()) && k <= Count() && At(k) == After(c.plan.operations, c.plan.store, Before(), k)
    }

    ghost predicate Good() {
      && WellCompiled(c)
      && Executable(c.plan.operations, c.plan.store, Before())
      && AllSurvive(c.plan.operations)
      && forall k {:trigger StateIs(k)} :: 0 <= k <= Count() ==> StateIs(k)
    }

    /** The plan recovery rebuilds from the journaled receipt. */
    function Rebuilt(): Plan { c.plan.(store := EmptyStore(c.plan.store.limits)) }
  }

  /** `containers` are the standing rollback containers, by operation, each with the identity in its marker. */
  datatype Disk = Disk(root: Root, tree: Tree, backups: map<nat, Node>, containers: map<nat, PreparationIdentity>)

  /** A recovery carries its `own` rollback containers, reserved with newly drawn tokens. */
  datatype Process =
    | Down
    | Live(s: State, request: Request, half: bool)
    | RollingBackAgain(plan: Plan, own: seq<PreparationIdentity>, left: nat)
    | CheckingRolledBack(plan: Plan, own: seq<PreparationIdentity>)
    | PersistingRestored(plan: Plan, own: seq<PreparationIdentity>, half: bool)
    | CheckingPhase(plan: Plan, isSealed: bool)
    | CleaningAgain(plan: Plan, isSealed: bool, own: seq<PreparationIdentity>, cursor: nat)
    | DiscardingPreparation(preparations: seq<PreparationIdentity>, cursor: nat)

  /** `last` is the most recent durable phase; it outlives the journal that recorded it. */
  datatype World = World(disk: Disk, process: Process, last: Option<Phase>)

  // Journal records of this transaction

  predicate ContainersReserve(plan: Plan, transaction: nat, cs: seq<PreparationIdentity>) {
    && |cs| == |RollbackSpecs(plan)|
    && forall i :: 0 <= i < |cs| ==> cs[i].transaction == transaction && cs[i].spec == RollbackSpecs(plan)[i]
  }

  /** Containers a new process reserves: its tokens are its own, and match no marker that is already there. */
  ghost predicate FreshContainers(c: Compiled, d: Disk, cs: seq<PreparationIdentity>) {
    && ContainersReserve(c.plan, c.transaction, cs)
    && forall i :: i in d.containers ==> d.containers[i] !in cs
  }

  function ContainerFor(cs: seq<PreparationIdentity>, i: nat): Option<PreparationIdentity> {
    if cs == [] then None else if cs[0].spec.index == i then Some(cs[0]) else ContainerFor(cs[1..], i)
  }

  /** The record of a phase; only `RESTORED` adds the rollback containers that were reserved. */
  function RecordFor(c: Compiled, phase: Phase, containers: seq<PreparationIdentity>): Envelope {
    Envelope(OperationKindText(c.plan.kind), c.plan.target, phase, c.transaction,
             c.preparations + containers, Some(Receipt(c.plan)))
  }

  ghost predicate GoodContainers(c: Compiled, phase: Phase, cs: seq<PreparationIdentity>) {
    cs == [] || (phase.RestoredPhase? && ContainersReserve(c.plan, c.transaction, cs))
  }

  ghost predicate GoodRecord(c: Compiled, e: Envelope) {
    exists cs :: GoodContainers(c, e.phase, cs) && e == RecordFor(c, e.phase, cs)
  }

  // Effects on the disk

  function CleanEffect(item: CleanupItem, d: Disk): Disk {
    match item
    case CleanStage(_) => d
    case CleanRollback(i) => d.(containers := d.containers - {i})
    case CleanBackup(i) => d.(backups := d.backups - {i})
    case CleanTransactionDirectory => d.(root := d.root.(transactions := d.root.transactions && d.backups != map[]))
    case CleanJournal => d.(root := JournalRemoved(d.root))
  }

  /** A process cleans a rollback container only if it has reserved one, and only its own: the marker has to match. */
  predicate MayClean(item: CleanupItem, own: seq<PreparationIdentity>, d: Disk) {
    item.CleanRollback? ==>
      && ContainerFor(own, item.index).Some?
      && (item.index in d.containers ==> d.containers[item.index] == ContainerFor(own, item.index).value)
  }

  /**
   Rolling back operation `i`.  Putting something back, other than by deleting a
   created file, goes through a marked container that is created exclusively and
   stands until it is cleaned.
   */
  ghost function UndoOne(op: Operation, i: nat, own: seq<PreparationIdentity>, d: Disk): Option<Disk> {
    match AttemptRollback(op, Lookup(d.backups, i), d.tree)
    case Done(u, restoredNow) =>
      if !restoredNow || op.CreateFile? then Some(d.(tree := u))
      else if ContainerFor(own, i).None? || i in d.containers then None
      else Some(d.(tree := u, containers := d.containers[i := ContainerFor(own, i).value]))
    case _ => None
  }

  /** Discarding one preparation: stages live beside the target and leave no trace here. */
  function Discarded(p: PreparationIdentity, d: Disk): Disk {
    if p.spec.role.Backup? then CleanEffect(CleanBackup(p.spec.index), d) else d
  }

  function TakeBackup(d: Disk, i: nat, node: Node): Disk {
    d.(backups := d.backups[i := node], root := d.root.(transactions := true))
  }

  /** The preparation effect: a backup copies the old file into the state root, a stage leaves it alone. */
  ghost predicate PrepareEffect(c: Compiled, spec: PreparationSpec, d: Disk, d': Disk) {
    if spec.role.Backup? then
      && spec.index < |c.plan.operations|
      && (c.plan.operations[spec.index].ReplaceFile? || c.plan.operations[spec.index].DeleteFile?)
      && var op := c.plan.operations[spec.index];
         op.path in d.tree.files && OldFileMatches(op.before, d.tree.files[op.path])
         && d' == TakeBackup(d, spec.index, d.tree.files[op.path])
    else d' == d
  }

  /**
   What a successful effect does to the disk and what it reports.  Every container a
   live run finds is its own, so it cleans what it finds.
   */
  ghost predicate LiveEffect(d: Disk, s: State, request: Request, d': Disk, o: Observation) {
    var ops := s.c.plan.operations;
    match request
    case AcquireLock => d' == d && (o == LockAcquired || o == LockRefused)
    case ObserveAgain => d' == d && o.Reobserved?
    case PersistJournal(_) => false
    case PrepareOne =>
      && s.Preparing? && s.cursor < |s.c.preparations|
      && PrepareEffect(s.c, s.c.preparations[s.cursor].spec, d, d')
      && o == PreparationCompleted(s.c.preparations[s.cursor])
    case ApplyOne =>
      && s.Installing? && s.cursor < |ops|
      && ApplyOperation(ops[s.cursor], s.c.plan.store, d.tree) == Some(d'.tree)
      && d' == d.(tree := d'.tree) && o == OperationApplied(s.cursor)
    case ObservePostState => d' == d && o.PostStateObserved? && o.snapshot == CapturePlan(ops, d.tree)
    case CleanOne =>
      && (s.CleaningForward? || s.CleaningRollback?)
      && s.cursor < |Cleanup(s.c.plan, s.CleaningForward?)|
      && d' == CleanEffect(Cleanup(s.c.plan, s.CleaningForward?)[s.cursor], d)
      && o == CleanupCompleted(s.cursor)
    case AttemptRollbackOne =>
      && s.RollingBack? && s.cursor < |ops|
      && (exists cs :: ContainersReserve(s.c.plan, s.c.transaction, cs) && UndoOne(ops[s.cursor], s.cursor, cs, d) == Some(d'))
      && o.RollbackStepCompleted? && o.index == s.cursor
    case ReleaseLock => d' == d && o == LockReleased
  }

  /** The process after the machine has been told `o`. */
  function Continue(s: State, o: Observation): Process
    requires WellCompiled(s.c)
  {
    match Transition(s, Observed(o))
    case Instruction(request, next) => Live(next, request, false)
    case Terminal(_) => Down
  }

  // Recovery, one effect at a time

  datatype RecoveryStep =
    | Next(disk: Disk, process: Process, persisted: bool)
    | Finished(disk: Disk)
    | Refused

  function RecordIn(root: Root): Option<Envelope> {
    if root.journal.Some? && root.journal.value.Record? && DecodeJournal(root.journal.value.document).Ok?
    then Some(DecodeJournal(root.journal.value.document).value) else None
  }

  /** The plan recovery works from: the journaled receipt and nothing else. */
  function RecoveredPlan(e: Envelope, target: nat, limits: Limits): Option<Plan> {
    if e.receipt.None? then None else
      match Reconstructed(e.receipt.value, target, limits)
      case Ok(plan) => Some(plan)
      case Err(_) => None
  }

  /** What a recovery run does first, as its journal observation decides. */
  function StartRecovery(g: Setting, own: seq<PreparationIdentity>, d: Disk): RecoveryStep {
    var target := g.c.plan.target;
    var action := RecoveryActionFor(ClassifyStateRoot(d.root, target), target);
    if action.NothingToRecover? then Finished(d)
    else if action.RefuseRecovery? then Refused
    else if action.DiscardStalePending? then Finished(d.(root := PendingDiscarded(d.root)))
    else
      var e := RecordIn(d.root);
      if e.None? then Refused else ResumeFrom(g, own, d, action, e.value)
  }

  /** The phase-specific start, from the journal record alone. */
  function ResumeFrom(g: Setting, own: seq<PreparationIdentity>, d: Disk, action: RecoveryAction, e: Envelope): RecoveryStep {
    var plan := RecoveredPlan(e, g.c.plan.target, g.c.plan.store.limits);
    if plan.None? then Refused
    else if action.PlannedCleanup? then Next(d, DiscardingPreparation(e.preparations, 0), false)
    else if !ReservesExactly(plan.value, e.transaction, e.preparations) then Refused
    else if action.RollbackInterrupted? then Next(d, RollingBackAgain(plan.value, own, |plan.value.operations|), false)
    else Next(d, CheckingPhase(plan.value, action.FinishSealedCleanup?), false)
  }

  /** The target, captured anew, passes the verification of a sealed or of a restored phase. */
  ghost predicate PhaseIntact(plan: Plan, isSealed: bool, t: Tree) {
    var snapshot := CapturePlan(plan.operations, t);
    (if isSealed then SealedVerification(plan, snapshot) else RestoredVerification(plan, snapshot)) == Intact
  }

  /** The next effect of a running recovery. */
  ghost function ContinueRecovery(g: Setting, d: Disk, p: Process): RecoveryStep {
    match p
    case RollingBackAgain(plan, own, left) =>
      if left == 0 then Next(d, CheckingRolledBack(plan, own), false)
      else if left > |plan.operations| then Refused
      else
        (match UndoOne(plan.operations[left - 1], left - 1, own, d)
         case Some(u) => Next(u, RollingBackAgain(plan, own, left - 1), false)
         case None => Refused)
    case CheckingRolledBack(plan, own) =>
      if PhaseIntact(plan, false, d.tree) then Next(d, PersistingRestored(plan, own, false), false) else Refused
    case PersistingRestored(plan, own, half) =>
      if half then Next(d.(root := PendingRenamed(d.root)), CleaningAgain(plan, false, own, 0), true)
      else if d.root.pending.Some? then Refused
      else Next(d.(root := PendingWritten(d.root, RecordFor(g.c, RestoredPhase, own))),
                PersistingRestored(plan, own, true), false)
    case CheckingPhase(plan, isSealed) =>
      if PhaseIntact(plan, isSealed, d.tree) then Next(d, CleaningAgain(plan, isSealed, [], 0), false) else Refused
    case CleaningAgain(plan, isSealed, own, cursor) =>
      var items := Cleanup(plan, isSealed);
      if cursor >= |items| || !MayClean(items[cursor], own, d) then Refused
      else if cursor + 1 < |items| then
        Next(CleanEffect(items[cursor], d), CleaningAgain(plan, isSealed, own, cursor + 1), false)
      else Finished(CleanEffect(items[cursor], d))
    case DiscardingPreparation(ps, cursor) =>
      if cursor < |ps| then
        Next(Discarded(ps[cursor], d), DiscardingPreparation(ps, cursor + 1), false)
      else if cursor == |ps| then
        Next(CleanEffect(CleanTransactionDirectory, d), DiscardingPreparation(ps, cursor + 1), false)
      else Finished(CleanEffect(CleanJournal, d))
    case _ => Refused
  }

  // Worlds

  ghost predicate Init(g: Setting, w: World)
  {
    w == World(Disk(EMPTY_ROOT, g.Before(), map[], map[]), Live(NeedRevalidation(g.c, [AcquireLockKind]), AcquireLock, false), None)
  }

  /** A crash, or an effect that fails: a pending file that was being written may hold anything. */
  ghost predicate CrashStep(w: World, w': World) {
    && w'.process == Down && w'.last == w.last
    && (w'.disk == w.disk
        || (w.disk.root.pending.Some? && exists v :: w'.disk == w.disk.(root := w.disk.root.(pending := Some(Record(v))))))
  }

  ghost predicate LiveStep(g: Setting, w: World, w': World) {
    && w.process.Live? && WellCompiled(w.process.s.c)
    && var s, request := w.process.s, w.process.request;
       || (!w.process.half && w'.last == w.last &&
           exists o :: LiveEffect(w.disk, s, request, w'.disk, o) && w'.process == Continue(s, o))
       || (request.PersistJournal? && !w.process.half && w.disk.root.pending.None? && w'.last == w.last &&
           exists cs :: GoodContainers(s.c, request.phase, cs) &&
             w'.disk == w.disk.(root := PendingWritten(w.disk.root, RecordFor(s.c, request.phase, cs))) &&
             w'.process == Live(s, request, true))
       || (request.PersistJournal? && w.process.half && w'.last == Some(request.phase) &&
           w'.disk == w.disk.(root := PendingRenamed(w.disk.root)) &&
           w'.process == Continue(s, JournalPersisted(request.phase)))
  }

  ghost predicate Resumes(r: RecoveryStep, w: World, w': World) {
    match r
    case Next(d, p, persisted) => w' == World(d, p, if persisted then Some(RestoredPhase) else w.last)
    case Finished(d) => w' == World(d, Down, w.last)
    case Refused => w' == w.(process := Down)
  }

  ghost predicate RecoverStep(g: Setting, w: World, w': World) {
    || (w.process.Down? && exists own :: FreshContainers(g.c, w.disk, own) && Resumes(StartRecovery(g, own, w.disk), w, w'))
    || (!w.process.Down? && !w.process.Live? && Resumes(ContinueRecovery(g, w.disk, w.process), w, w'))
  }

  ghost predicate NextWorld(g: Setting, w: World, w': World) {
    CrashStep(w, w') || LiveStep(g, w, w') || RecoverStep(g, w, w')
  }

  ghost predicate Behaviour(g: Setting, ws: seq<World>)
  {
    && ws != [] && Init(g, ws[0])
    && forall i :: 0 <= i < |ws| - 1 ==> StepAt(g, ws, i)
  }

  ghost predicate StepAt(g: Setting, ws: seq<World>, i: nat)
    requires i < |ws| - 1
  {
    NextWorld(g, ws[i], ws[i + 1])
  }

  // The invariant

  ghost predicate TreeAt(g: Setting, last: Option<Phase>, t: Tree)
  {
    match last
    case Some(MutatingPhase) => exists k :: 0 <= k <= g.Count() && t == g.At(k)
    case Some(SealedPhase) => t == g.Candidate() && KindsDeclared(g.Operations())
    case _ => t == g.Before()
  }

  /** Every backup holds the old file of the operation it is numbered after. */
  predicate BackupsKnown(g: Setting, backups: map<nat, Node>)
  {
    forall i :: i in backups ==>
      && i < g.Count()
      && (g.Operations()[i].ReplaceFile? || g.Operations()[i].DeleteFile?)
      && g.Operations()[i].path in g.Before().files
      && backups[i] == g.Before().files[g.Operations()[i].path]
  }

  /** Rolling `op` back puts something back through a container: its old state, or an old file over itself. */
  predicate LeavesContainer(op: Operation) {
    !op.CreateFile? && (PutsBack(op) || Rewrites(op))
  }

  /** A container stands only for an operation whose rollback leaves one. */
  predicate ContainersKnown(g: Setting, containers: map<nat, PreparationIdentity>) {
    forall i :: i in containers ==> i < g.Count() && LeavesContainer(g.Operations()[i])
  }

  /** The journal speaks for the disk: it names the last phase, and nothing of the transaction outlives it. */
  ghost predicate Authority(g: Setting, d: Disk, last: Option<Phase>) {
    && d.root.others <= {"lock"}
    && (d.root.pending.Some? ==> d.root.pending.value.Record?)
    && (d.root.journal.None? ==> !d.root.transactions && d.containers == map[] && last != Some(MutatingPhase))
    && (d.root.journal.Some? ==>
          RecordIn(d.root).Some? && GoodRecord(g.c, RecordIn(d.root).value) && last == Some(RecordIn(d.root).value.phase))
    && (d.backups != map[] ==> d.root.transactions)
    && (d.containers != map[] ==> last == Some(MutatingPhase) || last == Some(RestoredPhase))
  }

  ghost predicate DiskInv(g: Setting, d: Disk, last: Option<Phase>)
  {
    && Authority(g, d, last)
    && BackupsKnown(g, d.backups) && ContainersKnown(g, d.containers)
    && TreeAt(g, last, d.tree)
    && (last == Some(MutatingPhase) ==> BackedUp(g.Operations(), d.backups, g.Before()))
  }

  function RequestFor(s: State): Request {
    match s
    case NeedLock(_, _) => AcquireLock
    case NeedRevalidation(_, trace) => if Awaits(trace, AcquireLockKind) then AcquireLock else ObserveAgain
    case NeedPlannedJournal(_, _, _) => PersistJournal(PlannedPhase)
    case Preparing(_, _, _, _) => PrepareOne
    case NeedMutatingJournal(_, _, _) => PersistJournal(MutatingPhase)
    case Installing(_, _, _, _) => ApplyOne
    case Verifying(_, _, _) => ObservePostState
    case RollingBack(_, _, _, _) => AttemptRollbackOne
    case NeedRestoredJournal(_, _, _) => PersistJournal(RestoredPhase)
    case NeedSealedJournal(_, _, _, _) => PersistJournal(SealedPhase)
    case CleaningForward(_, _, _, _, _) => CleanOne
    case CleaningRollback(_, _, _, _) => CleanOne
    case Releasing(_, _, _) => ReleaseLock
  }

  /** The backups among the first `i` preparations have been taken. */
  predicate PreparedUpTo(c: Compiled, i: nat, backups: map<nat, Node>) {
    forall j :: 0 <= j < i && j < |c.preparations| && c.preparations[j].spec.role.Backup? ==>
      c.preparations[j].spec.index in backups
  }

  /** Items before `i` have been cleaned: what backups remain are cleaned later, and the journal goes last. */
  predicate CleanedUpTo(items: seq<CleanupItem>, i: nat, d: Disk) {
    && i < |items|
    && (forall b :: b in d.backups ==> CleanBackup(b) in items[i..])
    && (forall b :: b in d.containers ==> CleanRollback(b) in items[i..])
    && (i == |items| - 1 ==> !d.root.transactions)
  }

  ghost predicate PendingFor(g: Setting, phase: Phase, root: Root) {
    exists cs :: GoodContainers(g.c, phase, cs) && root.pending == Some(Record(EncodeJournal(RecordFor(g.c, phase, cs))))
  }

  /** What the disk holds when the machine is in state `s`. */
  ghost predicate Fits(g: Setting, d: Disk, last: Option<Phase>, s: State)
  {
    match s
    case NeedLock(_, _) => last == None && d.root.journal.None?
    case NeedRevalidation(_, _) => last == None && d.root.journal.None?
    case NeedPlannedJournal(_, _, _) => last == None && d.root.journal.None?
    case Preparing(_, _, i, _) => last == Some(PlannedPhase) && PreparedUpTo(g.c, i, d.backups) && d.root.journal.Some?
    case NeedMutatingJournal(_, _, _) =>
      last == Some(PlannedPhase) && PreparedUpTo(g.c, |g.c.preparations|, d.backups) && d.root.journal.Some?
    case Installing(_, _, i, _) =>
      i <= g.Count() && last == Some(MutatingPhase) && d.tree == g.At(i) && d.containers == map[]
    case Verifying(_, _, _) => last == Some(MutatingPhase) && d.tree == g.Candidate() && d.containers == map[]
    case RollingBack(_, _, i, _) => i < g.Count() && last == Some(MutatingPhase) && d.tree == g.At(i + 1)
    case NeedRestoredJournal(_, _, _) => last == Some(MutatingPhase) && d.tree == g.Before()
    case NeedSealedJournal(_, _, _, _) =>
      last == Some(MutatingPhase) && d.tree == g.Candidate() && d.containers == map[] && KindsDeclared(g.Operations())
    case CleaningForward(_, _, _, i, _) => last == Some(SealedPhase) && CleanedUpTo(Cleanup(g.c.plan, true), i, d)
    case CleaningRollback(_, _, i, _) => last == Some(RestoredPhase) && CleanedUpTo(Cleanup(g.c.plan, false), i, d)
    case Releasing(_, isSealed, _) => last == Some(if isSealed then SealedPhase else RestoredPhase)
  }

  ghost predicate LiveInv(g: Setting, w: World, s: State, request: Request, half: bool)
  {
    && Coherent(s) && s.c == g.c && request == RequestFor(s)
    && (if half then request.PersistJournal? && PendingFor(g, request.phase, w.disk.root) else w.disk.root.pending.None?)
    && Fits(g, w.disk, w.last, s)
  }

  /** Every backup left is discarded at position `cursor` or later. */
  predicate DiscardedLater(ps: seq<PreparationIdentity>, cursor: nat, backups: map<nat, Node>) {
    forall b :: b in backups ==> exists j :: cursor <= j < |ps| && ps[j].spec.role.Backup? && ps[j].spec.index == b
  }

  ghost predicate RecoveryInv(g: Setting, w: World, p: Process)
  {
    match p
    case RollingBackAgain(plan, own, left) =>
      && plan == g.Rebuilt() && w.last == Some(MutatingPhase) && left <= g.Count()
      && ContainersReserve(g.c.plan, g.c.transaction, own)
      && exists k :: 0 <= k <= left && w.disk.tree == g.At(k)
    case CheckingRolledBack(plan, own) =>
      && plan == g.Rebuilt() && w.last == Some(MutatingPhase) && w.disk.tree == g.Before()
      && ContainersReserve(g.c.plan, g.c.transaction, own)
    case PersistingRestored(plan, own, half) =>
      && plan == g.Rebuilt() && w.last == Some(MutatingPhase) && w.disk.tree == g.Before()
      && ContainersReserve(g.c.plan, g.c.transaction, own)
      && (half ==> PendingFor(g, RestoredPhase, w.disk.root))
    case CheckingPhase(plan, isSealed) =>
      plan == g.Rebuilt() && w.last == Some(if isSealed then SealedPhase else RestoredPhase)
    case CleaningAgain(plan, isSealed, _, cursor) =>
      && plan == g.Rebuilt() && w.last == Some(if isSealed then SealedPhase else RestoredPhase)
      && CleanedUpTo(Cleanup(g.c.plan, isSealed), cursor, w.disk)
    case DiscardingPreparation(ps, cursor) =>
      && ps == g.c.preparations && w.last == Some(PlannedPhase)
      && DiscardedLater(ps, cursor, w.disk.backups)
      && (cursor > |ps| ==> !w.disk.root.transactions)
    case _ => true
  }

  ghost predicate Consistent(g: Setting, w: World)
  {
    && DiskInv(g, w.disk, w.last)
    && (if w.process.Live? then LiveInv(g, w, w.process.s, w.process.request, w.process.half)
        else RecoveryInv(g, w, w.process))
  }
}
