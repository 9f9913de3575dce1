/** The pure transaction machine, its exact trace language, and its termination. */
module Machine {
  import opened Results
  import opened Identity
  import opened Plans
  import opened Rollback

  datatype Phase = PlannedPhase | MutatingPhase | RestoredPhase | SealedPhase

  datatype RequestKind =
    | AcquireLockKind | ObserveAgainKind | PersistJournalKind | PrepareOneKind | ApplyOneKind
    | ObservePostStateKind | CleanOneKind | AttemptRollbackOneKind | ReleaseLockKind

  datatype Request =
    | AcquireLock | ObserveAgain | PersistJournal(phase: Phase) | PrepareOne | ApplyOne
    | ObservePostState | CleanOne | AttemptRollbackOne | ReleaseLock
  {
    function Kind(): RequestKind {
      match this
      case AcquireLock => AcquireLockKind
      case ObserveAgain => ObserveAgainKind
      case PersistJournal(_) => PersistJournalKind
      case PrepareOne => PrepareOneKind
      case ApplyOne => ApplyOneKind
      case ObservePostState => ObservePostStateKind
      case CleanOne => CleanOneKind
      case AttemptRollbackOne => AttemptRollbackOneKind
      case ReleaseLock => ReleaseLockKind
    }
  }

  datatype EffectError = InputChanged | LockHeld | ImpossibleState | EffectError(code: int)

  /** A journaled preparation: its spec and the hash of its ownership token. */
  datatype PreparationIdentity = PreparationIdentity(transaction: nat, spec: PreparationSpec, token: Digest)

  datatype Observation =
    | LockAcquired
    | LockRefused
    | Reobserved(snapshot: Snapshot)
    | JournalPersisted(phase: Phase)
    | PreparationCompleted(identity: PreparationIdentity)
    | OperationApplied(index: nat)
    | PostStateObserved(snapshot: Snapshot, valid: bool)
    | CleanupCompleted(index: nat)
    | RollbackStepCompleted(index: nat, restoredNow: bool)
    | LockReleased
    | EffectFailed(kind: RequestKind, error: EffectError)

  datatype Event = Start | Observed(observation: Observation)

  datatype Validation = GatePass | GateRefusal

  datatype Compiled = Compiled(
    plan: Plan, validation: Validation, transaction: nat, preparations: seq<PreparationIdentity>)

  /** What the constructor of a compiled transaction checks. */
  predicate ReservesExactly(plan: Plan, transaction: nat, preparations: seq<PreparationIdentity>) {
    && |preparations| == |PreparationSpecs(plan)|
    && forall i :: 0 <= i < |preparations| ==>
      preparations[i].transaction == transaction && preparations[i].spec == PreparationSpecs(plan)[i]
  }

  predicate WellCompiled(c: Compiled) {
    ReservesExactly(c.plan, c.transaction, c.preparations) && TreesStored(c.plan)
  }

  type Trace = seq<RequestKind>

  datatype State =
    | NeedLock(c: Compiled, trace: Trace)
    | NeedRevalidation(c: Compiled, trace: Trace)
    | NeedPlannedJournal(c: Compiled, reobserved: Snapshot, trace: Trace)
    | Preparing(c: Compiled, reobserved: Snapshot, cursor: nat, trace: Trace)
    | NeedMutatingJournal(c: Compiled, reobserved: Snapshot, trace: Trace)
    | Installing(c: Compiled, reobserved: Snapshot, cursor: nat, trace: Trace)
    | Verifying(c: Compiled, reobserved: Snapshot, trace: Trace)
    | RollingBack(c: Compiled, reobserved: Snapshot, cursor: nat, trace: Trace)
    | NeedRestoredJournal(c: Compiled, reobserved: Snapshot, trace: Trace)
    | NeedSealedJournal(c: Compiled, reobserved: Snapshot, postState: Snapshot, trace: Trace)
    | CleaningForward(c: Compiled, reobserved: Snapshot, postState: Snapshot, cursor: nat, trace: Trace)
    | CleaningRollback(c: Compiled, reobserved: Snapshot, cursor: nat, trace: Trace)
    | Releasing(c: Compiled, isSealed: bool, trace: Trace)

  datatype Outcome = Completed(trace: Trace) | Stopped(trace: Trace, error: EffectError)

  datatype Step = Instruction(request: Request, next: State) | Terminal(outcome: Outcome)

  predicate Awaits(trace: Trace, kind: RequestKind) {
    trace != [] && trace[|trace| - 1] == kind
  }

  function Impossible(s: State): Step {
    Terminal(Stopped(s.trace, ImpossibleState))
  }

  function EnterRollback(c: Compiled, reobserved: Snapshot, trace: Trace): Step {
    if c.plan.operations != [] then
      Instruction(AttemptRollbackOne,
        RollingBack(c, reobserved, |c.plan.operations| - 1, trace + [AttemptRollbackOneKind]))
    else
      Instruction(PersistJournal(RestoredPhase), NeedRestoredJournal(c, reobserved, trace + [PersistJournalKind]))
  }

  function StartInstalling(c: Compiled, reobserved: Snapshot, trace: Trace): Step {
    if c.plan.operations != [] then
      Instruction(ApplyOne, Installing(c, reobserved, 0, trace + [ApplyOneKind]))
    else
      Instruction(ObservePostState, Verifying(c, reobserved, trace + [ObservePostStateKind]))
  }

  function NeedMutating(c: Compiled, reobserved: Snapshot, trace: Trace): Step {
    Instruction(PersistJournal(MutatingPhase), NeedMutatingJournal(c, reobserved, trace + [PersistJournalKind]))
  }

  function Transition(s: State, e: Event): Step
    requires WellCompiled(s.c)
  {
    match (s, e)
    case (NeedLock(c, trace), Start) =>
      Instruction(AcquireLock, NeedRevalidation(c, trace + [AcquireLockKind]))
    case (NeedRevalidation(c, trace), Observed(LockAcquired)) =>
      if Awaits(trace, AcquireLockKind) then
        Instruction(ObserveAgain, NeedRevalidation(c, trace + [ObserveAgainKind]))
      else Impossible(s)
    case (NeedRevalidation(c, trace), Observed(Reobserved(snapshot))) =>
      if !Awaits(trace, ObserveAgainKind) then Impossible(s)
      else if SnapshotMatchesPreconditions(c.plan, snapshot) then
        Instruction(PersistJournal(PlannedPhase), NeedPlannedJournal(c, snapshot, trace + [PersistJournalKind]))
      else Terminal(Stopped(trace, InputChanged))
    case (NeedRevalidation(c, trace), Observed(LockRefused)) =>
      if Awaits(trace, AcquireLockKind) then Terminal(Stopped(trace, LockHeld)) else Impossible(s)
    case (NeedPlannedJournal(c, reobserved, trace), Observed(JournalPersisted(phase))) =>
      if !phase.PlannedPhase? then Impossible(s)
      else if c.preparations != [] then
        Instruction(PrepareOne, Preparing(c, reobserved, 0, trace + [PrepareOneKind]))
      else NeedMutating(c, reobserved, trace)
    case (Preparing(c, reobserved, cursor, trace), Observed(PreparationCompleted(identity))) =>
      if cursor >= |c.preparations| || identity != c.preparations[cursor] then Impossible(s)
      else if cursor + 1 < |c.preparations| then
        Instruction(PrepareOne, Preparing(c, reobserved, cursor + 1, trace + [PrepareOneKind]))
      else NeedMutating(c, reobserved, trace)
    case (NeedMutatingJournal(c, reobserved, trace), Observed(JournalPersisted(phase))) =>
      if !phase.MutatingPhase? then Impossible(s) else StartInstalling(c, reobserved, trace)
    case (Installing(c, reobserved, cursor, trace), Observed(OperationApplied(index))) =>
      if index != cursor || cursor >= |c.plan.operations| then Impossible(s)
      else if cursor + 1 < |c.plan.operations| then
        Instruction(ApplyOne, Installing(c, reobserved, cursor + 1, trace + [ApplyOneKind]))
      else Instruction(ObservePostState, Verifying(c, reobserved, trace + [ObservePostStateKind]))
    case (Verifying(c, reobserved, trace), Observed(PostStateObserved(snapshot, valid))) =>
      if valid && SnapshotMatchesCandidate(c.plan, snapshot) && c.validation.GatePass? then
        Instruction(PersistJournal(SealedPhase),
          NeedSealedJournal(c, reobserved, snapshot, trace + [PersistJournalKind]))
      else EnterRollback(c, reobserved, trace)
    case (RollingBack(c, reobserved, cursor, trace), Observed(RollbackStepCompleted(index, _))) =>
      if index != cursor then Impossible(s)
      else if cursor > 0 then
        Instruction(AttemptRollbackOne, RollingBack(c, reobserved, cursor - 1, trace + [AttemptRollbackOneKind]))
      else
        Instruction(PersistJournal(RestoredPhase), NeedRestoredJournal(c, reobserved, trace + [PersistJournalKind]))
    case (NeedRestoredJournal(c, reobserved, trace), Observed(JournalPersisted(phase))) =>
      if !phase.RestoredPhase? then Impossible(s)
      else Instruction(CleanOne, CleaningRollback(c, reobserved, 0, trace + [CleanOneKind]))
    case (NeedSealedJournal(c, reobserved, postState, trace), Observed(JournalPersisted(phase))) =>
      if !phase.SealedPhase? then Impossible(s)
      else Instruction(CleanOne, CleaningForward(c, reobserved, postState, 0, trace + [CleanOneKind]))
    case (CleaningForward(c, reobserved, postState, cursor, trace), Observed(CleanupCompleted(index))) =>
      if index != cursor || cursor >= |Cleanup(c.plan, true)| then Impossible(s)
      else if cursor + 1 < |Cleanup(c.plan, true)| then
        Instruction(CleanOne, CleaningForward(c, reobserved, postState, cursor + 1, trace + [CleanOneKind]))
      else Instruction(ReleaseLock, Releasing(c, true, trace + [ReleaseLockKind]))
    case (CleaningRollback(c, reobserved, cursor, trace), Observed(CleanupCompleted(index))) =>
      if index != cursor || cursor >= |Cleanup(c.plan, false)| then Impossible(s)
      else if cursor + 1 < |Cleanup(c.plan, false)| then
        Instruction(CleanOne, CleaningRollback(c, reobserved, cursor + 1, trace + [CleanOneKind]))
      else Instruction(ReleaseLock, Releasing(c, false, trace + [ReleaseLockKind]))
    case (Releasing(_, _, trace), Observed(LockReleased)) =>
      if Awaits(trace, ReleaseLockKind) then Terminal(Completed(trace)) else Impossible(s)
    case (_, Observed(EffectFailed(kind, error))) =>
      if Awaits(s.trace, kind) then Terminal(Stopped(s.trace, error)) else Impossible(s)
    case _ => Impossible(s)
  }

  // The trace language

  function Repeat(kind: RequestKind, n: nat): (r: Trace)
    ensures |r| == n
    ensures forall i :: 0 <= i < n ==> r[i] == kind
  {
    seq(n, _ => kind)
  }

  const OPENING: Trace := [AcquireLockKind, ObserveAgainKind, PersistJournalKind]

  /** Everything up to and including the journal that permits mutation. */
  function Prepared(c: Compiled): Trace {
    OPENING + Repeat(PrepareOneKind, |c.preparations|) + [PersistJournalKind]
  }

  function Verified(c: Compiled): Trace {
    Prepared(c) + Repeat(ApplyOneKind, |c.plan.operations|) + [ObservePostStateKind]
  }

  function ForwardTrace(c: Compiled): Trace {
    Verified(c) + [PersistJournalKind] + Repeat(CleanOneKind, |c.preparations| + 2) + [ReleaseLockKind]
  }

  function RolledBack(c: Compiled): Trace {
    Verified(c) + Repeat(AttemptRollbackOneKind, |c.plan.operations|) + [PersistJournalKind]
  }

  function RollbackTrace(c: Compiled): Trace {
    RolledBack(c) + Repeat(CleanOneKind, |c.preparations| + |RollbackSpecs(c.plan)| + 2) + [ReleaseLockKind]
  }

  /** The trace of each state is determined by the state, and the gates behind it have been passed. */
  ghost predicate Coherent(s: State) {
    && WellCompiled(s.c)
    && (!s.NeedLock? && !s.NeedRevalidation? && !s.Releasing? ==>
          SnapshotMatchesPreconditions(s.c.plan, s.reobserved))
    && (s.NeedSealedJournal? || s.CleaningForward? ==>
          s.c.validation.GatePass? && SnapshotMatchesCandidate(s.c.plan, s.postState))
    && match s
      case NeedLock(_, trace) => trace == []
      case NeedRevalidation(_, trace) => trace == OPENING[..1] || trace == OPENING[..2]
      case NeedPlannedJournal(_, _, trace) => trace == OPENING
      case Preparing(c, _, i, trace) =>
        i < |c.preparations| && trace == OPENING + Repeat(PrepareOneKind, i + 1)
      case NeedMutatingJournal(c, _, trace) => trace == Prepared(c)
      case Installing(c, _, i, trace) =>
        i < |c.plan.operations| && trace == Prepared(c) + Repeat(ApplyOneKind, i + 1)
      case Verifying(c, _, trace) => trace == Verified(c)
      case RollingBack(c, _, i, trace) =>
        i < |c.plan.operations| && trace == Verified(c) + Repeat(AttemptRollbackOneKind, |c.plan.operations| - i)
      case NeedRestoredJournal(c, _, trace) => trace == RolledBack(c)
      case NeedSealedJournal(c, _, _, trace) => trace == Verified(c) + [PersistJournalKind]
      case CleaningForward(c, _, _, i, trace) =>
        i < |Cleanup(c.plan, true)| && trace == Verified(c) + [PersistJournalKind] + Repeat(CleanOneKind, i + 1)
      case CleaningRollback(c, _, i, trace) =>
        i < |Cleanup(c.plan, false)| && trace == RolledBack(c) + Repeat(CleanOneKind, i + 1)
      case Releasing(c, isSealed, trace) => trace == if isSealed then ForwardTrace(c) else RollbackTrace(c)
  }

  /** How many more effects can still be requested. */
  function Remaining(s: State): nat {
    var p, n := |s.c.preparations|, |s.c.plan.operations|;
    var clean := |Cleanup(s.c.plan, true)| + |Cleanup(s.c.plan, false)|;
    match s
    case NeedLock(_, _) => p + 2 * n + clean + 9
    case NeedRevalidation(_, trace) => p + 2 * n + clean + (if Awaits(trace, AcquireLockKind) then 8 else 7)
    case NeedPlannedJournal(_, _, _) => p + 2 * n + clean + 6
    case Preparing(_, _, i, _) => (if i <= p then p - i else 0) + 2 * n + clean + 5
    case NeedMutatingJournal(_, _, _) => 2 * n + clean + 5
    case Installing(_, _, i, _) => (if i <= n then n - i else 0) + n + clean + 4
    case Verifying(_, _, _) => n + clean + 4
    case RollingBack(_, _, i, _) => (if i < n then i + 1 else n) + clean + 3
    case NeedRestoredJournal(_, _, _) => clean + 3
    case NeedSealedJournal(_, _, _, _) => clean + 3
    case CleaningForward(_, _, _, i, _) => (if i <= clean then clean - i else 0) + 2
    case CleaningRollback(_, _, i, _) => (if i <= clean then clean - i else 0) + 2
    case Releasing(_, _, _) => 1
  }

  /** What every instruction does. */
  ghost predicate GoodStep(s: State, e: Event)
    requires WellCompiled(s.c)
  {
    KeepsStep(s, e) && (Transition(s, e).Instruction? ==> Remaining(Transition(s, e).next) < Remaining(s))
  }

  ghost predicate KeepsStep(s: State, e: Event)
    requires WellCompiled(s.c)
  {
    var step := Transition(s, e);
    step.Instruction? ==>
      && Coherent(step.next)
      && step.next.c == s.c
      && step.next.trace == s.trace + [step.request.Kind()]
  }

  lemma RepeatEdges(kind: RequestKind, before: Trace, n: nat)
    ensures before + Repeat(kind, n) + [kind] == before + Repeat(kind, n + 1)
    ensures before + [kind] == before + Repeat(kind, 1)
    ensures before + Repeat(kind, 0) == before
  {
    assert Repeat(kind, n) + [kind] == Repeat(kind, n + 1);
    assert [kind] == Repeat(kind, 1);
  }

  lemma CleanupLength(plan: Plan, isSealed: bool)
    ensures |Cleanup(plan, isSealed)| == |PreparationSpecs(plan)| + (if isSealed then 0 else |RollbackSpecs(plan)|) + 2
  {
    CleanupShape(plan, isSealed);
  }

  lemma OpeningSteps(s: State, e: Event)
    requires Coherent(s)
    requires s.NeedLock? || s.NeedRevalidation? || s.NeedPlannedJournal?
    ensures KeepsStep(s, e)
  {
    assert OPENING[..1] == [AcquireLockKind] && OPENING[..2] == [AcquireLockKind, ObserveAgainKind];
    RepeatEdges(PrepareOneKind, OPENING, 0);
  }

  lemma PreparingSteps(s: State, e: Event)
    requires Coherent(s) && s.Preparing?
    ensures KeepsStep(s, e)
  {
    RepeatEdges(PrepareOneKind, OPENING, s.cursor + 1);
  }

  lemma PreparedSteps(s: State, e: Event)
    requires Coherent(s) && s.NeedMutatingJournal?
    ensures KeepsStep(s, e)
  {
    RepeatEdges(ApplyOneKind, Prepared(s.c), 0);
  }

  lemma InstallingSteps(s: State, e: Event)
    requires Coherent(s) && s.Installing?
    ensures KeepsStep(s, e)
  {
    RepeatEdges(ApplyOneKind, Prepared(s.c), s.cursor + 1);
  }

  lemma VerifyingSteps(s: State, e: Event)
    requires Coherent(s) && s.Verifying?
    ensures KeepsStep(s, e)
  {
    RepeatEdges(AttemptRollbackOneKind, Verified(s.c), 0);
  }

  lemma RollingBackSteps(s: State, e: Event)
    requires Coherent(s) && s.RollingBack?
    ensures KeepsStep(s, e)
  {
    RepeatEdges(AttemptRollbackOneKind, Verified(s.c), |s.c.plan.operations| - s.cursor);
  }

  lemma JournalSteps(s: State, e: Event)
    requires Coherent(s) && (s.NeedRestoredJournal? || s.NeedSealedJournal?)
    ensures KeepsStep(s, e)
  {
    CleanupLength(s.c.plan, true);
    CleanupLength(s.c.plan, false);
    RepeatEdges(CleanOneKind, s.trace, 0);
  }

  lemma CleaningForwardSteps(s: State, e: Event)
    requires Coherent(s) && s.CleaningForward?
    ensures KeepsStep(s, e)
  {
    CleanupLength(s.c.plan, true);
    RepeatEdges(CleanOneKind, Verified(s.c) + [PersistJournalKind], s.cursor + 1);
  }

  lemma CleaningRollbackSteps(s: State, e: Event)
    requires Coherent(s) && s.CleaningRollback?
    ensures KeepsStep(s, e)
  {
    if e == Observed(CleanupCompleted(s.cursor)) {
      if s.cursor + 1 == |Cleanup(s.c.plan, false)| { LastRollbackCleaning(s); } else { NextRollbackCleaning(s); }
    }
  }

  lemma NextRollbackCleaning(s: State)
    requires Coherent(s) && s.CleaningRollback? && s.cursor + 1 < |Cleanup(s.c.plan, false)|
    ensures KeepsStep(s, Observed(CleanupCompleted(s.cursor)))
  {
    RepeatEdges(CleanOneKind, RolledBack(s.c), s.cursor + 1);
  }

  lemma LastRollbackCleaning(s: State)
    requires Coherent(s) && s.CleaningRollback? && s.cursor + 1 == |Cleanup(s.c.plan, false)|
    ensures KeepsStep(s, Observed(CleanupCompleted(s.cursor)))
  {
    CleanedRollbackTrace(s);
  }

  lemma CleanedRollbackTrace(s: State)
    requires Coherent(s) && s.CleaningRollback? && s.cursor + 1 == |Cleanup(s.c.plan, false)|
    ensures s.trace + [ReleaseLockKind] == RollbackTrace(s.c)
  {
    CleanupLength(s.c.plan, false);
  }

  /** The cursors of a coherent state point at something. */
  predicate CursorInRange(s: State) {
    match s
    case Preparing(c, _, i, _) => i < |c.preparations|
    case Installing(c, _, i, _) => i < |c.plan.operations|
    case RollingBack(c, _, i, _) => i < |c.plan.operations|
    case CleaningForward(c, _, _, i, _) => i < |Cleanup(c.plan, true)|
    case CleaningRollback(c, _, i, _) => i < |Cleanup(c.plan, false)|
    case _ => true
  }

  lemma OpeningShrinks(s: State, e: Event)
    requires WellCompiled(s.c) && CursorInRange(s) && Transition(s, e).Instruction?
    requires s.NeedLock? || s.NeedRevalidation? || s.NeedPlannedJournal?
    ensures Remaining(Transition(s, e).next) < Remaining(s)
  {
  }

  lemma PreparingShrinks(s: State, e: Event)
    requires WellCompiled(s.c) && CursorInRange(s) && Transition(s, e).Instruction?
    requires s.Preparing? || s.NeedMutatingJournal?
    ensures Remaining(Transition(s, e).next) < Remaining(s)
  {
  }

  lemma InstallingShrinks(s: State, e: Event)
    requires WellCompiled(s.c) && CursorInRange(s) && Transition(s, e).Instruction?
    requires s.Installing? || s.RollingBack?
    ensures Remaining(Transition(s, e).next) < Remaining(s)
  {
  }

  lemma VerifyingShrinks(s: State, e: Event)
    requires WellCompiled(s.c) && Transition(s, e).Instruction? && s.Verifying?
    ensures Remaining(Transition(s, e).next) < Remaining(s)
  {
  }

  lemma LateShrinks(s: State, e: Event)
    requires WellCompiled(s.c) && CursorInRange(s) && Transition(s, e).Instruction?
    requires s.NeedRestoredJournal? || s.NeedSealedJournal? || s.CleaningForward? || s.CleaningRollback? || s.Releasing?
    ensures Remaining(Transition(s, e).next) < Remaining(s)
  {
  }

  lemma StepShrinks(s: State, e: Event)
    requires Coherent(s) && Transition(s, e).Instruction?
    ensures Remaining(Transition(s, e).next) < Remaining(s)
  {
    assert CursorInRange(s);
    if s.NeedLock? || s.NeedRevalidation? || s.NeedPlannedJournal? {
      OpeningShrinks(s, e);
    } else if s.Preparing? || s.NeedMutatingJournal? {
      PreparingShrinks(s, e);
    } else if s.Installing? || s.RollingBack? {
      InstallingShrinks(s, e);
    } else if s.Verifying? {
      VerifyingShrinks(s, e);
    } else {
      LateShrinks(s, e);
    }
  }

  /** Every instruction keeps coherence, records exactly its own request, and comes closer to the end. */
  lemma StepKeepsCoherent(s: State, e: Event)
    requires Coherent(s)
    ensures GoodStep(s, e)
  {
    if Transition(s, e).Instruction? { StepShrinks(s, e); }
    match s
    case NeedLock(_, _) => OpeningSteps(s, e);
    case NeedRevalidation(_, _) => OpeningSteps(s, e);
    case NeedPlannedJournal(_, _, _) => OpeningSteps(s, e);
    case Preparing(_, _, _, _) => PreparingSteps(s, e);
    case NeedMutatingJournal(_, _, _) => PreparedSteps(s, e);
    case Installing(_, _, _, _) => InstallingSteps(s, e);
    case Verifying(_, _, _) => VerifyingSteps(s, e);
    case RollingBack(_, _, _, _) => RollingBackSteps(s, e);
    case NeedRestoredJournal(_, _, _) => JournalSteps(s, e);
    case NeedSealedJournal(_, _, _, _) => JournalSteps(s, e);
    case CleaningForward(_, _, _, _, _) => CleaningForwardSteps(s, e);
    case CleaningRollback(_, _, _, _) => CleaningRollbackSteps(s, e);
    case Releasing(_, _, _) =>
  }

  /** The traces a stopped run may have. */
  predicate PrefixOfEither(c: Compiled, trace: Trace) {
    trace <= ForwardTrace(c) || trace <= RollbackTrace(c)
  }

  lemma EarlyTraceIsPrefix(s: State)
    requires Coherent(s)
    requires s.NeedLock? || s.NeedRevalidation? || s.NeedPlannedJournal? || s.Preparing? || s.NeedMutatingJournal?
    ensures s.trace <= ForwardTrace(s.c)
  {
    var c, t := s.c, s.trace;
    if s.Preparing? {
      PartOfRepeat(PrepareOneKind, OPENING, s.cursor + 1, |c.preparations|);
      PreparedIsPrefix(c, t);
    } else if s.NeedMutatingJournal? {
      PreparedIsPrefix(c, t);
    } else {
      OpeningIsPrefix(c, t);
    }
  }

  lemma MiddleTraceIsPrefix(s: State)
    requires Coherent(s)
    requires s.Installing? || s.Verifying? || s.RollingBack? || s.NeedRestoredJournal? || s.NeedSealedJournal?
    ensures PrefixOfEither(s.c, s.trace)
  {
    var c, t := s.c, s.trace;
    if s.Installing? {
      PartOfRepeat(ApplyOneKind, Prepared(c), s.cursor + 1, |c.plan.operations|);
      VerifiedIsPrefix(c, t);
    } else if s.Verifying? {
      VerifiedIsPrefix(c, t);
    } else if s.RollingBack? {
      PartOfRepeat(AttemptRollbackOneKind, Verified(c), |c.plan.operations| - s.cursor, |c.plan.operations|);
    }
  }

  lemma LateTraceIsPrefix(s: State)
    requires Coherent(s) && (s.CleaningForward? || s.CleaningRollback? || s.Releasing?)
    ensures PrefixOfEither(s.c, s.trace)
  {
    var c, t := s.c, s.trace;
    if s.CleaningForward? {
      CleanupLength(c.plan, true);
      PartOfRepeat(CleanOneKind, Verified(c) + [PersistJournalKind], s.cursor + 1, |Cleanup(c.plan, true)|);
    } else if s.CleaningRollback? {
      CleanupLength(c.plan, false);
      PartOfRepeat(CleanOneKind, RolledBack(c), s.cursor + 1, |Cleanup(c.plan, false)|);
    }
  }

  lemma CoherentTraceIsPrefix(s: State)
    requires Coherent(s)
    ensures PrefixOfEither(s.c, s.trace)
  {
    if s.CleaningForward? || s.CleaningRollback? || s.Releasing? {
      LateTraceIsPrefix(s);
    } else if s.Installing? || s.Verifying? || s.RollingBack? || s.NeedRestoredJournal? || s.NeedSealedJournal? {
      MiddleTraceIsPrefix(s);
    } else {
      EarlyTraceIsPrefix(s);
    }
  }

  lemma PartOfRepeat(kind: RequestKind, before: Trace, i: nat, n: nat)
    requires i <= n
    ensures before + Repeat(kind, i) <= before + Repeat(kind, n)
  {
    assert before + Repeat(kind, n) == before + Repeat(kind, i) + Repeat(kind, n - i);
  }

  lemma VerifiedIsPrefix(c: Compiled, t: Trace)
    requires t <= Verified(c)
    ensures t <= ForwardTrace(c)
  {
    assert Verified(c) <= ForwardTrace(c);
  }

  lemma PreparedIsPrefix(c: Compiled, t: Trace)
    requires t <= Prepared(c)
    ensures t <= ForwardTrace(c)
  {
    assert Prepared(c) <= Verified(c);
    VerifiedIsPrefix(c, t);
  }

  lemma OpeningIsPrefix(c: Compiled, t: Trace)
    requires t <= OPENING
    ensures t <= ForwardTrace(c)
  {
    assert OPENING <= Prepared(c);
    PreparedIsPrefix(c, t);
  }

  // Whole runs

  /** Feeds events one at a time until the machine halts or the events run out. */
  function Run(s: State, events: seq<Event>): Step
    requires WellCompiled(s.c)
    requires events != []
    decreases |events|
  {
    var step := Transition(s, events[0]);
    if step.Terminal? || |events| == 1 then step
    else Run(step.next, events[1..])
  }

  lemma TerminalKeepsTrace(s: State, e: Event)
    requires WellCompiled(s.c) && Transition(s, e).Terminal?
    ensures match Transition(s, e).outcome
      case Completed(trace) => s.Releasing? && trace == s.trace
      case Stopped(trace, _) => trace == s.trace
  {
  }

  /** One step from a coherent state, whatever the event: where it halts is what its trace says. */
  lemma TerminalTrace(s: State, e: Event)
    requires Coherent(s) && Transition(s, e).Terminal?
    ensures match Transition(s, e).outcome
      case Completed(trace) => trace == ForwardTrace(s.c) || trace == RollbackTrace(s.c)
      case Stopped(trace, _) => PrefixOfEither(s.c, trace)
  {
    TerminalKeepsTrace(s, e);
    CoherentTraceIsPrefix(s);
  }

  lemma {:induction false} RunTraces(s: State, events: seq<Event>)
    requires Coherent(s) && events != []
    ensures match Run(s, events)
      case Terminal(Completed(trace)) => trace == ForwardTrace(s.c) || trace == RollbackTrace(s.c)
      case Terminal(Stopped(trace, _)) => PrefixOfEither(s.c, trace)
      case Instruction(_, next) => Coherent(next) && next.c == s.c && PrefixOfEither(s.c, next.trace)
    decreases |events|
  {
    var step := Transition(s, events[0]);
    if step.Terminal? {
      TerminalTrace(s, events[0]);
    } else {
      StepKeepsCoherent(s, events[0]);
      if |events| == 1 { CoherentTraceIsPrefix(step.next); } else { RunTraces(step.next, events[1..]); }
    }
  }

  /**
   The exact trace language.  Whatever the events, a completed run has one of two
   traces, of known length, and every stopped run a prefix of one of them.
   */
  lemma TraceLanguage(c: Compiled, events: seq<Event>)
    requires WellCompiled(c) && events != []
    ensures match Run(NeedLock(c, []), events)
      case Terminal(Completed(trace)) =>
        || (trace == ForwardTrace(c) && |trace| == 2 * |c.preparations| + |c.plan.operations| + 9)
        || (trace == RollbackTrace(c)
            && |trace| == 2 * |c.preparations| + 2 * |c.plan.operations| + |RollbackSpecs(c.plan)| + 9)
      case Terminal(Stopped(trace, _)) => PrefixOfEither(c, trace)
      case Instruction(_, next) => PrefixOfEither(c, next.trace)
  {
    RunTraces(NeedLock(c, []), events);
  }

  /** No event sequence keeps the machine running for longer than its measure. */
  lemma {:induction false} RunHalts(s: State, events: seq<Event>)
    requires Coherent(s) && |events| > Remaining(s)
    ensures Run(s, events).Terminal?
    decreases |events|
  {
    var step := Transition(s, events[0]);
    if step.Instruction? {
      StepKeepsCoherent(s, events[0]);
      RunHalts(step.next, events[1..]);
    }
  }

  // Both traces are attained

  /** The event that answers the pending request of `s` well; `forward` picks the verdict on the post-state. */
  function Answer(s: State, before: Snapshot, after: Snapshot, forward: bool): Event
    requires Coherent(s)
  {
    match s
    case NeedLock(_, _) => Start
    case NeedRevalidation(_, trace) =>
      if Awaits(trace, AcquireLockKind) then Observed(LockAcquired) else Observed(Reobserved(before))
    case NeedPlannedJournal(_, _, _) => Observed(JournalPersisted(PlannedPhase))
    case Preparing(c, _, i, _) => Observed(PreparationCompleted(c.preparations[i]))
    case NeedMutatingJournal(_, _, _) => Observed(JournalPersisted(MutatingPhase))
    case Installing(_, _, i, _) => Observed(OperationApplied(i))
    case Verifying(_, _, _) => Observed(PostStateObserved(after, forward))
    case RollingBack(_, _, i, _) => Observed(RollbackStepCompleted(i, true))
    case NeedRestoredJournal(_, _, _) => Observed(JournalPersisted(RestoredPhase))
    case NeedSealedJournal(_, _, _, _) => Observed(JournalPersisted(SealedPhase))
    case CleaningForward(_, _, _, i, _) => Observed(CleanupCompleted(i))
    case CleaningRollback(_, _, i, _) => Observed(CleanupCompleted(i))
    case Releasing(_, _, _) => Observed(LockReleased)
  }

  /** The verdict `forward` has not been contradicted yet. */
  predicate OnCourse(s: State, forward: bool) {
    && (s.NeedSealedJournal? || s.CleaningForward? ==> forward)
    && (s.RollingBack? || s.NeedRestoredJournal? || s.CleaningRollback? ==> !forward)
    && (s.Releasing? ==> s.isSealed == forward)
  }

  lemma AnswerAdvances(s: State, before: Snapshot, after: Snapshot, forward: bool)
    requires Coherent(s) && OnCourse(s, forward)
    requires SnapshotMatchesPreconditions(s.c.plan, before)
    requires forward ==> s.c.validation.GatePass? && SnapshotMatchesCandidate(s.c.plan, after)
    ensures var step := Transition(s, Answer(s, before, after, forward));
      if s.Releasing? then step == Terminal(Completed(s.trace))
      else step.Instruction? && OnCourse(step.next, forward)
  {
  }

  /** From any coherent point, well-answered requests drive the run to completion along the chosen course. */
  lemma {:induction false} Drive(s: State, before: Snapshot, after: Snapshot, forward: bool)
    returns (events: seq<Event>)
    requires Coherent(s) && OnCourse(s, forward)
    requires SnapshotMatchesPreconditions(s.c.plan, before)
    requires forward ==> s.c.validation.GatePass? && SnapshotMatchesCandidate(s.c.plan, after)
    ensures events != []
    ensures Run(s, events) == Terminal(Completed(if forward then ForwardTrace(s.c) else RollbackTrace(s.c)))
    decreases Remaining(s)
  {
    var e := Answer(s, before, after, forward);
    AnswerAdvances(s, before, after, forward);
    if s.Releasing? {
      events := [e];
    } else {
      StepKeepsCoherent(s, e);
      var rest := Drive(Transition(s, e).next, before, after, forward);
      events := [e] + rest;
      assert events[1..] == rest;
    }
  }
}
