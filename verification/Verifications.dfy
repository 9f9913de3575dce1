/** Recoveries on any disk, foreign edits included: none ends on a target it has not verified. */
module Verifications {
  import opened Results
  import opened Paths
  import opened Identity
  import opened Plans
  import opened Rollback
  import opened Targets
  import opened Inversion
  import opened Capture
  import opened Machine
  import opened Receipts
  import opened Journals
  import opened Crashes
  import opened Atomicity
  import opened Recoveries

  lemma StepKeepsTree(g: Setting, d: Disk, p: Process)
    requires p.PersistingRestored? || p.CleaningAgain? || p.DiscardingPreparation?
    ensures match ContinueRecovery(g, d, p)
      case Finished(u) => u.tree == d.tree
      case Refused => true
      case Next(u, q, _) => u.tree == d.tree && (q.PersistingRestored? || q.CleaningAgain? || q.DiscardingPreparation?)
  {
  }

  /** Nothing a recovery does after its verification touches the target. */
  lemma {:induction false} EndingKeepsTree(g: Setting, d: Disk, p: Process)
    requires p.PersistingRestored? || p.CleaningAgain? || p.DiscardingPreparation?
    ensures Recover(g, d, p).Ended? ==> Recover(g, d, p).disk.tree == d.tree
    decreases Effort(p)
  {
    StepKeepsTree(g, d, p);
    match ContinueRecovery(g, d, p)
    case Finished(_) =>
    case Refused =>
    case Next(u, q, _) =>
      NextFollows(g, d, p);
      FollowingShrinks(p, q);
      EndingKeepsTree(g, u, q);
  }

  lemma IntactIsVerified(plan: Plan, t: Tree)
    ensures PhaseIntact(plan, true, t) <==> SealedVerification(plan, CapturePlan(plan.operations, t)) == Intact
    ensures PhaseIntact(plan, false, t) <==> RestoredVerification(plan, CapturePlan(plan.operations, t)) == Intact
  {
  }

  lemma RollbackIsChecked(g: Setting, d: Disk, plan: Plan, own: seq<PreparationIdentity>)
    ensures ContinueRecovery(g, d, CheckingRolledBack(plan, own)) ==
      if PhaseIntact(plan, false, d.tree) then Next(d, PersistingRestored(plan, own, false), false) else Refused
  {
  }

  lemma PhaseIsChecked(g: Setting, d: Disk, plan: Plan, isSealed: bool)
    ensures ContinueRecovery(g, d, CheckingPhase(plan, isSealed)) ==
      if PhaseIntact(plan, isSealed, d.tree) then Next(d, CleaningAgain(plan, isSealed, [], 0), false) else Refused
  {
  }

  lemma CheckedRollbackEnds(g: Setting, d: Disk, plan: Plan, own: seq<PreparationIdentity>)
    ensures var r := Recover(g, d, CheckingRolledBack(plan, own));
      r.Ended? ==> r.disk.tree == d.tree && PhaseIntact(plan, false, d.tree)
  {
    RollbackIsChecked(g, d, plan, own);
    EndingKeepsTree(g, d, PersistingRestored(plan, own, false));
  }

  lemma CheckedPhaseEnds(g: Setting, d: Disk, plan: Plan, isSealed: bool)
    ensures var r := Recover(g, d, CheckingPhase(plan, isSealed));
      r.Ended? ==> r.disk.tree == d.tree && PhaseIntact(plan, isSealed, d.tree)
  {
    PhaseIsChecked(g, d, plan, isSealed);
    EndingKeepsTree(g, d, CleaningAgain(plan, isSealed, [], 0));
  }

  lemma RolledBackOne(g: Setting, d: Disk, p: Process, u: Disk, q: Process)
    requires ContinueRecovery(g, d, p) == Next(u, q, false)
    ensures Recover(g, d, p) == Recover(g, u, q)
  {
  }

  lemma RollingBackStep(g: Setting, d: Disk, plan: Plan, own: seq<PreparationIdentity>, left: nat)
    ensures var step := ContinueRecovery(g, d, RollingBackAgain(plan, own, left));
      && !step.Finished?
      && (step.Next? ==> !step.persisted && step.process == if left == 0 then CheckingRolledBack(plan, own) else RollingBackAgain(plan, own, left - 1))
  {
  }

  /** A rollback that ends has come to its verification. */
  lemma {:induction false} RollingReachesCheck(g: Setting, d: Disk, plan: Plan, own: seq<PreparationIdentity>, left: nat) returns (u: Disk)
    requires Recover(g, d, RollingBackAgain(plan, own, left)).Ended?
    ensures Recover(g, d, RollingBackAgain(plan, own, left)) == Recover(g, u, CheckingRolledBack(plan, own))
    decreases left
  {
    var p := RollingBackAgain(plan, own, left);
    var step := ContinueRecovery(g, d, p);
    RollingBackStep(g, d, plan, own, left);
    RolledBackOne(g, d, p, step.disk, step.process);
    u := step.disk;
    if left > 0 {
      var rest: nat := left - 1;
      u := RollingReachesCheck(g, step.disk, plan, own, rest);
    }
  }

  lemma RollingBackEnds(g: Setting, d: Disk, plan: Plan, own: seq<PreparationIdentity>, left: nat)
    ensures var r := Recover(g, d, RollingBackAgain(plan, own, left));
      r.Ended? ==> PhaseIntact(plan, false, r.disk.tree)
  {
    if Recover(g, d, RollingBackAgain(plan, own, left)).Ended? {
      var u := RollingReachesCheck(g, d, plan, own, left);
      CheckedRollbackEnds(g, u, plan, own);
    }
  }

  ghost predicate EndsAs(action: RecoveryAction, plan: Plan, d: Disk, u: Disk) {
    if action.PlannedCleanup? then u.tree == d.tree
    else if action.FinishSealedCleanup? then u.tree == d.tree && PhaseIntact(plan, true, u.tree)
    else PhaseIntact(plan, false, u.tree) && (action.FinishRestoredCleanup? ==> u.tree == d.tree)
  }

  lemma ResumedEnds(g: Setting, own: seq<PreparationIdentity>, d: Disk, action: RecoveryAction, e: Envelope, plan: Plan)
    requires RecoveredPlan(e, g.c.plan.target, g.c.plan.store.limits) == Some(plan)
    requires action.PlannedCleanup? || action.RollbackInterrupted? || action.FinishRestoredCleanup? || action.FinishSealedCleanup?
    ensures var step := ResumeFrom(g, own, d, action, e);
      && !step.Finished?
      && (step.Next? && Recover(g, step.disk, step.process).Ended? ==> EndsAs(action, plan, d, Recover(g, step.disk, step.process).disk))
  {
    if action.PlannedCleanup? {
      EndingKeepsTree(g, d, DiscardingPreparation(e.preparations, 0));
    } else if action.RollbackInterrupted? {
      RollingBackEnds(g, d, plan, own, |plan.operations|);
    } else {
      CheckedPhaseEnds(g, d, plan, action.FinishSealedCleanup?);
    }
  }

  lemma RecordDecides(root: Root, target: nat, e: Envelope)
    requires RecordIn(root) == Some(e)
    ensures var action := RecoveryActionFor(ClassifyStateRoot(root, target), target);
      action.RefuseRecovery? ||
      (match e.phase
       case PlannedPhase => action.PlannedCleanup?
       case MutatingPhase => action.RollbackInterrupted?
       case RestoredPhase => action.FinishRestoredCleanup?
       case SealedPhase => action.FinishSealedCleanup?)
  {
  }

  lemma RecordedEnds(g: Setting, own: seq<PreparationIdentity>, d: Disk, e: Envelope, plan: Plan)
    requires RecordIn(d.root) == Some(e) && RecoveredPlan(e, g.c.plan.target, g.c.plan.store.limits) == Some(plan)
    requires RecoverOnce(g, own, d).Ended?
    ensures EndsAs(RecoveryActionFor(ClassifyStateRoot(d.root, g.c.plan.target), g.c.plan.target), plan, d, RecoverOnce(g, own, d).disk)
  {
    var target := g.c.plan.target;
    var action := RecoveryActionFor(ClassifyStateRoot(d.root, target), target);
    RecordDecides(d.root, target, e);
    if !action.RefuseRecovery? { ResumedEnds(g, own, d, action, e, plan); }
  }

  /**
   Whatever somebody else did to the target, no recovery ends on one it has not
   verified as it leaves it: under MUTATING and RESTORED the live pre-state gate would
   accept it, under SEALED it passes the sealed verification, and under PLANNED it is
   untouched, as it is after a check that finds the phase intact.
   */
  lemma RecoveriesEndVerified(g: Setting, own: seq<PreparationIdentity>, d: Disk, e: Envelope, plan: Plan)
    requires RecordIn(d.root) == Some(e) && RecoveredPlan(e, g.c.plan.target, g.c.plan.store.limits) == Some(plan)
    requires RecoverOnce(g, own, d).Ended?
    ensures var u := RecoverOnce(g, own, d).disk;
      && (e.phase.MutatingPhase? || e.phase.RestoredPhase? ==> SnapshotMatchesPreconditions(plan, CapturePlan(plan.operations, u.tree)))
      && (e.phase.SealedPhase? ==> SealedVerification(plan, CapturePlan(plan.operations, u.tree)) == Intact)
      && (!e.phase.MutatingPhase? ==> u.tree == d.tree)
  {
    RecordDecides(d.root, g.c.plan.target, e);
    RecordedEnds(g, own, d, e, plan);
    IntactIsVerified(plan, RecoverOnce(g, own, d).disk.tree);
    RestoredGatesAgree(plan, CapturePlan(plan.operations, RecoverOnce(g, own, d).disk.tree));
  }
}
