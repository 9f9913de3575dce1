/** Crashes around the decision to restore: runs that come to RESTORED, and the plans that survive every crash. */
module Restorations {
  import opened Results
  import opened Paths
  import opened Identity
  import opened Plans
  import opened Rollback
  import opened Targets
  import opened Inversion
  import opened Capture
  import opened Machine
  import opened Receipts
  import opened Journals
  import opened Crashes
  import opened Atomicity
  import opened Recoveries
  import opened Reachability
  import opened Interruptions

  // A recovery that gets through

  /** Where the loop gets through, so does the run. */
  lemma {:induction false} RollsThrough(g: Setting, own: seq<PreparationIdentity>, left: nat, w: World) returns (w': World)
    requires left <= g.Count() && Reached(g, w) && w.process == RollingBackAgain(g.Rebuilt(), own, left)
    requires RollAll(g.Operations(), own, left, w.disk).Rolled?
    ensures Reached(g, w')
    ensures w' == World(RollAll(g.Operations(), own, left, w.disk).disk, RollingBackAgain(g.Rebuilt(), own, 0), w.last)
    decreases left
  {
    w' := w;
    if left > 0 {
      var rest := left - 1;
      var r := UndoOne(g.Operations()[rest], rest, own, w.disk);
      RollAllUnfolds(g.Operations(), own, left, rest, w.disk, r);
      var v := RollsOnce(g, own, left, rest, w, r.value);
      w' := RollsThrough(g, own, rest, v);
    }
  }

  lemma RollsOnce(g: Setting, own: seq<PreparationIdentity>, left: nat, rest: nat, w: World, u: Disk) returns (w': World)
    requires rest + 1 == left <= g.Count() && Reached(g, w) && w.process == RollingBackAgain(g.Rebuilt(), own, left)
    requires UndoOne(g.Operations()[rest], rest, own, w.disk) == Some(u)
    ensures Reached(g, w') && w' == World(u, RollingBackAgain(g.Rebuilt(), own, rest), w.last)
  {
    w' := World(u, RollingBackAgain(g.Rebuilt(), own, rest), w.last);
    RollUnfolds(g, g.Rebuilt(), own, left, rest, w.disk, Some(u));
    RecoveryIsReached(g, w, w');
  }

  /** A recovery with these containers has restored the old target and is about to say so. */
  ghost predicate Deciding(g: Setting, own: seq<PreparationIdentity>, w: World) {
    && Reached(g, w) && w.process == PersistingRestored(g.Rebuilt(), own, false)
    && w.last == Some(MutatingPhase) && w.disk.root.pending.None? && AllOwn(w.disk, own)
  }

  /** From a clean crash at a target that is open to rollback, a recovery comes to its decision. */
  lemma ComesToDecision(g: Setting, own: seq<PreparationIdentity>, w: World) returns (w': World)
    requires g.Good() && Reached(g, w) && CleanCrash(w) && FreshContainers(g.c, w.disk, own)
    requires OpenToRollback(g.Operations(), w.disk.tree)
    ensures Deciding(g, own, w')
  {
    var v := RecoveryStartsFrom(g, own, w);
    ReachedIsConsistent(g, w);
    LoopEnds(g, own, w.disk);
    FreshOwnsNone(g, own, w.disk, RollAll(g.Operations(), own, g.Count(), w.disk).disk);
    var rolled := RollsThrough(g, own, g.Count(), v);
    w' := Checks(g, own, rolled);
  }

  lemma Checks(g: Setting, own: seq<PreparationIdentity>, w: World) returns (w': World)
    requires g.Good() && Reached(g, w) && w.process == RollingBackAgain(g.Rebuilt(), own, 0)
    requires w.disk.tree == g.Before() && w.last == Some(MutatingPhase) && w.disk.root.pending.None?
    requires AllOwn(w.disk, own)
    ensures Deciding(g, own, w')
  {
    var checking := w.(process := CheckingRolledBack(g.Rebuilt(), own));
    RecoveryIsReached(g, w, checking);
    StartPassesItsGate(g.c.plan, g.Before());
    SameChecks(g, g.Before());
    w' := w.(process := PersistingRestored(g.Rebuilt(), own, false));
    RecoveryIsReached(g, checking, w');
  }

  lemma DecisionFrom(g: Setting, own: seq<PreparationIdentity>, k: nat) returns (w: World)
    requires g.Good() && k <= g.Count() && OpenToRollback(g.Operations(), g.At(k))
    requires ContainersReserve(g.c.plan, g.c.transaction, own)
    ensures Deciding(g, own, w)
  {
    var v := CrashesAnywhere(g, k);
    w := ComesToDecision(g, own, v);
  }

  // A crash inside or after the decision

  /** The disk with RESTORED pending. */
  function Pended(g: Setting, own: seq<PreparationIdentity>, d: Disk): Disk {
    d.(root := PendingWritten(d.root, RecordFor(g.c, RestoredPhase, own)))
  }

  lemma PendsDecision(g: Setting, own: seq<PreparationIdentity>, w: World) returns (w': World)
    requires Deciding(g, own, w)
    ensures Reached(g, w') && w' == World(Pended(g, own, w.disk), PersistingRestored(g.Rebuilt(), own, true), w.last)
  {
    w' := World(Pended(g, own, w.disk), PersistingRestored(g.Rebuilt(), own, true), w.last);
    RecoveryIsReached(g, w, w');
  }

  lemma PendedSticks(g: Setting, w: World)
    requires g.Good() && Reached(g, w) && w.process.Down? && w.last == Some(MutatingPhase) && w.disk.root.pending.Some?
    requires forall b :: b in w.disk.containers ==> w.disk.containers[b].token == FIRST_TOKEN
    ensures Sticks(g, w) && !Recovers(g, w)
  {
    ReachedIsConsistent(g, w);
    NotBoth(g, w, OTHER_TOKEN);
    forall own | FreshContainers(g.c, w.disk, own) ensures RecoverOnce(g, own, w.disk).GivenUp? {
      PendingBlocksRecovery(g, own, w.disk);
    }
  }

  /**
   Whatever the plan, some crash under MUTATING is one that no recovery completes
   after: inside the decision of a recovery if the old target is open to rollback, and
   before the first operation if not.
   */
  lemma DecisionCanStick(g: Setting) returns (w: World)
    requires g.Good()
    ensures Reached(g, w) && w.process.Down? && w.last == Some(MutatingPhase) && Sticks(g, w) && !Recovers(g, w)
    ensures OpenToRollback(g.Operations(), g.Before()) <==> w.disk.root.pending.Some?
  {
    if OpenToRollback(g.Operations(), g.Before()) {
      var own := Reserved(g.c, FIRST_TOKEN);
      var deciding := DecisionFrom(g, own, 0);
      var pended := PendsDecision(g, own, deciding);
      OwnTokens(own, deciding.disk);
      CrashIsReached(g, pended);
      w := pended.(process := Down);
      PendedSticks(g, w);
    } else {
      w := ClosedCrashSticks(g, 0);
    }
  }

  /** A crash after which the durable phase is RESTORED. */
  predicate RestoredCrash(w: World) {
    w.process.Down? && w.last == Some(RestoredPhase)
  }

  lemma RenamesDecision(g: Setting, own: seq<PreparationIdentity>, w: World) returns (w': World)
    requires Deciding(g, own, w)
    ensures Reached(g, w') && RestoredCrash(w') && w'.disk.root.journal.Some? && w'.disk.root.pending.None?
    ensures w'.disk.containers == w.disk.containers
  {
    var pended := PendsDecision(g, own, w);
    var renamed := World(pended.disk.(root := PendingRenamed(pended.disk.root)), CleaningAgain(g.Rebuilt(), false, own, 0), Some(RestoredPhase));
    RecoveryIsReached(g, pended, renamed);
    CrashIsReached(g, renamed);
    w' := renamed.(process := Down);
  }

  /** While its journal stands, RESTORED is recovered from exactly if the plan needs no container. */
  lemma RestoredFate(g: Setting, w: World)
    requires g.Good() && Reached(g, w) && RestoredCrash(w)
    ensures w.disk.root.journal.None? || RollbackSpecs(g.c.plan) == [] ==> Recovers(g, w)
    ensures w.disk.root.journal.Some? && RollbackSpecs(g.c.plan) != [] ==> Sticks(g, w)
  {
    ReachedIsConsistent(g, w);
    RestoredRecord(g, w.disk);
    forall own | FreshContainers(g.c, w.disk, own)
      ensures RecoverOnce(g, own, w.disk).Ended? <==> Recoverable(g, w.disk)
    {
      RecoveryCompletes(g, own, w.disk, w.last);
    }
  }

  lemma RestoredRecord(g: Setting, d: Disk)
    requires DiskInv(g, d, Some(RestoredPhase))
    ensures Recoverable(g, d) <==> d.root.journal.None? || RollbackSpecs(g.c.plan) == []
  {
  }

  /** Some run crashes right after RESTORED has become durable, and no recovery completes. */
  lemma RestoredSticks(g: Setting, k: nat) returns (w: World)
    requires g.Good() && k <= g.Count() && OpenToRollback(g.Operations(), g.At(k)) && RollbackSpecs(g.c.plan) != []
    ensures Reached(g, w) && RestoredCrash(w) && w.disk.root.pending.None? && Sticks(g, w) && !Recovers(g, w)
  {
    var own := Reserved(g.c, FIRST_TOKEN);
    var deciding := DecisionFrom(g, own, k);
    OwnTokens(own, deciding.disk);
    w := RenamesDecision(g, own, deciding);
    RestoredFate(g, w);
    NotBoth(g, w, OTHER_TOKEN);
  }

  lemma NoSpecs(ops: seq<Operation>, first: nat)
    requires forall op :: op in ops ==> op.CreateFile?
    ensures RollbackSpecsFrom(ops, first) == []
  {
    if ops != [] {
      assert ops[0] in ops;
      NoSpecs(ops[1..], first + 1);
    }
  }

  lemma SpecsForOthers(g: Setting)
    requires g.Good()
    ensures RollbackSpecs(g.c.plan) == [] <==> forall op :: op in g.Operations() ==> op.CreateFile?
  {
    if forall op :: op in g.Operations() ==> op.CreateFile? {
      NoSpecs(g.Operations(), 0);
    } else {
      var op :| op in g.Operations() && !op.CreateFile?;
      var i :| 0 <= i < g.Count() && g.Operations()[i] == op;
      ReservedFor(g, Reserved(g.c, FIRST_TOKEN), i);
    }
  }

  lemma OpenFromStart(g: Setting)
    requires g.Good() && AllRecognised(g.Operations()) && RemovalsEmpty(g.Operations(), g.Before())
    ensures OpenToRollback(g.Operations(), g.At(0))
  {
    assert g.StateIs(0);
    OpenAlong(g.Operations(), g.c.plan.store, g.Before(), 0);
  }

  /**
   Of a plan with a target that is open to rollback, which is one whose recovery can
   come to RESTORED at all: recovery completes after every crash under RESTORED if and
   only if the plan only creates single files, so that it needs no rollback container.
   */
  lemma RestoredCrashesRecover(g: Setting, k: nat)
    requires g.Good() && k <= g.Count() && OpenToRollback(g.Operations(), g.At(k))
    ensures (forall w :: Reached(g, w) && RestoredCrash(w) ==> Recovers(g, w)) <==> RollbackSpecs(g.c.plan) == []
    ensures RollbackSpecs(g.c.plan) == [] <==> forall op :: op in g.Operations() ==> op.CreateFile?
  {
    SpecsForOthers(g);
    if RollbackSpecs(g.c.plan) == [] {
      forall w | Reached(g, w) && RestoredCrash(w) ensures Recovers(g, w) { RestoredFate(g, w); }
    } else {
      var w := RestoredSticks(g, k);
    }
  }

  // Every crash

  /** A crash, at any phase, that left no pending write. */
  predicate SettledCrash(w: World) {
    w.process.Down? && w.disk.root.pending.None?
  }

  lemma CreationsRecover(g: Setting, w: World)
    requires g.Good() && Reached(g, w) && SettledCrash(w)
    requires AllRecognised(g.Operations()) && forall op :: op in g.Operations() ==> op.CreateFile?
    ensures Recovers(g, w)
  {
    if MutatingCrash(w) {
      AllCrashesRecover(g);
    } else if RestoredCrash(w) {
      SpecsForOthers(g);
      RestoredFate(g, w);
    } else {
      DecidedFate(g, w);
    }
  }

  lemma DecidedFate(g: Setting, w: World)
    requires g.Good() && Reached(g, w) && w.last != Some(MutatingPhase) && w.last != Some(RestoredPhase)
    ensures Recovers(g, w)
  {
    ReachedIsConsistent(g, w);
    DecidedRecord(g, w.disk, w.last);
    forall own | FreshContainers(g.c, w.disk, own) ensures RecoverOnce(g, own, w.disk).Ended? {
      RecoveryCompletes(g, own, w.disk, w.last);
    }
  }

  lemma DecidedRecord(g: Setting, d: Disk, last: Option<Phase>)
    requires DiskInv(g, d, last) && last != Some(MutatingPhase) && last != Some(RestoredPhase)
    ensures Recoverable(g, d)
  {
  }

  lemma SettledIsOpen(g: Setting)
    requires g.Good() && forall w :: Reached(g, w) && SettledCrash(w) ==> Recovers(g, w)
    ensures AllRecognised(g.Operations()) && OpenToRollback(g.Operations(), g.At(0))
  {
    CleanCrashesRecover(g);
    OpenFromStart(g);
  }

  lemma SettledCreates(g: Setting)
    requires g.Good() && forall w :: Reached(g, w) && SettledCrash(w) ==> Recovers(g, w)
    ensures forall op :: op in g.Operations() ==> op.CreateFile?
  {
    SettledIsOpen(g);
    SpecsForOthers(g);
    if RollbackSpecs(g.c.plan) != [] { var w := RestoredSticks(g, 0); }
  }

  /**
   For a plan that can be executed: recovery completes after every crash of every run,
   at any phase and however many crashes there were before, that left no pending
   write, if and only if the plan only creates single files and the executor
   recognises each of them by its bytes.
   */
  lemma EverySettledCrashRecovers(g: Setting)
    requires g.Good()
    ensures (forall w :: Reached(g, w) && SettledCrash(w) ==> Recovers(g, w)) <==>
      AllRecognised(g.Operations()) && forall op :: op in g.Operations() ==> op.CreateFile?
  {
    if AllRecognised(g.Operations()) && forall op :: op in g.Operations() ==> op.CreateFile? {
      forall w | Reached(g, w) && SettledCrash(w) ensures Recovers(g, w) { CreationsRecover(g, w); }
    }
    if forall w :: Reached(g, w) && SettledCrash(w) ==> Recovers(g, w) {
      SettledIsOpen(g);
      SettledCreates(g);
    }
  }
}
