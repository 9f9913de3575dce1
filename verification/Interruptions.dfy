/** What a crash inside a rollback, or inside a decision, leaves behind; and the plans that survive any number of them. */
module Interruptions {
  import opened Results
  import opened Paths
  import opened Identity
  import opened Plans
  import opened Rollback
  import opened Targets
  import opened Inversion
  import opened Capture
  import opened Machine
  import opened Receipts
  import opened Journals
  import opened Crashes
  import opened Atomicity
  import opened Recoveries
  import opened Reachability

  // A recovery that is cut off after it has put something back

  const FIRST_TOKEN: Digest := Sha256([])
  const OTHER_TOKEN: Digest := Sha256([0])

  /** A recovery with these containers, in a run, that still has operations below `left` to roll back from state `k`. */
  ghost predicate Rolling(g: Setting, own: seq<PreparationIdentity>, k: nat, left: nat, w: World)
  {
    && Reached(g, w) && w.process == RollingBackAgain(g.Rebuilt(), own, left) && w.last == Some(MutatingPhase)
    && k <= left <= g.Count() && w.disk.tree == g.At(k) && w.disk.root.pending.None?
    && Unobstructed(g.Operations(), own, left, w.disk.containers)
    && AllOwn(w.disk, own)
  }

  lemma RecoveryIsReached(g: Setting, w: World, w': World)
    requires Reached(g, w) && !w.process.Down? && !w.process.Live?
    requires Resumes(ContinueRecovery(g, w.disk, w.process), w, w')
    ensures Reached(g, w')
  {
    assert RecoverStep(g, w, w');
    NextIsReached(g, w, w');
  }

  lemma RecoveryStartsFrom(g: Setting, own: seq<PreparationIdentity>, w: World) returns (w': World)
    requires g.Good() && Reached(g, w) && CleanCrash(w) && FreshContainers(g.c, w.disk, own)
    ensures Reached(g, w') && w' == w.(process := RollingBackAgain(g.Rebuilt(), own, g.Count()))
  {
    w' := w.(process := RollingBackAgain(g.Rebuilt(), own, g.Count()));
    ReachedIsConsistent(g, w);
    MutatingRecord(g, w.disk);
    JournaledStart(g, own, w.disk, w.last);
    assert RecoverStep(g, w, w');
    NextIsReached(g, w, w');
  }

  lemma Rolls(g: Setting, own: seq<PreparationIdentity>, k: nat) returns (w: World)
    requires g.Good() && k <= g.Count() && ContainersReserve(g.c.plan, g.c.transaction, own)
    ensures Rolling(g, own, k, g.Count(), w)
  {
    var v := CrashesAnywhere(g, k);
    assert FreshContainers(g.c, v.disk, own);
    ClearPath(g, own, v.disk);
    w := RecoveryStartsFrom(g, own, v);
  }

  /** Undoing what completes and is not obstructed leaves containers of this process's own. */
  lemma UndoesOne(op: Operation, i: nat, own: seq<PreparationIdentity>, d: Disk, r: RollbackOutcome)
    requires r == AttemptRollback(op, Lookup(d.backups, i), d.tree) && r.Done? && AllOwn(d, own)
    requires i !in d.containers && (!op.CreateFile? ==> ContainerFor(own, i).Some?)
    ensures UndoOne(op, i, own, d).Some?
    ensures var u := UndoOne(op, i, own, d).value;
      && u == d.(tree := r.tree, containers := u.containers) && AllOwn(u, own)
      && (forall b :: b in u.containers ==> b in d.containers || b == i)
      && (r.restoredNow && !op.CreateFile? ==> u.containers != map[])
  {
    if r.restoredNow && !op.CreateFile? { assert i in UndoOne(op, i, own, d).value.containers; }
  }

  lemma RollsTo(g: Setting, own: seq<PreparationIdentity>, k: nat, left: nat, w: World, u: Disk)
    requires Rolling(g, own, k, left, w) && 0 < left
    requires UndoOne(g.Operations()[left - 1], left - 1, own, w.disk) == Some(u)
    ensures Reached(g, World(u, RollingBackAgain(g.Rebuilt(), own, left - 1), w.last))
  {
    RollUnfolds(g, g.Rebuilt(), own, left, left - 1, w.disk, Some(u));
    RecoveryIsReached(g, w, World(u, RollingBackAgain(g.Rebuilt(), own, left - 1), w.last));
  }

  /** One more operation is rolled back, if the attempt completes. */
  lemma RollsNext(g: Setting, own: seq<PreparationIdentity>, k: nat, left: nat, m: nat, w: World, r: RollbackOutcome)
    returns (w': World)
    requires Rolling(g, own, k, left, w) && 0 < left && m < left
    requires r == AttemptRollback(g.Operations()[left - 1], Lookup(w.disk.backups, left - 1), g.At(k))
    requires r.Done? && r.tree == g.At(m)
    ensures Rolling(g, own, m, left - 1, w') && w'.disk.backups == w.disk.backups
    ensures r.restoredNow && !g.Operations()[left - 1].CreateFile? ==> w'.disk.containers != map[]
  {
    UndoesOne(g.Operations()[left - 1], left - 1, own, w.disk, r);
    var u := UndoOne(g.Operations()[left - 1], left - 1, own, w.disk).value;
    RollsTo(g, own, k, left, w, u);
    w' := World(u, RollingBackAgain(g.Rebuilt(), own, left - 1), w.last);
  }

  /** Rolling back operation `j` on state `k` completes and keeps the target. */
  ghost predicate PassesOver(g: Setting, backups: map<nat, Node>, k: nat, j: nat)
    requires k <= g.Count() && j < g.Count()
  {
    var r := AttemptRollback(g.Operations()[j], Lookup(backups, j), g.At(k));
    r.Done? && r.tree == g.At(k)
  }

  lemma WaitingIsPassed(g: Setting, backups: map<nat, Node>, k: nat, j: nat)
    requires g.Good() && BackedUp(g.Operations(), backups, g.Before()) && k <= j < g.Count()
    requires AllRecognised(g.Operations()) && RemovalsEmpty(g.Operations(), g.Before())
    ensures PassesOver(g, backups, k, j)
  {
    WaitsInState(g, backups, k, j);
    assert g.StateIs(k);
    OpenAlong(g.Operations(), g.c.plan.store, g.Before(), k);
  }

  lemma RollingBacked(g: Setting, own: seq<PreparationIdentity>, k: nat, left: nat, w: World)
    requires g.Good() && Rolling(g, own, k, left, w)
    ensures BackedUp(g.Operations(), w.disk.backups, g.Before())
  {
    ReachedIsConsistent(g, w);
  }

  /** The recovery passes over what was not executed. */
  lemma {:induction false} RollsDown(g: Setting, own: seq<PreparationIdentity>, k: nat, left: nat, w: World) returns (w': World)
    requires Rolling(g, own, k, left, w)
    requires forall j {:trigger PassesOver(g, w.disk.backups, k, j)} :: k <= j < left ==> PassesOver(g, w.disk.backups, k, j)
    ensures Rolling(g, own, k, k, w') && w'.disk.backups == w.disk.backups
    decreases left
  {
    w' := w;
    if k < left {
      assert PassesOver(g, w.disk.backups, k, left - 1);
      var v := RollsNext(g, own, k, left, k, w, AttemptRollback(g.Operations()[left - 1], Lookup(w.disk.backups, left - 1), g.At(k)));
      w' := RollsDown(g, own, k, left - 1, v);
    }
  }

  /** Some run comes to a recovery that has passed over everything but the first `k` operations, which were executed. */
  lemma RollsBackTo(g: Setting, own: seq<PreparationIdentity>, k: nat) returns (w: World)
    requires g.Good() && AllRecognised(g.Operations()) && RemovalsEmpty(g.Operations(), g.Before())
    requires k <= g.Count() && ContainersReserve(g.c.plan, g.c.transaction, own)
    ensures Rolling(g, own, k, k, w) && BackedUp(g.Operations(), w.disk.backups, g.Before())
  {
    var v := Rolls(g, own, k);
    RollingBacked(g, own, k, g.Count(), v);
    forall j | k <= j < g.Count() ensures PassesOver(g, v.disk.backups, k, j) { WaitingIsPassed(g, v.disk.backups, k, j); }
    w := RollsDown(g, own, k, g.Count(), v);
  }

  lemma PutsOneBack(g: Setting, own: seq<PreparationIdentity>, i: nat, v: World) returns (w: World)
    requires i < g.Count() && Rolling(g, own, i + 1, i + 1, v)
    requires AttemptRollback(g.Operations()[i], Lookup(v.disk.backups, i), g.At(i + 1)) == Done(g.At(i), true)
    requires !g.Operations()[i].CreateFile?
    ensures Reached(g, w) && MutatingCrash(w) && w.disk.tree == g.At(i) && w.disk.containers != map[] && AllOwn(w.disk, own)
  {
    var u := RollsNext(g, own, i + 1, i + 1, i, v, Done(g.At(i), true));
    CrashIsReached(g, u);
    w := u.(process := Down);
  }

  lemma ReadyToPutBack(g: Setting, own: seq<PreparationIdentity>, i: nat) returns (w: World)
    requires g.Good() && AllRecognised(g.Operations()) && RemovalsEmpty(g.Operations(), g.Before())
    requires i < g.Count() && PutsBack(g.Operations()[i]) && ContainersReserve(g.c.plan, g.c.transaction, own)
    ensures Rolling(g, own, i + 1, i + 1, w)
    ensures AttemptRollback(g.Operations()[i], Lookup(w.disk.backups, i), g.At(i + 1)) == Done(g.At(i), true)
  {
    var k := i + 1;
    w := RollsBackTo(g, own, k);
    assert g.Operations()[i] in g.Operations();
    PutBack(g, w.disk.backups, i);
  }

  /** A recovery is cut off right after it has put the old state of operation `i` back. */
  lemma RollbackInterrupted(g: Setting, i: nat) returns (w: World)
    requires g.Good() && AllRecognised(g.Operations()) && RemovalsEmpty(g.Operations(), g.Before())
    requires i < g.Count() && !g.Operations()[i].CreateFile? && PutsBack(g.Operations()[i])
    ensures Reached(g, w) && MutatingCrash(w) && w.disk.tree == g.At(i) && w.disk.containers != map[]
    ensures forall b :: b in w.disk.containers ==> w.disk.containers[b].token == FIRST_TOKEN
  {
    var own := Reserved(g.c, FIRST_TOKEN);
    var v := ReadyToPutBack(g, own, i);
    w := PutsOneBack(g, own, i, v);
    OwnTokens(own, w.disk);
  }

  lemma CrashThatRecovers(g: Setting, k: nat) returns (w: World)
    requires g.Good() && AllRecognised(g.Operations()) && RemovalsEmpty(g.Operations(), g.Before()) && k <= g.Count()
    ensures Reached(g, w) && CleanCrash(w) && w.disk.tree == g.At(k) && Recovers(g, w)
  {
    w := CrashesAnywhere(g, k);
    OpenCrashRecovers(g, w);
  }

  lemma StandingSticks(g: Setting, w: World)
    requires g.Good() && Reached(g, w) && MutatingCrash(w) && w.disk.containers != map[]
    requires forall b :: b in w.disk.containers ==> w.disk.containers[b].token == FIRST_TOKEN
    ensures Sticks(g, w) && !Recovers(g, w)
  {
    MutatingFate(g, w);
    NotBoth(g, w, OTHER_TOKEN);
  }

  /**
   A run crashes after `k` operations, which a recovery could repair; but a
   recovery that is cut off right after it has put the old state of the last of them, `i`,
   back leaves a container whose marker no later recovery can match.
   */
  lemma InterruptedRollbackSticks(g: Setting, i: nat, k: nat) returns (first: World, second: World)
    requires g.Good() && AllRecognised(g.Operations()) && RemovalsEmpty(g.Operations(), g.Before())
    requires k == i + 1 <= g.Count() && !g.Operations()[i].CreateFile? && PutsBack(g.Operations()[i])
    ensures Reached(g, first) && CleanCrash(first) && first.disk.tree == g.At(k) && Recovers(g, first)
    ensures Reached(g, second) && MutatingCrash(second) && second.disk.tree == g.At(i)
    ensures Sticks(g, second) && !Recovers(g, second)
  {
    first := CrashThatRecovers(g, k);
    second := RollbackInterrupted(g, i);
    StandingSticks(g, second);
  }

  lemma PutBack(g: Setting, backups: map<nat, Node>, i: nat)
    requires g.Good() && BackedUp(g.Operations(), backups, g.Before()) && i < g.Count()
    requires RecognisedNew(g.Operations()[i]) && PutsBack(g.Operations()[i])
    ensures AttemptRollback(g.Operations()[i], Lookup(backups, i), g.At(i + 1)) == Done(g.At(i), true)
  {
    GoodBack(g, backups, i);
  }

  lemma OwnTokens(own: seq<PreparationIdentity>, d: Disk)
    requires AllOwn(d, own) && forall x :: x in own ==> x.token == FIRST_TOKEN
    ensures forall i :: i in d.containers ==> d.containers[i].token == FIRST_TOKEN
  {
    forall i | i in d.containers ensures d.containers[i].token == FIRST_TOKEN { ContainerIsIn(own, i); }
  }

  // Any number of crashes

  /** Rolling the plan back never goes through a container. */
  predicate NoContainers(ops: seq<Operation>) {
    forall op :: op in ops ==> op.CreateFile? || !PutsBack(op)
  }

  /** A planned file that reads as the old one has an old file that reads as itself. */
  lemma WrittenOverItself(op: Operation)
    requires ShapedOperation(op) && FileOperation(op) && !PutsBack(op)
    ensures !Rewrites(op) && !op.DeleteFile?
  {
  }

  lemma NothingStands(g: Setting, d: Disk)
    requires g.Good() && ContainersKnown(g, d.containers) && NoContainers(g.Operations())
    ensures d.containers == map[] && RemovalsEmpty(g.Operations(), g.Before())
  {
    forall i | 0 <= i < g.Count() ensures !LeavesContainer(g.Operations()[i]) {
      assert g.Operations()[i] in g.Operations() && ShapedOperation(g.Operations()[i]);
      if FileOperation(g.Operations()[i]) && !PutsBack(g.Operations()[i]) { WrittenOverItself(g.Operations()[i]); }
    }
    assert forall i :: i !in d.containers;
    forall op | op in g.Operations() ensures RemovalReady(op, g.Before()) { }
  }

  /**
   For a plan that can be executed: a recovery completes after every crash under
   MUTATING that left no pending write, however often recoveries were cut off before,
   if and only if the executor recognises every file and no rollback goes through a
   container: the plan creates single files, and replaces others by themselves.
   */
  lemma AllCrashesRecover(g: Setting)
    requires g.Good()
    ensures (forall w :: Reached(g, w) && MutatingCrash(w) ==> Recovers(g, w)) <==>
      AllRecognised(g.Operations()) && NoContainers(g.Operations())
  {
    var ops := g.Operations();
    CleanCrashesRecover(g);
    if AllRecognised(ops) && NoContainers(ops) {
      forall w | Reached(g, w) && MutatingCrash(w) ensures Recovers(g, w) {
        ReachedIsConsistent(g, w);
        NothingStands(g, w.disk);
      }
    } else if AllRecognised(ops) && RemovalsEmpty(ops, g.Before()) {
      var op :| op in ops && !op.CreateFile? && PutsBack(op);
      var i :| 0 <= i < |ops| && ops[i] == op;
      var first, second := InterruptedRollbackSticks(g, i, i + 1);
    }
  }

  // A crash inside the decision

  lemma SealingContinues(s: State, snapshot: Snapshot)
    requires WellCompiled(s.c) && s.Verifying? && s.c.validation.GatePass? && SnapshotMatchesCandidate(s.c.plan, snapshot)
    ensures var p := Continue(s, PostStateObserved(snapshot, true));
      p.Live? && p.s.NeedSealedJournal? && p.s.c == s.c && p.request == PersistJournal(SealedPhase) && !p.half
  {
  }

  /** Of every plan that can be sealed, some run crashes between the pending write and the rename of SEALED, for good. */
  lemma SealingCanStick(g: Setting) returns (w: World)
    requires g.Good() && g.c.validation.GatePass? && KindsDeclared(g.Operations())
    ensures Reached(g, w) && w.process.Down? && w.last == Some(MutatingPhase) && w.disk.tree == g.Candidate()
    ensures Sticks(g, w) && !Recovers(g, w)
  {
    var v := Applies(g, g.Count());
    ReadyFacts(g, v);
    var snapshot := CapturePlan(g.Operations(), g.Candidate());
    SealedWhenMatched(g);
    SealingContinues(v.process.s, snapshot);
    EffectIsReached(g, v, v.disk, PostStateObserved(snapshot, true));
    var u := World(v.disk, Continue(v.process.s, PostStateObserved(snapshot, true)), v.last);
    HalfIsReached(g, u);
    var half := HalfWritten(u);
    ReachedIsConsistent(g, half);
    forall own | FreshContainers(g.c, half.disk, own) ensures RecoverOnce(g, own, half.disk).GivenUp? {
      CrashInsideDecisionSticks(g, own, half);
    }
    CrashIsReached(g, half);
    w := half.(process := Down);
    NotBoth(g, w, FIRST_TOKEN);
  }
}
