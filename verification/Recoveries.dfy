/** Recoveries that are not interrupted: exactly when they complete, and what they leave. */
module Recoveries {
  import opened Results
  import opened Paths
  import opened Identity
  import opened Plans
  import opened Rollback
  import opened Targets
  import opened Inversion
  import opened Capture
  import opened Machine
  import opened Receipts
  import opened Journals
  import opened Crashes
  import opened Atomicity

  /** A recovery that has finished, or one that was refused at the disk it had reached. */
  datatype Recovery = Ended(disk: Disk) | GivenUp(disk: Disk)

  function Effort(p: Process): nat {
    match p
    case RollingBackAgain(plan, _, left) => left + 5 + |Cleanup(plan, false)|
    case CheckingRolledBack(plan, _) => 4 + |Cleanup(plan, false)|
    case PersistingRestored(plan, _, half) => (if half then 2 else 3) + |Cleanup(plan, false)|
    case CheckingPhase(plan, isSealed) => 1 + |Cleanup(plan, isSealed)|
    case CleaningAgain(plan, isSealed, _, cursor) =>
      if cursor < |Cleanup(plan, isSealed)| then |Cleanup(plan, isSealed)| - cursor else 0
    case DiscardingPreparation(ps, cursor) => if cursor <= |ps| then |ps| + 1 - cursor else 0
    case _ => 0
  }

  /** The process that comes after `p`. */
  predicate Follows(p: Process, q: Process) {
    match p
    case RollingBackAgain(plan, own, left) =>
      q == if left == 0 then CheckingRolledBack(plan, own) else RollingBackAgain(plan, own, left - 1)
    case CheckingRolledBack(plan, own) => q == PersistingRestored(plan, own, false)
    case PersistingRestored(plan, own, half) =>
      q == if half then CleaningAgain(plan, false, own, 0) else PersistingRestored(plan, own, true)
    case CheckingPhase(plan, isSealed) => q == CleaningAgain(plan, isSealed, [], 0)
    case CleaningAgain(plan, isSealed, own, cursor) =>
      cursor + 1 < |Cleanup(plan, isSealed)| && q == CleaningAgain(plan, isSealed, own, cursor + 1)
    case DiscardingPreparation(ps, cursor) => cursor <= |ps| && q == DiscardingPreparation(ps, cursor + 1)
    case _ => false
  }

  lemma NextFollows(g: Setting, d: Disk, p: Process)
    requires ContinueRecovery(g, d, p).Next?
    ensures Follows(p, ContinueRecovery(g, d, p).process)
  {
  }

  lemma FollowingShrinks(p: Process, q: Process)
    requires Follows(p, q)
    ensures Effort(q) < Effort(p)
  {
  }

  /** Continues until nothing is left to do or a step is refused. */
  ghost function Recover(g: Setting, d: Disk, p: Process): Recovery
    decreases Effort(p)
  {
    match ContinueRecovery(g, d, p)
    case Finished(u) => Ended(u)
    case Refused => GivenUp(d)
    case Next(u, q, _) =>
      NextFollows(g, d, p);
      FollowingShrinks(p, q);
      Recover(g, u, q)
  }

  /** One whole recovery of what a crash left behind, with the containers it reserves. */
  ghost function RecoverOnce(g: Setting, own: seq<PreparationIdentity>, d: Disk): Recovery {
    match StartRecovery(g, own, d)
    case Finished(u) => Ended(u)
    case Refused => GivenUp(d)
    case Next(u, p, _) => Recover(g, u, p)
  }

  /** A recovery started for a target other than the journal's is refused and leaves the disk alone. */
  lemma ForeignJournalIsRefused(g: Setting, own: seq<PreparationIdentity>, d: Disk)
    requires d.root.others <= {"lock"} && d.root.journal.Some? && d.root.journal.value.Record?
    requires var e := DecodeJournal(d.root.journal.value.document); e.Ok? && e.value.target != g.c.plan.target
    ensures RecoverOnce(g, own, d) == GivenUp(d)
  {
    ForeignJournals(d.root, g.c.plan.target);
  }

  /** Nothing of the transaction is left but, perhaps, a pending write. */
  predicate Wiped(d: Disk) {
    NothingLeft(d) && d.root.others <= {"lock"} && (d.root.pending.Some? ==> d.root.pending.value.Record?)
  }

  // Cleaning up

  /** An item from `cursor` on that a process with these containers may not clean. */
  predicate BlockedAhead(items: seq<CleanupItem>, cursor: nat, own: seq<PreparationIdentity>, d: Disk) {
    exists j :: cursor <= j < |items| && !MayClean(items[j], own, d)
  }

  lemma CleaningUnfolds(g: Setting, plan: Plan, isSealed: bool, own: seq<PreparationIdentity>, cursor: nat, d: Disk)
    requires cursor < |Cleanup(plan, isSealed)|
    ensures var items := Cleanup(plan, isSealed);
      ContinueRecovery(g, d, CleaningAgain(plan, isSealed, own, cursor)) ==
        if !MayClean(items[cursor], own, d) then Refused
        else if cursor + 1 < |items| then
          Next(CleanEffect(items[cursor], d), CleaningAgain(plan, isSealed, own, cursor + 1), false)
        else Finished(CleanEffect(items[cursor], d))
  {
  }

  lemma SameCleanup(g: Setting, isSealed: bool)
    ensures Cleanup(g.Rebuilt(), isSealed) == Cleanup(g.c.plan, isSealed)
  {
  }

  lemma CleaningContinues(g: Setting, isSealed: bool, own: seq<PreparationIdentity>, cursor: nat, d: Disk)
    requires cursor < |Cleanup(g.c.plan, isSealed)|
    ensures var items := Cleanup(g.c.plan, isSealed);
      ContinueRecovery(g, d, CleaningAgain(g.Rebuilt(), isSealed, own, cursor)) ==
        if !MayClean(items[cursor], own, d) then Refused
        else if cursor + 1 < |items| then
          Next(CleanEffect(items[cursor], d), CleaningAgain(g.Rebuilt(), isSealed, own, cursor + 1), false)
        else Finished(CleanEffect(items[cursor], d))
  {
    SameCleanup(g, isSealed);
    CleaningUnfolds(g, g.Rebuilt(), isSealed, own, cursor, d);
  }

  lemma LastIsWiped(g: Setting, isSealed: bool, cursor: nat, d: Disk, last: Option<Phase>)
    requires DiskInv(g, d, last) && last == Some(if isSealed then SealedPhase else RestoredPhase)
    requires CleanedUpTo(Cleanup(g.c.plan, isSealed), cursor, d)
    ensures var items := Cleanup(g.c.plan, isSealed);
      cursor + 1 == |items| ==> Wiped(CleanEffect(items[cursor], d))
  {
    CleanStep(g, isSealed, cursor, d, last);
  }

  /** What cleaning from `cursor` on comes to. */
  ghost predicate CleaningResult(items: seq<CleanupItem>, own: seq<PreparationIdentity>, cursor: nat, d: Disk, r: Recovery) {
    && r.disk.tree == d.tree
    && (r.Ended? <==> !BlockedAhead(items, cursor, own, d))
    && (r.Ended? ==> Wiped(r.disk) && r.disk.root.pending == d.root.pending)
  }

  lemma CleaningStops(items: seq<CleanupItem>, own: seq<PreparationIdentity>, cursor: nat, d: Disk)
    requires cursor < |items| && !MayClean(items[cursor], own, d)
    ensures CleaningResult(items, own, cursor, d, GivenUp(d))
  {
  }

  /** Cleaning an item one may clean blocks and unblocks no other. */
  lemma CursorMoves(items: seq<CleanupItem>, own: seq<PreparationIdentity>, cursor: nat, d: Disk)
    requires cursor < |items| && MayClean(items[cursor], own, d)
    ensures BlockedAhead(items, cursor, own, d) <==> BlockedAhead(items, cursor + 1, own, CleanEffect(items[cursor], d))
  {
    var u := CleanEffect(items[cursor], d);
    forall item: CleanupItem ensures MayClean(item, own, d) <==> MayClean(item, own, u) { }
  }

  lemma CleaningIsDone(items: seq<CleanupItem>, own: seq<PreparationIdentity>, cursor: nat, d: Disk, u: Disk)
    requires cursor + 1 == |items| && MayClean(items[cursor], own, d)
    requires u == CleanEffect(items[cursor], d) && Wiped(u)
    ensures CleaningResult(items, own, cursor, d, Ended(u))
  {
    CursorMoves(items, own, cursor, d);
  }

  lemma CleaningGoesOn(items: seq<CleanupItem>, own: seq<PreparationIdentity>, cursor: nat, d: Disk, r: Recovery)
    requires cursor < |items| && MayClean(items[cursor], own, d)
    requires CleaningResult(items, own, cursor + 1, CleanEffect(items[cursor], d), r)
    ensures CleaningResult(items, own, cursor, d, r)
  {
    CursorMoves(items, own, cursor, d);
  }

  /** Cleaning goes through to the end unless it meets a rollback container it may not clean. */
  lemma {:induction false} CleaningEnds(
    g: Setting, isSealed: bool, own: seq<PreparationIdentity>, cursor: nat, d: Disk, last: Option<Phase>)
    requires DiskInv(g, d, last) && last == Some(if isSealed then SealedPhase else RestoredPhase)
    requires CleanedUpTo(Cleanup(g.c.plan, isSealed), cursor, d)
    ensures CleaningResult(Cleanup(g.c.plan, isSealed), own, cursor, d,
                           Recover(g, d, CleaningAgain(g.Rebuilt(), isSealed, own, cursor)))
    decreases |Cleanup(g.c.plan, isSealed)| - cursor
  {
    var items := Cleanup(g.c.plan, isSealed);
    CleaningContinues(g, isSealed, own, cursor, d);
    if !MayClean(items[cursor], own, d) {
      CleaningStops(items, own, cursor, d);
    } else {
      var u := CleanEffect(items[cursor], d);
      CleanStep(g, isSealed, cursor, d, last);
      if cursor + 1 < |items| {
        CleaningEnds(g, isSealed, own, cursor + 1, u, last);
        CleaningGoesOn(items, own, cursor, d, Recover(g, u, CleaningAgain(g.Rebuilt(), isSealed, own, cursor + 1)));
      } else {
        LastIsWiped(g, isSealed, cursor, d, last);
        CleaningIsDone(items, own, cursor, d, u);
      }
    }
  }

  /** Without a reservation, cleaning is blocked exactly by a plan that needs a container. */
  lemma UnreservedIsBlocked(plan: Plan, isSealed: bool, d: Disk)
    ensures BlockedAhead(Cleanup(plan, isSealed), 0, [], d) <==> !isSealed && RollbackSpecs(plan) != []
  {
    var specs, items := PreparationSpecs(plan), Cleanup(plan, isSealed);
    PreparationsReserveNoContainer(plan.operations, 0);
    CleanupOfPreparationsCovers(specs);
    if !isSealed && RollbackSpecs(plan) != [] { assert !MayClean(items[|specs|], [], d); }
  }

  /** Every standing container is one this process has reserved. */
  predicate AllOwn(d: Disk, own: seq<PreparationIdentity>) {
    forall i :: i in d.containers ==> ContainerFor(own, i) == Some(d.containers[i])
  }

  lemma {:induction false} ContainerIsIn(cs: seq<PreparationIdentity>, i: nat)
    ensures ContainerFor(cs, i).Some? <==> exists j :: 0 <= j < |cs| && cs[j].spec.index == i
    ensures ContainerFor(cs, i).Some? ==> ContainerFor(cs, i).value in cs
    decreases |cs|
  {
    if cs != [] {
      ContainerIsIn(cs[1..], i);
      if j :| 0 <= j < |cs| && cs[j].spec.index == i { assert j == 0 || cs[1..][j - 1] == cs[j]; }
      if j :| 0 <= j < |cs[1..]| && cs[1..][j].spec.index == i { assert cs[j + 1] == cs[1..][j]; }
    }
  }

  /** A process that reserved every container has one for each operation that needs it. */
  lemma ReservedFor(g: Setting, own: seq<PreparationIdentity>, i: nat)
    requires g.Good() && ContainersReserve(g.c.plan, g.c.transaction, own)
    requires i < g.Count() && !g.Operations()[i].CreateFile?
    ensures ContainerFor(own, i).Some?
  {
    assert g.Operations()[i] in g.Operations();
    ContainerReserved(g.Operations(), 0, i);
    var s :| s in RollbackSpecs(g.c.plan) && s.index == i;
    var j :| 0 <= j < |RollbackSpecs(g.c.plan)| && RollbackSpecs(g.c.plan)[j] == s;
    assert own[j].spec == s;
    ContainerIsIn(own, i);
  }

  /** With every container reserved, cleaning is blocked exactly by one that some earlier process left. */
  lemma OthersBlock(g: Setting, own: seq<PreparationIdentity>, d: Disk)
    requires g.Good() && ContainersReserve(g.c.plan, g.c.transaction, own) && ContainersKnown(g, d.containers)
    ensures BlockedAhead(Cleanup(g.c.plan, false), 0, own, d) <==> !AllOwn(d, own)
  {
    var items := Cleanup(g.c.plan, false);
    ContainersAreCleaned(g, d.containers);
    OtherIsBlocked(items, own, d);
    if AllOwn(d, own) {
      forall j | 0 <= j < |items| ensures MayClean(items[j], own, d) { AllOwnMayClean(g, own, d, j); }
    }
  }

  lemma OtherIsBlocked(items: seq<CleanupItem>, own: seq<PreparationIdentity>, d: Disk)
    requires forall b :: b in d.containers ==> CleanRollback(b) in items
    ensures !AllOwn(d, own) ==> BlockedAhead(items, 0, own, d)
  {
    if !AllOwn(d, own) {
      var i :| i in d.containers && ContainerFor(own, i) != Some(d.containers[i]);
      var j :| 0 <= j < |items| && items[j] == CleanRollback(i);
      assert !MayClean(items[j], own, d);
    }
  }

  lemma AllOwnMayClean(g: Setting, own: seq<PreparationIdentity>, d: Disk, j: nat)
    requires ContainersReserve(g.c.plan, g.c.transaction, own) && AllOwn(d, own)
    requires j < |Cleanup(g.c.plan, false)|
    ensures MayClean(Cleanup(g.c.plan, false)[j], own, d)
  {
    var specs, items := PreparationSpecs(g.c.plan), Cleanup(g.c.plan, false);
    if items[j].CleanRollback? {
      PreparationsReserveNoContainer(g.c.plan.operations, 0);
      CleanupOfPreparationsCovers(specs);
      assert own[j - |specs|].spec.index == items[j].index;
      ContainerIsIn(own, items[j].index);
    }
  }

  lemma {:induction false} DiscardingEnds(g: Setting, cursor: nat, d: Disk)
    requires DiskInv(g, d, Some(PlannedPhase)) && cursor <= |g.c.preparations|
    requires DiscardedLater(g.c.preparations, cursor, d.backups)
    ensures var r := Recover(g, d, DiscardingPreparation(g.c.preparations, cursor));
      r.Ended? && Wiped(r.disk) && r.disk.tree == d.tree && r.disk.root.pending == d.root.pending
    decreases |g.c.preparations| - cursor
  {
    var ps := g.c.preparations;
    if cursor < |ps| {
      DiscardKeepsDisk(g, ps[cursor], d, Some(PlannedPhase));
      DiscardAdvances(ps, cursor, d);
      DiscardingEnds(g, cursor + 1, Discarded(ps[cursor], d));
    } else {
      assert forall b :: b !in d.backups;
      DiscardingFinishes(g, d);
      DiscardedIsWiped(g, d);
    }
  }

  lemma DiscardingFinishes(g: Setting, d: Disk)
    ensures var ps, u := g.c.preparations, CleanEffect(CleanTransactionDirectory, d);
      Recover(g, d, DiscardingPreparation(ps, |ps|)) == Ended(CleanEffect(CleanJournal, u))
  {
    var ps, u := g.c.preparations, CleanEffect(CleanTransactionDirectory, d);
    assert ContinueRecovery(g, u, DiscardingPreparation(ps, |ps| + 1)) == Finished(CleanEffect(CleanJournal, u));
  }

  lemma DiscardedIsWiped(g: Setting, d: Disk)
    requires DiskInv(g, d, Some(PlannedPhase)) && d.backups == map[]
    ensures var u := CleanEffect(CleanJournal, CleanEffect(CleanTransactionDirectory, d));
      Wiped(u) && u.tree == d.tree && u.root.pending == d.root.pending
  {
  }

  // Rolling back

  datatype RollOutcome = Rolled(disk: Disk) | Halted(disk: Disk)

  /** The recovery loop on the disk: the rollback pass, with the containers it leaves standing. */
  ghost function RollAll(ops: seq<Operation>, own: seq<PreparationIdentity>, i: nat, d: Disk): RollOutcome
    requires i <= |ops|
    decreases i
  {
    if i == 0 then Rolled(d) else
      match UndoOne(ops[i - 1], i - 1, own, d)
      case Some(u) => RollAll(ops, own, i - 1, u)
      case None => Halted(d)
  }

  lemma RollAllUnfolds(ops: seq<Operation>, own: seq<PreparationIdentity>, i: nat, rest: nat, d: Disk, r: Option<Disk>)
    requires rest + 1 == i <= |ops| && r == UndoOne(ops[rest], rest, own, d)
    ensures RollAll(ops, own, i, d) == if r.Some? then RollAll(ops, own, rest, r.value) else Halted(d)
  {
  }

  lemma RecoverUnfolds(g: Setting, d: Disk, p: Process, step: RecoveryStep)
    requires step == ContinueRecovery(g, d, p)
    ensures step.Next? ==> Recover(g, d, p) == Recover(g, step.disk, step.process)
    ensures step.Refused? ==> Recover(g, d, p) == GivenUp(d)
  {
  }

  /** Where the loop has rolled everything back, the recovery goes on to check. */
  ghost function AfterRoll(g: Setting, own: seq<PreparationIdentity>, r: RollOutcome): Recovery {
    match r
    case Rolled(u) => Recover(g, u, CheckingRolledBack(g.Rebuilt(), own))
    case Halted(u) => GivenUp(u)
  }

  ghost predicate LoopIsPass(g: Setting, own: seq<PreparationIdentity>, left: nat, d: Disk)
    requires left <= g.Count()
  {
    Recover(g, d, RollingBackAgain(g.Rebuilt(), own, left)) == AfterRoll(g, own, RollAll(g.Operations(), own, left, d))
  }

  lemma RolledFully(g: Setting, own: seq<PreparationIdentity>, d: Disk)
    ensures LoopIsPass(g, own, 0, d)
  {
  }

  /** The recovery loop rolls back operation by operation, and both stop together. */
  lemma {:induction false} RollingIsRollAll(g: Setting, own: seq<PreparationIdentity>, left: nat, d: Disk)
    requires left <= g.Count()
    ensures LoopIsPass(g, own, left, d)
    decreases left
  {
    if left == 0 {
      RolledFully(g, own, d);
    } else {
      var rest := left - 1;
      var r := OneRoll(g, own, left, rest, d);
      if r.Some? { RollingIsRollAll(g, own, rest, r.value); }
    }
  }

  lemma OneRoll(g: Setting, own: seq<PreparationIdentity>, left: nat, rest: nat, d: Disk) returns (r: Option<Disk>)
    requires rest + 1 == left <= g.Count()
    ensures r.None? ==> LoopIsPass(g, own, left, d)
    ensures r.Some? ==> (LoopIsPass(g, own, rest, r.value) ==> LoopIsPass(g, own, left, d))
  {
    r := UndoOne(g.Operations()[rest], rest, own, d);
    RecoverRolls(g, own, left, rest, d, r);
    RollAllUnfolds(g.Operations(), own, left, rest, d, r);
  }

  lemma RecoverRolls(g: Setting, own: seq<PreparationIdentity>, left: nat, rest: nat, d: Disk, r: Option<Disk>)
    requires rest + 1 == left <= g.Count() && r == UndoOne(g.Operations()[rest], rest, own, d)
    ensures Recover(g, d, RollingBackAgain(g.Rebuilt(), own, left)) ==
      if r.Some? then Recover(g, r.value, RollingBackAgain(g.Rebuilt(), own, rest)) else GivenUp(d)
  {
    var step := if r.Some? then Next(r.value, RollingBackAgain(g.Rebuilt(), own, rest), false) else Refused;
    RollUnfolds(g, g.Rebuilt(), own, left, rest, d, r);
    RecoverUnfolds(g, d, RollingBackAgain(g.Rebuilt(), own, left), step);
  }

  /** What stood before still stands, and whatever is new is this process's own. */
  predicate AddsOwn(before: map<nat, PreparationIdentity>, after: map<nat, PreparationIdentity>, own: seq<PreparationIdentity>) {
    && (forall b :: b in before ==> b in after && after[b] == before[b])
    && (forall b :: b in after && b !in before ==> ContainerFor(own, b) == Some(after[b]))
  }

  lemma UndoAddsOwn(op: Operation, i: nat, own: seq<PreparationIdentity>, d: Disk)
    requires UndoOne(op, i, own, d).Some?
    ensures AddsOwn(d.containers, UndoOne(op, i, own, d).value.containers, own)
  {
  }

  lemma AddsOwnTwice(a: map<nat, PreparationIdentity>, b: map<nat, PreparationIdentity>, c: map<nat, PreparationIdentity>, own: seq<PreparationIdentity>)
    requires AddsOwn(a, b, own) && AddsOwn(b, c, own)
    ensures AddsOwn(a, c, own)
  {
  }

  /** Wherever the loop ends, the disk is in order, and the target one of the run. */
  ghost predicate RolledWell(g: Setting, own: seq<PreparationIdentity>, d: Disk, r: RollOutcome)
  {
    && DiskInv(g, r.disk, Some(MutatingPhase)) && r.disk.root == d.root && r.disk.backups == d.backups
    && (r.Rolled? ==> r.disk.tree == g.Before())
    && AddsOwn(d.containers, r.disk.containers, own)
  }

  lemma RolledOn(g: Setting, own: seq<PreparationIdentity>, d: Disk, u: Disk, r: RollOutcome)
    requires RolledWell(g, own, u, r)
    requires u.root == d.root && u.backups == d.backups && AddsOwn(d.containers, u.containers, own)
    ensures RolledWell(g, own, d, r)
  {
    AddsOwnTwice(d.containers, u.containers, r.disk.containers, own);
  }

  lemma StoppedWell(g: Setting, own: seq<PreparationIdentity>, d: Disk)
    requires DiskInv(g, d, Some(MutatingPhase))
    ensures RolledWell(g, own, d, Halted(d)) && (d.tree == g.Before() ==> RolledWell(g, own, d, Rolled(d)))
  {
  }

  lemma {:induction false} RollAllKeeps(g: Setting, own: seq<PreparationIdentity>, left: nat, d: Disk, m: nat)
    requires g.Good() && DiskInv(g, d, Some(MutatingPhase)) && m <= left <= g.Count() && d.tree == g.At(m)
    ensures RolledWell(g, own, d, RollAll(g.Operations(), own, left, d))
    decreases left, 0
  {
    StoppedWell(g, own, d);
    if left > 0 {
      var rest := left - 1;
      var r := UndoOne(g.Operations()[rest], rest, own, d);
      RollAllUnfolds(g.Operations(), own, left, rest, d, r);
      if r.Some? { RollAllGoesOn(g, own, left, rest, d, m, r.value); }
    }
  }

  lemma RollAllGoesOn(g: Setting, own: seq<PreparationIdentity>, left: nat, rest: nat, d: Disk, m: nat, u: Disk)
    requires g.Good() && DiskInv(g, d, Some(MutatingPhase)) && rest + 1 == left <= g.Count() && m <= left && d.tree == g.At(m)
    requires UndoOne(g.Operations()[rest], rest, own, d) == Some(u)
    ensures RolledWell(g, own, d, RollAll(g.Operations(), own, rest, u))
    decreases rest, 2
  {
    var k := UndoKeeps(g, own, rest, d, m, u);
    UndoAddsOwn(g.Operations()[rest], rest, own, d);
    RollAllFrom(g, own, rest, d, u, k);
  }

  lemma RollAllFrom(g: Setting, own: seq<PreparationIdentity>, left: nat, d: Disk, u: Disk, k: nat)
    requires g.Good() && DiskInv(g, u, Some(MutatingPhase)) && k <= left <= g.Count() && u.tree == g.At(k)
    requires u.root == d.root && u.backups == d.backups && AddsOwn(d.containers, u.containers, own)
    ensures RolledWell(g, own, d, RollAll(g.Operations(), own, left, u))
    decreases left, 1
  {
    RollAllKeeps(g, own, left, u, k);
    RolledOn(g, own, d, u, RollAll(g.Operations(), own, left, u));
  }

  /** Every operation below `i` that needs a container has one reserved, and none stands yet. */
  predicate Unobstructed(ops: seq<Operation>, own: seq<PreparationIdentity>, i: nat, containers: map<nat, PreparationIdentity>)
    requires i <= |ops|
  {
    && (forall j :: 0 <= j < i && !ops[j].CreateFile? ==> ContainerFor(own, j).Some?)
    && (forall b :: b in containers ==> i <= b)
  }

  lemma UnobstructedUndo(ops: seq<Operation>, own: seq<PreparationIdentity>, i: nat, d: Disk)
    requires 0 < i <= |ops| && Unobstructed(ops, own, i, d.containers)
    ensures var r, u := AttemptRollback(ops[i - 1], Lookup(d.backups, i - 1), d.tree), UndoOne(ops[i - 1], i - 1, own, d);
      && (u.Some? <==> r.Done?)
      && (u.Some? ==> u.value.tree == r.tree && u.value.backups == d.backups && Unobstructed(ops, own, i - 1, u.value.containers))
  {
  }

  /** Where no container stands in the way, the loop is the rollback pass. */
  lemma {:induction false} RollAllIsThePass(ops: seq<Operation>, own: seq<PreparationIdentity>, i: nat, d: Disk)
    requires i <= |ops| && Unobstructed(ops, own, i, d.containers)
    ensures RollAll(ops, own, i, d).Rolled? <==> RollbackPass(ops, d.backups, i, d.tree).Restored?
    ensures RollAll(ops, own, i, d).disk.tree == RollbackPass(ops, d.backups, i, d.tree).tree
    decreases i
  {
    if i > 0 {
      UnobstructedUndo(ops, own, i, d);
      if UndoOne(ops[i - 1], i - 1, own, d).Some? { RollAllIsThePass(ops, own, i - 1, UndoOne(ops[i - 1], i - 1, own, d).value); }
    }
  }

  // When a rollback pass goes through

  /**
   The executor takes every file of the plan for its old or its planned state, and no
   directory the plan removes, and that still stands, holds anything.
   */
  ghost predicate OpenToRollback(ops: seq<Operation>, t: Tree) {
    forall op :: op in ops ==>
      && (FileOperation(op) ==> RollbackView(t, op.path) == op.before || RollbackView(t, op.path) == PlannedState(op))
      && (op.RemoveEmptyDirectory? && op.path in t.dirs ==> Below(t, op.path) == {})
  }

  lemma ExecutedIsSeen(ops: seq<Operation>, store: Store, t: Tree, k: nat, j: nat)
    requires Executable(ops, store, t) && j < k <= |ops|
    ensures FileOperation(ops[j]) ==> RollbackView(After(ops, store, t, k), ops[j].path) == ByBytes(PlannedState(ops[j]))
    ensures ops[j].RemoveEmptyDirectory? ==> ops[j].path !in After(ops, store, t, k).dirs
  {
    ExecutedAreCandidates(ops, store, t, k, j);
    assert ops[j] in ops;
    assert SoundOperation(ops[j], store);
  }

  lemma WaitingIsSeen(ops: seq<Operation>, store: Store, t: Tree, k: nat, j: nat)
    requires Executable(ops, store, t) && k <= j < |ops|
    ensures FileOperation(ops[j]) ==> RollbackView(After(ops, store, t, k), ops[j].path) == ByBytes(ops[j].before)
    ensures ops[j].RemoveEmptyDirectory? ==> ops[j].path in After(ops, store, t, k).dirs
  {
    Intermediate(ops, store, t, k);
    assert Waiting(ops, t, After(ops, store, t, k), j) && ops[j] in ops;
  }

  /** After `k` operations: the written files are recognised, the old ones are, and what is to be removed is empty. */
  lemma OpenAfter(ops: seq<Operation>, store: Store, t: Tree, k: nat)
    requires Executable(ops, store, t) && k <= |ops|
    ensures var u := After(ops, store, t, k);
      OpenToRollback(ops, u) <==> AllNewRecognised(ops, k) && AllOldRecognised(ops, k, |ops|, u)
  {
    var u := After(ops, store, t, k);
    if OpenToRollback(ops, u) {
      forall j | 0 <= j < k ensures RecognisedNew(ops[j]) { assert ops[j] in ops; ExecutedIsSeen(ops, store, t, k, j); }
      forall j | k <= j < |ops| ensures RecognisedOld(ops[j]) && RemovalReady(ops[j], u) {
        assert ops[j] in ops;
        WaitingIsSeen(ops, store, t, k, j);
      }
    }
    if AllNewRecognised(ops, k) && AllOldRecognised(ops, k, |ops|, u) {
      forall op | op in ops
        ensures FileOperation(op) ==> RollbackView(u, op.path) == op.before || RollbackView(u, op.path) == PlannedState(op)
        ensures op.RemoveEmptyDirectory? && op.path in u.dirs ==> Below(u, op.path) == {}
      {
        var j :| 0 <= j < |ops| && ops[j] == op;
        if j < k { ExecutedIsSeen(ops, store, t, k, j); assert RecognisedNew(ops[j]); }
        else { WaitingIsSeen(ops, store, t, k, j); assert RecognisedOld(ops[j]) && RemovalReady(ops[j], u); }
      }
    }
  }

  lemma CheckedPersists(g: Setting, own: seq<PreparationIdentity>, d: Disk)
    requires RestoredVerification(g.Rebuilt(), CapturePlan(g.Operations(), d.tree)) == Intact
    ensures Recover(g, d, CheckingRolledBack(g.Rebuilt(), own)) == Recover(g, d, PersistingRestored(g.Rebuilt(), own, false))
  {
  }

  lemma PersistingGoesOn(g: Setting, own: seq<PreparationIdentity>, d: Disk)
    requires d.root.pending.None?
    ensures var u := d.(root := PendingRenamed(PendingWritten(d.root, RecordFor(g.c, RestoredPhase, own))));
      Recover(g, d, PersistingRestored(g.Rebuilt(), own, false)) == Recover(g, u, CleaningAgain(g.Rebuilt(), false, own, 0))
  {
    var half := d.(root := PendingWritten(d.root, RecordFor(g.c, RestoredPhase, own)));
    assert Recover(g, d, PersistingRestored(g.Rebuilt(), own, false)) == Recover(g, half, PersistingRestored(g.Rebuilt(), own, true));
  }

  lemma PersistedEnds(g: Setting, own: seq<PreparationIdentity>, d: Disk)
    requires g.Good() && ContainersReserve(g.c.plan, g.c.transaction, own) && d.root.pending.None?
    requires DiskInv(g, d, Some(MutatingPhase)) && d.tree == g.Before()
    ensures var r := Recover(g, d, PersistingRestored(g.Rebuilt(), own, false));
      && r.disk.tree == g.Before() && (r.Ended? <==> AllOwn(d, own))
      && (r.Ended? ==> Wiped(r.disk) && r.disk.root.pending.None?)
  {
    PersistingGoesOn(g, own, d);
    var half := d.(root := PendingWritten(d.root, RecordFor(g.c, RestoredPhase, own)));
    var u := half.(root := PendingRenamed(half.root));
    PendingKeepsDisk(g, d, Some(MutatingPhase), RestoredPhase, own);
    RenamedDisk(g, half, Some(MutatingPhase), RestoredPhase);
    StartCleaning(g, false, u);
    CleaningEnds(g, false, own, 0, u, Some(RestoredPhase));
    OthersBlock(g, own, u);
  }

  lemma PersistingRefused(g: Setting, own: seq<PreparationIdentity>, d: Disk)
    requires d.root.pending.Some?
    ensures Recover(g, d, PersistingRestored(g.Rebuilt(), own, false)) == GivenUp(d)
  {
  }

  /**
   Once the old target stands, the recovery persists and cleans, unless a pending
   write or a container of an earlier process is in the way.
   */
  lemma RolledBackEnds(g: Setting, own: seq<PreparationIdentity>, d: Disk)
    requires g.Good() && ContainersReserve(g.c.plan, g.c.transaction, own)
    requires DiskInv(g, d, Some(MutatingPhase)) && d.tree == g.Before()
    ensures var r := Recover(g, d, CheckingRolledBack(g.Rebuilt(), own));
      && r.disk.tree == g.Before() && (r.Ended? <==> d.root.pending.None? && AllOwn(d, own))
      && (r.Ended? ==> Wiped(r.disk) && r.disk.root.pending.None?)
  {
    StartPassesItsGate(g.c.plan, g.Before());
    SameChecks(g, d.tree);
    CheckedPersists(g, own, d);
    if d.root.pending.None? { PersistedEnds(g, own, d); } else { PersistingRefused(g, own, d); }
  }

  /** The rebuilt plan is checked as the compiled one is. */
  lemma SameChecks(g: Setting, t: Tree)
    ensures var s := CapturePlan(g.Operations(), t);
      && RestoredVerification(g.Rebuilt(), s) == RestoredVerification(g.c.plan, s)
      && SealedVerification(g.Rebuilt(), s) == SealedVerification(g.c.plan, s)
  {
    var s := CapturePlan(g.Operations(), t);
    assert RollbackSteps(g.Rebuilt(), s) == RollbackSteps(g.c.plan, s);
    assert SealedSteps(g.Rebuilt(), s) == SealedSteps(g.c.plan, s);
  }

  lemma MutatingTree(g: Setting, d: Disk, k: nat)
    requires g.Good() && DiskInv(g, d, Some(MutatingPhase)) && k <= g.Count() && d.tree == g.At(k)
    ensures RollbackPass(g.Operations(), d.backups, g.Count(), d.tree).Restored? <==> OpenToRollback(g.Operations(), d.tree)
  {
    assert g.StateIs(k);
    OpenAfter(g.Operations(), g.c.plan.store, g.Before(), k);
    RollbackInvertsPrefix(g.Operations(), g.c.plan.store, g.Before(), d.backups, k, g.Count());
  }

  /** A process with fresh containers owns all that stand after its pass exactly if none stood before. */
  lemma FreshOwnsNone(g: Setting, own: seq<PreparationIdentity>, d: Disk, u: Disk)
    requires FreshContainers(g.c, d, own) && AddsOwn(d.containers, u.containers, own)
    ensures AllOwn(u, own) <==> d.containers == map[]
  {
    if d.containers != map[] {
      var b :| b in d.containers;
      ContainerIsIn(own, b);
      assert u.containers[b] == d.containers[b];
    }
  }

  lemma ClearPath(g: Setting, own: seq<PreparationIdentity>, d: Disk)
    requires g.Good() && FreshContainers(g.c, d, own) && d.containers == map[]
    ensures Unobstructed(g.Operations(), own, g.Count(), d.containers)
  {
    forall j | 0 <= j < g.Count() && !g.Operations()[j].CreateFile? ensures ContainerFor(own, j).Some? {
      ReservedFor(g, own, j);
    }
  }

  /** Whether the loop gets through. */
  lemma LoopEnds(g: Setting, own: seq<PreparationIdentity>, d: Disk)
    requires g.Good() && FreshContainers(g.c, d, own) && DiskInv(g, d, Some(MutatingPhase))
    ensures RolledWell(g, own, d, RollAll(g.Operations(), own, g.Count(), d))
    ensures d.containers == map[] ==>
      (RollAll(g.Operations(), own, g.Count(), d).Rolled? <==> OpenToRollback(g.Operations(), d.tree))
  {
    var k :| 0 <= k <= g.Count() && d.tree == g.At(k);
    RollAllKeeps(g, own, g.Count(), d, k);
    if d.containers == map[] {
      ClearPath(g, own, d);
      RollAllIsThePass(g.Operations(), own, g.Count(), d);
      MutatingTree(g, d, k);
    }
  }

  /** One of the targets the transaction passes through. */
  ghost predicate PassedThrough(g: Setting, t: Tree)
  {
    exists k :: 0 <= k <= g.Count() && t == g.At(k)
  }

  lemma StartIsPassed(g: Setting)
    ensures PassedThrough(g, g.Before()) && PassedThrough(g, g.Candidate())
  {
    assert g.Before() == g.At(0);
    assert g.Candidate() == g.At(g.Count());
  }

  lemma MutatingEnds(g: Setting, own: seq<PreparationIdentity>, d: Disk)
    requires g.Good() && FreshContainers(g.c, d, own) && DiskInv(g, d, Some(MutatingPhase))
    ensures var r := Recover(g, d, RollingBackAgain(g.Rebuilt(), own, g.Count()));
      && (r.Ended? <==> d.root.pending.None? && d.containers == map[] && OpenToRollback(g.Operations(), d.tree))
      && (r.Ended? ==> Wiped(r.disk) && r.disk.root.pending == d.root.pending && r.disk.tree == g.Before())
      && PassedThrough(g, r.disk.tree)
  {
    var roll := RollAll(g.Operations(), own, g.Count(), d);
    RollingIsRollAll(g, own, g.Count(), d);
    LoopEnds(g, own, d);
    if roll.Rolled? {
      RolledBackEnds(g, own, roll.disk);
      FreshOwnsNone(g, own, d, roll.disk);
      StartIsPassed(g);
    }
  }

  // Finishing a decided transaction

  lemma CheckedCleans(g: Setting, d: Disk, isSealed: bool)
    requires var s := CapturePlan(g.Operations(), d.tree);
      (if isSealed then SealedVerification(g.Rebuilt(), s) else RestoredVerification(g.Rebuilt(), s)) == Intact
    ensures Recover(g, d, CheckingPhase(g.Rebuilt(), isSealed))
      == Recover(g, d, CleaningAgain(g.Rebuilt(), isSealed, [], 0))
  {
  }

  lemma GateIsIntact(g: Setting, t: Tree, isSealed: bool)
    requires g.Good() && t == if isSealed then g.Candidate() else g.Before()
    requires isSealed ==> SealedVerification(g.c.plan, CapturePlan(g.Operations(), t)) == Intact
    ensures var s := CapturePlan(g.Operations(), t);
      (if isSealed then SealedVerification(g.Rebuilt(), s) else RestoredVerification(g.Rebuilt(), s)) == Intact
  {
    SameChecks(g, t);
    if !isSealed { StartPassesItsGate(g.c.plan, g.Before()); }
  }

  lemma DecidedEnds(g: Setting, d: Disk, isSealed: bool)
    requires g.Good() && DiskInv(g, d, Some(if isSealed then SealedPhase else RestoredPhase))
    ensures var r := Recover(g, d, CheckingPhase(g.Rebuilt(), isSealed));
      && r.disk.tree == d.tree && (r.Ended? <==> isSealed || RollbackSpecs(g.c.plan) == [])
      && (r.Ended? ==> Wiped(r.disk) && r.disk.root.pending == d.root.pending)
  {
    if isSealed { SealedWhenMatched(g); }
    GateIsIntact(g, d.tree, isSealed);
    CheckedCleans(g, d, isSealed);
    StartCleaning(g, isSealed, d);
    CleaningEnds(g, isSealed, [], 0, d, Some(if isSealed then SealedPhase else RestoredPhase));
    UnreservedIsBlocked(g.c.plan, isSealed, d);
  }

  // The main results

  /**
   When the recovery of what a crash left behind completes.  Under MUTATING: no
   pending write is left over, no earlier process left a rollback container, and the
   target is open to rollback.
   */
  ghost predicate Recoverable(g: Setting, d: Disk) {
    match RecordIn(d.root)
    case None => true
    case Some(e) =>
      match e.phase
      case PlannedPhase => true
      case SealedPhase => true
      case RestoredPhase => RollbackSpecs(g.c.plan) == []
      case MutatingPhase => d.root.pending.None? && d.containers == map[] && OpenToRollback(g.Operations(), d.tree)
  }

  lemma JournaledStart(g: Setting, own: seq<PreparationIdentity>, d: Disk, last: Option<Phase>)
    requires g.Good() && DiskInv(g, d, last) && d.root.journal.Some?
    ensures var r, e := StartRecovery(g, own, d), RecordIn(d.root);
      && e.Some? && last == Some(e.value.phase) && GoodRecord(g.c, e.value)
      && match e.value.phase
         case PlannedPhase => r == Next(d, DiscardingPreparation(g.c.preparations, 0), false)
         case MutatingPhase => r == Next(d, RollingBackAgain(g.Rebuilt(), own, g.Count()), false)
         case SealedPhase => r == Next(d, CheckingPhase(g.Rebuilt(), true), false)
         case RestoredPhase =>
           r == if e.value.preparations == g.c.preparations
                then Next(d, CheckingPhase(g.Rebuilt(), false), false) else Refused
  {
    Classified(g, d, last);
    var e := RecordIn(d.root).value;
    RecordRecovers(g, e);
    StartedProcess(g, own, d, e);
    assert PreparationSpecs(g.Rebuilt()) == PreparationSpecs(g.c.plan);
    var cs :| GoodContainers(g.c, e.phase, cs) && e == RecordFor(g.c, e.phase, cs);
    if cs != [] { assert |e.preparations| > |g.c.preparations|; }
  }

  /** Beside the reservations of the plan, a record lists the rollback containers: then it is more than the plan reserves. */
  lemma RecordReserves(c: Compiled, phase: Phase, cs: seq<PreparationIdentity>)
    requires WellCompiled(c)
    ensures ReservesExactly(c.plan, c.transaction, RecordFor(c, phase, cs).preparations) <==> cs == []
  {
    assert |RecordFor(c, phase, cs).preparations| == |c.preparations| + |cs|;
  }

  lemma RestoredRecords(g: Setting, e: Envelope)
    requires GoodRecord(g.c, e) && e.phase.RestoredPhase? && RollbackSpecs(g.c.plan) == []
    ensures e.preparations == g.c.preparations
  {
  }

  lemma PlannedEnds(g: Setting, d: Disk)
    requires g.Good() && DiskInv(g, d, Some(PlannedPhase))
    ensures var r := Recover(g, d, DiscardingPreparation(g.c.preparations, 0));
      r.Ended? && Wiped(r.disk) && r.disk.tree == d.tree && r.disk.root.pending == d.root.pending
  {
    BackupsArePrepared(g, d.backups);
    DiscardingEnds(g, 0, d);
  }

  /** What a recovery that found the record of `phase` comes to. */
  ghost predicate ComesTo(g: Setting, d: Disk, phase: Phase, completes: bool, r: Recovery)
  {
    && (r.Ended? <==> completes)
    && (r.Ended? ==> Wiped(r.disk) && r.disk.root.pending == d.root.pending)
    && (r.Ended? ==> r.disk.tree == if phase == SealedPhase then g.Candidate() else g.Before())
    && PassedThrough(g, r.disk.tree)
  }

  lemma PlannedRecovery(g: Setting, d: Disk)
    requires g.Good() && DiskInv(g, d, Some(PlannedPhase))
    ensures ComesTo(g, d, PlannedPhase, true, Recover(g, d, DiscardingPreparation(g.c.preparations, 0)))
  {
    PlannedEnds(g, d);
    StartIsPassed(g);
  }

  lemma MutatingRecovery(g: Setting, own: seq<PreparationIdentity>, d: Disk)
    requires g.Good() && FreshContainers(g.c, d, own) && DiskInv(g, d, Some(MutatingPhase))
    ensures ComesTo(g, d, MutatingPhase, d.root.pending.None? && d.containers == map[] && OpenToRollback(g.Operations(), d.tree),
                    Recover(g, d, RollingBackAgain(g.Rebuilt(), own, g.Count())))
  {
    MutatingEnds(g, own, d);
  }

  lemma SealedRecovery(g: Setting, d: Disk)
    requires g.Good() && DiskInv(g, d, Some(SealedPhase))
    ensures ComesTo(g, d, SealedPhase, true, Recover(g, d, CheckingPhase(g.Rebuilt(), true)))
  {
    DecidedEnds(g, d, true);
    StartIsPassed(g);
  }

  lemma RestoredRecovery(g: Setting, d: Disk, e: Envelope)
    requires g.Good() && DiskInv(g, d, Some(RestoredPhase)) && GoodRecord(g.c, e) && e.phase.RestoredPhase?
    ensures ComesTo(g, d, RestoredPhase, RollbackSpecs(g.c.plan) == [],
                    if e.preparations == g.c.preparations then Recover(g, d, CheckingPhase(g.Rebuilt(), false)) else GivenUp(d))
  {
    DecidedEnds(g, d, false);
    StartIsPassed(g);
    if RollbackSpecs(g.c.plan) == [] { RestoredRecords(g, e); }
  }

  lemma JournaledRecovery(g: Setting, own: seq<PreparationIdentity>, d: Disk, e: Envelope)
    requires g.Good() && FreshContainers(g.c, d, own) && DiskInv(g, d, Some(e.phase))
    requires d.root.journal.Some? && RecordIn(d.root) == Some(e)
    ensures ComesTo(g, d, e.phase, Recoverable(g, d), RecoverOnce(g, own, d))
  {
    JournaledStart(g, own, d, Some(e.phase));
    match e.phase
    case PlannedPhase => PlannedRecovery(g, d);
    case MutatingPhase => MutatingRecovery(g, own, d);
    case SealedPhase => SealedRecovery(g, d);
    case RestoredPhase => RestoredRecovery(g, d, e);
  }

  lemma IdleStart(g: Setting, own: seq<PreparationIdentity>, d: Disk)
    requires ClassifyStateRoot(d.root, g.c.plan.target) == if d.root.pending.Some? then StaleJournalWrite else NoJournal
    ensures RecoverOnce(g, own, d) == Ended(d.(root := PendingDiscarded(d.root)))
  {
    if d.root.pending.None? { assert d.(root := PendingDiscarded(d.root)) == d; }
  }

  lemma IdleDisk(g: Setting, d: Disk, last: Option<Phase>)
    requires Authority(g, d, last) && d.root.journal.None?
    ensures Wiped(d) && last != Some(MutatingPhase)
  {
  }

  lemma IdleIsRecoverable(g: Setting, d: Disk)
    requires d.root.journal.None?
    ensures Recoverable(g, d)
  {
    assert RecordIn(d.root) == None;
  }

  lemma IdleTree(g: Setting, d: Disk, last: Option<Phase>)
    requires TreeAt(g, last, d.tree) && last != Some(MutatingPhase)
    ensures d.tree == if last == Some(SealedPhase) then g.Candidate() else g.Before()
  {
  }

  lemma IdleEnds(g: Setting, own: seq<PreparationIdentity>, d: Disk, last: Option<Phase>)
    requires DiskInv(g, d, last) && d.root.journal.None?
    requires ClassifyStateRoot(d.root, g.c.plan.target) == if d.root.pending.Some? then StaleJournalWrite else NoJournal
    ensures RecoverOnce(g, own, d) == Ended(d.(root := PendingDiscarded(d.root))) && Wiped(d) && Recoverable(g, d)
    ensures d.tree == if last == Some(SealedPhase) then g.Candidate() else g.Before()
  {
    IdleStart(g, own, d);
    IdleDisk(g, d, last);
    IdleIsRecoverable(g, d);
    IdleTree(g, d, last);
  }

  /**
   Recovery of whatever a crash left behind completes exactly when `Recoverable`
   says so.  When it does, the target is the candidate if SEALED was durable and the
   old target otherwise, and nothing of the transaction is left.  When it does not,
   the target is still one that the transaction passes through.
   */
  lemma RecoveryCompletes(g: Setting, own: seq<PreparationIdentity>, d: Disk, last: Option<Phase>)
    requires g.Good() && FreshContainers(g.c, d, own) && DiskInv(g, d, last)
    ensures var r := RecoverOnce(g, own, d);
      && (r.Ended? <==> Recoverable(g, d))
      && (r.Ended? ==> Wiped(r.disk) && r.disk.tree == if last == Some(SealedPhase) then g.Candidate() else g.Before())
      && PassedThrough(g, r.disk.tree)
      && (r.Ended? && d.root.journal.Some? ==> r.disk.root.pending == d.root.pending)
  {
    if d.root.journal.None? {
      Classified(g, d, last);
      IdleEnds(g, own, d, last);
      StartIsPassed(g);
    } else {
      JournaledStart(g, own, d, last);
      JournaledRecovery(g, own, d, RecordIn(d.root).value);
    }
  }

  /** A second recovery removes the pending write a first one left, and finds nothing more to do. */
  lemma SecondRecoveryIsClean(
    g: Setting, own: seq<PreparationIdentity>, next: seq<PreparationIdentity>, d: Disk, last: Option<Phase>)
    requires g.Good() && FreshContainers(g.c, d, own) && DiskInv(g, d, last) && Recoverable(g, d)
    ensures var first := RecoverOnce(g, own, d).disk;
      && RecoverOnce(g, next, first) == Ended(first.(root := PendingDiscarded(first.root)))
      && ClassifyStateRoot(PendingDiscarded(first.root), g.c.plan.target) == NoJournal
  {
    RecoveryCompletes(g, own, d, last);
    var first := RecoverOnce(g, own, d).disk;
    assert first.root.others - {"lock"} == {};
  }

  /**
   A crash while the decision of a live run is being persisted, between the pending
   write and its rename, leaves a state no recovery completes: the pending file
   stands beside the MUTATING journal, so RESTORED can never be persisted.
   */
  lemma CrashInsideDecisionSticks(g: Setting, own: seq<PreparationIdentity>, w: World)
    requires g.Good() && Consistent(g, w) && FreshContainers(g.c, w.disk, own)
    requires w.process.Live? && w.process.half
    requires w.process.request == PersistJournal(RestoredPhase) || w.process.request == PersistJournal(SealedPhase)
    ensures RecoverOnce(g, own, w.disk).GivenUp?
  {
    PendingStands(g, w);
    PendingBlocksRecovery(g, own, w.disk);
  }

  lemma PendingStands(g: Setting, w: World)
    requires Consistent(g, w) && w.process.Live? && w.process.half
    requires w.process.request == PersistJournal(RestoredPhase) || w.process.request == PersistJournal(SealedPhase)
    ensures DiskInv(g, w.disk, Some(MutatingPhase)) && w.disk.root.pending.Some?
  {
    assert w.last == Some(MutatingPhase);
  }

  lemma PendingBlocksRecovery(g: Setting, own: seq<PreparationIdentity>, d: Disk)
    requires g.Good() && FreshContainers(g.c, d, own)
    requires DiskInv(g, d, Some(MutatingPhase)) && d.root.pending.Some?
    ensures RecoverOnce(g, own, d).GivenUp?
  {
    JournaledStart(g, own, d, Some(MutatingPhase));
    RecoveryCompletes(g, own, d, Some(MutatingPhase));
  }

  /**
   Wherever a run is cut off, a recovery that is let run completes exactly when
   `Recoverable` holds of the disk, and then leaves the candidate if SEALED was
   durable and the exact old target otherwise, with nothing of the transaction left.
   */
  lemma EveryRunRecovers(g: Setting, own: seq<PreparationIdentity>, ws: seq<World>, i: nat)
    requires g.Good() && Behaviour(g, ws) && i < |ws| && FreshContainers(g.c, ws[i].disk, own)
    ensures var r := RecoverOnce(g, own, ws[i].disk);
      && (r.Ended? <==> Recoverable(g, ws[i].disk))
      && (r.Ended? ==> Wiped(r.disk) && r.disk.tree == if ws[i].last == Some(SealedPhase) then g.Candidate() else g.Before())
      && PassedThrough(g, r.disk.tree)
  {
    BehavioursAreConsistent(g, ws, i);
    RecoveryCompletes(g, own, ws[i].disk, ws[i].last);
  }
}
