/** Every step of every run keeps the crash invariant, and what follows for the target. */
module Atomicity {
  import opened Results
  import opened Paths
  import opened Identity
  import opened Plans
  import opened Rollback
  import opened Targets
  import opened Inversion
  import opened Capture
  import opened Machine
  import opened Receipts
  import opened Journals
  import opened Crashes

  // Records

  lemma {:induction false} SpecsShaped(ops: seq<Operation>, first: nat)
    ensures forall s :: s in PreparationSpecsFrom(ops, first) ==> (s.kind.FileArtifact? <==> s.raw.Some?)
    ensures forall s :: s in RollbackSpecsFrom(ops, first) ==> (s.kind.FileArtifact? <==> s.raw.Some?)
    decreases |ops|
  {
    if ops != [] { SpecsShaped(ops[1..], first + 1); }
  }

  lemma RecordShaped(c: Compiled, phase: Phase, cs: seq<PreparationIdentity>)
    requires WellCompiled(c) && GoodContainers(c, phase, cs)
    ensures ShapedEnvelope(RecordFor(c, phase, cs))
  {
    var e := RecordFor(c, phase, cs);
    SpecsShaped(c.plan.operations, 0);
    forall i | 0 <= i < |e.preparations|
      ensures ShapedPreparation(e.preparations[i]) && e.preparations[i].transaction == e.transaction
    {
      if i < |c.preparations| {
        assert c.preparations[i].spec in PreparationSpecs(c.plan);
      } else {
        assert e.preparations[i] == cs[i - |c.preparations|];
        assert cs[i - |c.preparations|].spec in RollbackSpecs(c.plan);
      }
    }
  }

  lemma ReceiptDecodes(plan: Plan)
    requires AllSurvive(plan.operations)
    ensures DecodableReceipt(Receipt(plan))
  {
    ReceiptFields(plan);
    OperationsRoundTrip(plan.operations);
    assert Field(Receipt(plan).fields, PlanSchemaKey) == Int(1);
  }

  /** Every record of the transaction is decoded back to itself, and names its phase. */
  lemma RecordDecodes(g: Setting, phase: Phase, cs: seq<PreparationIdentity>)
    requires g.Good() && GoodContainers(g.c, phase, cs)
    ensures DecodeJournal(EncodeJournal(RecordFor(g.c, phase, cs))) == Ok(RecordFor(g.c, phase, cs))
    ensures GoodRecord(g.c, RecordFor(g.c, phase, cs))
  {
    RecordShaped(g.c, phase, cs);
    ReceiptDecodes(g.c.plan);
    JournalRoundTrip(RecordFor(g.c, phase, cs));
  }

  lemma RecordRecovers(g: Setting, e: Envelope)
    requires g.Good() && GoodRecord(g.c, e)
    ensures RecoveredPlan(e, g.c.plan.target, g.c.plan.store.limits) == Some(g.Rebuilt())
    ensures e.target == g.c.plan.target && e.transaction == g.c.transaction
    ensures !e.phase.RestoredPhase? ==> e.preparations == g.c.preparations
  {
    PlanRoundTrip(g.c.plan, g.c.plan.store.limits);
  }

  // Backups

  lemma {:induction false} BackupReserved(ops: seq<Operation>, first: nat, i: nat)
    requires i < |ops| && (ops[i].ReplaceFile? || ops[i].DeleteFile?) && ops[i].before.Present?
    ensures exists s :: s in PreparationSpecsFrom(ops, first) && s.role.Backup? && s.index == first + i
    decreases |ops|
  {
    if i == 0 {
      var specs := PreparationSpecsOf(ops[0], first);
      assert specs[|specs| - 1].role.Backup? && specs[|specs| - 1].index == first;
      assert specs[|specs| - 1] in PreparationSpecsFrom(ops, first);
    } else {
      BackupReserved(ops[1..], first + 1, i - 1);
      var s :| s in PreparationSpecsFrom(ops[1..], first + 1) && s.role.Backup? && s.index == first + i;
      assert s in PreparationSpecsFrom(ops, first);
    }
  }

  /** Once every preparation is done, every replaced or deleted file is backed up. */
  lemma PreparedIsBackedUp(g: Setting, backups: map<nat, Node>)
    requires g.Good() && BackupsKnown(g, backups) && PreparedUpTo(g.c, |g.c.preparations|, backups)
    ensures BackedUp(g.Operations(), backups, g.Before())
  {
    var ops := g.Operations();
    forall i | 0 <= i < |ops| && (ops[i].ReplaceFile? || ops[i].DeleteFile?) ensures i in backups {
      assert ops[i] in ops;
      BackupReserved(ops, 0, i);
      var s :| s in PreparationSpecs(g.c.plan) && s.role.Backup? && s.index == i;
      var j :| 0 <= j < |PreparationSpecs(g.c.plan)| && PreparationSpecs(g.c.plan)[j] == s;
      assert g.c.preparations[j].spec == s;
    }
  }

  lemma BackupListed(plan: Plan, isSealed: bool, b: nat)
    requires b < |plan.operations| && (plan.operations[b].ReplaceFile? || plan.operations[b].DeleteFile?)
    requires plan.operations[b].before.Present?
    ensures CleanBackup(b) in Cleanup(plan, isSealed)
  {
    BackupReserved(plan.operations, 0, b);
    CleanupShape(plan, isSealed);
  }

  lemma BackupsAreCleaned(g: Setting, isSealed: bool, backups: map<nat, Node>)
    requires g.Good() && BackupsKnown(g, backups)
    ensures forall b :: b in backups ==> CleanBackup(b) in Cleanup(g.c.plan, isSealed)
  {
    forall b | b in backups ensures CleanBackup(b) in Cleanup(g.c.plan, isSealed) {
      assert g.c.plan.operations[b] in g.c.plan.operations;
      BackupListed(g.c.plan, isSealed, b);
    }
  }

  // Containers

  lemma {:induction false} ContainerReserved(ops: seq<Operation>, first: nat, i: nat)
    requires i < |ops| && !ops[i].CreateFile? && ShapedOperation(ops[i])
    ensures exists s :: s in RollbackSpecsFrom(ops, first) && s.index == first + i
    decreases |ops|
  {
    if i == 0 {
      var specs := RollbackSpecsOf(ops[0], first);
      assert specs[0].index == first && specs[0] in RollbackSpecsFrom(ops, first);
    } else {
      ContainerReserved(ops[1..], first + 1, i - 1);
      var s :| s in RollbackSpecsFrom(ops[1..], first + 1) && s.index == first + i;
      assert s in RollbackSpecsFrom(ops, first);
    }
  }

  lemma ContainerListed(plan: Plan, i: nat)
    requires i < |plan.operations| && !plan.operations[i].CreateFile? && ShapedOperation(plan.operations[i])
    ensures CleanRollback(i) in Cleanup(plan, false)
  {
    ContainerReserved(plan.operations, 0, i);
    var s :| s in RollbackSpecs(plan) && s.index == i;
    var j :| 0 <= j < |RollbackSpecs(plan)| && RollbackSpecs(plan)[j] == s;
    assert CleanupOfContainers(RollbackSpecs(plan))[j] == CleanRollback(i);
  }

  lemma ContainersAreCleaned(g: Setting, containers: map<nat, PreparationIdentity>)
    requires g.Good() && ContainersKnown(g, containers)
    ensures forall b :: b in containers ==> CleanRollback(b) in Cleanup(g.c.plan, false)
  {
    forall b | b in containers ensures CleanRollback(b) in Cleanup(g.c.plan, false) {
      assert g.c.plan.operations[b] in g.c.plan.operations;
      ContainerListed(g.c.plan, b);
    }
  }

  lemma StartCleaning(g: Setting, isSealed: bool, d: Disk)
    requires g.Good() && BackupsKnown(g, d.backups)
    requires if isSealed then d.containers == map[] else ContainersKnown(g, d.containers)
    ensures CleanedUpTo(Cleanup(g.c.plan, isSealed), 0, d)
  {
    var items := Cleanup(g.c.plan, isSealed);
    CleanupLength(g.c.plan, isSealed);
    BackupsAreCleaned(g, isSealed, d.backups);
    if !isSealed { ContainersAreCleaned(g, d.containers); }
    assert items[0..] == items;
  }

  lemma ItemOrder(plan: Plan, isSealed: bool, i: nat)
    requires i < |Cleanup(plan, isSealed)|
    ensures var items := Cleanup(plan, isSealed);
      && (items[i].CleanJournal? <==> i == |items| - 1)
      && (items[i].CleanTransactionDirectory? <==> i == |items| - 2)
  {
    CleanupShape(plan, isSealed);
  }

  lemma CleanProgress(plan: Plan, isSealed: bool, i: nat, d: Disk)
    requires CleanedUpTo(Cleanup(plan, isSealed), i, d) && i + 1 < |Cleanup(plan, isSealed)|
    requires d.backups != map[] ==> d.root.transactions
    ensures CleanedUpTo(Cleanup(plan, isSealed), i + 1, CleanEffect(Cleanup(plan, isSealed)[i], d))
  {
    var items := Cleanup(plan, isSealed);
    var d' := CleanEffect(items[i], d);
    ItemOrder(plan, isSealed, i);
    assert items[i..] == [items[i]] + items[i + 1..];
    forall b | b in d'.backups ensures CleanBackup(b) in items[i + 1..] {
      assert CleanBackup(b) in items[i..];
    }
    forall b | b in d'.containers ensures CleanRollback(b) in items[i + 1..] {
      assert CleanRollback(b) in items[i..];
    }
    if i == |items| - 2 {
      ItemOrder(plan, isSealed, i + 1);
      assert items[i..] == [CleanTransactionDirectory, CleanJournal];
      assert forall b :: b !in d.backups;
    }
  }

  lemma NothingStandsAtLast(plan: Plan, isSealed: bool, i: nat, d: Disk)
    requires CleanedUpTo(Cleanup(plan, isSealed), i, d) && Cleanup(plan, isSealed)[i].CleanJournal?
    ensures d.containers == map[] && !d.root.transactions
  {
    var items := Cleanup(plan, isSealed);
    ItemOrder(plan, isSealed, i);
    assert items[i..] == [CleanJournal];
    assert forall b :: b !in d.containers;
  }

  lemma CleanKeepsAuthority(g: Setting, item: CleanupItem, d: Disk, last: Option<Phase>)
    requires Authority(g, d, last) && last != Some(MutatingPhase)
    requires item.CleanJournal? ==> !d.root.transactions && d.containers == map[]
    ensures Authority(g, CleanEffect(item, d), last)
    ensures item.CleanJournal? ==> CleanEffect(item, d).backups == map[]
  {
    var d' := CleanEffect(item, d);
    if !item.CleanJournal? { assert RecordIn(d'.root) == RecordIn(d.root); }
  }

  /** Cleaning one item keeps the disk in order; the last one leaves nothing of the transaction. */
  lemma CleanStep(g: Setting, isSealed: bool, i: nat, d: Disk, last: Option<Phase>)
    requires DiskInv(g, d, last) && last == Some(if isSealed then SealedPhase else RestoredPhase)
    requires CleanedUpTo(Cleanup(g.c.plan, isSealed), i, d)
    ensures var items := Cleanup(g.c.plan, isSealed);
      var d' := CleanEffect(items[i], d);
      && DiskInv(g, d', last)
      && (i + 1 < |items| ==> CleanedUpTo(items, i + 1, d'))
      && (i + 1 == |items| ==> d'.root.journal.None? && !d'.root.transactions && d'.backups == map[] && d'.containers == map[])
      && d'.root.pending == d.root.pending && d'.tree == d.tree
  {
    var items := Cleanup(g.c.plan, isSealed);
    ItemOrder(g.c.plan, isSealed, i);
    if items[i].CleanJournal? { NothingStandsAtLast(g.c.plan, isSealed, i, d); }
    CleanKeepsDisk(g, items[i], d, last);
    if i + 1 < |items| { CleanProgress(g.c.plan, isSealed, i, d); } else { JournalCleaned(items[i], d); }
  }

  lemma JournalCleaned(item: CleanupItem, d: Disk)
    requires item.CleanJournal? && !d.root.transactions && (d.backups != map[] ==> d.root.transactions) && d.containers == map[]
    ensures var u := CleanEffect(item, d);
      u.root.journal.None? && !u.root.transactions && u.backups == map[] && u.containers == map[]
  {
  }

  lemma CleanKeepsDisk(g: Setting, item: CleanupItem, d: Disk, last: Option<Phase>)
    requires DiskInv(g, d, last) && last != Some(MutatingPhase)
    requires item.CleanJournal? ==> !d.root.transactions && d.containers == map[]
    ensures var u := CleanEffect(item, d);
      DiskInv(g, u, last) && u.root.pending == d.root.pending && u.tree == d.tree
    ensures item.CleanJournal? ==> CleanEffect(item, d).backups == map[]
  {
    CleanKeepsAuthority(g, item, d, last);
  }

  // The live machine

  /** The machine has moved to a coherent state of the same transaction and awaits its request. */
  ghost predicate Moved(s: State, p: Process) {
    p.Live? && Coherent(p.s) && p.s.c == s.c && p.request == RequestFor(p.s) && !p.half
  }

  lemma AfterOpening(s: State, o: Observation)
    requires Coherent(s) && s.NeedRevalidation? && Continue(s, o).Live?
    ensures var p := Continue(s, o); Moved(s, p) && (p.s.NeedRevalidation? || p.s.NeedPlannedJournal?)
  {
    StepKeepsCoherent(s, Observed(o));
  }

  lemma AfterVerifying(s: State, o: Observation)
    requires Coherent(s) && s.Verifying? && Continue(s, o).Live?
    ensures var p, n := Continue(s, o), |s.c.plan.operations|;
      && Moved(s, p)
      && (p.s.NeedSealedJournal? || (p.s.RollingBack? && p.s.cursor == n - 1) || (p.s.NeedRestoredJournal? && n == 0))
      && (p.s.NeedSealedJournal? ==> o.PostStateObserved? && SnapshotMatchesCandidate(s.c.plan, o.snapshot))
  {
    StepKeepsCoherent(s, Observed(o));
  }

  lemma AfterPrepare(s: State)
    requires Coherent(s) && s.Preparing?
    ensures var p := Continue(s, PreparationCompleted(s.c.preparations[s.cursor]));
      && Moved(s, p)
      && (if s.cursor + 1 < |s.c.preparations| then p.s.Preparing? && p.s.cursor == s.cursor + 1
          else p.s.NeedMutatingJournal?)
  {
    StepKeepsCoherent(s, Observed(PreparationCompleted(s.c.preparations[s.cursor])));
  }

  lemma AfterApply(s: State)
    requires Coherent(s) && s.Installing?
    ensures var p := Continue(s, OperationApplied(s.cursor));
      && Moved(s, p)
      && (if s.cursor + 1 < |s.c.plan.operations| then p.s.Installing? && p.s.cursor == s.cursor + 1
          else p.s.Verifying?)
  {
    StepKeepsCoherent(s, Observed(OperationApplied(s.cursor)));
  }

  lemma AfterUndo(s: State, restoredNow: bool)
    requires Coherent(s) && s.RollingBack?
    ensures var p := Continue(s, RollbackStepCompleted(s.cursor, restoredNow));
      && Moved(s, p)
      && (if s.cursor > 0 then p.s.RollingBack? && p.s.cursor == s.cursor - 1 else p.s.NeedRestoredJournal?)
  {
    StepKeepsCoherent(s, Observed(RollbackStepCompleted(s.cursor, restoredNow)));
  }

  lemma AfterClean(s: State)
    requires Coherent(s) && (s.CleaningForward? || s.CleaningRollback?)
    ensures var p := Continue(s, CleanupCompleted(s.cursor));
      && Moved(s, p)
      && (if s.cursor + 1 < |Cleanup(s.c.plan, s.CleaningForward?)|
          then (if s.CleaningForward? then p.s.CleaningForward? else p.s.CleaningRollback?) && p.s.cursor == s.cursor + 1
          else p.s.Releasing? && p.s.isSealed == s.CleaningForward?)
  {
    StepKeepsCoherent(s, Observed(CleanupCompleted(s.cursor)));
  }

  lemma AfterPersist(s: State)
    requires Coherent(s) && RequestFor(s).PersistJournal?
    ensures var p := Continue(s, JournalPersisted(RequestFor(s).phase));
      && Moved(s, p)
      && (s.NeedPlannedJournal? ==>
            if |s.c.preparations| > 0 then p.s.Preparing? && p.s.cursor == 0 else p.s.NeedMutatingJournal?)
      && (s.NeedMutatingJournal? ==>
            if |s.c.plan.operations| > 0 then p.s.Installing? && p.s.cursor == 0 else p.s.Verifying?)
      && (s.NeedRestoredJournal? ==> p.s.CleaningRollback? && p.s.cursor == 0)
      && (s.NeedSealedJournal? ==> p.s.CleaningForward? && p.s.cursor == 0)
  {
    StepKeepsCoherent(s, Observed(JournalPersisted(RequestFor(s).phase)));
  }

  lemma AfterRelease(s: State)
    requires Coherent(s) && s.Releasing?
    ensures Continue(s, LockReleased) == Down
  {
  }

  // What a good setting guarantees about single effects

  lemma GoodBack(g: Setting, backups: map<nat, Node>, k: nat)
    requires g.Good() && BackedUp(g.Operations(), backups, g.Before()) && k < g.Count()
    ensures AttemptRollback(g.Operations()[k], Lookup(backups, k), g.At(k + 1))
      == if RecognisedNew(g.Operations()[k]) then Done(g.At(k), PutsBack(g.Operations()[k])) else ThirdStateKept
  {
    assert g.StateIs(k) && g.StateIs(k + 1);
    StepBack(g.Operations(), g.c.plan.store, g.Before(), backups, k);
  }

  lemma UndoOneShape(op: Operation, i: nat, own: seq<PreparationIdentity>, d: Disk)
    requires UndoOne(op, i, own, d).Some?
    ensures var r, u := AttemptRollback(op, Lookup(d.backups, i), d.tree), UndoOne(op, i, own, d).value;
      && r.Done? && u == d.(tree := r.tree, containers := u.containers)
      && (forall b :: b in u.containers ==> b in d.containers || (b == i && !op.CreateFile? && r.restoredNow))
  {
  }

  /** A live run and a recovery both find the candidate fit to be sealed exactly if the declared kinds are the observed ones. */
  lemma SealedWhenMatched(g: Setting)
    requires g.Good()
    ensures var s := CapturePlan(g.Operations(), g.Candidate());
      && (SnapshotMatchesCandidate(g.c.plan, s) <==> KindsDeclared(g.Operations()))
      && (SealedVerification(g.c.plan, s) == Intact <==> KindsDeclared(g.Operations()))
  {
    var ops := g.Operations();
    assert g.StateIs(g.Count());
    Intermediate(ops, g.c.plan.store, g.Before(), |ops|);
    forall op | op in ops && op.CreateTree? ensures SoundTree(op.path, op.tree, g.c.plan.store) {
      assert SoundOperation(op, g.c.plan.store);
    }
    GatesAgreeOnTargets(g.c.plan, g.Candidate());
    EndPassesItsGate(g.c.plan, g.Before());
  }

  lemma GoodForward(g: Setting, k: nat)
    requires g.Good() && k < g.Count()
    ensures ApplyOperation(g.Operations()[k], g.c.plan.store, g.At(k)) == Some(g.At(k + 1))
  {
    assert g.StateIs(k) && g.StateIs(k + 1);
    AfterStep(g.Operations(), g.c.plan.store, g.Before(), k);
  }

  // One live step

  /** A live process between two effects. */
  ghost predicate Underway(g: Setting, w: World)
  {
    && w.process.Live? && !w.process.half && WellCompiled(w.process.s.c)
    && DiskInv(g, w.disk, w.last) && LiveInv(g, w, w.process.s, w.process.request, w.process.half)
  }

  /** An effect of the pending request has succeeded and reported `o`. */
  ghost predicate Effected(g: Setting, w: World, w': World, o: Observation)
  {
    && Underway(g, w) && w'.last == w.last
    && LiveEffect(w.disk, w.process.s, w.process.request, w'.disk, o)
    && w'.process == Continue(w.process.s, o)
  }

  /** What has to hold of the world after a live step. */
  ghost predicate StillConsistent(g: Setting, w: World)
  {
    && DiskInv(g, w.disk, w.last)
    && (w.process.Live? ==> LiveInv(g, w, w.process.s, w.process.request, w.process.half))
    && (w.process.Live? || w.process.Down?)
  }

  /** A live process with its request pending again is consistent with a disk it fits. */
  lemma Resumed(g: Setting, w: World)
    requires DiskInv(g, w.disk, w.last) && w.process.Live? && !w.process.half
    requires Coherent(w.process.s) && w.process.s.c == g.c && w.process.request == RequestFor(w.process.s)
    requires w.disk.root.pending.None? && Fits(g, w.disk, w.last, w.process.s)
    ensures StillConsistent(g, w)
  {
  }

  lemma OpeningEffect(g: Setting, w: World, w': World, o: Observation)
    requires Effected(g, w, w', o) && w.process.s.NeedRevalidation?
    ensures StillConsistent(g, w')
  {
    if w'.process.Live? { AfterOpening(w.process.s, o); }
  }

  lemma VerifyingReports(d: Disk, s: State, d': Disk, o: Observation)
    requires s.Verifying? && LiveEffect(d, s, ObservePostState, d', o)
    ensures d' == d && o.PostStateObserved? && o.snapshot == CapturePlan(s.c.plan.operations, d.tree)
  {
  }

  lemma VerifyingEffect(g: Setting, w: World, w': World, o: Observation)
    requires Effected(g, w, w', o) && w.process.s.Verifying?
    requires SnapshotMatchesCandidate(g.c.plan, CapturePlan(g.Operations(), g.Candidate())) ==> KindsDeclared(g.Operations())
    ensures StillConsistent(g, w')
  {
    VerifyingReports(w.disk, w.process.s, w'.disk, o);
    if w'.process.Live? {
      AfterVerifying(w.process.s, o);
      VerdictFits(g, w'.disk, w'.last, w'.process.s);
    }
  }

  lemma VerdictFits(g: Setting, d: Disk, last: Option<Phase>, s: State)
    requires last == Some(MutatingPhase) && d.tree == g.Candidate() && d.containers == map[]
    requires s.NeedSealedJournal? || (s.RollingBack? && s.cursor == g.Count() - 1)
      || (s.NeedRestoredJournal? && g.Count() == 0)
    requires s.NeedSealedJournal? ==> KindsDeclared(g.Operations())
    ensures Fits(g, d, last, s)
  {
  }

  lemma MovedDisk(g: Setting, d: Disk, d': Disk, last: Option<Phase>, i: nat)
    requires DiskInv(g, d, last) && last == Some(MutatingPhase) && i <= g.Count()
    requires d' == d.(tree := g.At(i), containers := d'.containers) && ContainersKnown(g, d'.containers)
    ensures DiskInv(g, d', last)
  {
    assert RecordIn(d'.root) == RecordIn(d.root);
  }

  lemma UndoFits(g: Setting, d: Disk, last: Option<Phase>, s: State, i: nat)
    requires last == Some(MutatingPhase) && i < g.Count() && d.tree == g.At(i)
    requires if i > 0 then s.RollingBack? && s.cursor == i - 1 else s.NeedRestoredJournal?
    ensures Fits(g, d, last, s)
  {
  }

  lemma ReleasingEffect(g: Setting, w: World, w': World, o: Observation)
    requires Effected(g, w, w', o) && w.process.s.Releasing?
    ensures StillConsistent(g, w')
  {
    AfterRelease(w.process.s);
  }

  lemma PrepareDisk(g: Setting, spec: PreparationSpec, d: Disk, d': Disk, last: Option<Phase>)
    requires DiskInv(g, d, last) && last == Some(PlannedPhase) && d.root.journal.Some?
    requires PrepareEffect(g.c, spec, d, d')
    ensures DiskInv(g, d', last) && d'.root.journal.Some? && d'.root.pending == d.root.pending
    ensures forall b :: b in d.backups ==> b in d'.backups
    ensures spec.role.Backup? ==> spec.index in d'.backups
  {
    assert RecordIn(d'.root) == RecordIn(d.root);
  }

  lemma PrepareReports(d: Disk, s: State, d': Disk, o: Observation)
    requires s.Preparing? && s.cursor < |s.c.preparations| && LiveEffect(d, s, PrepareOne, d', o)
    ensures PrepareEffect(s.c, s.c.preparations[s.cursor].spec, d, d')
    ensures o == PreparationCompleted(s.c.preparations[s.cursor])
  {
  }

  lemma PreparedGoesOn(g: Setting, w: World, w': World)
    requires Underway(g, w) && w.process.s.Preparing? && w'.last == w.last
    requires PrepareEffect(g.c, w.process.s.c.preparations[w.process.s.cursor].spec, w.disk, w'.disk)
    requires w'.process == Continue(w.process.s, PreparationCompleted(w.process.s.c.preparations[w.process.s.cursor]))
    ensures StillConsistent(g, w')
  {
    var s := w.process.s;
    AfterPrepare(s);
    PreparedMoves(g, w, w', s.cursor);
  }

  lemma PreparedMoves(g: Setting, w: World, w': World, i: nat)
    requires Underway(g, w) && w.process.s.Preparing? && w'.last == w.last
    requires i == w.process.s.cursor && i < |g.c.preparations| && Moved(w.process.s, w'.process)
    requires PrepareEffect(g.c, g.c.preparations[i].spec, w.disk, w'.disk)
    requires var s := w'.process.s;
      if i + 1 < |g.c.preparations| then s.Preparing? && s.cursor == i + 1 else s.NeedMutatingJournal?
    ensures StillConsistent(g, w')
  {
    PrepareDisk(g, g.c.preparations[i].spec, w.disk, w'.disk, w.last);
    PreparedFurther(g.c, i, w.disk.backups, w'.disk.backups);
    PreparedFits(g, w'.disk, w'.last, w'.process.s, i + 1);
    Resumed(g, w');
  }

  lemma PreparedFurther(c: Compiled, i: nat, before: map<nat, Node>, after: map<nat, Node>)
    requires i < |c.preparations| && PreparedUpTo(c, i, before) && forall b :: b in before ==> b in after
    requires c.preparations[i].spec.role.Backup? ==> c.preparations[i].spec.index in after
    ensures PreparedUpTo(c, i + 1, after)
  {
  }

  lemma PreparedFits(g: Setting, d: Disk, last: Option<Phase>, s: State, i: nat)
    requires last == Some(PlannedPhase) && d.root.journal.Some? && i <= |g.c.preparations|
    requires PreparedUpTo(g.c, i, d.backups)
    requires if i < |g.c.preparations| then s.Preparing? && s.cursor == i else s.NeedMutatingJournal?
    ensures Fits(g, d, last, s)
  {
  }

  lemma PreparingEffect(g: Setting, w: World, w': World, o: Observation)
    requires Effected(g, w, w', o) && w.process.s.Preparing?
    ensures StillConsistent(g, w')
  {
    PrepareReports(w.disk, w.process.s, w'.disk, o);
    PreparedGoesOn(g, w, w');
  }

  lemma ApplyReports(d: Disk, s: State, d': Disk, o: Observation)
    requires s.Installing? && s.cursor < |s.c.plan.operations| && LiveEffect(d, s, ApplyOne, d', o)
    ensures ApplyOperation(s.c.plan.operations[s.cursor], s.c.plan.store, d.tree) == Some(d'.tree)
    ensures d' == d.(tree := d'.tree) && o == OperationApplied(s.cursor)
  {
  }

  lemma AppliedTree(g: Setting, d: Disk, last: Option<Phase>, s: State, u: Tree)
    requires s.Installing? && s.cursor < g.Count() && Fits(g, d, last, s)
    requires ApplyOperation(g.Operations()[s.cursor], g.c.plan.store, d.tree) == Some(u)
    requires ApplyOperation(g.Operations()[s.cursor], g.c.plan.store, g.At(s.cursor)) == Some(g.At(s.cursor + 1))
    ensures u == g.At(s.cursor + 1)
  {
  }

  lemma AppliedMoves(g: Setting, w: World, w': World, i: nat)
    requires Underway(g, w) && w.process.s.Installing? && w'.last == w.last
    requires 0 < i <= g.Count() && w'.disk == w.disk.(tree := g.At(i)) && Moved(w.process.s, w'.process)
    requires w.disk.containers == map[]
    requires var s := w'.process.s; if i < g.Count() then s.Installing? && s.cursor == i else s.Verifying?
    ensures StillConsistent(g, w')
  {
    MovedDisk(g, w.disk, w'.disk, w.last, i);
    AppliedFits(g, w'.disk, w'.last, w'.process.s, i);
    Resumed(g, w');
  }

  lemma InstallingEffect(g: Setting, w: World, w': World, o: Observation)
    requires Effected(g, w, w', o) && w.process.s.Installing?
    requires w.process.s.cursor < g.Count()
    requires ApplyOperation(g.Operations()[w.process.s.cursor], g.c.plan.store, g.At(w.process.s.cursor))
      == Some(g.At(w.process.s.cursor + 1))
    ensures StillConsistent(g, w')
  {
    var s := w.process.s;
    ApplyReports(w.disk, s, w'.disk, o);
    AppliedTree(g, w.disk, w.last, s, w'.disk.tree);
    AfterApply(s);
    AppliedMoves(g, w, w', s.cursor + 1);
  }

  lemma AppliedFits(g: Setting, d: Disk, last: Option<Phase>, s: State, i: nat)
    requires last == Some(MutatingPhase) && 0 < i <= g.Count() && d.tree == g.At(i) && d.containers == map[]
    requires if i < g.Count() then s.Installing? && s.cursor == i else s.Verifying?
    ensures Fits(g, d, last, s)
  {
  }

  /** What a rollback effect on state `i + 1` reports and leaves. */
  lemma UndoReports(g: Setting, d: Disk, s: State, d': Disk, o: Observation)
    requires s.RollingBack? && s.c == g.c && s.cursor < g.Count() && d.tree == g.At(s.cursor + 1)
    requires LiveEffect(d, s, AttemptRollbackOne, d', o) && ContainersKnown(g, d.containers)
    requires var r := AttemptRollback(g.Operations()[s.cursor], Lookup(d.backups, s.cursor), g.At(s.cursor + 1));
      r.Done? ==> r.tree == g.At(s.cursor) && r.restoredNow == PutsBack(g.Operations()[s.cursor])
    ensures d' == d.(tree := g.At(s.cursor), containers := d'.containers) && ContainersKnown(g, d'.containers)
    ensures o.RollbackStepCompleted? && o.index == s.cursor
  {
    var cs :| UndoOne(g.Operations()[s.cursor], s.cursor, cs, d) == Some(d');
    UndoOneShape(g.Operations()[s.cursor], s.cursor, cs, d);
  }

  lemma UndoEffect(g: Setting, w: World, w': World, o: Observation)
    requires Effected(g, w, w', o) && w.process.s.RollingBack?
    requires w'.disk == w.disk.(tree := g.At(w.process.s.cursor), containers := w'.disk.containers)
    requires ContainersKnown(g, w'.disk.containers)
    requires o.RollbackStepCompleted? && o.index == w.process.s.cursor
    ensures StillConsistent(g, w')
  {
    var s := w.process.s;
    AfterUndo(s, o.restoredNow);
    MovedDisk(g, w.disk, w'.disk, w.last, s.cursor);
    UndoFits(g, w'.disk, w'.last, w'.process.s, s.cursor);
    Resumed(g, w');
  }

  lemma CleanReports(d: Disk, s: State, d': Disk, o: Observation)
    requires (s.CleaningForward? || s.CleaningRollback?) && LiveEffect(d, s, CleanOne, d', o)
    ensures s.cursor < |Cleanup(s.c.plan, s.CleaningForward?)|
    ensures d' == CleanEffect(Cleanup(s.c.plan, s.CleaningForward?)[s.cursor], d) && o == CleanupCompleted(s.cursor)
  {
  }

  lemma CleanedFits(g: Setting, isSealed: bool, d: Disk, last: Option<Phase>, s: State, i: nat)
    requires last == Some(if isSealed then SealedPhase else RestoredPhase)
    requires if i < |Cleanup(g.c.plan, isSealed)|
      then (if isSealed then s.CleaningForward? else s.CleaningRollback?) && s.cursor == i
        && CleanedUpTo(Cleanup(g.c.plan, isSealed), i, d)
      else s.Releasing? && s.isSealed == isSealed
    ensures Fits(g, d, last, s)
  {
  }

  lemma CleanedMoves(g: Setting, w: World, w': World, isSealed: bool, i: nat)
    requires Underway(g, w) && w'.last == w.last && Moved(w.process.s, w'.process)
    requires if isSealed then w.process.s.CleaningForward? else w.process.s.CleaningRollback?
    requires i == w.process.s.cursor && i < |Cleanup(g.c.plan, isSealed)|
    requires w'.disk == CleanEffect(Cleanup(g.c.plan, isSealed)[i], w.disk)
    requires var s := w'.process.s;
      if i + 1 < |Cleanup(g.c.plan, isSealed)|
      then (if isSealed then s.CleaningForward? else s.CleaningRollback?) && s.cursor == i + 1
      else s.Releasing? && s.isSealed == isSealed
    ensures StillConsistent(g, w')
  {
    CleanStep(g, isSealed, i, w.disk, w.last);
    CleanedFits(g, isSealed, w'.disk, w'.last, w'.process.s, i + 1);
    Resumed(g, w');
  }

  lemma CleaningEffect(g: Setting, w: World, w': World, o: Observation)
    requires Effected(g, w, w', o) && (w.process.s.CleaningForward? || w.process.s.CleaningRollback?)
    ensures StillConsistent(g, w')
  {
    var s := w.process.s;
    CleanReports(w.disk, s, w'.disk, o);
    AfterClean(s);
    CleanedMoves(g, w, w', s.CleaningForward?, s.cursor);
  }

  lemma InstalledEffect(g: Setting, w: World, w': World, o: Observation)
    requires g.Good() && Effected(g, w, w', o) && w.process.s.Installing?
    ensures StillConsistent(g, w')
  {
    GoodForward(g, w.process.s.cursor);
    InstallingEffect(g, w, w', o);
  }

  lemma UndoneEffect(g: Setting, w: World, w': World, o: Observation)
    requires g.Good() && Effected(g, w, w', o) && w.process.s.RollingBack?
    ensures StillConsistent(g, w')
  {
    GoodBack(g, w.disk.backups, w.process.s.cursor);
    UndoReports(g, w.disk, w.process.s, w'.disk, o);
    UndoEffect(g, w, w', o);
  }

  lemma VerifiedEffect(g: Setting, w: World, w': World, o: Observation)
    requires g.Good() && Effected(g, w, w', o) && w.process.s.Verifying?
    ensures StillConsistent(g, w')
  {
    SealedWhenMatched(g);
    VerifyingEffect(g, w, w', o);
  }

  lemma EffectKeepsConsistent(g: Setting, w: World, w': World, o: Observation)
    requires g.Good() && Effected(g, w, w', o)
    ensures StillConsistent(g, w')
  {
    var s := w.process.s;
    if AwaitsJournal(s) { JournalHasNoOtherEffect(g, w, w', o); }
    if s.NeedRevalidation? { OpeningEffect(g, w, w', o); }
    else if s.Preparing? { PreparingEffect(g, w, w', o); }
    else if s.Installing? { InstalledEffect(g, w, w', o); }
    else if s.Verifying? { VerifiedEffect(g, w, w', o); }
    else if s.RollingBack? { UndoneEffect(g, w, w', o); }
    else if s.CleaningForward? || s.CleaningRollback? { CleaningEffect(g, w, w', o); }
    else if s.Releasing? { ReleasingEffect(g, w, w', o); }
    else { LockEffect(g, w, w', o); }
  }

  predicate AwaitsJournal(s: State) {
    s.NeedPlannedJournal? || s.NeedMutatingJournal? || s.NeedRestoredJournal? || s.NeedSealedJournal?
  }

  lemma PersistingIsNoEffect(d: Disk, s: State, request: Request, d': Disk, o: Observation)
    requires request.PersistJournal?
    ensures !LiveEffect(d, s, request, d', o)
  {
  }

  /** While a journal is to be persisted no other effect is pending. */
  lemma JournalHasNoOtherEffect(g: Setting, w: World, w': World, o: Observation)
    requires w.process.Live? && AwaitsJournal(w.process.s)
    ensures !Effected(g, w, w', o)
  {
    if Underway(g, w) {
      PersistIsPending(g, w);
      PersistingIsNoEffect(w.disk, w.process.s, w.process.request, w'.disk, o);
    }
  }

  lemma PersistIsPending(g: Setting, w: World)
    requires Underway(g, w) && AwaitsJournal(w.process.s)
    ensures w.process.request.PersistJournal?
  {
    PendingRequest(g, w, w.process.s, w.process.request, w.process.half);
    JournalRequest(w.process.s);
  }

  lemma PendingRequest(g: Setting, w: World, s: State, request: Request, half: bool)
    requires LiveInv(g, w, s, request, half)
    ensures request == RequestFor(s)
  {
  }

  lemma JournalRequest(s: State)
    requires AwaitsJournal(s)
    ensures RequestFor(s).PersistJournal?
  {
  }

  lemma LockEffect(g: Setting, w: World, w': World, o: Observation)
    requires Effected(g, w, w', o) && w.process.s.NeedLock?
    ensures StillConsistent(g, w')
  {
    LockReports(w.disk, w.process.s, w'.disk, o);
  }

  lemma LockReports(d: Disk, s: State, d': Disk, o: Observation)
    requires s.NeedLock? && WellCompiled(s.c) && LiveEffect(d, s, AcquireLock, d', o)
    ensures d' == d && Continue(s, o) == Down
  {
  }

  // Persisting in a live run

  lemma PendingKeepsDisk(g: Setting, d: Disk, last: Option<Phase>, phase: Phase, cs: seq<PreparationIdentity>)
    requires DiskInv(g, d, last) && GoodContainers(g.c, phase, cs)
    ensures var d' := d.(root := PendingWritten(d.root, RecordFor(g.c, phase, cs)));
      DiskInv(g, d', last) && PendingFor(g, phase, d'.root)
  {
    var d' := d.(root := PendingWritten(d.root, RecordFor(g.c, phase, cs)));
    assert RecordIn(d'.root) == RecordIn(d.root);
  }

  lemma PendingFits(g: Setting, d: Disk, last: Option<Phase>, e: Envelope, s: State)
    requires Fits(g, d, last, s)
    ensures Fits(g, d.(root := PendingWritten(d.root, e)), last, s)
  {
  }

  lemma WriteEffect(g: Setting, w: World, w': World, cs: seq<PreparationIdentity>)
    requires WellCompiled(g.c) && Consistent(g, w) && w.process.Live? && !w.process.half
    requires w.process.request.PersistJournal? && GoodContainers(g.c, w.process.request.phase, cs)
    requires w' == World(w.disk.(root := PendingWritten(w.disk.root, RecordFor(g.c, w.process.request.phase, cs))),
                         Live(w.process.s, w.process.request, true), w.last)
    ensures StillConsistent(g, w')
  {
    PendingKeepsDisk(g, w.disk, w.last, w.process.request.phase, cs);
    PendingFits(g, w.disk, w.last, RecordFor(g.c, w.process.request.phase, cs), w.process.s);
  }

  /** A rename makes the pending record the journal. */
  lemma RenamedRecord(g: Setting, phase: Phase, root: Root)
    requires g.Good() && PendingFor(g, phase, root)
    ensures RecordIn(PendingRenamed(root)).Some? && GoodRecord(g.c, RecordIn(PendingRenamed(root)).value)
    ensures RecordIn(PendingRenamed(root)).value.phase == phase
  {
    var cs :| GoodContainers(g.c, phase, cs) && root.pending == Some(Record(EncodeJournal(RecordFor(g.c, phase, cs))));
    RecordDecodes(g, phase, cs);
  }

  /** The disk after a rename, given that the tree is what the new phase demands. */
  lemma RenamedDisk(g: Setting, d: Disk, last: Option<Phase>, phase: Phase)
    requires g.Good() && DiskInv(g, d, last) && PendingFor(g, phase, d.root)
    requires TreeAt(g, Some(phase), d.tree)
    requires phase.MutatingPhase? ==> BackedUp(g.Operations(), d.backups, g.Before())
    requires d.containers != map[] ==> phase == MutatingPhase || phase == RestoredPhase
    ensures DiskInv(g, d.(root := PendingRenamed(d.root)), Some(phase))
  {
    RenamedRecord(g, phase, d.root);
  }

  lemma RenameFits(g: Setting, d: Disk, s: State, s': State)
    requires RequestFor(s).PersistJournal? && BackupsKnown(g, d.backups) && d.root.journal.Some?
    requires s.NeedPlannedJournal? ==>
      if |g.c.preparations| > 0 then s'.Preparing? && s'.cursor == 0 else s'.NeedMutatingJournal?
    requires s.NeedMutatingJournal? ==>
      d.tree == g.Before() && d.containers == map[] && if g.Count() > 0 then s'.Installing? && s'.cursor == 0 else s'.Verifying?
    requires s.NeedRestoredJournal? ==> s'.CleaningRollback? && s'.cursor == 0 && CleanedUpTo(Cleanup(g.c.plan, false), 0, d)
    requires s.NeedSealedJournal? ==> s'.CleaningForward? && s'.cursor == 0 && CleanedUpTo(Cleanup(g.c.plan, true), 0, d)
    ensures Fits(g, d, Some(RequestFor(s).phase), s')
  {
  }

  lemma PhaseTree(g: Setting, w: World, s: State)
    requires g.Good() && DiskInv(g, w.disk, w.last) && Fits(g, w.disk, w.last, s) && RequestFor(s).PersistJournal?
    ensures TreeAt(g, Some(RequestFor(s).phase), w.disk.tree)
    ensures s.NeedMutatingJournal? ==> w.disk.tree == g.Before() && BackedUp(g.Operations(), w.disk.backups, g.Before())
    ensures !s.NeedRestoredJournal? ==> w.disk.containers == map[]
  {
    if s.NeedMutatingJournal? {
      PreparedIsBackedUp(g, w.disk.backups);
      assert w.disk.tree == g.At(0);
    }
  }

  lemma RenameEffect(g: Setting, w: World, w': World)
    requires g.Good() && Consistent(g, w) && w.process.Live? && w.process.half && w.process.request.PersistJournal?
    requires w' == World(w.disk.(root := PendingRenamed(w.disk.root)),
                         Continue(w.process.s, JournalPersisted(w.process.request.phase)),
                         Some(w.process.request.phase))
    ensures StillConsistent(g, w')
  {
    var s := w.process.s;
    AfterPersist(s);
    PhaseTree(g, w, s);
    RenamedDisk(g, w.disk, w.last, w.process.request.phase);
    RenamedCleans(g, w'.disk, s);
    RenameFits(g, w'.disk, s, w'.process.s);
  }

  lemma RenamedCleans(g: Setting, d: Disk, s: State)
    requires g.Good() && BackupsKnown(g, d.backups) && ContainersKnown(g, d.containers)
    requires s.NeedSealedJournal? ==> d.containers == map[]
    ensures s.NeedRestoredJournal? ==> CleanedUpTo(Cleanup(g.c.plan, false), 0, d)
    ensures s.NeedSealedJournal? ==> CleanedUpTo(Cleanup(g.c.plan, true), 0, d)
  {
    if s.NeedRestoredJournal? { StartCleaning(g, false, d); }
    if s.NeedSealedJournal? { StartCleaning(g, true, d); }
  }

  lemma LiveStepKeeps(g: Setting, w: World, w': World)
    requires g.Good() && Consistent(g, w) && LiveStep(g, w, w')
    ensures Consistent(g, w')
  {
    var s, request := w.process.s, w.process.request;
    if !w.process.half && exists o :: LiveEffect(w.disk, s, request, w'.disk, o) && w'.process == Continue(s, o) {
      var o :| LiveEffect(w.disk, s, request, w'.disk, o) && w'.process == Continue(s, o);
      EffectKeepsConsistent(g, w, w', o);
    } else if !w.process.half {
      var cs :| GoodContainers(s.c, request.phase, cs) &&
             w'.disk == w.disk.(root := PendingWritten(w.disk.root, RecordFor(s.c, request.phase, cs))) &&
             w'.process == Live(s, request, true);
      WriteEffect(g, w, w', cs);
    } else {
      RenameEffect(g, w, w');
    }
  }

  // Crashes

  lemma CrashStepKeeps(g: Setting, w: World, w': World)
    requires g.Good() && Consistent(g, w) && CrashStep(w, w')
    ensures Consistent(g, w')
  {
    assert RecordIn(w'.disk.root) == RecordIn(w.disk.root);
  }

  // Recoveries

  /** What a disk of the transaction is classified as. */
  lemma Classified(g: Setting, d: Disk, last: Option<Phase>)
    requires g.Good() && DiskInv(g, d, last)
    ensures var o := ClassifyStateRoot(d.root, g.c.plan.target);
      if d.root.journal.Some? then
        RecordIn(d.root).Some? && last.Some? &&
        o == ValidatedJournal(OperationKindText(g.c.plan.kind), g.c.plan.target, last.value)
      else o == if d.root.pending.Some? then StaleJournalWrite else NoJournal
  {
    assert d.root.others - {"lock"} == {};
  }

  lemma StartKeeps(g: Setting, w: World, w': World, own: seq<PreparationIdentity>)
    requires g.Good() && Consistent(g, w) && w.process.Down? && FreshContainers(g.c, w.disk, own)
    requires Resumes(StartRecovery(g, own, w.disk), w, w')
    ensures Consistent(g, w')
  {
    var d := w.disk;
    Classified(g, d, w.last);
    if d.root.journal.Some? {
      var e := RecordIn(d.root).value;
      RecordRecovers(g, e);
      BackupsArePrepared(g, d.backups);
      StartedFits(g, w, w', own, e);
    } else if d.root.pending.Some? {
      assert RecordIn(w'.disk.root) == RecordIn(d.root);
    }
  }

  /** What recovery starts with, by the durable phase. */
  lemma StartedProcess(g: Setting, own: seq<PreparationIdentity>, d: Disk, e: Envelope)
    requires RecordIn(d.root) == Some(e)
    requires RecoveredPlan(e, g.c.plan.target, g.c.plan.store.limits) == Some(g.Rebuilt())
    requires ClassifyStateRoot(d.root, g.c.plan.target)
      == ValidatedJournal(OperationKindText(g.c.plan.kind), g.c.plan.target, e.phase)
    ensures var r := StartRecovery(g, own, d);
      match e.phase
      case PlannedPhase => r == Next(d, DiscardingPreparation(e.preparations, 0), false)
      case MutatingPhase => r == Next(d, RollingBackAgain(g.Rebuilt(), own, g.Count()), false) || r == Refused
      case RestoredPhase => r == Next(d, CheckingPhase(g.Rebuilt(), false), false) || r == Refused
      case SealedPhase => r == Next(d, CheckingPhase(g.Rebuilt(), true), false) || r == Refused
    ensures !e.phase.PlannedPhase? ==>
      (StartRecovery(g, own, d) == Refused <==> !ReservesExactly(g.Rebuilt(), e.transaction, e.preparations))
  {
  }

  lemma StartedFits(g: Setting, w: World, w': World, own: seq<PreparationIdentity>, e: Envelope)
    requires Consistent(g, w) && w.process.Down? && w.disk.root.journal.Some?
    requires ContainersReserve(g.c.plan, g.c.transaction, own)
    requires RecordIn(w.disk.root) == Some(e) && w.last == Some(e.phase)
    requires RecoveredPlan(e, g.c.plan.target, g.c.plan.store.limits) == Some(g.Rebuilt())
    requires !e.phase.RestoredPhase? ==> e.preparations == g.c.preparations
    requires forall b :: b in w.disk.backups ==>
      exists j :: 0 <= j < |g.c.preparations| && g.c.preparations[j].spec.role.Backup? && g.c.preparations[j].spec.index == b
    requires ClassifyStateRoot(w.disk.root, g.c.plan.target)
      == ValidatedJournal(OperationKindText(g.c.plan.kind), g.c.plan.target, e.phase)
    requires Resumes(StartRecovery(g, own, w.disk), w, w')
    ensures Consistent(g, w')
  {
    StartedProcess(g, own, w.disk, e);
    assert w'.disk == w.disk && w'.last == w.last && !w'.process.Live?;
    RecoveryStarts(g, w', own, e);
  }

  lemma RecoveryStarts(g: Setting, w: World, own: seq<PreparationIdentity>, e: Envelope)
    requires DiskInv(g, w.disk, w.last) && w.last == Some(e.phase)
    requires ContainersReserve(g.c.plan, g.c.transaction, own)
    requires !e.phase.RestoredPhase? ==> e.preparations == g.c.preparations
    requires forall b :: b in w.disk.backups ==>
      exists j :: 0 <= j < |g.c.preparations| && g.c.preparations[j].spec.role.Backup? && g.c.preparations[j].spec.index == b
    requires w.process.Down?
      || (e.phase.PlannedPhase? && w.process == DiscardingPreparation(e.preparations, 0))
      || (e.phase.MutatingPhase? && w.process == RollingBackAgain(g.Rebuilt(), own, g.Count()))
      || (e.phase.RestoredPhase? && w.process == CheckingPhase(g.Rebuilt(), false))
      || (e.phase.SealedPhase? && w.process == CheckingPhase(g.Rebuilt(), true))
    ensures RecoveryInv(g, w, w.process)
  {
  }

  lemma BackupsArePrepared(g: Setting, backups: map<nat, Node>)
    requires g.Good() && BackupsKnown(g, backups)
    ensures forall b :: b in backups ==>
      exists j :: 0 <= j < |g.c.preparations| && g.c.preparations[j].spec.role.Backup? && g.c.preparations[j].spec.index == b
  {
    forall b | b in backups
      ensures exists j :: 0 <= j < |g.c.preparations| && g.c.preparations[j].spec.role.Backup? && g.c.preparations[j].spec.index == b
    {
      assert g.c.plan.operations[b] in g.c.plan.operations;
      BackupReserved(g.c.plan.operations, 0, b);
      var s :| s in PreparationSpecs(g.c.plan) && s.role.Backup? && s.index == b;
      var j :| 0 <= j < |PreparationSpecs(g.c.plan)| && PreparationSpecs(g.c.plan)[j] == s;
      assert g.c.preparations[j].spec == s;
    }
  }

  /** What undoing operation `i` leaves. */
  ghost predicate UndoneTo(g: Setting, i: nat, r: RollbackOutcome)
    requires i < g.Count()
  {
    r.Done? ==>
      && (exists k :: 0 <= k <= i && r.tree == g.At(k))
      && (r.restoredNow ==> PutsBack(g.Operations()[i]) || Rewrites(g.Operations()[i]))
  }

  lemma UndoExecuted(g: Setting, backups: map<nat, Node>, i: nat)
    requires g.Good() && BackedUp(g.Operations(), backups, g.Before()) && i < g.Count()
    ensures UndoneTo(g, i, AttemptRollback(g.Operations()[i], Lookup(backups, i), g.At(i + 1)))
  {
    GoodBack(g, backups, i);
    DoneIsUndone(g, i, AttemptRollback(g.Operations()[i], Lookup(backups, i), g.At(i + 1)));
  }

  lemma DoneIsUndone(g: Setting, i: nat, r: RollbackOutcome)
    requires i < g.Count()
    requires r.Done? ==> r.tree == g.At(i) && r.restoredNow == PutsBack(g.Operations()[i])
    ensures UndoneTo(g, i, r)
  {
  }

  lemma UndoWaiting(g: Setting, backups: map<nat, Node>, i: nat, k: nat)
    requires g.Good() && BackedUp(g.Operations(), backups, g.Before()) && k <= i < g.Count()
    ensures UndoneTo(g, i, AttemptRollback(g.Operations()[i], Lookup(backups, i), g.At(k)))
  {
    WaitsInState(g, backups, k, i);
    KeptIsUndone(g, backups, i, k);
  }

  lemma WaitsInState(g: Setting, backups: map<nat, Node>, k: nat, j: nat)
    requires g.Good() && BackedUp(g.Operations(), backups, g.Before()) && k <= j < g.Count()
    ensures KeepsWaiting(g.Operations(), backups, g.At(k), j)
  {
    assert g.StateIs(k);
    WaitingIsKept(g.Operations(), g.c.plan.store, g.Before(), backups, k, j);
  }

  lemma KeptIsUndone(g: Setting, backups: map<nat, Node>, i: nat, k: nat)
    requires k <= i < g.Count() && KeepsWaiting(g.Operations(), backups, g.At(k), i)
    ensures UndoneTo(g, i, AttemptRollback(g.Operations()[i], Lookup(backups, i), g.At(k)))
  {
  }

  lemma RollingStep(g: Setting, backups: map<nat, Node>, i: nat, k: nat)
    requires g.Good() && BackedUp(g.Operations(), backups, g.Before()) && k <= i + 1 && i < g.Count()
    ensures UndoneTo(g, i, AttemptRollback(g.Operations()[i], Lookup(backups, i), g.At(k)))
  {
    if k == i + 1 { UndoExecuted(g, backups, i); } else { UndoWaiting(g, backups, i, k); }
  }

  lemma UndoLands(g: Setting, own: seq<PreparationIdentity>, i: nat, d: Disk, u: Disk) returns (k: nat)
    requires i < g.Count()
    requires UndoneTo(g, i, AttemptRollback(g.Operations()[i], Lookup(d.backups, i), d.tree))
    requires UndoOne(g.Operations()[i], i, own, d) == Some(u)
    ensures k <= i && u == d.(tree := g.At(k), containers := u.containers)
    ensures forall b :: b in u.containers ==> b in d.containers || (b == i && LeavesContainer(g.Operations()[i]))
  {
    UndoOneShape(g.Operations()[i], i, own, d);
    k := LandsAt(g, i, AttemptRollback(g.Operations()[i], Lookup(d.backups, i), d.tree), d, u);
  }

  lemma LandsAt(g: Setting, i: nat, r: RollbackOutcome, d: Disk, u: Disk) returns (k: nat)
    requires i < g.Count() && UndoneTo(g, i, r) && r.Done?
    requires u == d.(tree := r.tree, containers := u.containers)
    requires forall b :: b in u.containers ==>
      b in d.containers || (b == i && !g.Operations()[i].CreateFile? && r.restoredNow)
    ensures k <= i && u == d.(tree := g.At(k), containers := u.containers)
    ensures forall b :: b in u.containers ==> b in d.containers || (b == i && LeavesContainer(g.Operations()[i]))
  {
    k :| 0 <= k <= i && r.tree == g.At(k);
  }

  /** One undoing keeps the disk in order, at a target no later than before. */
  lemma UndoKeeps(g: Setting, own: seq<PreparationIdentity>, i: nat, d: Disk, m: nat, u: Disk) returns (k: nat)
    requires g.Good() && DiskInv(g, d, Some(MutatingPhase)) && i < g.Count()
    requires m <= i + 1 && d.tree == g.At(m)
    requires UndoOne(g.Operations()[i], i, own, d) == Some(u)
    ensures DiskInv(g, u, Some(MutatingPhase)) && u.root == d.root && u.backups == d.backups
    ensures k <= i && u.tree == g.At(k)
  {
    RollingStep(g, d.backups, i, m);
    k := UndoLands(g, own, i, d, u);
    StillKnown(g, d.containers, u.containers, i);
    MovedDisk(g, d, u, Some(MutatingPhase), k);
  }

  lemma RollUnfolds(g: Setting, plan: Plan, own: seq<PreparationIdentity>, left: nat, rest: nat, d: Disk, r: Option<Disk>)
    requires rest + 1 == left <= |plan.operations| && r == UndoOne(plan.operations[rest], rest, own, d)
    ensures ContinueRecovery(g, d, RollingBackAgain(plan, own, left)) ==
      if r.Some? then Next(r.value, RollingBackAgain(plan, own, rest), false) else Refused
  {
  }

  lemma RollsOn(g: Setting, own: seq<PreparationIdentity>, left: nat, u: Disk, k: nat)
    requires DiskInv(g, u, Some(MutatingPhase)) && ContainersReserve(g.c.plan, g.c.transaction, own)
    requires k <= left <= g.Count() && u.tree == g.At(k)
    ensures Consistent(g, World(u, RollingBackAgain(g.Rebuilt(), own, left), Some(MutatingPhase)))
  {
  }

  lemma RollingWorld(g: Setting, w: World) returns (m: nat)
    requires Consistent(g, w) && w.process.RollingBackAgain?
    ensures w.process.plan == g.Rebuilt() && w.last == Some(MutatingPhase) && DiskInv(g, w.disk, Some(MutatingPhase))
    ensures ContainersReserve(g.c.plan, g.c.transaction, w.process.own)
    ensures m <= w.process.left <= g.Count() && w.disk.tree == g.At(m)
  {
    m :| 0 <= m <= w.process.left && w.disk.tree == g.At(m);
  }

  lemma RollStarts(g: Setting, own: seq<PreparationIdentity>, d: Disk)
    requires DiskInv(g, d, Some(MutatingPhase)) && ContainersReserve(g.c.plan, g.c.transaction, own)
    requires d.tree == g.Before()
    ensures Consistent(g, World(d, CheckingRolledBack(g.Rebuilt(), own), Some(MutatingPhase)))
  {
  }

  lemma GivesUp(g: Setting, w: World)
    requires DiskInv(g, w.disk, w.last)
    ensures Consistent(g, w.(process := Down))
  {
  }

  lemma RollingKeeps(g: Setting, w: World, w': World)
    requires g.Good() && Consistent(g, w) && w.process.RollingBackAgain?
    requires Resumes(ContinueRecovery(g, w.disk, w.process), w, w')
    ensures Consistent(g, w')
  {
    var left, own := w.process.left, w.process.own;
    var m := RollingWorld(g, w);
    if left == 0 {
      RollStarts(g, own, w.disk);
    } else {
      var rest := left - 1;
      var r := UndoOne(g.Operations()[rest], rest, own, w.disk);
      RollUnfolds(g, g.Rebuilt(), own, left, rest, w.disk, r);
      if r.Some? {
        var k := UndoKeeps(g, own, rest, w.disk, m, r.value);
        RollsOn(g, own, rest, r.value, k);
      } else {
        GivesUp(g, w);
      }
    }
  }

  lemma StillKnown(g: Setting, before: map<nat, PreparationIdentity>, after: map<nat, PreparationIdentity>, i: nat)
    requires ContainersKnown(g, before) && i < g.Count()
    requires forall b :: b in after ==> b in before || (b == i && LeavesContainer(g.Operations()[i]))
    ensures ContainersKnown(g, after)
  {
  }

  lemma PersistingKeeps(g: Setting, w: World, w': World)
    requires g.Good() && Consistent(g, w) && w.process.PersistingRestored?
    requires Resumes(ContinueRecovery(g, w.disk, w.process), w, w')
    ensures Consistent(g, w')
  {
    if w.process.half {
      RenamedDisk(g, w.disk, w.last, RestoredPhase);
      StartCleaning(g, false, w'.disk);
    } else {
      PendingKeepsDisk(g, w.disk, w.last, RestoredPhase, w.process.own);
    }
  }

  lemma CheckingKeeps(g: Setting, w: World, w': World)
    requires g.Good() && Consistent(g, w) && (w.process.CheckingPhase? || w.process.CheckingRolledBack?)
    requires Resumes(ContinueRecovery(g, w.disk, w.process), w, w')
    ensures Consistent(g, w')
  {
    if w.process.CheckingPhase? { StartCleaning(g, w.process.isSealed, w.disk); }
  }

  lemma CleaningKeeps(g: Setting, w: World, w': World)
    requires Consistent(g, w) && w.process.CleaningAgain?
    requires Resumes(ContinueRecovery(g, w.disk, w.process), w, w')
    ensures Consistent(g, w')
  {
    CleanStep(g, w.process.isSealed, w.process.cursor, w.disk, w.last);
  }

  lemma DiscardAdvances(ps: seq<PreparationIdentity>, cursor: nat, d: Disk)
    requires cursor < |ps| && DiscardedLater(ps, cursor, d.backups)
    ensures DiscardedLater(ps, cursor + 1, Discarded(ps[cursor], d).backups)
  {
    var backups := Discarded(ps[cursor], d).backups;
    forall b | b in backups
      ensures exists j :: cursor + 1 <= j < |ps| && ps[j].spec.role.Backup? && ps[j].spec.index == b
    {
      var j :| cursor <= j < |ps| && ps[j].spec.role.Backup? && ps[j].spec.index == b;
    }
  }

  lemma DiscardKeepsDisk(g: Setting, p: PreparationIdentity, d: Disk, last: Option<Phase>)
    requires DiskInv(g, d, last) && last == Some(PlannedPhase)
    ensures DiskInv(g, Discarded(p, d), last)
  {
    if p.spec.role.Backup? { CleanKeepsAuthority(g, CleanBackup(p.spec.index), d, last); }
  }

  lemma DiscardDirectory(g: Setting, w: World, ps: seq<PreparationIdentity>)
    requires Consistent(g, w) && w.process == DiscardingPreparation(ps, |ps|)
    ensures Consistent(g, World(CleanEffect(CleanTransactionDirectory, w.disk), DiscardingPreparation(ps, |ps| + 1), w.last))
  {
    assert forall b :: b !in w.disk.backups;
    CleanKeepsAuthority(g, CleanTransactionDirectory, w.disk, w.last);
  }

  lemma DiscardJournal(g: Setting, w: World, ps: seq<PreparationIdentity>, cursor: nat)
    requires Consistent(g, w) && w.process == DiscardingPreparation(ps, cursor) && cursor > |ps|
    ensures Consistent(g, World(CleanEffect(CleanJournal, w.disk), Down, w.last))
    ensures CleanEffect(CleanJournal, w.disk).backups == map[]
  {
    CleanKeepsAuthority(g, CleanJournal, w.disk, w.last);
  }

  lemma DiscardingKeeps(g: Setting, w: World, w': World)
    requires Consistent(g, w) && w.process.DiscardingPreparation?
    requires Resumes(ContinueRecovery(g, w.disk, w.process), w, w')
    ensures Consistent(g, w')
  {
    var ps, cursor := w.process.preparations, w.process.cursor;
    if cursor < |ps| {
      DiscardKeepsDisk(g, ps[cursor], w.disk, w.last);
      DiscardAdvances(ps, cursor, w.disk);
    } else if cursor == |ps| {
      DiscardDirectory(g, w, ps);
    } else {
      DiscardJournal(g, w, ps, cursor);
    }
  }

  lemma RecoverStepKeeps(g: Setting, w: World, w': World)
    requires g.Good() && Consistent(g, w) && RecoverStep(g, w, w')
    ensures Consistent(g, w')
  {
    if w.process.Down? {
      var own :| FreshContainers(g.c, w.disk, own) && Resumes(StartRecovery(g, own, w.disk), w, w');
      StartKeeps(g, w, w', own);
    } else {
      match w.process
      case RollingBackAgain(_, _, _) => RollingKeeps(g, w, w');
      case CheckingRolledBack(_, _) => CheckingKeeps(g, w, w');
      case PersistingRestored(_, _, _) => PersistingKeeps(g, w, w');
      case CheckingPhase(_, _) => CheckingKeeps(g, w, w');
      case CleaningAgain(_, _, _, _) => CleaningKeeps(g, w, w');
      case DiscardingPreparation(_, _) => DiscardingKeeps(g, w, w');
    }
  }

  // The main results

  lemma StepKeepsConsistent(g: Setting, w: World, w': World)
    requires g.Good() && Consistent(g, w) && NextWorld(g, w, w')
    ensures Consistent(g, w')
  {
    if CrashStep(w, w') {
      CrashStepKeeps(g, w, w');
    } else if LiveStep(g, w, w') {
      LiveStepKeeps(g, w, w');
    } else {
      RecoverStepKeeps(g, w, w');
    }
  }

  lemma {:induction false} BehavioursAreConsistent(g: Setting, ws: seq<World>, i: nat)
    requires g.Good() && Behaviour(g, ws) && i < |ws|
    ensures Consistent(g, ws[i])
    decreases i
  {
    if i == 0 {
      assert OPENING[..1] == [AcquireLockKind];
    } else {
      BehavioursAreConsistent(g, ws, i - 1);
      assert StepAt(g, ws, i - 1);
      StepKeepsConsistent(g, ws[i - 1], ws[i]);
    }
  }

  /**
   Crash atomicity.  At every moment of every run, crashes and interrupted
   recoveries included, the target is exactly the old one unless a MUTATING or
   SEALED journal has become durable; it is exactly the candidate once SEALED has;
   in between it is the candidate of some prefix of the plan.
   */
  lemma CrashAtomicity(g: Setting, ws: seq<World>, i: nat)
    requires g.Good() && Behaviour(g, ws) && i < |ws|
    ensures match ws[i].last
      case Some(SealedPhase) => ws[i].disk.tree == g.Candidate()
      case Some(MutatingPhase) => exists k :: 0 <= k <= g.Count() && ws[i].disk.tree == g.At(k)
      case _ => ws[i].disk.tree == g.Before()
  {
    BehavioursAreConsistent(g, ws, i);
  }

  /** Nothing of a transaction is on the disk: no journal, no backup, no rollback container. */
  predicate NothingLeft(d: Disk) {
    d.root.journal.None? && !d.root.transactions && d.backups == map[] && d.containers == map[]
  }

  /** No run seals unless the kinds of all written files agree with their observation. */
  lemma OnlyAgreeingKindsAreSealed(g: Setting, ws: seq<World>, i: nat)
    requires g.Good() && Behaviour(g, ws) && i < |ws| && ws[i].last == Some(SealedPhase)
    ensures KindsDeclared(g.Operations())
  {
    BehavioursAreConsistent(g, ws, i);
    SealedDisk(g, ws[i].disk);
  }

  lemma SealedDisk(g: Setting, d: Disk)
    requires DiskInv(g, d, Some(SealedPhase))
    ensures KindsDeclared(g.Operations())
  {
  }

  /**
   Journal authority.  At every moment the state root is classified as the last
   durable phase while its journal stands, and otherwise as no journal or a stale
   pending write, with nothing of the transaction left: never as an orphan, an
   invalid or a mismatched journal.
   */
  lemma JournalAuthority(g: Setting, ws: seq<World>, i: nat)
    requires g.Good() && Behaviour(g, ws) && i < |ws|
    ensures var root := ws[i].disk.root;
      match ClassifyStateRoot(root, g.c.plan.target)
      case ValidatedJournal(_, target, phase) => target == g.c.plan.target && ws[i].last == Some(phase)
      case StaleJournalWrite => NothingLeft(ws[i].disk)
      case NoJournal => NothingLeft(ws[i].disk)
      case _ => false
    ensures ws[i].disk.root.journal.Some? ==> forall target: nat :: target != g.c.plan.target ==>
      ClassifyStateRoot(ws[i].disk.root, target) == JournalTargetMismatch
  {
    BehavioursAreConsistent(g, ws, i);
    Classified(g, ws[i].disk, ws[i].last);
    var root := ws[i].disk.root;
    if root.journal.Some? {
      forall target: nat | target != g.c.plan.target ensures ClassifyStateRoot(root, target) == JournalTargetMismatch {
        ForeignJournals(root, target);
      }
    }
  }
}
