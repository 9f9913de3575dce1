/** Which answers complete a run, and why any other run stops. */
module Courses {
  import opened Results
  import opened Identity
  import opened Plans
  import opened Rollback
  import opened Machine

  // The answers of a completed run, last to first; whatever follows them is not read

  ghost predicate Released(events: seq<Event>) {
    events != [] && events[0] == Observed(LockReleased)
  }

  /** Items `i` up to `k` are cleaned, then the lock is released. */
  ghost predicate Cleaned(events: seq<Event>, i: nat, k: nat) {
    && i <= k <= i + |events|
    && (forall j :: 0 <= j < k - i ==> events[j] == Observed(CleanupCompleted(i + j)))
    && Released(events[k - i..])
  }

  ghost predicate Persisted(events: seq<Event>, phase: Phase) {
    events != [] && events[0] == Observed(JournalPersisted(phase))
  }

  predicate RollsBack(e: Event, index: nat) {
    e.Observed? && e.observation.RollbackStepCompleted? && e.observation.index == index
  }

  /** Operations below `left` are rolled back, last first, then the restored phase is journaled and everything cleaned. */
  ghost predicate RolledBackDown(c: Compiled, events: seq<Event>, left: nat) {
    && left <= |events|
    && (forall j :: 0 <= j < left ==> RollsBack(events[j], left - 1 - j))
    && Persisted(events[left..], RestoredPhase)
    && Cleaned(events[left + 1..], 0, |c.preparations| + |RollbackSpecs(c.plan)| + 2)
  }

  /** The post-state that is good enough to seal. */
  predicate Passes(c: Compiled, o: Observation)
    requires TreesStored(c.plan)
  {
    o.PostStateObserved? && o.valid && c.validation.GatePass? && SnapshotMatchesCandidate(c.plan, o.snapshot)
  }

  ghost predicate Judged(c: Compiled, events: seq<Event>, forward: bool)
    requires TreesStored(c.plan)
  {
    && events != [] && events[0].Observed? && events[0].observation.PostStateObserved?
    && forward == Passes(c, events[0].observation)
    && if forward then
         Persisted(events[1..], SealedPhase) && Cleaned(events[2..], 0, |c.preparations| + 2)
       else
         RolledBackDown(c, events[1..], |c.plan.operations|)
  }

  /** Operations from `i` on are applied in order, and the post-state is judged. */
  ghost predicate AppliedUp(c: Compiled, events: seq<Event>, i: nat, forward: bool)
    requires TreesStored(c.plan)
  {
    var n := |c.plan.operations|;
    && i <= n <= i + |events|
    && (forall j :: 0 <= j < n - i ==> events[j] == Observed(OperationApplied(i + j)))
    && Judged(c, events[n - i..], forward)
  }

  /** Preparations from `i` on are made as reserved, the mutating phase is journaled, and the operations are applied. */
  ghost predicate PreparedUp(c: Compiled, events: seq<Event>, i: nat, forward: bool)
    requires TreesStored(c.plan)
  {
    var p := |c.preparations|;
    && i <= p <= i + |events|
    && (forall j :: 0 <= j < p - i ==> events[j] == Observed(PreparationCompleted(c.preparations[i + j])))
    && Persisted(events[p - i..], MutatingPhase)
    && AppliedUp(c, events[p - i + 1..], 0, forward)
  }

  ghost predicate Revalidated(c: Compiled, events: seq<Event>, forward: bool)
    requires TreesStored(c.plan)
  {
    && events != [] && events[0].Observed? && events[0].observation.Reobserved?
    && SnapshotMatchesPreconditions(c.plan, events[0].observation.snapshot)
    && Persisted(events[1..], PlannedPhase)
    && PreparedUp(c, events[2..], 0, forward)
  }

  /** The whole course of a completed run, to a sealed or to a restored target. */
  ghost predicate Course(c: Compiled, events: seq<Event>, forward: bool)
    requires TreesStored(c.plan)
  {
    |events| > 2 && events[0] == Start && events[1] == Observed(LockAcquired) && Revalidated(c, events[2..], forward)
  }

  // Runs from each state

  ghost predicate CompletesWith(s: State, events: seq<Event>, trace: Trace)
    requires WellCompiled(s.c)
  {
    events != [] && Run(s, events) == Terminal(Completed(trace))
  }

  lemma RunUnrolls(s: State, events: seq<Event>, trace: Trace)
    requires Coherent(s) && events != []
    ensures var step := Transition(s, events[0]);
      if step.Instruction? then
        Coherent(step.next) && step.next.c == s.c && (CompletesWith(s, events, trace) <==> CompletesWith(step.next, events[1..], trace))
      else
        CompletesWith(s, events, trace) <==> step.outcome == Completed(trace)
  {
    StepKeepsCoherent(s, events[0]);
  }

  lemma ReleasingCompletes(s: State, events: seq<Event>, trace: Trace)
    requires Coherent(s) && s.Releasing?
    ensures CompletesWith(s, events, trace) <==> Released(events) && trace == s.trace
  {
    if events != [] { RunUnrolls(s, events, trace); }
  }

  lemma CleanedStep(events: seq<Event>, i: nat, k: nat)
    requires i < k
    ensures Cleaned(events, i, k) <==>
      events != [] && events[0] == Observed(CleanupCompleted(i)) && Cleaned(events[1..], i + 1, k)
  {
    if events != [] && i + 1 <= k <= i + |events| {
      assert events[1..][k - i - 1..] == events[k - i..];
      assert forall j :: 0 <= j < k - i - 1 ==> events[1..][j] == events[j + 1];
      assert (forall j :: 0 <= j < k - i ==> events[j] == Observed(CleanupCompleted(i + j))) <==>
        (events[0] == Observed(CleanupCompleted(i)) && forall j :: 0 <= j < k - i - 1 ==> events[1..][j] == Observed(CleanupCompleted(i + 1 + j)));
    }
  }

  lemma CleaningForwardMoves(s: State, e: Event)
    requires Coherent(s) && s.CleaningForward?
    ensures var step, k := Transition(s, e), |s.c.preparations| + 2;
      && s.cursor < k
      && (step.Instruction? <==> e == Observed(CleanupCompleted(s.cursor)))
      && (step.Terminal? ==> step.outcome.Stopped?)
      && (step.Instruction? ==> step.next.c == s.c && (if s.cursor + 1 < k then step.next.CleaningForward? && step.next.cursor == s.cursor + 1
                                 else step.next.Releasing? && step.next.trace == ForwardTrace(s.c)))
  {
    CleanupLength(s.c.plan, true);
    CleaningForwardSteps(s, e);
  }

  lemma LastCleanedForward(s: State, events: seq<Event>, trace: Trace, k: nat)
    requires Coherent(s) && s.CleaningForward? && k == |s.c.preparations| + 2 && s.cursor + 1 == k
    ensures CompletesWith(s, events, trace) <==> Cleaned(events, s.cursor, k) && trace == ForwardTrace(s.c)
  {
    if events != [] {
      CleaningForwardMoves(s, events[0]);
      RunUnrolls(s, events, trace);
      CleanedStep(events, s.cursor, k);
      var step := Transition(s, events[0]);
      if step.Instruction? { ReleasingCompletes(step.next, events[1..], trace); }
    }
  }

  lemma {:induction false} CleaningForwardCompletes(s: State, events: seq<Event>, trace: Trace, k: nat)
    requires Coherent(s) && s.CleaningForward? && k == |s.c.preparations| + 2
    ensures CompletesWith(s, events, trace) <==> Cleaned(events, s.cursor, k) && trace == ForwardTrace(s.c)
    decreases |events|
  {
    if s.cursor + 1 == k {
      LastCleanedForward(s, events, trace, k);
    } else if events != [] {
      CleaningForwardMoves(s, events[0]);
      RunUnrolls(s, events, trace);
      CleanedStep(events, s.cursor, k);
      var step := Transition(s, events[0]);
      if step.Instruction? { CleaningForwardCompletes(step.next, events[1..], trace, k); }
    }
  }

  lemma CleaningRollbackMoves(s: State, e: Event)
    requires Coherent(s) && s.CleaningRollback?
    ensures var step, k := Transition(s, e), |s.c.preparations| + |RollbackSpecs(s.c.plan)| + 2;
      && s.cursor < k
      && (step.Instruction? <==> e == Observed(CleanupCompleted(s.cursor)))
      && (step.Terminal? ==> step.outcome.Stopped?)
      && (step.Instruction? ==> step.next.c == s.c && (if s.cursor + 1 < k then step.next.CleaningRollback? && step.next.cursor == s.cursor + 1
                                 else step.next.Releasing? && step.next.trace == RollbackTrace(s.c)))
  {
    CleanupLength(s.c.plan, false);
    CleaningRollbackSteps(s, e);
  }

  lemma LastCleanedRollback(s: State, events: seq<Event>, trace: Trace, k: nat)
    requires Coherent(s) && s.CleaningRollback? && k == |s.c.preparations| + |RollbackSpecs(s.c.plan)| + 2 && s.cursor + 1 == k
    ensures CompletesWith(s, events, trace) <==> Cleaned(events, s.cursor, k) && trace == RollbackTrace(s.c)
  {
    if events != [] {
      CleaningRollbackMoves(s, events[0]);
      RunUnrolls(s, events, trace);
      CleanedStep(events, s.cursor, k);
      var step := Transition(s, events[0]);
      if step.Instruction? { ReleasingCompletes(step.next, events[1..], trace); }
    }
  }

  lemma {:induction false} CleaningRollbackCompletes(s: State, events: seq<Event>, trace: Trace, k: nat)
    requires Coherent(s) && s.CleaningRollback? && k == |s.c.preparations| + |RollbackSpecs(s.c.plan)| + 2
    ensures CompletesWith(s, events, trace) <==> Cleaned(events, s.cursor, k) && trace == RollbackTrace(s.c)
    decreases |events|
  {
    if s.cursor + 1 == k {
      LastCleanedRollback(s, events, trace, k);
    } else if events != [] {
      CleaningRollbackMoves(s, events[0]);
      RunUnrolls(s, events, trace);
      CleanedStep(events, s.cursor, k);
      var step := Transition(s, events[0]);
      if step.Instruction? { CleaningRollbackCompletes(step.next, events[1..], trace, k); }
    }
  }

  lemma JournalMoves(s: State, e: Event)
    requires Coherent(s) && (s.NeedSealedJournal? || s.NeedRestoredJournal?)
    ensures var step := Transition(s, e);
      && (step.Instruction? <==> e == Observed(JournalPersisted(if s.NeedSealedJournal? then SealedPhase else RestoredPhase)))
      && (step.Terminal? ==> step.outcome.Stopped?)
      && (step.Instruction? ==> step.next.c == s.c && step.next.CleaningForward? == s.NeedSealedJournal?
                                && step.next.CleaningRollback? == s.NeedRestoredJournal?
                                && (step.next.CleaningForward? || step.next.CleaningRollback? ==> step.next.cursor == 0))
  {
  }

  lemma SealingCompletes(s: State, events: seq<Event>, trace: Trace)
    requires Coherent(s) && s.NeedSealedJournal?
    ensures CompletesWith(s, events, trace) <==>
      Persisted(events, SealedPhase) && Cleaned(events[1..], 0, |s.c.preparations| + 2) && trace == ForwardTrace(s.c)
  {
    if events != [] {
      JournalMoves(s, events[0]);
      RunUnrolls(s, events, trace);
      var step := Transition(s, events[0]);
      if step.Instruction? { CleaningForwardCompletes(step.next, events[1..], trace, |s.c.preparations| + 2); }
    }
  }

  lemma RestoringCompletes(s: State, events: seq<Event>, trace: Trace)
    requires Coherent(s) && s.NeedRestoredJournal?
    ensures CompletesWith(s, events, trace) <==> RolledBackDown(s.c, events, 0) && trace == RollbackTrace(s.c)
  {
    if events != [] {
      assert events[0..] == events;
      JournalMoves(s, events[0]);
      RunUnrolls(s, events, trace);
      var step := Transition(s, events[0]);
      if step.Instruction? { CleaningRollbackCompletes(step.next, events[1..], trace, |s.c.preparations| + |RollbackSpecs(s.c.plan)| + 2); }
    }
  }

  lemma RolledBackStep(c: Compiled, events: seq<Event>, left: nat)
    requires left > 0
    ensures RolledBackDown(c, events, left) <==>
      events != [] && RollsBack(events[0], left - 1) && RolledBackDown(c, events[1..], left - 1)
  {
    if 0 < left <= |events| {
      var rest := events[1..];
      assert rest[left - 1..] == events[left..];
      if left < |events| { assert rest[left - 1 + 1..] == events[left + 1..]; }
      assert forall j :: 0 <= j < left - 1 ==> rest[j] == events[j + 1];
      assert (forall j :: 0 <= j < left ==> RollsBack(events[j], left - 1 - j)) <==>
        (RollsBack(events[0], left - 1) && forall j :: 0 <= j < left - 1 ==> RollsBack(rest[j], left - 2 - j));
    }
  }

  lemma RollingBackMoves(s: State, e: Event)
    requires Coherent(s) && s.RollingBack?
    ensures var step := Transition(s, e);
      && (step.Instruction? <==> RollsBack(e, s.cursor))
      && (step.Terminal? ==> step.outcome.Stopped?)
      && (step.Instruction? ==> step.next.c == s.c && (if s.cursor > 0 then step.next.RollingBack? && step.next.cursor == s.cursor - 1
                                                       else step.next.NeedRestoredJournal?))
  {
  }

  lemma {:induction false} RollingBackCompletes(s: State, events: seq<Event>, trace: Trace)
    requires Coherent(s) && s.RollingBack?
    ensures CompletesWith(s, events, trace) <==> RolledBackDown(s.c, events, s.cursor + 1) && trace == RollbackTrace(s.c)
    decreases |events|
  {
    if events != [] {
      RollingBackMoves(s, events[0]);
      RunUnrolls(s, events, trace);
      RolledBackStep(s.c, events, s.cursor + 1);
      var step := Transition(s, events[0]);
      if step.Instruction? {
        if s.cursor > 0 {
          RollingBackCompletes(step.next, events[1..], trace);
        } else {
          RestoringCompletes(step.next, events[1..], trace);
        }
      }
    }
  }

  lemma VerifyingMoves(s: State, e: Event)
    requires Coherent(s) && s.Verifying?
    ensures var step, n := Transition(s, e), |s.c.plan.operations|;
      && (step.Instruction? <==> e.Observed? && e.observation.PostStateObserved?)
      && (step.Terminal? ==> step.outcome.Stopped?)
      && (step.Instruction? ==> step.next.c == s.c && (if Passes(s.c, e.observation) then step.next.NeedSealedJournal?
                                                       else if n > 0 then step.next.RollingBack? && step.next.cursor == n - 1
                                                       else step.next.NeedRestoredJournal?))
  {
  }

  ghost predicate TraceOf(c: Compiled, forward: bool, trace: Trace) {
    trace == if forward then ForwardTrace(c) else RollbackTrace(c)
  }

  /** The course of the answers `events` to a post-state request, and the trace it leaves. */
  ghost predicate JudgedWith(c: Compiled, events: seq<Event>, trace: Trace)
    requires TreesStored(c.plan)
  {
    exists forward :: Judged(c, events, forward) && TraceOf(c, forward, trace)
  }

  lemma VerifyingCompletes(s: State, events: seq<Event>, trace: Trace)
    requires Coherent(s) && s.Verifying?
    ensures CompletesWith(s, events, trace) <==> JudgedWith(s.c, events, trace)
  {
    if events != [] {
      VerifyingMoves(s, events[0]);
      RunUnrolls(s, events, trace);
      var step := Transition(s, events[0]);
      if step.Instruction? {
        JudgedUnfolds(s.c, events, trace, Passes(s.c, events[0].observation));
        if step.next.NeedSealedJournal? {
          SealingCompletes(step.next, events[1..], trace);
        } else if step.next.RollingBack? {
          RollingBackCompletes(step.next, events[1..], trace);
        } else {
          RestoringCompletes(step.next, events[1..], trace);
        }
      }
    }
  }

  lemma JudgedUnfolds(c: Compiled, events: seq<Event>, trace: Trace, forward: bool)
    requires TreesStored(c.plan)
    requires events != [] && events[0].Observed? && events[0].observation.PostStateObserved? && forward == Passes(c, events[0].observation)
    ensures JudgedWith(c, events, trace) <==>
      TraceOf(c, forward, trace) &&
      if forward then Persisted(events[1..], SealedPhase) && Cleaned(events[1..][1..], 0, |c.preparations| + 2)
      else RolledBackDown(c, events[1..], |c.plan.operations|)
  {
    if |events| > 1 { assert events[1..][1..] == events[2..]; }
    if !Judged(c, events, forward) {
      assert forall other :: Judged(c, events, other) ==> other == forward;
    }
  }

  lemma InstallingMoves(s: State, e: Event)
    requires Coherent(s) && s.Installing?
    ensures var step, n := Transition(s, e), |s.c.plan.operations|;
      && (step.Instruction? <==> e == Observed(OperationApplied(s.cursor)))
      && (step.Terminal? ==> step.outcome.Stopped?)
      && (step.Instruction? ==> step.next.c == s.c && (if s.cursor + 1 < n then step.next.Installing? && step.next.cursor == s.cursor + 1
                                                       else step.next.Verifying?))
  {
  }

  ghost predicate AppliedWith(c: Compiled, events: seq<Event>, i: nat, trace: Trace)
    requires TreesStored(c.plan)
  {
    exists forward :: AppliedUp(c, events, i, forward) && TraceOf(c, forward, trace)
  }

  lemma AppliedStep(c: Compiled, events: seq<Event>, i: nat, forward: bool)
    requires TreesStored(c.plan) && i < |c.plan.operations|
    ensures AppliedUp(c, events, i, forward) <==>
      events != [] && events[0] == Observed(OperationApplied(i)) && AppliedUp(c, events[1..], i + 1, forward)
  {
    var n := |c.plan.operations|;
    if events != [] && n <= i + |events| {
      var rest := events[1..];
      assert rest[n - i - 1..] == events[n - i..];
      assert forall j :: 0 <= j < n - i - 1 ==> rest[j] == events[j + 1];
      assert (forall j :: 0 <= j < n - i ==> events[j] == Observed(OperationApplied(i + j))) <==>
        (events[0] == Observed(OperationApplied(i)) && forall j :: 0 <= j < n - i - 1 ==> rest[j] == Observed(OperationApplied(i + 1 + j)));
    }
  }

  lemma AllApplied(c: Compiled, events: seq<Event>, trace: Trace)
    requires TreesStored(c.plan)
    ensures AppliedWith(c, events, |c.plan.operations|, trace) <==> JudgedWith(c, events, trace)
  {
    assert events[0..] == events;
    forall forward ensures AppliedUp(c, events, |c.plan.operations|, forward) <==> Judged(c, events, forward) { }
  }

  lemma AppliedWithStep(c: Compiled, events: seq<Event>, i: nat, next: nat, trace: Trace)
    requires TreesStored(c.plan) && i < |c.plan.operations| && next == i + 1
    ensures AppliedWith(c, events, i, trace) <==>
      events != [] && events[0] == Observed(OperationApplied(i)) && AppliedWith(c, events[1..], next, trace)
  {
    AppliedStep(c, events, i, true);
    AppliedStep(c, events, i, false);
  }

  lemma {:induction false} InstallingCompletes(s: State, events: seq<Event>, trace: Trace)
    requires Coherent(s) && s.Installing?
    ensures CompletesWith(s, events, trace) <==> AppliedWith(s.c, events, s.cursor, trace)
    decreases |events|
  {
    var next: nat := s.cursor + 1;
    AppliedWithStep(s.c, events, s.cursor, next, trace);
    if events != [] {
      InstallingMoves(s, events[0]);
      RunUnrolls(s, events, trace);
      var step := Transition(s, events[0]);
      if step.Instruction? {
        if next < |s.c.plan.operations| {
          InstallingCompletes(step.next, events[1..], trace);
        } else {
          VerifyingCompletes(step.next, events[1..], trace);
          AllApplied(s.c, events[1..], trace);
        }
      }
    }
  }

  lemma MutatingMoves(s: State, e: Event)
    requires Coherent(s) && s.NeedMutatingJournal?
    ensures var step := Transition(s, e);
      && (step.Instruction? <==> e == Observed(JournalPersisted(MutatingPhase)))
      && (step.Terminal? ==> step.outcome.Stopped?)
      && (step.Instruction? ==> step.next.c == s.c && (if s.c.plan.operations != [] then step.next.Installing? && step.next.cursor == 0
                                                       else step.next.Verifying?))
  {
  }

  /** The mutating phase is journaled and the operations are applied. */
  ghost predicate MutatedWith(c: Compiled, events: seq<Event>, trace: Trace)
    requires TreesStored(c.plan)
  {
    Persisted(events, MutatingPhase) && AppliedWith(c, events[1..], 0, trace)
  }

  lemma MutatingCompletes(s: State, events: seq<Event>, trace: Trace)
    requires Coherent(s) && s.NeedMutatingJournal?
    ensures CompletesWith(s, events, trace) <==> MutatedWith(s.c, events, trace)
  {
    if events != [] {
      MutatingMoves(s, events[0]);
      RunUnrolls(s, events, trace);
      var step := Transition(s, events[0]);
      if step.Instruction? {
        if s.c.plan.operations != [] {
          InstallingCompletes(step.next, events[1..], trace);
        } else {
          VerifyingCompletes(step.next, events[1..], trace);
          AllApplied(s.c, events[1..], trace);
        }
      }
    }
  }

  lemma PreparingMoves(s: State, e: Event)
    requires Coherent(s) && s.Preparing?
    ensures var step, p := Transition(s, e), |s.c.preparations|;
      && (step.Instruction? <==> e == Observed(PreparationCompleted(s.c.preparations[s.cursor])))
      && (step.Terminal? ==> step.outcome.Stopped?)
      && (step.Instruction? ==> step.next.c == s.c && (if s.cursor + 1 < p then step.next.Preparing? && step.next.cursor == s.cursor + 1
                                                       else step.next.NeedMutatingJournal?))
  {
  }

  ghost predicate PreparedWith(c: Compiled, events: seq<Event>, i: nat, trace: Trace)
    requires TreesStored(c.plan)
  {
    exists forward :: PreparedUp(c, events, i, forward) && TraceOf(c, forward, trace)
  }

  lemma PreparedStep(c: Compiled, events: seq<Event>, i: nat, forward: bool)
    requires TreesStored(c.plan) && i < |c.preparations|
    ensures PreparedUp(c, events, i, forward) <==>
      events != [] && events[0] == Observed(PreparationCompleted(c.preparations[i])) && PreparedUp(c, events[1..], i + 1, forward)
  {
    var p := |c.preparations|;
    if events != [] && p <= i + |events| {
      var rest := events[1..];
      assert rest[p - i - 1..] == events[p - i..];
      if p < i + |events| { assert rest[p - i - 1 + 1..] == events[p - i + 1..]; }
      assert forall j :: 0 <= j < p - i - 1 ==> rest[j] == events[j + 1];
      assert (forall j :: 0 <= j < p - i ==> events[j] == Observed(PreparationCompleted(c.preparations[i + j]))) <==>
        (events[0] == Observed(PreparationCompleted(c.preparations[i]))
         && forall j :: 0 <= j < p - i - 1 ==> rest[j] == Observed(PreparationCompleted(c.preparations[i + 1 + j])));
    }
  }

  lemma AllPrepared(c: Compiled, events: seq<Event>, trace: Trace)
    requires TreesStored(c.plan)
    ensures PreparedWith(c, events, |c.preparations|, trace) <==> MutatedWith(c, events, trace)
  {
    assert events[0..] == events;
    forall forward ensures PreparedUp(c, events, |c.preparations|, forward) <==>
      Persisted(events, MutatingPhase) && AppliedUp(c, events[1..], 0, forward) { }
  }

  lemma PreparedWithStep(c: Compiled, events: seq<Event>, i: nat, next: nat, trace: Trace)
    requires TreesStored(c.plan) && i < |c.preparations| && next == i + 1
    ensures PreparedWith(c, events, i, trace) <==>
      events != [] && events[0] == Observed(PreparationCompleted(c.preparations[i])) && PreparedWith(c, events[1..], next, trace)
  {
    PreparedStep(c, events, i, true);
    PreparedStep(c, events, i, false);
  }

  lemma LastPrepared(s: State, events: seq<Event>, trace: Trace)
    requires Coherent(s) && s.Preparing? && s.cursor + 1 == |s.c.preparations|
    ensures CompletesWith(s, events, trace) <==> PreparedWith(s.c, events, s.cursor, trace)
  {
    PreparedWithStep(s.c, events, s.cursor, |s.c.preparations|, trace);
    if events != [] {
      PreparingMoves(s, events[0]);
      RunUnrolls(s, events, trace);
      var step := Transition(s, events[0]);
      if step.Instruction? {
        MutatingCompletes(step.next, events[1..], trace);
        AllPrepared(s.c, events[1..], trace);
      }
    }
  }

  /** One preparation is answered, and the rest as `t`, the state that follows, requires. */
  lemma NextPrepared(s: State, t: State, events: seq<Event>, trace: Trace, next: nat)
    requires Coherent(s) && s.Preparing? && next == s.cursor + 1 && events != []
    requires Transition(s, events[0]).Instruction? && Transition(s, events[0]).next == t
    requires WellCompiled(t.c) && (CompletesWith(t, events[1..], trace) <==> PreparedWith(s.c, events[1..], next, trace))
    ensures CompletesWith(s, events, trace) <==> PreparedWith(s.c, events, s.cursor, trace)
  {
    PreparedWithStep(s.c, events, s.cursor, next, trace);
    PreparingMoves(s, events[0]);
    RunUnrolls(s, events, trace);
  }

  lemma NotPrepared(s: State, events: seq<Event>, trace: Trace, next: nat)
    requires Coherent(s) && s.Preparing? && next == s.cursor + 1
    requires events == [] || !Transition(s, events[0]).Instruction?
    ensures !CompletesWith(s, events, trace) && !PreparedWith(s.c, events, s.cursor, trace)
  {
    PreparedWithStep(s.c, events, s.cursor, next, trace);
    if events != [] { PreparingMoves(s, events[0]); }
  }

  lemma {:induction false} PreparingCompletes(s: State, events: seq<Event>, trace: Trace)
    requires Coherent(s) && s.Preparing?
    ensures CompletesWith(s, events, trace) <==> PreparedWith(s.c, events, s.cursor, trace)
    decreases |events|
  {
    var next: nat := s.cursor + 1;
    if next == |s.c.preparations| {
      LastPrepared(s, events, trace);
    } else if events == [] || !Transition(s, events[0]).Instruction? {
      NotPrepared(s, events, trace, next);
    } else {
      PreparingMoves(s, events[0]);
      StepKeepsCoherent(s, events[0]);
      var t := Transition(s, events[0]).next;
      PreparingCompletes(t, events[1..], trace);
      NextPrepared(s, t, events, trace, next);
    }
  }

  lemma PlannedMoves(s: State, e: Event)
    requires Coherent(s) && s.NeedPlannedJournal?
    ensures var step := Transition(s, e);
      && (step.Instruction? <==> e == Observed(JournalPersisted(PlannedPhase)))
      && (step.Terminal? ==> step.outcome.Stopped?)
      && (step.Instruction? ==> step.next.c == s.c && (if s.c.preparations != [] then step.next.Preparing? && step.next.cursor == 0
                                                       else step.next.NeedMutatingJournal?))
  {
  }

  ghost predicate PlannedWith(c: Compiled, events: seq<Event>, trace: Trace)
    requires TreesStored(c.plan)
  {
    Persisted(events, PlannedPhase) && PreparedWith(c, events[1..], 0, trace)
  }

  lemma PlannedCompletes(s: State, events: seq<Event>, trace: Trace)
    requires Coherent(s) && s.NeedPlannedJournal?
    ensures CompletesWith(s, events, trace) <==> PlannedWith(s.c, events, trace)
  {
    if events != [] {
      PlannedMoves(s, events[0]);
      RunUnrolls(s, events, trace);
      var step := Transition(s, events[0]);
      if step.Instruction? {
        if s.c.preparations != [] {
          PreparingCompletes(step.next, events[1..], trace);
        } else {
          MutatingCompletes(step.next, events[1..], trace);
          AllPrepared(s.c, events[1..], trace);
        }
      }
    }
  }

  predicate Unchanged(c: Compiled, e: Event) {
    e.Observed? && e.observation.Reobserved? && SnapshotMatchesPreconditions(c.plan, e.observation.snapshot)
  }

  lemma ReobservingMoves(s: State, e: Event)
    requires Coherent(s) && s.NeedRevalidation? && s.trace == OPENING[..2]
    ensures var step := Transition(s, e);
      && (step.Instruction? <==> Unchanged(s.c, e))
      && (step.Terminal? ==> step.outcome.Stopped?)
      && (step.Instruction? ==> step.next.c == s.c && step.next.NeedPlannedJournal?)
  {
  }

  lemma ReobservingCompletes(s: State, events: seq<Event>, trace: Trace)
    requires Coherent(s) && s.NeedRevalidation? && s.trace == OPENING[..2]
    ensures CompletesWith(s, events, trace) <==>
      events != [] && Unchanged(s.c, events[0]) && PlannedWith(s.c, events[1..], trace)
  {
    if events != [] {
      ReobservingMoves(s, events[0]);
      RunUnrolls(s, events, trace);
      var step := Transition(s, events[0]);
      if step.Instruction? { PlannedCompletes(step.next, events[1..], trace); }
    }
  }

  lemma RevalidatedAs(c: Compiled, events: seq<Event>, trace: Trace)
    requires TreesStored(c.plan)
    ensures (events != [] && Unchanged(c, events[0]) && PlannedWith(c, events[1..], trace)) <==>
      exists forward :: Revalidated(c, events, forward) && TraceOf(c, forward, trace)
  {
    if |events| > 1 { assert events[1..][1..] == events[2..]; }
  }

  lemma LockingMoves(s: State, e: Event)
    requires Coherent(s) && (s.NeedLock? || (s.NeedRevalidation? && s.trace == OPENING[..1]))
    ensures var step := Transition(s, e);
      && (step.Instruction? <==> e == if s.NeedLock? then Start else Observed(LockAcquired))
      && (step.Terminal? ==> step.outcome.Stopped?)
      && (step.Instruction? ==> step.next.c == s.c && step.next.NeedRevalidation? && step.next.trace == OPENING[..if s.NeedLock? then 1 else 2])
  {
    assert OPENING[..1] == [AcquireLockKind] && OPENING[..2] == [AcquireLockKind, ObserveAgainKind];
  }

  lemma LockedCompletes(s: State, events: seq<Event>, trace: Trace)
    requires Coherent(s) && s.NeedRevalidation? && s.trace == OPENING[..1]
    ensures CompletesWith(s, events, trace) <==>
      events != [] && events[0] == Observed(LockAcquired) &&
      exists forward :: Revalidated(s.c, events[1..], forward) && TraceOf(s.c, forward, trace)
  {
    if events != [] {
      LockingMoves(s, events[0]);
      RunUnrolls(s, events, trace);
      var step := Transition(s, events[0]);
      if step.Instruction? {
        ReobservingCompletes(step.next, events[1..], trace);
        RevalidatedAs(s.c, events[1..], trace);
      }
    }
  }

  lemma StartsRevalidating(c: Compiled, events: seq<Event>, forward: bool)
    requires TreesStored(c.plan)
    ensures Course(c, events, forward) <==>
      |events| > 1 && events[0] == Start && events[1..][0] == Observed(LockAcquired) && Revalidated(c, events[1..][1..], forward)
  {
    if |events| > 1 { assert events[1..][1..] == events[2..]; }
  }

  lemma StartCompletes(c: Compiled, events: seq<Event>, trace: Trace)
    requires WellCompiled(c)
    ensures CompletesWith(NeedLock(c, []), events, trace) <==>
      |events| > 1 && events[0] == Start && events[1..][0] == Observed(LockAcquired) &&
      exists forward :: Revalidated(c, events[1..][1..], forward) && TraceOf(c, forward, trace)
  {
    var s := NeedLock(c, []);
    if events != [] {
      LockingMoves(s, events[0]);
      RunUnrolls(s, events, trace);
      var step := Transition(s, events[0]);
      if step.Instruction? { LockedCompletes(step.next, events[1..], trace); }
    }
  }

  /**
   A run completes exactly if it is answered along one of the two courses, and then
   with the trace of that course: sealed if the post-state passed the gate, and
   restored if it did not.
   */
  lemma CompletedRuns(c: Compiled, events: seq<Event>, trace: Trace)
    requires WellCompiled(c)
    ensures CompletesWith(NeedLock(c, []), events, trace) <==>
      (Course(c, events, true) && trace == ForwardTrace(c)) || (Course(c, events, false) && trace == RollbackTrace(c))
  {
    StartCompletes(c, events, trace);
    StartsRevalidating(c, events, true);
    StartsRevalidating(c, events, false);
    if CompletesWith(NeedLock(c, []), events, trace) {
      var forward :| Revalidated(c, events[1..][1..], forward) && TraceOf(c, forward, trace);
      assert Course(c, events, forward);
    }
    if Course(c, events, true) && trace == ForwardTrace(c) { assert TraceOf(c, true, trace); }
    if Course(c, events, false) && trace == RollbackTrace(c) { assert TraceOf(c, false, trace); }
  }

  function StopError(s: State, e: Event): EffectError {
    match e
    case Observed(EffectFailed(kind, error)) => if Awaits(s.trace, kind) then error else ImpossibleState
    case Observed(LockRefused) => if Awaits(s.trace, AcquireLockKind) then LockHeld else ImpossibleState
    case Observed(Reobserved(_)) => if Awaits(s.trace, ObserveAgainKind) then InputChanged else ImpossibleState
    case _ => ImpossibleState
  }

  ghost predicate StopsWell(s: State, e: Event)
    requires WellCompiled(s.c)
  {
    var step := Transition(s, e);
    step.Terminal? && step.outcome.Stopped? ==> step.outcome == Stopped(s.trace, StopError(s, e))
  }

  lemma OpeningStops(s: State, e: Event)
    requires Coherent(s) && (s.NeedLock? || s.NeedRevalidation?)
    ensures StopsWell(s, e)
  {
    assert OPENING[..1] == [AcquireLockKind] && OPENING[..2] == [AcquireLockKind, ObserveAgainKind];
  }

  /** The last kind of request of a trace that has got past the opening. */
  lemma LastAsked(s: State)
    requires Coherent(s) && !s.NeedLock? && !s.NeedRevalidation?
    ensures !Awaits(s.trace, AcquireLockKind) && !Awaits(s.trace, ObserveAgainKind)
  {
  }

  lemma WorkingStops(s: State, e: Event)
    requires WellCompiled(s.c) && (s.NeedPlannedJournal? || s.Preparing? || s.NeedMutatingJournal? || s.Installing? || s.Verifying? || s.RollingBack?)
    requires !Awaits(s.trace, AcquireLockKind) && !Awaits(s.trace, ObserveAgainKind)
    ensures StopsWell(s, e)
  {
  }

  lemma EndingStops(s: State, e: Event)
    requires WellCompiled(s.c)
    requires s.NeedRestoredJournal? || s.NeedSealedJournal? || s.CleaningForward? || s.CleaningRollback? || s.Releasing?
    requires !Awaits(s.trace, AcquireLockKind) && !Awaits(s.trace, ObserveAgainKind)
    ensures StopsWell(s, e)
  {
  }

  /**
   What is named when a run stops, in whatever state: the error of the effect that was
   pending, a held lock, a changed target, or an answer to something else.
   */
  lemma StopsAreExplained(s: State, e: Event)
    requires Coherent(s)
    ensures StopsWell(s, e)
  {
    if s.NeedLock? || s.NeedRevalidation? {
      OpeningStops(s, e);
    } else {
      LastAsked(s);
      if s.NeedRestoredJournal? || s.NeedSealedJournal? || s.CleaningForward? || s.CleaningRollback? || s.Releasing? {
        EndingStops(s, e);
      } else {
        WorkingStops(s, e);
      }
    }
  }
}
