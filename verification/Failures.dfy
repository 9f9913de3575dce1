/** Small plans that can be executed, and the crashes after which no recovery completes. */
module Failures {
  import opened Results
  import opened Paths
  import opened Identity
  import opened Plans
  import opened Rollback
  import opened Targets
  import opened Inversion
  import opened Capture
  import opened Machine
  import opened Receipts
  import opened Journals
  import opened Crashes
  import opened Atomicity
  import opened Recoveries
  import opened Reachability
  import opened Interruptions
  import opened Restorations

  const LIMITS := Limits(100, 100, 1000, 1000)

  /** The plan, compiled with a reservation for every artifact. */
  function CompiledOf(plan: Plan): (c: Compiled)
    requires TreesStored(plan)
    ensures WellCompiled(c) && c.plan == plan && c.validation.GatePass?
  {
    var specs := PreparationSpecs(plan);
    Compiled(plan, GatePass, 0, seq(|specs|, i requires 0 <= i < |specs| => PreparationIdentity(0, specs[i], FIRST_TOKEN)))
  }

  lemma SettingOf(plan: Plan, t: Tree) returns (g: Setting)
    requires TreesStored(plan) && Executable(plan.operations, plan.store, t) && AllSurvive(plan.operations)
    ensures g.Good() && g.c.plan == plan && g.c.validation.GatePass? && g.Before() == t
    ensures g.Candidate() == After(plan.operations, plan.store, t, |plan.operations|)
  {
    g := SettingFrom(CompiledOf(plan), t);
    ExecutableIsGood(g.c, t);
  }

  // An executable text file

  const SCRIPT: Bytes := [35, 33, 10]
  const SCRIPT_PATH: Path := ["s"]

  function ScriptPlan(): Plan {
    Plan(Initial, 0,
         [CreateFile(SCRIPT_PATH, Absent, PlannedFile(IdentityOf(SCRIPT, Binary), EXECUTABLE_MODE, Sha256(SCRIPT)))],
         Store(LIMITS, [Sha256(SCRIPT)], 3, map[Sha256(SCRIPT) := SCRIPT]))
  }

  lemma ScriptIsText()
    ensures IsUtf8(SCRIPT) && AnyExecuteBit(EXECUTABLE_MODE)
  {
    assert SCRIPT[1..] == [33, 10] && [33, 10][1..] == [10] && [10][1..] == [];
    assert IsUtf8([]) && IsUtf8([10]) && IsUtf8([33, 10]);
  }

  lemma ScriptRuns()
    ensures Executable(ScriptPlan().operations, ScriptPlan().store, Tree(map[], map[]))
    ensures AllSurvive(ScriptPlan().operations) && TreesStored(ScriptPlan())
    ensures KindsDeclared(ScriptPlan().operations) && !RecognisedNew(ScriptPlan().operations[0])
  {
    var ops, store, t := ScriptPlan().operations, ScriptPlan().store, Tree(map[], map[]);
    ScriptIsText();
    assert Valid(SCRIPT_PATH);
    assert ApplyOperation(ops[0], store, t).Some?;
    assert ops[1..] == [];
    assert Survives(ops[0]);
  }

  /**
   A plan that installs one executable script, with the kind an observation of it
   reports: after it has been executed, a crash leaves a target no recovery restores.
   */
  lemma ScriptSticks() returns (g: Setting, w: World)
    ensures g.Good() && g.c.plan == ScriptPlan() && KindsDeclared(g.Operations())
    ensures Reached(g, w) && CleanCrash(w) && w.disk.tree == g.Candidate() && Sticks(g, w) && !Recovers(g, w)
  {
    ScriptRuns();
    g := SettingOf(ScriptPlan(), Tree(map[], map[]));
    assert g.StateIs(1);
    OpenAfter(g.Operations(), g.c.plan.store, g.Before(), 1);
    assert !AllNewRecognised(g.Operations(), 1);
    w := ClosedCrashSticks(g, 1);
  }

  // A directory that is emptied and removed

  const DIR: Path := ["d"]
  const FILE: Path := ["d", "f"]

  /** A directory holding one empty file. */
  function DirectoryTree(): Tree {
    Tree(map[FILE := Node([], FILE_MODE)], map[DIR := DIRECTORY_MODE])
  }

  /** The plan deletes the file and then the directory. */
  function RemovalPlan(): Plan {
    Plan(Initial, 0,
         [DeleteFile(FILE, ObservedState([], FILE_MODE)), RemoveEmptyDirectory(DIR, DirectoryState(DIRECTORY_MODE, []))],
         EmptyStore(LIMITS))
  }

  lemma DirectoryTreeHolds()
    ensures Closed(DirectoryTree()) && Below(DirectoryTree(), DIR) == {FILE}
    ensures Below(RemoveFile(DirectoryTree(), FILE), DIR) == {}
  {
    assert Parent(FILE) == DIR && Valid(DIR) && Valid(FILE);
  }

  lemma RemovalRuns()
    ensures Executable(RemovalPlan().operations, RemovalPlan().store, DirectoryTree())
    ensures AllSurvive(RemovalPlan().operations) && TreesStored(RemovalPlan())
  {
    var ops, store, t := RemovalPlan().operations, RemovalPlan().store, DirectoryTree();
    DirectoryTreeHolds();
    var u := RemoveFile(t, FILE);
    assert ApplyOperation(ops[0], store, t) == Some(u);
    assert ApplyOperation(ops[1], store, u).Some?;
    assert ops[1..] == [ops[1]] && ops[1..][1..] == [];
    assert Runs(ops[1..], store, u);
    assert AtOldState(ops[0], t) && AtOldState(ops[1], t);
    RemovalSurvives();
  }

  lemma RemovalSurvives()
    ensures AllSurvive(RemovalPlan().operations)
  {
    var ops := RemovalPlan().operations;
    assert Survives(ops[0]) && Survives(ops[1]);
  }

  /**
   A plan that deletes a file and then its directory: a crash before the first
   operation leaves a target that no recovery gets past, unchanged as it is.
   */
  lemma InterruptedRemovalSticks() returns (g: Setting, w: World)
    ensures g.Good() && g.c.plan == RemovalPlan() && g.Before() == DirectoryTree()
    ensures Reached(g, w) && CleanCrash(w) && w.disk.tree == g.Before() && Sticks(g, w) && !Recovers(g, w)
  {
    RemovalRuns();
    DirectoryTreeHolds();
    g := SettingOf(RemovalPlan(), DirectoryTree());
    assert RemovalPlan().operations[1] in g.Operations() && FILE in Below(g.Before(), DIR);
    w := ClosedCrashSticks(g, 0);
  }

  // A file that is deleted

  const TEXT_PATH: Path := ["t"]

  function TextTree(): Tree {
    Tree(map[TEXT_PATH := Node([], FILE_MODE)], map[])
  }

  function DeletionPlan(): Plan {
    Plan(Initial, 0, [DeleteFile(TEXT_PATH, ObservedState([], FILE_MODE))], EmptyStore(LIMITS))
  }

  lemma DeletionRuns()
    ensures Executable(DeletionPlan().operations, DeletionPlan().store, TextTree())
    ensures AllSurvive(DeletionPlan().operations) && TreesStored(DeletionPlan())
    ensures AllRecognised(DeletionPlan().operations) && RemovalsEmpty(DeletionPlan().operations, TextTree())
  {
    var ops, store, t := DeletionPlan().operations, DeletionPlan().store, TextTree();
    assert Valid(TEXT_PATH);
    assert ApplyOperation(ops[0], store, t).Some?;
    assert ops[1..] == [];
    assert Survives(ops[0]);
  }

  lemma DeletionSetting() returns (g: Setting)
    ensures g.Good() && g.c.plan == DeletionPlan()
    ensures AllRecognised(g.Operations()) && RemovalsEmpty(g.Operations(), g.Before())
    ensures g.Count() == 1 && !g.Operations()[0].CreateFile? && PutsBack(g.Operations()[0])
    ensures g.Candidate() == g.At(1) && g.Before() == g.At(0)
  {
    DeletionRuns();
    g := SettingOf(DeletionPlan(), TextTree());
  }

  /**
   A plan that deletes one text file: a crash after the deletion can be recovered
   from; but a recovery that is itself cut off after it has put the file back leaves
   a rollback container that no later recovery can clean, so none completes.
   */
  lemma SecondCrashSticks() returns (g: Setting, first: World, second: World)
    ensures g.Good() && g.c.plan == DeletionPlan()
    ensures Reached(g, first) && CleanCrash(first) && first.disk.tree == g.Candidate() && Recovers(g, first)
    ensures Reached(g, second) && MutatingCrash(second) && second.disk.tree == g.Before() && Sticks(g, second) && !Recovers(g, second)
  {
    g := DeletionSetting();
    first, second := InterruptedRollbackSticks(g, 0, g.Count());
  }

  /**
   The same plan: a crash right after a recovery has made RESTORED durable leaves the
   old target, and a journal that no later recovery can finish.
   */
  lemma RestoredCrashSticks() returns (g: Setting, w: World)
    ensures g.Good() && g.c.plan == DeletionPlan()
    ensures Reached(g, w) && RestoredCrash(w) && w.disk.root.pending.None? && Sticks(g, w) && !Recovers(g, w)
  {
    g := DeletionSetting();
    SpecsForOthers(g);
    OpenFromStart(g);
    w := RestoredSticks(g, 0);
  }
}
