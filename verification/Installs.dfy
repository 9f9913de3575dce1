/** From a compiled plan to a crash-safe run: an installation ends as the overlay or not at all. */
module Installs {
  import opened Results
  import opened Paths
  import opened Identity
  import opened Plans
  import opened Targets
  import opened Inversion
  import opened Capture
  import opened Apply
  import opened Agreement
  import opened Machine
  import opened Receipts
  import opened Journals
  import opened Crashes
  import opened Atomicity
  import opened Recoveries
  import opened Reachability
  import opened Interruptions
  import opened Layouts
  import opened Cleaning
  import opened Soundness
  import opened Outputs
  import opened Grouping
  import Initial
  import Restore
  import Reconcile

  /** What a tree has to be for an accepted plan to have been installed. */
  ghost predicate Installation(snapshot: Snapshot, plan: Plan, u: Tree) {
    && Applied(snapshot, plan).Ok?
    && Nodes(Applied(snapshot, plan).value.files) == u.files
    && Applied(snapshot, plan).value.directories == u.dirs
  }

  /**
   A moment of a run: the target is the candidate once SEALED is durable, and the old
   one unless a MUTATING journal is, and in any case one that the plan passes through.
   A recovery completes exactly when the disk is recoverable, and leaves the candidate
   under SEALED and the old target otherwise; one that does not complete still leaves
   a target that the plan passes through.
   */
  ghost predicate AllOrNothing(g: Setting, own: seq<PreparationIdentity>, w: World)
  {
    var r := RecoverOnce(g, own, w.disk);
    && (w.last == Some(SealedPhase) ==> w.disk.tree == g.Candidate())
    && (w.last != Some(SealedPhase) && w.last != Some(MutatingPhase) ==> w.disk.tree == g.Before())
    && PassedThrough(g, w.disk.tree)
    && (r.Ended? <==> Recoverable(g, w.disk))
    && (r.Ended? ==> r.disk.tree == if w.last == Some(SealedPhase) then g.Candidate() else g.Before())
    && PassedThrough(g, r.disk.tree)
  }

  lemma EveryMomentIsAllOrNothing(g: Setting, own: seq<PreparationIdentity>, ws: seq<World>, i: nat)
    requires g.Good() && Behaviour(g, ws) && i < |ws| && FreshContainers(g.c, ws[i].disk, own)
    ensures AllOrNothing(g, own, ws[i])
  {
    EveryRunRecovers(g, own, ws, i);
    CrashAtomicity(g, ws, i);
    StartIsPassed(g);
    Joined(g, own, ws[i]);
  }

  lemma Joined(g: Setting, own: seq<PreparationIdentity>, w: World)
    requires PassedThrough(g, g.Before()) && PassedThrough(g, g.Candidate())
    requires match w.last
      case Some(SealedPhase) => w.disk.tree == g.Candidate()
      case Some(MutatingPhase) => PassedThrough(g, w.disk.tree)
      case _ => w.disk.tree == g.Before()
    requires var r := RecoverOnce(g, own, w.disk);
      && (r.Ended? <==> Recoverable(g, w.disk))
      && (r.Ended? ==> r.disk.tree == if w.last == Some(SealedPhase) then g.Candidate() else g.Before())
      && PassedThrough(g, r.disk.tree)
    ensures AllOrNothing(g, own, w)
  {
  }

  /** Recovery completes after every crash of the plan under MUTATING that left no pending write and no container. */
  ghost predicate SurvivesCleanCrashes(g: Setting)
  {
    forall w :: Reached(g, w) && CleanCrash(w) ==> Recovers(g, w)
  }

  /** The transaction of a compiled plan, from a target it can be executed on, and the overlay it comes to. */
  ghost predicate Installs(snapshot: Snapshot, t: Tree, c: Compiled) {
    var g := SettingFrom(c, t);
    g.Good() && g.c == c && g.Before() == t && Installation(snapshot, c.plan, g.Candidate())
  }

  lemma ExecutableInstalls(snapshot: Snapshot, t: Tree, c: Compiled)
    requires WellCompiled(c) && Executable(c.plan.operations, c.plan.store, t) && AllSurvive(c.plan.operations)
    requires Installation(snapshot, c.plan, After(c.plan.operations, c.plan.store, t, |c.plan.operations|))
    ensures Installs(snapshot, t, c)
  {
    ExecutableIsGood(c, t);
  }

  lemma InitialInstalls(
    req: Initial.Request, snapshot: Snapshot, t: Tree, c: Compiled, sel: Initial.Selection, l: Layout, s: Sweep)
    requires Closed(t) && Observes(snapshot, t) && Initial.InitialPlan(req, snapshot, c.plan, sel, l, s)
    requires Applied(snapshot, c.plan).Ok? && WellCompiled(c)
    requires forall op :: op in SweepOperations(s) ==> Portable(op.path)
    ensures Installs(snapshot, t, c)
  {
    ObservedIsClosed(ObservedOf(snapshot), t);
    LaidPlanMeansOverlay(snapshot, c.plan, t, l, s);
    Initial.InitialPlanSurvives(req, snapshot, c.plan, sel, l, s);
    LaidPlanExecutes(snapshot, c.plan, t, l, s);
    ExecutableInstalls(snapshot, t, c);
  }

  lemma RestoreInstalls(
    inventory: seq<Restore.Entry>, render: seq<RenderFile>, requested: seq<Path>, snapshot: Snapshot, t: Tree, c: Compiled,
    chosen: seq<RenderFile>, l: Layout)
    requires Closed(t) && Observes(snapshot, t) && Initial.InstallableFiles(render)
    requires Restore.RestorePlan(inventory, render, requested, ObservedOf(snapshot), c.plan, chosen, l)
    requires Applied(snapshot, c.plan).Ok? && WellCompiled(c)
    ensures Installs(snapshot, t, c) && forall op :: op in c.plan.operations ==> !op.RemoveEmptyDirectory?
  {
    ObservedIsClosed(ObservedOf(snapshot), t);
    Restore.RestorePlanMeansOverlay(inventory, render, requested, snapshot, t, c.plan, chosen, l);
    Restore.RestorePlanSurvives(inventory, render, requested, ObservedOf(snapshot), c.plan, chosen, l);
    Restore.RestoreExecutes(inventory, render, requested, snapshot, t, c.plan, chosen, l);
    ExecutableInstalls(snapshot, t, c);
  }

  lemma ReconcileInstalls(
    inventory: seq<Restore.Entry>, render: seq<RenderFile>, manifest: Bytes, overwrite: bool, snapshot: Snapshot, t: Tree,
    c: Compiled, view: Observed, l: Layout, deletes: seq<Operation>, removes: seq<Operation>)
    requires Closed(t) && Observes(snapshot, t) && Initial.InstallableFiles(render)
    requires Reconcile.ReconcilePlan(inventory, render, manifest, overwrite, ObservedOf(snapshot), view, c.plan, l, deletes, removes)
    requires Applied(snapshot, c.plan).Ok? && WellCompiled(c)
    requires forall p :: p in t.files && Reconcile.IsRetired(inventory, render, p) ==> Portable(p)
    ensures Installs(snapshot, t, c) && forall op :: op in c.plan.operations ==> !op.RemoveEmptyDirectory?
  {
    var ob := ObservedOf(snapshot);
    ObservedIsClosed(ob, t);
    Reconcile.ReconcilePlanMeansOverlay(inventory, render, manifest, overwrite, snapshot, t, view, c.plan, l, deletes, removes);
    Reconcile.ReconcilePlanSurvives(inventory, render, manifest, overwrite, ob, view, c.plan, l, deletes, removes);
    Reconcile.ReconcileExecutes(inventory, render, manifest, overwrite, snapshot, t, view, c.plan, l, deletes, removes);
    ExecutableInstalls(snapshot, t, c);
  }

  /** What every run of an installation keeps, and when each of its clean crashes can be recovered from. */
  ghost predicate CrashSafe(snapshot: Snapshot, t: Tree, c: Compiled, ws: seq<World>, i: nat, own: seq<PreparationIdentity>)
    requires i < |ws|
  {
    var g := SettingFrom(c, t);
    && Installs(snapshot, t, c)
    && AllOrNothing(g, own, ws[i])
    && (SurvivesCleanCrashes(g) <==> AllRecognised(c.plan.operations) && RemovalsEmpty(c.plan.operations, t))
    && (ws[i].last == Some(SealedPhase) ==> KindsDeclared(c.plan.operations))
  }

  lemma InstallsCrashSafely(snapshot: Snapshot, t: Tree, c: Compiled, ws: seq<World>, i: nat, own: seq<PreparationIdentity>)
    requires Installs(snapshot, t, c) && Behaviour(SettingFrom(c, t), ws) && i < |ws| && FreshContainers(c, ws[i].disk, own)
    ensures CrashSafe(snapshot, t, c, ws, i, own)
  {
    var g := SettingFrom(c, t);
    EveryMomentIsAllOrNothing(g, own, ws, i);
    CleanCrashesRecover(g);
    if ws[i].last == Some(SealedPhase) { OnlyAgreeingKindsAreSealed(g, ws, i); }
  }

  /**
   A first installation or adoption, crash-safe from end to end: however its run is
   interrupted, and however often, the target is the overlay or exactly what it was.
   */
  lemma InitialInstallIsAllOrNothing(
    req: Initial.Request, snapshot: Snapshot, t: Tree, c: Compiled, sel: Initial.Selection, l: Layout, s: Sweep,
    ws: seq<World>, i: nat, own: seq<PreparationIdentity>)
    requires Closed(t) && Observes(snapshot, t) && Initial.InitialPlan(req, snapshot, c.plan, sel, l, s)
    requires Applied(snapshot, c.plan).Ok? && WellCompiled(c)
    requires forall op :: op in SweepOperations(s) ==> Portable(op.path)
    requires Behaviour(SettingFrom(c, t), ws) && i < |ws| && FreshContainers(c, ws[i].disk, own)
    ensures CrashSafe(snapshot, t, c, ws, i, own)
    ensures ws[i].last == Some(SealedPhase) ==> KindsAgree(l.placed, c.plan.store)
  {
    InitialInstalls(req, snapshot, t, c, sel, l, s);
    InstallsCrashSafely(snapshot, t, c, ws, i, own);
    InitialKinds(req, snapshot, t, c.plan, sel, l, s);
  }

  /**
   Where cleanup does not run, as in every adoption, the plan needs no acceptance and
   no path limit, and whether its clean crashes can be recovered from depends on its
   files alone.
   */
  lemma AdoptionIsAllOrNothing(
    req: Initial.Request, snapshot: Snapshot, t: Tree, c: Compiled, sel: Initial.Selection, l: Layout, s: Sweep,
    ws: seq<World>, i: nat, own: seq<PreparationIdentity>)
    requires Closed(t) && Observes(snapshot, t) && Initial.InitialPlan(req, snapshot, c.plan, sel, l, s)
    requires !Initial.Cleans(req) && WellCompiled(c)
    requires Behaviour(SettingFrom(c, t), ws) && i < |ws| && FreshContainers(c, ws[i].disk, own)
    ensures CrashSafe(snapshot, t, c, ws, i, own)
    ensures SurvivesCleanCrashes(SettingFrom(c, t)) <==> AllRecognised(c.plan.operations)
  {
    Initial.RetainingPlanIsAccepted(req, snapshot, t, c.plan, sel, l, s);
    ObservedIsClosed(ObservedOf(snapshot), t);
    Initial.InitialPlanSurvives(req, snapshot, c.plan, sel, l, s);
    InitialInstalls(req, snapshot, t, c, sel, l, s);
    InstallsCrashSafely(snapshot, t, c, ws, i, own);
    NothingToRemove(c.plan.operations, t);
  }

  lemma InitialKinds(req: Initial.Request, snapshot: Snapshot, t: Tree, plan: Plan, sel: Initial.Selection, l: Layout, s: Sweep)
    requires Closed(t) && Observes(snapshot, t) && Initial.InitialPlan(req, snapshot, plan, sel, l, s)
    ensures KindsDeclared(plan.operations) <==> KindsAgree(l.placed, plan.store)
  {
    SweptKinds(plan, ObservedOf(snapshot), l, s);
  }

  /** A restore, crash-safe from end to end; whether its clean crashes can be recovered from depends on its files alone. */
  lemma RestoreIsAllOrNothing(
    inventory: seq<Restore.Entry>, render: seq<RenderFile>, requested: seq<Path>, snapshot: Snapshot, t: Tree, c: Compiled,
    chosen: seq<RenderFile>, l: Layout, ws: seq<World>, i: nat, own: seq<PreparationIdentity>)
    requires Closed(t) && Observes(snapshot, t) && Initial.InstallableFiles(render)
    requires Restore.RestorePlan(inventory, render, requested, ObservedOf(snapshot), c.plan, chosen, l)
    requires Applied(snapshot, c.plan).Ok? && WellCompiled(c)
    requires Behaviour(SettingFrom(c, t), ws) && i < |ws| && FreshContainers(c, ws[i].disk, own)
    ensures CrashSafe(snapshot, t, c, ws, i, own)
    ensures SurvivesCleanCrashes(SettingFrom(c, t)) <==> AllRecognised(c.plan.operations)
    ensures ws[i].last == Some(SealedPhase) ==> KindsAgree(l.placed, c.plan.store)
  {
    RestoreInstalls(inventory, render, requested, snapshot, t, c, chosen, l);
    InstallsCrashSafely(snapshot, t, c, ws, i, own);
    NothingToRemove(c.plan.operations, t);
    FlatKinds(c.plan, ObservedOf(snapshot), l);
  }

  lemma NothingToRemove(ops: seq<Operation>, t: Tree)
    requires forall op :: op in ops ==> !op.RemoveEmptyDirectory?
    ensures RemovalsEmpty(ops, t)
  {
  }

  lemma FlatKinds(plan: Plan, view: Observed, l: Layout)
    requires Placed(l, view, plan.store) && plan.operations == l.trees + l.plain
    ensures KindsDeclared(plan.operations) <==> KindsAgree(l.placed, plan.store)
  {
    forall op | op in plan.operations && (op.CreateFile? || op.ReplaceFile?) ensures op in l.plain {
      assert op in l.trees || op in l.plain;
    }
    LaidKinds(plan.operations, view, plan.store, l);
  }

  /** A reconcile, crash-safe from end to end; whether its clean crashes can be recovered from depends on its files alone. */
  lemma ReconcileIsAllOrNothing(
    inventory: seq<Restore.Entry>, render: seq<RenderFile>, manifest: Bytes, overwrite: bool, snapshot: Snapshot, t: Tree,
    c: Compiled, view: Observed, l: Layout, deletes: seq<Operation>, removes: seq<Operation>,
    ws: seq<World>, i: nat, own: seq<PreparationIdentity>)
    requires Closed(t) && Observes(snapshot, t) && Initial.InstallableFiles(render)
    requires Reconcile.ReconcilePlan(inventory, render, manifest, overwrite, ObservedOf(snapshot), view, c.plan, l, deletes, removes)
    requires Applied(snapshot, c.plan).Ok? && WellCompiled(c)
    requires forall p :: p in t.files && Reconcile.IsRetired(inventory, render, p) ==> Portable(p)
    requires Behaviour(SettingFrom(c, t), ws) && i < |ws| && FreshContainers(c, ws[i].disk, own)
    ensures CrashSafe(snapshot, t, c, ws, i, own)
    ensures SurvivesCleanCrashes(SettingFrom(c, t)) <==> AllRecognised(c.plan.operations)
    ensures ws[i].last == Some(SealedPhase) ==> KindsAgree(l.placed, c.plan.store)
  {
    ReconcileInstalls(inventory, render, manifest, overwrite, snapshot, t, c, view, l, deletes, removes);
    InstallsCrashSafely(snapshot, t, c, ws, i, own);
    NothingToRemove(c.plan.operations, t);
    ReconcileKinds(c.plan, view, l, deletes, removes);
  }

  lemma ReconcileKinds(plan: Plan, view: Observed, l: Layout, deletes: seq<Operation>, removes: seq<Operation>)
    requires Placed(l, view, plan.store) && plan.operations == deletes + removes + l.trees + l.plain
    requires forall op :: op in deletes || op in removes ==> op.DeleteFile? || op.RemoveEmptyDirectory?
    ensures KindsDeclared(plan.operations) <==> KindsAgree(l.placed, plan.store)
  {
    forall op | op in plan.operations && (op.CreateFile? || op.ReplaceFile?) ensures op in l.plain {
      assert op in deletes || op in removes || op in l.trees || op in l.plain;
    }
    LaidKinds(plan.operations, view, plan.store, l);
  }
}
