# Verification of the bootstrap engine

The bootstrap engine installs files into a project directory, adopts a directory
that already holds some, restores what drifted from its record, and reconciles a
recorded installation with a newer template. It compiles the change into a plan,
and runs the plan as a transaction that survives a crash at any moment. This
project models the transaction, the plan compilers, the version ranges and the
capability resolution in Dafny, and proves what they promise.

Check the whole project with `dafny verify dfyconfig.toml`.

## The main results

**The transaction is all or nothing.** A target is a map of files and a map of
directories. `Crashes` describes whole runs: the live machine of `Machine`, one
effect at a time; crashes at every moment, also between the pending write and the
rename of a journal; recoveries that start from the journal record alone and may
crash in turn. `Atomicity.CrashAtomicity` says what the target is at every moment,
`Atomicity.JournalAuthority` that the state root is always classified as what it
is, and `Recoveries.RecoveryCompletes` exactly when a recovery completes and what
it leaves. `Reachability.CleanCrashesRecover` turns that into a condition on plan
and old target: exactly when recovery completes after every reachable crash under
MUTATING that left no pending write and no rollback container;
`Interruptions.AllCrashesRecover` does so for crashes inside recoveries too, any
number of them, and `Restorations.EverySettledCrashRecovers` at every phase.
`Inversion.RollbackInvertsPrefix` and `ThirdStates.ThirdStatesAreKept` are the two
halves of rollback: exact on what the transaction did, harmless on what somebody
else did; `ThirdStates.ApplyIsExact` says the same of going forward, and
`Verifications.RecoveriesEndVerified` that on any disk at all no recovery ends on a
target it has not verified. `Courses.CompletedRuns` says which answers complete a
run, and how. `Receipts.RecoveryFromReceipt` lets recovery work from the receipt,
and `Documents` says that each document is read as the one thing it says.

**Plans mean what they declare.** `Apply` holds the in-place overlay of a plan,
proved against a pure one, and `Agreement.AcceptedPlansExecute` ties it to the
executor. For the three compilers, `Initial.InitialPlanMeansOverlay`,
`Restore.RestorePlanMeansOverlay` and `Reconcile.ReconcilePlanMeansOverlay` say
exactly when the compiled plan is accepted and what it then leaves, and the
compilers' own contracts exactly when there is one. `Requests` says what that is in
terms of the request: which files an accepted plan leaves, byte for byte, and that
nothing else changes. `Installs` puts both halves together: a compiled plan, run
with crashes anywhere, comes to the overlay or the exact old target, and every
recovery that completes ends at one of the two.

**Ranges and resolution.** `Versions.EffectivePythonRange` computes the exact meet
of version ranges (PEP 440, section "Final releases"), which
`Versions.SupportedPython` takes over a selection, `Resolver` the least closure
and the one order by dependency depth, with cycles as the only refusal and
independent of the order of the request, `Settings` exactly which values are
accepted, and `Additions` the append-only additions.

## What the proofs found

Each of these is stated as an exact condition, and the code is modelled as it is.

- A pending journal write is discarded only where no journal exists
  (`scripts/bootstrap/recovery.py:98-129`), and a pending write in place makes
  persisting fail (`scripts/bootstrap/journal.py:455-480`). A crash between the
  pending write and the rename of RESTORED or SEALED therefore leaves a state that
  recovery rolls back but can never finish: `Recoveries.CrashInsideDecisionSticks`.
  Every plan has such a run, or one that sticks sooner: `Interruptions.SealingCanStick`,
  `Restorations.DecisionCanStick`.
- Rollback classifies a file by its bytes alone
  (`scripts/bootstrap/transaction_machine.py:1389-1400`), every other observation
  also by its execute bits (`scripts/bootstrap/transaction_machine.py:2150-2158`). A
  planned or old file that is UTF-8 with an execute bit is therefore a third state to
  rollback: `Reachability.ScriptsAreTheException`, `Failures.ScriptSticks`.
- Rollback puts files back through containers marked with a token of its own process
  (`scripts/bootstrap/transaction_machine.py:1446-1481`), and every recovery draws new
  tokens (`scripts/bootstrap/transaction_machine.py:2605-2610`). A container that a
  cut-off recovery left behind matches no later one, and cleanup stops at it
  (`scripts/bootstrap/transaction_machine.py:1823`):
  `Interruptions.InterruptedRollbackSticks`, `Failures.SecondCrashSticks`.
- The executor reads a directory in full before it judges its removal
  (`scripts/bootstrap/transaction_machine.py:1530-1567`), while the recorded old
  state lists it as empty. Recovery from MUTATING stops while a directory still to
  be removed holds anything: `Inversion.UnexecutedStepKeeps`,
  `Failures.InterruptedRemovalSticks`. Restore and accepted reconcile plans remove no
  directory: `Restore.RestoreExecutes`, `Reconcile.ReconcileExecutes`.
- A RESTORED journal also records the rollback containers, and the recovery of that
  phase accepts only the reservations of the plan, and has no reservation to clean
  a container with (`scripts/bootstrap/transaction.py:569-595`,
  `scripts/bootstrap/transaction_machine.py:1769-1800`). It completes exactly for
  plans that need no container: `Recoveries.RecoveryCompletes`,
  `Restorations.RestoredCrashesRecover`, `Failures.RestoredCrashSticks`.
- The observed kind of a file follows from its mode and bytes
  (`scripts/bootstrap/transaction_machine.py:2150-2171`), the planned kind from its
  declaration. A plan is sealed only if they agree on every file with an operation of
  its own (`Capture.EndPassesItsGate`, `Atomicity.OnlyAgreeingKindsAreSealed`); files
  inside a created tree are compared without their kind. Drift compares the kinds of
  all files, so where they differ a restore never heals: `Restore.RestoreHeals`,
  `Inputs.ScriptNeverHeals`.
- Cleanup checks declared paths against the path limits, but not what lies below a
  declared directory; such a plan cannot be rebuilt from its receipt:
  `Initial.InitialPlanSurvives`, `Inputs.LongFileIsLost`.
- Cleanup that repeats a path, or declares a directory above a seed, the manifest or
  the inventory, compiles but is refused when applied; likewise a reconcile that
  turns a file into a directory or back, or whose render holds the manifest's own
  path: `Cleaning.SweepAcceptedIfFits`, `Inputs.RepeatedCleanupIsRefused`,
  `Inputs.ContainingCleanupIsRefused`, `Reconcile.ReconcilePlanMeansOverlay`,
  `Inputs.FileTurnedDirectoryIsRefused`, `Reconcile.CompileReconcilePlan`.

## Assumptions

- Digests are injective: a digest is represented by what was hashed.
- One apply, rollback, backup or cleanup effect, one pending write and one rename are
  atomic. A crash may leave a pending write with any content.
- No other process writes, except in `ThirdStates` and `Verifications`, where the
  target is arbitrary.
- A path has at least one component. Text is compared by code points, which is the
  order of its UTF-8 bytes: `Encoding.PathOrderIsByteOrder`. Lower-casing a path is an arbitrary function.
- A snapshot given to a compiler observes regular files and directories, each with
  all its ancestors.

## Model

| member | source | states |
|---|---|---|
| Paths.PrefixTestIsAncestry | scripts/bootstrap/planner.py:384-387 | the textual test "starts with the path and a slash" says exactly "is a strict ancestor of" on path components |
| Paths.RenderInjective | scripts/bootstrap/paths.py:12-26 | distinct paths have distinct text, so keying dictionaries by text is keying by path |
| Identity.TreeHashIsEquality | scripts/bootstrap/identity.py:210-235 | on states listed in path order the directory tree hash separates exactly what equality separates |
| Plans.Store.Intern | scripts/bootstrap/blobs.py:45-70 | refused exactly when the bytes are over the file limit, or are new and over the total; otherwise keeps every earlier blob, returns an id that reads back the given bytes, keeps every id the digest of its bytes, and changes nothing for bytes already stored |
| Rollback.RestoredGatesAgree | scripts/bootstrap/recovery.py:151-164 | recovery's restored verification is intact on exactly the snapshots the live pre-state gate accepts |
| Rollback.SealedGatesAgree | scripts/bootstrap/recovery.py:167-179 | recovery's sealed verification, by tree hash, is intact on exactly the snapshots the live candidate gate accepts by equality |
| Rollback.CleanupShape | scripts/bootstrap/transaction.py:540-565 | one cleanup item per reserved artifact, every backup before the transaction directory, that directory last but one and the journal last |
| Rollback.CleanupOfPreparationsCovers | scripts/bootstrap/transaction.py:540-565 | each reserved stage and backup has its own cleanup item, in order |
| Inversion.ApplyFrame | scripts/bootstrap/transaction_machine.py:1153-1361 | an apply effect changes nothing outside its path or tree and keeps parents directories and paths of one kind |
| Inversion.CreatedTreeState | scripts/bootstrap/transaction_machine.py:723-832 | a created tree, captured from the target, is exactly the planned content |
| Inversion.ExecutedStepInverts | scripts/bootstrap/transaction_machine.py:1381-1687 | rolling back an operation that was just executed gives back the exact target before it if what it wrote is recognised by its bytes alone, and is a third state that keeps the target otherwise |
| Inversion.UnexecutedStepKeeps | scripts/bootstrap/transaction_machine.py:1381-1687 | rolling back an operation that was not executed keeps the target, and completes exactly when its old file is recognised by its bytes alone and it is no removal of a directory that still holds something |
| Inversion.Intermediate | scripts/bootstrap/rollback.py:262-281 | after any executed prefix every later operation is still at its old state, with its parent in place |
| Inversion.RollbackInvertsPrefix | scripts/bootstrap/rollback.py:262-281 | after any executed prefix, and after an earlier rollback cut off anywhere, the rollback pass gives the exact old target if and only if every written and every old file is recognised by its bytes and no directory still to be removed holds anything; otherwise it stops at a target the run had passed through |
| ThirdStates.RollbackIsExact | scripts/bootstrap/rollback.py:121-164 | on any target whatever, a rollback step that completes leaves its path exactly at the recorded old state and touches nothing else |
| ThirdStates.ThirdStatesAreKept | scripts/bootstrap/rollback.py:121-164 | on any target, foreign edits included, a rollback pass leaves each operation's path at its old state or untouched, and changes no path outside the plan |
| Capture.CaptureShows | scripts/bootstrap/transaction_machine.py:879-940 | the plan capture shows each operation's path as it is: tree roots in full, removed directories by mode alone |
| Capture.PrefixIsDecided | scripts/bootstrap/rollback.py:262-298 | after any executed prefix the reducers find every later operation restored, and an earlier one at its candidate exactly if its declared kind is the observed one, a third state exactly if what is observed is neither the planned nor the old state |
| Capture.StartPassesItsGate | scripts/bootstrap/recovery.py:151-164 | the untouched target passes the pre-state gate |
| Capture.EndPassesItsGate | scripts/bootstrap/recovery.py:167-179 | the fully executed target passes the candidate gate if and only if every file with an operation of its own is declared with the kind an observation reports |
| Soundness.LaidPlanSeals | scripts/bootstrap/recovery.py:167-179 | an executed plan of outputs and cleanup passes the candidate gate if and only if the declared and observed kinds of the outputs outside created trees agree |
| Apply.ApplyPlan | scripts/bootstrap/planner.py:2145-2255 | the in-place dictionaries end as the pure overlay of the operations, or fail with the same error |
| Apply.Workspace.ApplyFileWrite | scripts/bootstrap/planner.py:2066-2099 | writes one file exactly when its recorded old state matches and the path was not written before; otherwise nothing changes |
| Apply.Workspace.ApplyTreeEntries | scripts/bootstrap/planner.py:2102-2142 | adds the entries of a tree in order, refusing a path that is already there or a missing blob |
| Apply.Workspace.ApplyOne | scripts/bootstrap/planner.py:2145-2255 | one operation takes the dictionaries to the state the overlay gives it |
| Agreement.AcceptedPlansExecute | scripts/bootstrap/planner.py:2145-2255 | a plan the overlay accepts runs on the observed target, can be rolled back after every prefix, and ends in exactly the declared files, modes and directories |
| Machine.StepKeepsCoherent | scripts/bootstrap/transaction.py:1010-1281 | every step of the machine keeps cursor, trace and gate results in agreement, appends what it requests to the trace, and decreases the measure |
| Machine.TraceLanguage | scripts/bootstrap/transaction.py:988-1281 | every run that completes has one of two exact traces, of lengths 2p+n+9 and 2p+2n+r+9, and every stopped run's trace is a prefix of one of them |
| Machine.RunHalts | scripts/bootstrap/transaction.py:1010-1281 | every event sequence longer than a bound known at the start ends the run |
| Machine.Drive | scripts/bootstrap/transaction.py:1010-1281 | both traces occur: favourable answers lead to the sealed one, a failed verification to the restored one |
| Receipts.BuildReceipt | scripts/bootstrap/plan_digest.py:225-251 | the loop over operations builds the receipt document of the plan |
| Receipts.ReconstructPlan | scripts/bootstrap/plan_digest.py:349-430 | the loop over operation documents returns the plan they denote, or the first error |
| Receipts.ReconstructEntries | scripts/bootstrap/plan_digest.py:642-739 | the loop with its set of seen paths reads the entries, refusing a repeated path |
| Receipts.OperationRoundTrip | scripts/bootstrap/plan_digest.py:432-528 | an operation's document is read back to the operation exactly if its paths are acceptable, its modes installable, its tree entries distinct and its removed directory recorded as empty |
| Receipts.PlanRoundTrip | scripts/bootstrap/plan_digest.py:349-430 | a plan is rebuilt from its receipt, its bytes aside, exactly if all its operations survive |
| Receipts.RecoveryFromReceipt | scripts/bootstrap/plan_digest.py:349-430 | recovery from the receipt alone decides what recovery from the plan would: same steps, verifications, reservations and cleanup, on every snapshot |
| Survival.LayoutSurvives | scripts/bootstrap/plan_digest.py:432-528 | every operation that lays outputs within the path limits is carried whole by the receipt |
| Journals.JournalRoundTrip | scripts/bootstrap/journal.py:284-452 | a journal record decodes back to itself exactly if the receipt it carries decodes |
| Journals.DecodePreparations | scripts/bootstrap/journal.py:422-428 | the loop over preparation documents reads them all, or fails at the first bad one |
| Journals.PendingDiscardedOnlyAlone | scripts/bootstrap/recovery.py:98-129 | recovery discards a pending write exactly where no journal, no transaction directory and no foreign entry exists |
| Journals.StateRoot.WritePending | scripts/bootstrap/journal.py:455-480 | the pending file is created, or refused when one is there, and then nothing changes |
| Journals.StateRoot.RenamePending | scripts/bootstrap/journal.py:455-480 | the rename makes the pending record the journal, whatever the journal was |
| Journals.StateRoot.PersistJournal | scripts/bootstrap/journal.py:455-480 | the journal becomes exactly the record, unless a pending write is left over: then nothing changes |
| Journals.PersistIsAtomic | scripts/bootstrap/journal.py:455-480 | wherever persisting is cut short the state root is classified as the old phase, or as a stale write where there was no journal, and as the new phase after the rename |
| Atomicity.StepKeepsConsistent | scripts/bootstrap/transaction_machine.py:1954-2128 | every crash, live step and recovery step keeps journal, backups, target and process in agreement |
| Atomicity.CrashAtomicity | scripts/bootstrap/transaction.py:1010-1281 | at every moment of every run the target is exactly the old one unless MUTATING or SEALED is durable, exactly the candidate once SEALED is, and a candidate of some prefix in between |
| Atomicity.JournalAuthority | scripts/bootstrap/journal.py:559-595 | at every moment the state root is classified as the last durable phase while its journal stands and as none or a stale write otherwise: never as orphaned, invalid or mismatched; and for every other target a standing journal is classified as mismatched |
| Atomicity.OnlyAgreeingKindsAreSealed | scripts/bootstrap/transaction.py:718-773 | no run, however it crashes and recovers, seals a plan whose declared and observed kinds differ |
| Recoveries.RecoveryCompletes | scripts/bootstrap/transaction_machine.py:2431-2748 | recovery completes exactly when: no journal, PLANNED or SEALED; RESTORED and the plan needs no rollback container; MUTATING, no pending write, no rollback container of an earlier process, and a target open to rollback; it then leaves the candidate under SEALED, the old target otherwise, and nothing of the transaction; one that does not complete leaves a target the run passes through |
| Recoveries.SecondRecoveryIsClean | scripts/bootstrap/recovery.py:98-129 | after a recovery that completes, a second one removes the pending write it left and changes nothing else, and the state root is then classified as empty |
| Recoveries.CrashInsideDecisionSticks | scripts/bootstrap/journal.py:455-480 | no recovery completes after a crash between the pending write and the rename of RESTORED or SEALED |
| Recoveries.EveryRunRecovers | scripts/bootstrap/transaction_machine.py:2431-2748 | the same exact completion condition and end state, from every moment of every run with crashes and cut-off recoveries |
| Reachability.CleanCrashesRecover | scripts/bootstrap/transaction_machine.py:2605-2655 | for every plan that can be executed: recovery completes after every reachable crash under MUTATING without pending write or rollback container, if and only if every planned and old file is recognised by its bytes and every directory the plan removes is empty in the old target |
| Reachability.ScriptsAreTheException | scripts/bootstrap/transaction_machine.py:1389-1400 | where declared and observed kinds agree, the files not recognised are exactly the planned or old files that are UTF-8 with an execute bit |
| Interruptions.AllCrashesRecover | scripts/bootstrap/transaction_machine.py:2605-2655 | recovery completes after every reachable crash under MUTATING without pending write, any number of cut-off recoveries included, if and only if every file is recognised by its bytes and no rollback of the plan goes through a container |
| Interruptions.InterruptedRollbackSticks | scripts/bootstrap/transaction_machine.py:1446-1481 | for every operation of a plan that recovers from all clean crashes, if it is put back through a container: some run crashes where recovery completes, but a recovery cut off right after that operation leaves a state no later recovery completes |
| Interruptions.SealingCanStick | scripts/bootstrap/journal.py:455-480 | of every executable plan that can be sealed, some run crashes between the pending write and the rename of SEALED and no recovery ever completes |
| Restorations.DecisionCanStick | scripts/bootstrap/journal.py:455-480 | of every executable plan some crash under MUTATING is one no recovery completes after: between the pending write and the rename of RESTORED if the old target is open to rollback, before the first operation if not |
| Restorations.RestoredCrashesRecover | scripts/bootstrap/transaction_machine.py:2596-2676 | of every executable plan with some target that is open to rollback: recovery completes after every crash under RESTORED if and only if the plan needs no rollback container, that is, only creates single files |
| Restorations.RestoredSticks | scripts/bootstrap/transaction_machine.py:2630-2655 | for every other such plan and each target it passes through that is open to rollback: a run that crashes there, is rolled back and crashes once more right after RESTORED is durable, after which no recovery completes |
| Restorations.EverySettledCrashRecovers | scripts/bootstrap/transaction_machine.py:2431-2748 | for every executable plan: recovery completes after every crash of every run that left no pending write, at any phase and however many crashes there were, if and only if the plan only creates single files, each recognised by its bytes |
| Failures.ScriptSticks | scripts/bootstrap/transaction_machine.py:1389-1400 | a plan that creates one executable UTF-8 script, of the kind an observation reports, reaches a crash no recovery completes, although it can be executed and its kind agrees |
| Failures.InterruptedRemovalSticks | scripts/bootstrap/transaction_machine.py:1530-1567 | an executable plan that deletes a file and then its directory reaches a crash before its first operation that no recovery completes |
| Failures.SecondCrashSticks | scripts/bootstrap/transaction_machine.py:2605-2620 | a plan that deletes one file reaches a crash that recovery completes after, and a crash inside that recovery after which none does |
| Failures.RestoredCrashSticks | scripts/bootstrap/transaction_machine.py:2596-2604 | the same plan reaches a crash right after RESTORED has become durable that no recovery completes after |
| Installs.InitialInstallIsAllOrNothing | scripts/bootstrap/transaction.py:1010-1281 | an accepted initial plan, run with crashes anywhere: at every moment the target is the overlay, the old one or one the plan passes through, as the last durable phase says; a recovery completes exactly if the disk is recoverable and ends at the overlay or the old target; all clean crashes are recoverable exactly if every file is recognised by its bytes and every directory to be removed is empty at the start; nothing is sealed unless declared and observed kinds agree |
| Installs.AdoptionIsAllOrNothing | scripts/bootstrap/planner.py:1298-1317 | the same for every compiled initial plan without cleanup, as every adoption is, with nothing asked of its acceptance or its paths: its clean crashes are all recoverable exactly if every file is recognised by its bytes |
| Installs.RestoreIsAllOrNothing | scripts/bootstrap/transaction.py:1010-1281 | the same for an accepted restore plan, whose clean crashes are all recoverable exactly if every file is recognised by its bytes |
| Installs.ReconcileIsAllOrNothing | scripts/bootstrap/transaction.py:1010-1281 | the same for an accepted reconcile plan, whose clean crashes are all recoverable exactly if every file is recognised by its bytes |
| Outputs.ValidateNoNestedOutputs | scripts/bootstrap/planner.py:978-993 | succeeds exactly when no output is an ancestor of another |
| Outputs.ValidatePaths | scripts/bootstrap/planner.py:454-469 | succeeds exactly when the paths are acceptable and distinct even with letter case folded |
| Outputs.InternOutputs | scripts/bootstrap/planner.py:441-451 | every file's bytes are stored under its output's content id and nothing stored before is lost; refused exactly when a file is over the file limit or the new contents, each counted once, are over the total |
| Outputs.ClassifyOutputs | scripts/bootstrap/planner.py:758-795 | one create or replace per output, in order, with the observed old state; refused exactly when an output is an observed directory, has no blob, or is present where that is not allowed |
| Trees.AbsentChain | scripts/bootstrap/planner.py:807-819 | the ancestors below the deepest observed directory; refused exactly when an observed file is among the ancestors |
| Trees.BuildTree | scripts/bootstrap/planner.py:655-715 | the tree holds exactly its outputs and every unobserved directory between, strictly in path order for well-formed outputs, under the hash of its content |
| Trees.GroupOutputs | scripts/bootstrap/planner.py:805-826 | outputs grouped by root, each root once, with exactly the covered paths |
| Trees.BuildTrees | scripts/bootstrap/planner.py:798-839 | one tree per root, covering exactly the outputs with an absent parent; refused exactly when an observed file stands above an output or a covered output has no blob |
| Grouping.RootIsHighestAbsent | scripts/bootstrap/planner.py:807-824 | on a parent-closed observation the root of an output is its highest absent ancestor, with nothing observed at or below it |
| Grouping.TreesPartition | scripts/bootstrap/planner.py:798-839 | roots are pairwise incomparable, no path belongs to two trees, and every covered output is in one |
| Grouping.BuiltTreeIsSound | scripts/bootstrap/planner.py:655-715 | a built tree holds every intermediate directory below its root, in path order, and its root's parent is observed |
| Maintenance.ValidateCleanup | scripts/bootstrap/ownership.py:16-34 | accepted exactly when lifecycle and cleanup paths are disjoint, all cleanup paths are observed, none is the inventory, and none contains another |
| Maintenance.CleanDirectory | scripts/bootstrap/planner.py:917-954 | deletes every observed file below the directory and removes every observed directory at or below it, each once |
| Maintenance.CleanupOperations | scripts/bootstrap/planner.py:845-956 | deletes and removes exactly what the declared paths take, outputs excepted; each once exactly when no declared path is repeated |
| Layouts.TreesLay | scripts/bootstrap/planner.py:798-839 | the trees create exactly the covered outputs and the absent directories above them, at the directory mode |
| Layouts.LayoutAccepted | scripts/bootstrap/planner.py:2145-2255 | files written in place and trees created are accepted together, in either order with the same result, which holds every output and the directories above it |
| Cleaning.SweepAcceptedIfFits | scripts/bootstrap/planner.py:2185-2242 | after the outputs, cleanup is accepted exactly if no declared path is repeated or lies above an output or the inventory, and the inventory is no output |
| Cleaning.LaidPlanMeansOverlay | scripts/bootstrap/planner.py:2145-2255 | an accepted plan of outputs and cleanup means the observed target minus what is cleaned, plus the outputs and the directories they need |
| Soundness.LaidPlanExecutes | scripts/bootstrap/transaction_machine.py:1153-1361 | such a plan executes on the observed target and ends as the overlay says, a tree with every parent a directory |
| Laying.PlaceOutputs | scripts/bootstrap/planner.py:738-755 | every output is in a tree or has its own operation; refused exactly when an ancestor is an observed file, an uncovered output is an observed directory, or the manifest is already there |
| Laying.StoreOutputs | scripts/bootstrap/planner.py:441-451 | stores every file and keeps the outputs well formed; refused exactly when the files do not fit the store or one lies above another |
| Adoption.PartitionAdoptionCollisions | scripts/bootstrap/planner.py:996-1028 | succeeds exactly when the declarations name the colliding paths, all of them and no other, and replace no legal path; keeps exactly the ones declared so |
| Initial.SelectFiles | scripts/bootstrap/planner.py:1053-1152 | selects everything requested except what a declaration keeps; refused exactly when the seeds, managed or lifecycle files are not in order, meet each other or the manifest, or the declarations do not name exactly the collisions |
| Initial.CheckCleanupDeclaration | scripts/bootstrap/planner.py:1156-1178 | accepted exactly when no declared path is a seed or the manifest, exceeds the limits, or contains a managed file |
| Initial.PlanSweep | scripts/bootstrap/planner.py:1295-1340 | if cleanup runs, which takes clean maintenance and a contract: cleanup operations, deepest directories first, and the inventory's deletion, refused exactly when the inventory is absent or the declared paths are not cleanable; nothing otherwise |
| Initial.CompileInitialPlan | scripts/bootstrap/planner.py:1031-1381 | compiles exactly when the request is accepted, its files fit the store and can be placed on the observed target, what it cleans, if cleanup runs, can be swept, and the plan is within the limits; trees and deletions come in byte order of their paths and removals deepest first. Which files it installs, over the request alone, is `Requests.InitialPlanInstallsTheRequest` |
| Initial.InitialPlanMeansOverlay | scripts/bootstrap/planner.py:1031-1381 | a compiled initial plan is accepted exactly when its cleanup fits; it then means the overlay of its outputs, which `Requests.InitialPlanInstallsTheRequest` says over the request, and executes |
| Initial.RetainingPlanIsAccepted | scripts/bootstrap/planner.py:1298-1317 | with maintenance retained, or without a cleanup contract, every compiled initial plan is accepted and carried whole by its receipt, deletes and removes nothing, and leaves every observed file it does not install as it was |
| Inputs.AdoptionIsPlannable | scripts/bootstrap/planner.py:1298-1317 | an adoption, with clean maintenance and no contract, of a target without an inventory compiles, is accepted, and deletes nothing |
| Inputs.RepeatedCleanupIsRefused | scripts/bootstrap/planner.py:2185-2242 | a cleanup that declares one directory twice compiles, and its plan is refused when it is applied |
| Inputs.ContainingCleanupIsRefused | scripts/bootstrap/planner.py:1156-1178 | a cleanup that declares the directory holding the manifest compiles, and its plan is refused when it is applied |
| Inputs.LongFileIsLost | scripts/bootstrap/planner.py:1174-1178 | a cleanup of a directory that holds a file with a name of 256 bytes compiles to a plan that can be applied, but that its receipt does not carry |
| Initial.AdoptionKeepsUndeclared | scripts/bootstrap/planner.py:996-1028 | an observed file not declared for replacement, or a legal path, that cleanup does not take is afterwards exactly what it was |
| Initial.InitialPlanSurvives | scripts/bootstrap/planner.py:1174-1178 | the receipt carries the whole plan exactly when every path cleanup takes is within the limits |
| Restore.SelectDrifted | scripts/bootstrap/planner.py:1710-1715 | exactly the recorded paths whose observed kind, normalised digest or mode differs, each once; `Requests.DriftIsReal` says over lines and bytes when that is |
| Restore.SelectRequested | scripts/bootstrap/planner.py:1699-1709 | the requested paths, each once; refused exactly when one is not recorded |
| Restore.CertifySelected | scripts/bootstrap/planner.py:1717-1751 | each selected path gets a rendered file whose kind, digest and mode equal its record; refused exactly when one has none |
| Restore.RestoreFlat | scripts/bootstrap/planner.py:1762-1786 | an operation for exactly the uncovered outputs that differ from what is observed |
| Restore.CompileRestorePlan | scripts/bootstrap/planner.py:1658-1829 | compiles exactly when snapshot and render are in order, what is requested is recorded, what is selected is rendered as recorded and fits the store, no observed file stands above it, and the plan is within the limits; it then writes only certified bytes at selected paths, and is empty with nothing drifted and nothing requested |
| Restore.RestorePlanMeansOverlay | scripts/bootstrap/planner.py:1658-1829 | accepted exactly when no selected path is an observed directory, and then leaves everything but the written outputs and the directories above them as it was |
| Restore.RestoreHeals | scripts/bootstrap/planner.py:1599-1655 | after an unrestricted restore every recorded entry is as recorded, exactly if every file it wrote is of the kind an observation reports |
| Restore.RestoreIsFixedPoint | scripts/bootstrap/planner.py:1658-1829 | observed again after such a restore nothing is drifted, under exactly the same condition |
| Inputs.ScriptNeverHeals | scripts/bootstrap/planner.py:1599-1655 | a missing file recorded as text with an execute bit: its restore compiles, and whatever it leaves differs from the record |
| Restore.EmptyIfNothingDrifted | scripts/bootstrap/planner.py:1710-1715 | an unrestricted restore plan is empty exactly when nothing is drifted |
| Restore.UnselectedStays | scripts/bootstrap/planner.py:1740-1788 | every file outside the selection is left exactly as it was |
| Restore.RestoreExecutes | scripts/bootstrap/transaction_machine.py:1153-1361 | a restore plan without directory conflicts executes, leaves what the overlay says, and removes no directory |
| Restore.RestorePlanSurvives | scripts/bootstrap/plan_digest.py:349-430 | the receipt always carries the whole of a restore plan |
| Reconcile.DeleteRetired | scripts/bootstrap/planner.py:1946-1965 | deletes exactly the retired files that are there; refused exactly when a retired path has become a directory |
| Reconcile.RemoveRetiredDirectories | scripts/bootstrap/planner.py:1967-1999 | removes exactly the directories standing where an output goes; refused exactly when one holds an unretired file or no retired path |
| Reconcile.CompileReconcilePlan | scripts/bootstrap/planner.py:1859-2063 | compiles exactly when snapshot and render are in order, nothing has drifted or drift is overwritten, the manifest could be built, the retired can go, the outputs fit and can be placed, and the plan is within the limits; the plan deletes the retired, then lays render and manifest over what is left |
| Reconcile.RepeatIsRefused | scripts/bootstrap/planner.py:2145-2255 | a plan with two operations at one path, or with a created tree that lists a path twice, is refused when it is applied; a render that holds the manifest path compiles to such a plan |
| Reconcile.ReconcilePlanMeansOverlay | scripts/bootstrap/planner.py:1859-2063 | accepted exactly when no output is a directory now and none lies at or below a retired file; it then ends with render and manifest in place, nothing retired left, all else unchanged |
| Inputs.FileTurnedDirectoryIsRefused | scripts/bootstrap/planner.py:1946-1965 | a recorded file that the new render turns into a directory: the reconcile compiles, and its plan is refused when it is applied |
| Reconcile.ReconcileLosesNoEdits | scripts/bootstrap/planner.py:1899-1907 | without the override every recorded file was as recorded before the plan touches it |
| Reconcile.ReconcileExecutes | scripts/bootstrap/transaction_machine.py:1153-1361 | an accepted reconcile plan executes, leaves what the overlay says, and removes no directory |
| Reconcile.ReconcilePlanSurvives | scripts/bootstrap/plan_digest.py:349-430 | the receipt carries the whole plan exactly when every retired path it deletes is acceptable |
| Versions.ParseVersion | scripts/bootstrap/dependencies.py:77-83 | drops trailing zeros: the same release in trimmed form |
| Versions.TupleOrderIsReleaseOrder | scripts/bootstrap/dependencies.py:77-83 | on trimmed tuples tuple order and equality are those of zero-padded releases |
| Versions.ParsePythonRange | scripts/bootstrap/dependencies.py:107-131 | the clauses with trimmed versions are satisfied by the same releases, and come lower bounds first, then by release, then the strict comparator; refused exactly when the range is malformed |
| Versions.MeetClauses | scripts/bootstrap/dependencies.py:269-287 | the two bounds denote exactly the releases that satisfy every clause so far |
| Versions.CrossedIsEmpty | scripts/bootstrap/dependencies.py:288-294 | the crossing test refuses exactly the bounds no release lies between |
| Versions.GatherRanges | scripts/bootstrap/dependencies.py:240-260 | the baseline and each selected capability's range in order; refused exactly when a capability is unknown |
| Versions.EffectivePythonRange | scripts/bootstrap/dependencies.py:261-302 | the bounds denote exactly the releases in every source; refused exactly when a source is malformed or no release is in all, at the first such prefix |
| Versions.SupportedPython | scripts/bootstrap/dependencies.py:240-302 | the range of a selection is the exact meet of the baseline and each selected capability's range; refused exactly when a capability is unknown, malformed, or no release is in all; the error names the first capability that makes it so |
| Resolver.Closure | scripts/bootstrap/resolver.py:72-87 | the least dependency-closed superset of the request; refused exactly when every closed superset leaves the catalog, naming a capability they all need |
| Resolver.TopologicalOrder | scripts/bootstrap/resolver.py:54-69 | lists the set by the length of the longest dependency chain inside it, and by text where that is the same; refused exactly when the set has a dependency cycle |
| Resolver.LayeredIsPermutation | scripts/bootstrap/resolver.py:54-69 | the order lists every capability of the set once |
| Resolver.LayeredIsTopological | scripts/bootstrap/resolver.py:54-69 | every dependency comes before what depends on it |
| Resolver.RefusedExactlyOnCycles | scripts/bootstrap/resolver.py:54-69 | the order is refused exactly when the selection has a dependency cycle |
| Resolver.Order | scripts/bootstrap/resolver.py:54-87 | the ordered closure of a request; refused exactly when the request has no least closure inside the catalog that is free of cycles |
| Resolver.OrderIgnoresRequestOrder | scripts/bootstrap/resolver.py:54-87 | requests that name the same capabilities, in any order and however often, come to the same closure in the same order, dependencies first |
| Settings.NormalisingIsIdempotent | scripts/bootstrap/resolver.py:90-146 | a resolved value resolves to itself, exactly if it is not the stripped form of an enum choice that is itself no choice |
| Settings.ResolveCapability | scripts/bootstrap/resolver.py:159-177 | every declared setting at its supplied value, or else its default, without outer whitespace; refused exactly when an undeclared one is supplied, or one is secret, has no value, or has one of the wrong type, off the choices, or off the pattern when trimmed |
| Settings.ResolveSettings | scripts/bootstrap/resolver.py:149-178 | the settings of every selected capability; refused exactly when an unselected one is supplied or one is not resolvable |
| Settings.ResolvedIsFixed | scripts/bootstrap/resolver.py:90-146 | resolved settings resolve to themselves when no enum choice has outer whitespace |
| Settings.ResolveBundle | scripts/bootstrap/resolver.py:181-209 | the ordered least closure of the request with the resolved settings; refused exactly when a capability is repeated, the request has no acyclic closure in the catalog, or a supplied setting is unselected or does not resolve |
| Additions.CheckRestated | scripts/bootstrap/resolver.py:301-318 | values for a capability that is already selected are accepted exactly if they change nothing, outer whitespace aside |
| Additions.MergeSettings | scripts/bootstrap/resolver.py:292-320 | existing settings are passed on untouched beside those of the added items; refused exactly when an item would change an existing one |
| Additions.ResolveAdditions | scripts/bootstrap/resolver.py:269-326 | an addition keeps every requested and effective capability and every existing setting, and produces a resolved selection again; refused exactly when an existing capability is given something new or the whole request does not resolve |
| Additions.AdditionExtends | scripts/bootstrap/resolver.py:269-326 | what an addition comes to extends the selection it was added to |
| Additions.HistoryExtends | scripts/bootstrap/resolver.py:269-326 | in any history in which each selection is the result of an addition to the one before, every selection extends every earlier one and is resolved |
| Outputs.SortingIsOrder | scripts/bootstrap/paths.py:23-26 | a listing equals its own sort exactly when no later path is before an earlier one |
| Capture.CapturesAreCanonical | scripts/bootstrap/transaction_machine.py:723-832 | a captured directory lists its entries in path order, whatever the target |
| Capture.GatesAgreeOnTargets | scripts/bootstrap/transaction.py:718-773 | on any target, a live run and a recovery judge the same captures to be the pre-state and the candidate |
| Journals.StateRoot.DiscardPending | scripts/bootstrap/transaction_machine.py:2459-2495 | refused, with nothing changed, exactly when no regular pending file is there; otherwise only the pending write goes, and where it stood alone nothing is left to recover |
| Journals.StateRoot.RemoveJournal | scripts/bootstrap/transaction_machine.py:1903-1930 | refused, with nothing changed, exactly when the journal is no regular file; otherwise only the journal goes, and a transaction directory that still stands is then classified as orphaned |
| Journals.StateRoot.FinishCleanup | scripts/bootstrap/transaction_machine.py:2702-2748 | the transaction directory goes if it is empty, and then the journal; refused exactly without a regular journal; where nothing else stands the root is then classified as empty |
| Journals.StateRoot.DiscardStale | scripts/bootstrap/transaction_machine.py:2459-2495 | where recovery is told to discard a pending write, discarding succeeds and nothing is left to recover |
| Journals.DiscardedIsClear | scripts/bootstrap/recovery.py:98-129 | discarding a stale pending write leaves the root classified as empty, and beside a journal it changes no classification |
| Journals.JournalGoesLast | scripts/bootstrap/journal.py:559-595 | once the journal is removed, recovery is refused if the transaction directory still stands, and otherwise has at most a pending write to discard |
| Apply.Workspace.constructor | scripts/bootstrap/planner.py:2150-2168 | the dictionaries start as the observed target, with nothing written |
| Initial.CheckReserved | scripts/bootstrap/planner.py:1091-1118 | succeeds exactly when no lifecycle path is a reserved one, letter case folded |
| Requests.InitialPlanInstallsTheRequest | scripts/bootstrap/planner.py:1031-1381 | for an accepted initial plan: every seed with the bytes its id names, every managed and lifecycle file that is not kept, and the manifest are in the result byte for byte, with kind and mode; every other path is as it was, or taken by the declared cleanup; directories are exactly the old ones left and the parents of new files |
| Requests.ReconcilePlanInstallsTheRender | scripts/bootstrap/planner.py:1859-2063 | for an accepted reconcile plan: every rendered file and the manifest are in the result byte for byte, retired files are gone, and every other file is as it was |
| Requests.RestorePlanInstallsTheSelection | scripts/bootstrap/planner.py:1658-1829 | for an accepted restore plan: each selected path holds the file rendered for it as recorded, byte for byte, or keeps one of the same mode, kind and lines or bytes; every other path is as it was |
| Requests.DriftIsReal | scripts/bootstrap/planner.py:1599-1617 | a recorded path is drifted exactly if it holds no file, or one of another mode or kind, or of other lines for text and other bytes otherwise |
| Requests.DriftedAreChanged | scripts/bootstrap/planner.py:1701-1709 | the drifted selection is exactly the recorded paths whose file so differs from the recorded one |
| Requests.ReconcileStartsUnedited | scripts/bootstrap/planner.py:1899-1907 | a reconcile that compiles without the override started from a target on which every recorded file had its recorded mode and its recorded lines or bytes |
| Requests.InstallableContent | scripts/bootstrap/planner.py:524-559 | a file is accepted for installation exactly if its mode is 0644 or 0755 and, if it is text, it is the UTF-8 encoding of some characters |
| Lines.NormalFormsAreLines | scripts/bootstrap/paths.py:42-48 | two contents have the same normal form exactly if they have the same lines, split at CR LF, CR and LF, once trailing empty ones are dropped |
| Lines.NormalFormIsNormal | scripts/bootstrap/paths.py:42-48 | a normal form holds no CR, ends in exactly one LF or is the one LF, is its own normal form, and has the same lines |
| Encoding.TextIsEncoded | scripts/bootstrap/transaction_machine.py:2150-2158 | bytes are classified as text exactly if they are the UTF-8 encoding of some sequence of Unicode scalar values |
| Encoding.PathOrderIsByteOrder | scripts/bootstrap/paths.py:17-26 | paths compare as the UTF-8 bytes of their texts do, and distinct texts have distinct bytes |
| Encoding.PortableInBytes | scripts/bootstrap/manifest.py:180-190 | the path limits count the UTF-8 bytes of the whole path and of each component |
| Identity.ExecuteBits | scripts/bootstrap/transaction_machine.py:2150-2158 | a mode counts as executable exactly if the owner's, the group's or the others' octal digit is odd |
| Journals.RecoveryIsDecided | scripts/bootstrap/recovery.py:98-129 | for every root and target: which recovery it leads to, over the stored journal as it decodes, and exactly when it is refused |
| Journals.ForeignJournals | scripts/bootstrap/journal.py:559-595 | a journal that decodes is reported as it is for its own target, and refused as a mismatch for every other |
| Recoveries.ForeignJournalIsRefused | scripts/bootstrap/journal.py:580-582 | a recovery started for a target other than the journal's is refused and leaves the disk alone |
| Verifications.RecoveriesEndVerified | scripts/bootstrap/recovery.py:151-179 | on any disk, foreign edits included, a recovery that ends leaves a target the live pre-state gate accepts under MUTATING and RESTORED, one that passes the sealed verification under SEALED, and the target untouched except by a rollback |
| Recoveries.RecordReserves | scripts/bootstrap/transaction.py:569-595 | a journal record reserves what its plan reserves exactly if it lists no rollback container |
| Courses.CompletedRuns | scripts/bootstrap/transaction.py:1010-1281 | a run completes exactly if its events answer every request in turn, with the reserved identities and the right phases and cursors, from an unchanged target; sealed exactly if the post-state is valid, matches the candidate and passes the gate, and restored otherwise |
| Courses.StopsAreExplained | scripts/bootstrap/transaction.py:1010-1281 | what a stopped run names: the error of the effect that was pending, a held lock, a changed target, or an impossible answer |
| ThirdStates.ApplyIsExact | scripts/bootstrap/transaction_machine.py:1153-1380 | an operation is applied exactly where its parent stands, its path is exactly at the recorded old state, and its content is stored: a foreign edit is never overwritten going forward |
| Rollback.ReservationsAreExact | scripts/bootstrap/transaction.py:431-506 | a plan reserves exactly a stage for each new content with the planned digest and mode, a backup for each file it replaces or deletes with the old ones, and a rollback container for each old state, in plan order |
| Rollback.RefusedPreStateIsFirst | scripts/bootstrap/recovery.py:151-164 | the path a refused pre-state verification names is that of the first operation that is not at its old state |
| Rollback.RefusedCandidateIsFirst | scripts/bootstrap/recovery.py:167-179 | the path a refused sealed verification names is that of the first operation that is not at its new state |
| Documents.OperationRead | scripts/bootstrap/plan_digest.py:432-528 | a document is read as an operation exactly if it is the document of that operation and the operation survives a receipt: no other document, or field, is accepted |
| Documents.PlanRead | scripts/bootstrap/plan_digest.py:349-430 | a plan is rebuilt for a target exactly if the receipt names that target, the kind of the plan, and its operations in order, each of which survives |
| Documents.ForeignReceiptIsRefused | scripts/bootstrap/plan_digest.py:365-366 | the receipt of one target is never rebuilt for another |
| Documents.ReceiptDecodes | scripts/bootstrap/plan_digest.py:264-346 | a receipt decodes exactly if it names a schema, a target, a known kind, and operations that can each be read |
| Documents.JournalRead | scripts/bootstrap/journal.py:284-452 | a journal document is read as exactly the record it says, if that is one the constructors allow and its receipt decodes, and as no other |
| Resolver.LayeredIsByDepth | scripts/bootstrap/resolver.py:54-69 | for any two capabilities in the order, the earlier starts a shorter longest dependency chain, or one as long and has the lesser name |
| Resolver.OneOrderByDepth | scripts/bootstrap/resolver.py:54-69 | a set has at most one such order |
| Settings.StripIsExact | scripts/bootstrap/resolver.py:113-146 | stripping takes the whitespace around a text away, and nothing else |
| Settings.SettingIsResolved | scripts/bootstrap/resolver.py:90-146 | a setting resolves exactly if it is not secret and is given, by the request or by its default, a value of its type, among its choices, and of its pattern when trimmed; it resolves to that value, trimmed |
| Settings.SettingIsRefused | scripts/bootstrap/resolver.py:90-146 | which failure each missing condition gives |
| Additions.MergedIsLastSaid | scripts/bootstrap/resolver.py:292-320 | a new capability is given the trimmed values of the last item that names it; everything else keeps the settings it has |
| Additions.NotInGoesAlong | scripts/bootstrap/resolver.py:269-291 | what an addition newly requests keeps the order it is added in |
| Initial.RetainedAreDeclared | scripts/bootstrap/planner.py:630-653 | retained maintenance is accepted exactly if every path is retained as often as the contract declares it, in any order |
| Initial.CheckPlanLimits | scripts/bootstrap/planner.py:718-737 | the loop that gathers the planned paths; refused exactly when they, or the operations, are too many |
| Initial.TouchedIsReferredTo | scripts/bootstrap/planner.py:718-737 | a plan touches exactly the paths of its operations and of the entries of its trees |

## Left out

- The executor's stage directories and their markers: they are reserved, journaled and cleaned in the model, and leave no trace in the target tree. Rollback containers and their markers are part of the modelled disk.
- Descriptors, fsync, locking, git, hooks, and the errors of single system calls: any effect may simply fail, which ends the live run.
- A crash in the middle of one effect, such as a half-written stage: effects are atomic.
- JSON text, SHA-256, regular expressions and YAML: documents are values, patterns are arbitrary predicates, a range is its list of clauses.
- Source baselines, manifest digests and the gate specification in a receipt: no recovery decision reads them.
- Target identities are numbers; device, inode and root bytes are not part of this model.
- Error subjects and message texts: a refusal carries its kind.
- The template-contract and readiness gates after installation: an arbitrary verdict that the machine is told.
- Building the manifest and source baseline, slot coverage and licensing modes: the compilers take the manifest's bytes, if it could be built, and the legal paths.
- `compile_add_plan` (scripts/bootstrap/planner.py:1420-1584): the same classification as the other compilers, without trees.
- `effective_dependencies` (scripts/bootstrap/dependencies.py:199-237): a first-wins list by normalised name.
- `scripts/bootstrap/decisions.py`, command-line parsing, rendering, presentation and diagnostics: case analysis and text.
- Matching a stage or a backup on disk against the token journaled with it: both are the transaction's own, and the journal holds that token. The markers of rollback containers are matched.
- CompileRestorePlan: the recorded inventory lists each path once, as a decoded manifest does.
- EffectivePythonRange: pre-, post- and development releases are not part of this model.
- OperationRoundTrip: path limits other than the default ones are not part of this model; recovery, the only caller of the reconstruction, uses the defaults (scripts/bootstrap/transaction_machine.py:2349).
