/**
 The pure overlay of a plan on an observed target, and its agreement with what
 the executor does to the target itself.
 */
module Apply {
  import opened Results
  import opened Paths
  import opened Sorting
  import opened Identity
  import opened Plans
  import opened Rollback
  import opened Targets
  import opened Inversion

  datatype ExpectedFile = ExpectedFile(kind: Kind, mode: Mode, content: Bytes)
  datatype ExpectedTarget = ExpectedTarget(files: map<Path, ExpectedFile>, directories: map<Path, Mode>)

  datatype PlanError =
    | UnmatchedPrecondition(path: Path)
    | MissingBlob(path: Path)
    | DuplicatePath(path: Path)

  // The specification: one overlay value threaded through the operations

  datatype Overlay = Overlay(files: map<Path, ExpectedFile>, directories: map<Path, Mode>, written: set<Path>)

  /** What is observed before the first operation, by path. */
  datatype Observed = Observed(states: map<Path, FileState>, directoryStates: map<Path, DirectoryState>)

  function ObservedOf(snapshot: Snapshot): Observed {
    Observed(FileStates(snapshot.files), DirectoryStates(snapshot.directories))
  }

  function ExpectedFiles(es: seq<ObservedFile>): map<Path, ExpectedFile> {
    if es == [] then map[] else
      var e := es[|es| - 1];
      var rest := ExpectedFiles(es[..|es| - 1]);
      if e.state.Absent? then rest
      else rest[e.path := ExpectedFile(e.state.identity.kind, e.state.mode, e.content)]
  }

  function RootModes(es: seq<ObservedDirectory>): map<Path, Mode> {
    if es == [] then map[] else
      var e := es[|es| - 1];
      RootModes(es[..|es| - 1])[e.path := e.state.rootMode]
  }

  function StartOverlay(snapshot: Snapshot): Overlay {
    Overlay(ExpectedFiles(snapshot.files), RootModes(snapshot.directories), {})
  }

  predicate WriteAllowed(p: Path, before: FileState, ob: Observed, o: Overlay) {
    && p !in o.written
    && Current(ob.states, p) == before
    && p !in ob.directoryStates
    && p !in o.directories
  }

  function OverlayWrite(p: Path, before: FileState, planned: PlannedFile, ob: Observed, store: Store, o: Overlay)
    : Result<Overlay, PlanError>
  {
    if !WriteAllowed(p, before, ob, o) then Err(UnmatchedPrecondition(p))
    else if store.Get(planned.contentId).None? then Err(MissingBlob(p))
    else Ok(Overlay(
      o.files[p := ExpectedFile(planned.identity.kind, planned.mode, store.Get(planned.contentId).value)],
      o.directories, o.written + {p}))
  }

  function OverlayEntry(e: PlannedEntry, store: Store, t: ExpectedTarget): Result<ExpectedTarget, PlanError> {
    if e.path in t.directories || e.path in t.files then Err(DuplicatePath(e.path))
    else if e.PlannedDirectoryEntry? then Ok(t.(directories := t.directories[e.path := e.mode]))
    else if store.Get(e.file.contentId).None? then Err(MissingBlob(e.path))
    else Ok(t.(files := t.files[e.path :=
      ExpectedFile(e.file.identity.kind, e.file.mode, store.Get(e.file.contentId).value)]))
  }

  function OverlayEntries(es: seq<PlannedEntry>, store: Store, t: ExpectedTarget): Result<ExpectedTarget, PlanError> {
    if es == [] then Ok(t) else
      match OverlayEntries(es[..|es| - 1], store, t)
      case Err(e) => Err(e)
      case Ok(u) => OverlayEntry(es[|es| - 1], store, u)
  }

  function EntryPaths(es: seq<PlannedEntry>): set<Path> {
    set e | e in es :: e.path
  }

  predicate HoldsBelow(p: Path, t: ExpectedTarget) {
    (exists q :: q in t.files && Above(p, q)) || (exists q :: q in t.directories && Above(p, q))
  }

  function OverlayStep(op: Operation, ob: Observed, store: Store, o: Overlay): Result<Overlay, PlanError> {
    match op
    case CreateFile(p, before, planned) => OverlayWrite(p, before, planned, ob, store, o)
    case ReplaceFile(p, before, planned) => OverlayWrite(p, before, planned, ob, store, o)
    case DeleteFile(p, before) =>
      if p in o.written || p !in o.files || p !in ob.states || ob.states[p] != before
         || p in ob.directoryStates || p in o.directories
      then Err(UnmatchedPrecondition(p))
      else Ok(Overlay(o.files - {p}, o.directories, o.written + {p}))
    case CreateTree(p, _, tree) =>
      if p in o.written || p in ob.directoryStates || p in o.directories || p in ob.states || p in o.files
      then Err(UnmatchedPrecondition(p))
      else
        (match OverlayEntries(tree.entries, store, ExpectedTarget(o.files, o.directories[p := tree.rootMode]))
         case Err(e) => Err(e)
         case Ok(t) => Ok(Overlay(t.files, t.directories, o.written + {p} + EntryPaths(tree.entries))))
    case RemoveEmptyDirectory(p, before) =>
      if p in o.written || p !in o.directories || before.rootMode != o.directories[p]
         || HoldsBelow(p, ExpectedTarget(o.files, o.directories))
      then Err(UnmatchedPrecondition(p))
      else Ok(Overlay(o.files, o.directories - {p}, o.written + {p}))
  }

  function OverlayAll(ops: seq<Operation>, ob: Observed, store: Store, o: Overlay): Result<Overlay, PlanError> {
    if ops == [] then Ok(o) else
      match OverlayStep(ops[0], ob, store, o)
      case Err(e) => Err(e)
      case Ok(u) => OverlayAll(ops[1..], ob, store, u)
  }

  /** The declared meaning of a plan on a snapshot. */
  function Applied(snapshot: Snapshot, plan: Plan): Result<ExpectedTarget, PlanError> {
    match OverlayAll(plan.operations, ObservedOf(snapshot), plan.store, StartOverlay(snapshot))
    case Err(e) => Err(e)
    case Ok(o) => Ok(ExpectedTarget(o.files, o.directories))
  }

  // The implementation: dictionaries changed in place

  class Workspace {
    var files: map<Path, ExpectedFile>
    var directories: map<Path, Mode>
    var written: set<Path>

    constructor (snapshot: Snapshot)
      ensures Value() == StartOverlay(snapshot)
    {
      files := map[];
      directories := map[];
      written := {};
      new;
      for i := 0 to |snapshot.files|
        invariant files == ExpectedFiles(snapshot.files[..i])
        invariant directories == map[] && written == {}
      {
        var e := snapshot.files[i];
        assert snapshot.files[..i + 1][..i] == snapshot.files[..i];
        if e.state.Present? {
          files := files[e.path := ExpectedFile(e.state.identity.kind, e.state.mode, e.content)];
        }
      }
      assert snapshot.files[..|snapshot.files|] == snapshot.files;
      for i := 0 to |snapshot.directories|
        invariant directories == RootModes(snapshot.directories[..i])
        invariant files == ExpectedFiles(snapshot.files) && written == {}
      {
        var e := snapshot.directories[i];
        assert snapshot.directories[..i + 1][..i] == snapshot.directories[..i];
        directories := directories[e.path := e.state.rootMode];
      }
      assert snapshot.directories[..|snapshot.directories|] == snapshot.directories;
    }

    ghost function Value(): Overlay
      reads this
    {
      Overlay(files, directories, written)
    }

    method ApplyFileWrite(p: Path, before: FileState, planned: PlannedFile, ob: Observed, store: Store)
      returns (r: Result<(), PlanError>)
      modifies this
      ensures match OverlayWrite(p, before, planned, ob, store, old(Value()))
        case Ok(o) => r == Ok(()) && Value() == o
        case Err(e) => r == Err(e) && Value() == old(Value())
    {
      if p in written || Current(ob.states, p) != before || p in ob.directoryStates || p in directories {
        return Err(UnmatchedPrecondition(p));
      }
      var content := store.Get(planned.contentId);
      if content.None? { return Err(MissingBlob(p)); }
      files := files[p := ExpectedFile(planned.identity.kind, planned.mode, content.value)];
      written := written + {p};
      return Ok(());
    }

    method ApplyTreeEntries(tree: PlannedTree, store: Store) returns (r: Result<(), PlanError>)
      modifies this
      ensures written == old(written)
      ensures match OverlayEntries(tree.entries, store, ExpectedTarget(old(files), old(directories)))
        case Ok(t) => r == Ok(()) && files == t.files && directories == t.directories
        case Err(e) => r == Err(e)
    {
      for i := 0 to |tree.entries|
        invariant written == old(written)
        invariant OverlayEntries(tree.entries[..i], store, ExpectedTarget(old(files), old(directories)))
          == Ok(ExpectedTarget(files, directories))
      {
        var e := tree.entries[i];
        assert tree.entries[..i + 1][..i] == tree.entries[..i];
        ghost var next := OverlayEntries(tree.entries[..i + 1], store, ExpectedTarget(old(files), old(directories)));
        if e.path in directories || e.path in files {
          OverlayEntriesFails(tree.entries, i + 1, store, ExpectedTarget(old(files), old(directories)));
          return Err(DuplicatePath(e.path));
        }
        match e {
          case PlannedDirectoryEntry(path, mode) =>
            directories := directories[path := mode];
          case PlannedFileEntry(path, file) =>
            var content := store.Get(file.contentId);
            if content.None? {
              OverlayEntriesFails(tree.entries, i + 1, store, ExpectedTarget(old(files), old(directories)));
              return Err(MissingBlob(path));
            }
            files := files[path := ExpectedFile(file.identity.kind, file.mode, content.value)];
        }
      }
      assert tree.entries[..|tree.entries|] == tree.entries;
      return Ok(());
    }

    method ApplyOne(op: Operation, ob: Observed, store: Store) returns (r: Result<(), PlanError>)
      modifies this
      ensures match OverlayStep(op, ob, store, old(Value()))
        case Ok(o) => r == Ok(()) && Value() == o
        case Err(e) => r == Err(e)
    {
      match op {
        case CreateFile(p, before, planned) =>
          r := ApplyFileWrite(p, before, planned, ob, store);
        case ReplaceFile(p, before, planned) =>
          r := ApplyFileWrite(p, before, planned, ob, store);
        case DeleteFile(p, before) =>
          if p in written || p !in files || p !in ob.states || ob.states[p] != before
             || p in ob.directoryStates || p in directories {
            return Err(UnmatchedPrecondition(p));
          }
          files := files - {p};
          written := written + {p};
          r := Ok(());
        case CreateTree(p, _, tree) =>
          if p in written || p in ob.directoryStates || p in directories || p in ob.states || p in files {
            return Err(UnmatchedPrecondition(p));
          }
          directories := directories[p := tree.rootMode];
          r := ApplyTreeEntries(tree, store);
          if r.Err? { return; }
          written := written + {p} + EntryPaths(tree.entries);
        case RemoveEmptyDirectory(p, before) =>
          if p in written || p !in directories || before.rootMode != directories[p]
             || HoldsBelow(p, ExpectedTarget(files, directories)) {
            return Err(UnmatchedPrecondition(p));
          }
          directories := directories - {p};
          written := written + {p};
          r := Ok(());
      }
    }
  }

  lemma {:induction false} OverlayEntriesFails(es: seq<PlannedEntry>, i: nat, store: Store, t: ExpectedTarget)
    requires i <= |es| && OverlayEntries(es[..i], store, t).Err?
    ensures OverlayEntries(es, store, t) == OverlayEntries(es[..i], store, t)
    decreases |es|
  {
    if i < |es| {
      assert es[..|es| - 1][..i] == es[..i];
      OverlayEntriesFails(es[..|es| - 1], i, store, t);
    } else {
      assert es[..i] == es;
    }
  }

  method ApplyPlan(target: Snapshot, plan: Plan) returns (r: Result<ExpectedTarget, PlanError>)
    ensures r == Applied(target, plan)
  {
    var ob := ObservedOf(target);
    var work := new Workspace(target);
    for i := 0 to |plan.operations|
      invariant OverlayAll(plan.operations, ob, plan.store, StartOverlay(target))
        == OverlayAll(plan.operations[i..], ob, plan.store, work.Value())
    {
      var one := work.ApplyOne(plan.operations[i], ob, plan.store);
      assert plan.operations[i..][1..] == plan.operations[i + 1..];
      if one.Err? { return Err(one.error); }
    }
    return Ok(ExpectedTarget(work.files, work.directories));
  }
}
