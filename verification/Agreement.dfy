/** The pure overlay and the executor agree: an accepted plan runs, and ends where the overlay says. */
module Agreement {
  import opened Results
  import opened Paths
  import opened Sorting
  import opened Identity
  import opened Plans
  import opened Rollback
  import opened Targets
  import opened Inversion
  import opened Apply

  /** `snapshot` is a complete observation of `t`. */
  ghost predicate Observes(snapshot: Snapshot, t: Tree) {
    var ob := ObservedOf(snapshot);
    && ob.states.Keys == t.files.Keys
    && (forall p :: p in t.files ==> ob.states[p] == ObserveFile(t, p))
    && ob.directoryStates.Keys == t.dirs.Keys
    && (forall p :: p in t.dirs ==> ob.directoryStates[p] == DirectoryState(t.dirs[p], []))
    && (forall i :: 0 <= i < |snapshot.files| ==>
          snapshot.files[i].path in t.files && snapshot.files[i].state.Present?
          && snapshot.files[i].content == t.files[snapshot.files[i].path].content)
  }

  /** The nodes a map of expected files stands for. */
  function Nodes(files: map<Path, ExpectedFile>): map<Path, Node> {
    map p | p in files :: Node(files[p].content, files[p].mode)
  }

  /** An overlay value describes the tree. */
  predicate Describes(o: Overlay, t: Tree) {
    Nodes(o.files) == t.files && o.directories == t.dirs
  }

  lemma {:induction false} ExpectedFilesOf(es: seq<ObservedFile>)
    requires forall i :: 0 <= i < |es| ==> es[i].state.Present?
    ensures ExpectedFiles(es).Keys == FileStates(es).Keys
    ensures forall p :: p in ExpectedFiles(es) ==>
      FileStates(es)[p].Present? && ExpectedFiles(es)[p].mode == FileStates(es)[p].mode &&
      exists i :: 0 <= i < |es| && es[i].path == p && es[i].content == ExpectedFiles(es)[p].content
    decreases |es|
  {
    if es != [] {
      var front := es[..|es| - 1];
      ExpectedFilesOf(front);
      forall p | p in ExpectedFiles(es)
        ensures exists i :: 0 <= i < |es| && es[i].path == p && es[i].content == ExpectedFiles(es)[p].content
      {
        if p != es[|es| - 1].path {
          var i :| 0 <= i < |front| && front[i].path == p && front[i].content == ExpectedFiles(front)[p].content;
          assert es[i] == front[i];
        } else {
          assert es[|es| - 1].path == p;
        }
      }
    }
  }

  lemma {:induction false} RootModesOf(es: seq<ObservedDirectory>)
    ensures RootModes(es).Keys == DirectoryStates(es).Keys
    ensures forall p :: p in RootModes(es) ==> RootModes(es)[p] == DirectoryStates(es)[p].rootMode
    decreases |es|
  {
    if es != [] { RootModesOf(es[..|es| - 1]); }
  }

  lemma StartDescribes(snapshot: Snapshot, t: Tree)
    requires Observes(snapshot, t)
    ensures Describes(StartOverlay(snapshot), t)
  {
    ExpectedFilesOf(snapshot.files);
    RootModesOf(snapshot.directories);
    var o := StartOverlay(snapshot);
    forall p | p in t.files ensures Nodes(o.files)[p] == t.files[p] {
      var i :| 0 <= i < |snapshot.files| && snapshot.files[i].path == p && snapshot.files[i].content == o.files[p].content;
    }
  }

  // Adding a planned tree

  lemma MergeThenUpdate<V>(a: map<Path, V>, b: map<Path, V>, p: Path, v: V)
    ensures (a + b)[p := v] == a + b[p := v]
  {
  }

  lemma NodesUpdate(files: map<Path, ExpectedFile>, p: Path, f: ExpectedFile)
    ensures Nodes(files[p := f]) == Nodes(files)[p := Node(f.content, f.mode)]
  {
  }

  lemma OverlayEntryAdds(e: PlannedEntry, store: Store, t: ExpectedTarget, v: ExpectedTarget,
                         front: seq<TreeEntry>)
    requires OverlayEntry(e, store, v).Ok?
    requires e.PlannedFileEntry? ==> store.Get(e.file.contentId).Some?
    requires Nodes(v.files) == Nodes(t.files) + EntryFiles(front)
    requires v.directories == t.directories + EntryDirs(front)
    ensures Nodes(OverlayEntry(e, store, v).value.files) == Nodes(t.files) + EntryFiles(front + [EntryContent(e, store)])
    ensures OverlayEntry(e, store, v).value.directories == t.directories + EntryDirs(front + [EntryContent(e, store)])
  {
    var c := EntryContent(e, store);
    assert (front + [c])[..|front|] == front;
    if e.PlannedFileEntry? {
      var f := ExpectedFile(e.file.identity.kind, e.file.mode, store.Get(e.file.contentId).value);
      NodesUpdate(v.files, e.path, f);
      MergeThenUpdate(Nodes(t.files), EntryFiles(front), e.path, Node(f.content, f.mode));
    } else {
      MergeThenUpdate(t.directories, EntryDirs(front), e.path, e.mode);
    }
  }

  /** `cs` is the content of the planned entries. */
  predicate Contents(es: seq<PlannedEntry>, store: Store, cs: seq<TreeEntry>) {
    && HasBlobs(es, store) && |cs| == |es|
    && forall i :: 0 <= i < |es| ==> es[i] in es && cs[i] == EntryContent(es[i], store)
  }

  lemma ContentsFront(es: seq<PlannedEntry>, store: Store, cs: seq<TreeEntry>)
    requires Contents(es, store, cs) && es != []
    ensures Contents(es[..|es| - 1], store, cs[..|cs| - 1])
    ensures es[|es| - 1].PlannedFileEntry? ==> store.Get(es[|es| - 1].file.contentId).Some?
    ensures cs == cs[..|cs| - 1] + [EntryContent(es[|es| - 1], store)]
  {
    var front := es[..|es| - 1];
    assert forall i :: 0 <= i < |front| ==> front[i] == es[i] && front[i] in front;
    assert forall e :: e in front ==> e in es;
    assert es[|es| - 1] in es;
  }

  /** The overlay of tree entries is the addition of their content. */
  lemma {:induction false} OverlayEntriesAdds(es: seq<PlannedEntry>, store: Store, t: ExpectedTarget, cs: seq<TreeEntry>)
    requires OverlayEntries(es, store, t).Ok? && Contents(es, store, cs)
    ensures Nodes(OverlayEntries(es, store, t).value.files) == Nodes(t.files) + EntryFiles(cs)
    ensures OverlayEntries(es, store, t).value.directories == t.directories + EntryDirs(cs)
    decreases |es|
  {
    if es != [] {
      var front, e := es[..|es| - 1], es[|es| - 1];
      ContentsFront(es, store, cs);
      OverlayEntriesAdds(front, store, t, cs[..|cs| - 1]);
      OverlayEntryAdds(e, store, t, OverlayEntries(front, store, t).value, cs[..|cs| - 1]);
    }
  }

  // The invariant between overlay and executor

  /** Every operation's parent is there from the start, and none is removed before it is needed. */
  predicate ParentsStand(ops: seq<Operation>, t: Tree) {
    && (forall i :: 0 <= i < |ops| ==> ParentStands(t, ops[i].path))
    && (forall i, j :: 0 <= i < j < |ops| && ops[i].RemoveEmptyDirectory? ==>
          |ops[j].path| == 1 || Parent(ops[j].path) != ops[i].path)
  }

  ghost predicate Untouched(o: Overlay, t: Tree, u: Tree) {
    forall p :: p !in o.written && (p in t.files || p in t.dirs || p in u.files || p in u.dirs) ==> SameAt(t, u, p)
  }

  /** What links the overlay after some operations to the tree after the same ones. */
  ghost predicate Linked(ob: Observed, o: Overlay, t: Tree, u: Tree) {
    && Closed(u)
    && Describes(o, u)
    && Untouched(o, t, u)
  }

  ghost predicate ObservedTree(ob: Observed, t: Tree) {
    && ob.states.Keys == t.files.Keys
    && (forall p :: p in t.files ==> ob.states[p] == ObserveFile(t, p))
    && ob.directoryStates.Keys == t.dirs.Keys
    && (forall p :: p in t.dirs ==> ob.directoryStates[p] == DirectoryState(t.dirs[p], []))
  }

  lemma WriteAgrees(op: Operation, ob: Observed, store: Store, o: Overlay, t: Tree, u: Tree)
    requires op.CreateFile? || op.ReplaceFile?
    requires Closed(t) && ObservedTree(ob, t) && Linked(ob, o, t, u) && SoundOperation(op, store)
    requires ParentStands(t, op.path) && ParentStands(u, op.path)
    requires OverlayStep(op, ob, store, o).Ok?
    ensures AtOldState(op, t) && ApplyOperation(op, store, u).Some?
    ensures Linked(ob, OverlayStep(op, ob, store, o).value, t, ApplyOperation(op, store, u).value)
  {
    WriteRuns(op, ob, store, o, t, u);
    ApplyFrame(op, store, u);
    WrittenDescribes(op, ob, store, o, u);
  }

  lemma WriteRuns(op: Operation, ob: Observed, store: Store, o: Overlay, t: Tree, u: Tree)
    requires op.CreateFile? || op.ReplaceFile?
    requires Closed(t) && ObservedTree(ob, t) && Linked(ob, o, t, u) && SoundOperation(op, store)
    requires ParentStands(u, op.path) && OverlayStep(op, ob, store, o).Ok?
    ensures AtOldState(op, t) && ApplyOperation(op, store, u).Some?
  {
    var p := op.path;
    assert p in t.files || p in u.files || p in u.dirs ==> SameAt(t, u, p);
    assert p !in t.dirs && ObserveFile(t, p) == op.before;
  }

  lemma WrittenDescribes(op: Operation, ob: Observed, store: Store, o: Overlay, u: Tree)
    requires op.CreateFile? || op.ReplaceFile?
    requires Describes(o, u) && OverlayStep(op, ob, store, o).Ok? && ApplyOperation(op, store, u).Some?
    ensures Describes(OverlayStep(op, ob, store, o).value, ApplyOperation(op, store, u).value)
  {
    NodesUpdate(o.files, op.path,
      ExpectedFile(op.planned.identity.kind, op.planned.mode, store.Get(op.planned.contentId).value));
  }

  lemma DeleteAgrees(op: Operation, ob: Observed, store: Store, o: Overlay, t: Tree, u: Tree)
    requires op.DeleteFile?
    requires Closed(t) && ObservedTree(ob, t) && Linked(ob, o, t, u) && SoundOperation(op, store)
    requires ParentStands(t, op.path) && ParentStands(u, op.path)
    requires OverlayStep(op, ob, store, o).Ok?
    ensures AtOldState(op, t) && ApplyOperation(op, store, u).Some?
    ensures Linked(ob, OverlayStep(op, ob, store, o).value, t, ApplyOperation(op, store, u).value)
  {
    var p := op.path;
    assert SameAt(t, u, p);
    ApplyFrame(op, store, u);
  }

  lemma RemoveAgrees(op: Operation, ob: Observed, store: Store, o: Overlay, t: Tree, u: Tree)
    requires op.RemoveEmptyDirectory?
    requires Closed(t) && ObservedTree(ob, t) && Linked(ob, o, t, u) && SoundOperation(op, store)
    requires ParentStands(t, op.path) && ParentStands(u, op.path)
    requires OverlayStep(op, ob, store, o).Ok?
    ensures AtOldState(op, t) && ApplyOperation(op, store, u).Some?
    ensures Linked(ob, OverlayStep(op, ob, store, o).value, t, ApplyOperation(op, store, u).value)
  {
    var p := op.path;
    assert SameAt(t, u, p);
    assert o.files.Keys == Nodes(o.files).Keys;
    assert Below(u, p) == {};
    ApplyFrame(op, store, u);
  }

  lemma TreeDescribed(op: Operation, ob: Observed, store: Store, o: Overlay, u: Tree)
    requires op.CreateTree? && HasBlobs(op.tree.entries, store)
    requires Describes(o, u) && OverlayStep(op, ob, store, o).Ok?
    ensures Describes(OverlayStep(op, ob, store, o).value, AddTree(u, op.path, PlannedContent(op.tree, store)))
  {
    OverlayEntriesAdds(op.tree.entries, store,
      ExpectedTarget(o.files, o.directories[op.path := op.tree.rootMode]), PlannedContent(op.tree, store).entries);
  }

  lemma {:induction false} EntryKeys(cs: seq<TreeEntry>, q: Path)
    requires forall i :: 0 <= i < |cs| ==> cs[i].path != q
    ensures q !in EntryFiles(cs) && q !in EntryDirs(cs)
    decreases |cs|
  {
    if cs != [] { EntryKeys(cs[..|cs| - 1], q); }
  }

  lemma TreeLeaves(u: Tree, root: Path, tree: PlannedTree, store: Store, q: Path)
    requires HasBlobs(tree.entries, store) && q != root && q !in EntryPaths(tree.entries)
    ensures SameAt(u, AddTree(u, root, PlannedContent(tree, store)), q)
  {
    var cs := PlannedContent(tree, store).entries;
    forall i | 0 <= i < |cs| ensures cs[i].path != q {
      assert tree.entries[i] in tree.entries && cs[i].path == tree.entries[i].path;
    }
    EntryKeys(cs, q);
  }

  lemma TreeAgrees(op: Operation, ob: Observed, store: Store, o: Overlay, t: Tree, u: Tree)
    requires op.CreateTree?
    requires Closed(t) && ObservedTree(ob, t) && Linked(ob, o, t, u) && SoundOperation(op, store)
    requires ParentStands(t, op.path) && ParentStands(u, op.path)
    requires OverlayStep(op, ob, store, o).Ok?
    ensures AtOldState(op, t) && ApplyOperation(op, store, u).Some?
    ensures Linked(ob, OverlayStep(op, ob, store, o).value, t, ApplyOperation(op, store, u).value)
  {
    var o' := OverlayStep(op, ob, store, o).value;
    assert o.files.Keys == Nodes(o.files).Keys;
    assert ApplyOperation(op, store, u).Some?;
    var u' := ApplyOperation(op, store, u).value;
    ApplyFrame(op, store, u);
    TreeDescribed(op, ob, store, o, u);
    assert o'.written == o.written + {op.path} + EntryPaths(op.tree.entries);
    forall q | q !in o'.written && (q in t.files || q in t.dirs || q in u'.files || q in u'.dirs) ensures SameAt(t, u', q) {
      TreeLeaves(u, op.path, op.tree, store, q);
    }
  }

  lemma StepAgrees(op: Operation, ob: Observed, store: Store, o: Overlay, t: Tree, u: Tree)
    requires Closed(t) && ObservedTree(ob, t) && Linked(ob, o, t, u) && SoundOperation(op, store)
    requires ParentStands(t, op.path) && ParentStands(u, op.path)
    requires OverlayStep(op, ob, store, o).Ok?
    ensures AtOldState(op, t) && ApplyOperation(op, store, u).Some?
    ensures Linked(ob, OverlayStep(op, ob, store, o).value, t, ApplyOperation(op, store, u).value)
  {
    match op
    case CreateFile(_, _, _) => WriteAgrees(op, ob, store, o, t, u);
    case ReplaceFile(_, _, _) => WriteAgrees(op, ob, store, o, t, u);
    case DeleteFile(_, _) => DeleteAgrees(op, ob, store, o, t, u);
    case CreateTree(_, _, _) => TreeAgrees(op, ob, store, o, t, u);
    case RemoveEmptyDirectory(_, _) => RemoveAgrees(op, ob, store, o, t, u);
  }

  // Whole plans

  ghost predicate SoundPlan(ops: seq<Operation>, store: Store) {
    forall op :: op in ops ==> SoundOperation(op, store)
  }

  /** A path whose parent stands in `t` is not below anything absent from `t`. */
  lemma NotBelowAbsent(t: Tree, root: Path, p: Path)
    requires Closed(t) && root != [] && Valid(p) && ParentStands(t, p) && !Exists(t, root)
    ensures !Above(root, p)
  {
    if Above(root, p) {
      AboveParent(root, p);
      assert Exists(t, Parent(p));
      if root != Parent(p) { ClosedAncestors(t, root, Parent(p)); }
    }
  }

  /** The path an accepted operation writes is recorded as written, and stays so. */
  lemma {:induction false} WrittenGrows(ops: seq<Operation>, ob: Observed, store: Store, o: Overlay, p: Path)
    requires OverlayAll(ops, ob, store, o).Ok? && p in o.written
    ensures forall op :: op in ops ==> op.path != p
    decreases |ops|
  {
    if ops != [] {
      WrittenGrows(ops[1..], ob, store, OverlayStep(ops[0], ob, store, o).value, p);
      assert forall op :: op in ops ==> op == ops[0] || op in ops[1..];
    }
  }

  /** Accepted operations act on distinct paths. */
  lemma {:induction false} AcceptedApart(ops: seq<Operation>, ob: Observed, store: Store, o: Overlay, i: nat, j: nat)
    requires OverlayAll(ops, ob, store, o).Ok? && i < j < |ops|
    ensures ops[i].path != ops[j].path
    decreases |ops|
  {
    var o' := OverlayStep(ops[0], ob, store, o).value;
    if i == 0 {
      WrittenGrows(ops[1..], ob, store, o', ops[0].path);
      assert ops[j] == ops[1..][j - 1];
    } else {
      AcceptedApart(ops[1..], ob, store, o', i - 1, j - 1);
    }
  }

  /** The parent of a later operation survives an earlier one. */
  lemma ParentSurvives(op: Operation, ob: Observed, store: Store, o: Overlay, t: Tree, u: Tree, p: Path)
    requires Closed(t) && ObservedTree(ob, t) && Linked(ob, o, t, u) && SoundOperation(op, store)
    requires ParentStands(t, op.path) && ParentStands(u, op.path) && OverlayStep(op, ob, store, o).Ok?
    requires Valid(p) && ParentStands(t, p) && ParentStands(u, p)
    requires op.RemoveEmptyDirectory? ==> |p| == 1 || Parent(p) != op.path
    ensures ApplyOperation(op, store, u).Some? && ParentStands(ApplyOperation(op, store, u).value, p)
  {
    StepAgrees(op, ob, store, o, t, u);
    ApplyFrame(op, store, u);
    var u' := ApplyOperation(op, store, u).value;
    if |p| > 1 {
      if Touches(op, Parent(p)) && Exists(u, Parent(p)) {
        if op.CreateTree? && op.path != Parent(p) { ClosedAncestors(u, op.path, Parent(p)); }
      } else {
        assert SameAt(u, u', Parent(p));
      }
    }
  }

  /** The parents of the later operations stand before and after the first. */
  lemma RestParentsStand(ops: seq<Operation>, ob: Observed, store: Store, o: Overlay, t: Tree, u: Tree)
    requires Closed(t) && ObservedTree(ob, t) && Linked(ob, o, t, u)
    requires ops != [] && SoundPlan(ops, store) && ParentsStand(ops, t) && ParentsStand(ops, u)
    requires OverlayStep(ops[0], ob, store, o).Ok? && ApplyOperation(ops[0], store, u).Some?
    ensures ParentsStand(ops[1..], t) && ParentsStand(ops[1..], ApplyOperation(ops[0], store, u).value)
  {
    var op, rest, v := ops[0], ops[1..], ApplyOperation(ops[0], store, u).value;
    assert op in ops;
    forall i | 0 <= i < |rest| ensures ParentStands(v, rest[i].path) && ParentStands(t, rest[i].path) {
      assert ops[i + 1] in ops && rest[i] == ops[i + 1];
      ParentSurvives(op, ob, store, o, t, u, ops[i + 1].path);
    }
    forall i, j | 0 <= i < j < |rest| && rest[i].RemoveEmptyDirectory?
      ensures |rest[j].path| == 1 || Parent(rest[j].path) != rest[i].path
    {
      assert ops[i + 1].RemoveEmptyDirectory?;
    }
  }

  predicate AllAtOldState(ops: seq<Operation>, t: Tree) {
    forall op :: op in ops ==> AtOldState(op, t)
  }

  lemma OperationsSplit(ops: seq<Operation>, store: Store, t: Tree)
    requires ops != []
    ensures SoundPlan(ops, store) ==> SoundOperation(ops[0], store) && SoundPlan(ops[1..], store)
    ensures AtOldState(ops[0], t) && AllAtOldState(ops[1..], t) ==> AllAtOldState(ops, t)
  {
    assert ops[0] in ops;
    assert forall op :: op in ops <==> op == ops[0] || op in ops[1..];
  }

  lemma RunsStep(ops: seq<Operation>, store: Store, u: Tree)
    requires ops != [] && ApplyOperation(ops[0], store, u).Some? && Runs(ops[1..], store, ApplyOperation(ops[0], store, u).value)
    ensures Runs(ops, store, u)
    ensures After(ops, store, u, |ops|) == After(ops[1..], store, ApplyOperation(ops[0], store, u).value, |ops| - 1)
  {
  }

  /** Which operations of an accepted plan run, and where they end. */
  lemma {:induction false} AcceptedRuns(ops: seq<Operation>, ob: Observed, store: Store, o: Overlay, t: Tree, u: Tree)
    requires Closed(t) && ObservedTree(ob, t) && Linked(ob, o, t, u)
    requires SoundPlan(ops, store) && ParentsStand(ops, t) && ParentsStand(ops, u)
    requires OverlayAll(ops, ob, store, o).Ok?
    ensures Runs(ops, store, u) && AllAtOldState(ops, t)
    ensures Describes(OverlayAll(ops, ob, store, o).value, After(ops, store, u, |ops|))
    decreases |ops|
  {
    if ops != [] {
      OperationsSplit(ops, store, t);
      StepAgrees(ops[0], ob, store, o, t, u);
      RestParentsStand(ops, ob, store, o, t, u);
      AcceptedRuns(ops[1..], ob, store, OverlayStep(ops[0], ob, store, o).value, t, ApplyOperation(ops[0], store, u).value);
      RunsStep(ops, store, u);
    }
  }

  /**
   A plan the overlay accepts on a complete observation of a target can be executed
   on that target, every prefix of it can be rolled back, and execution ends in
   exactly the files, modes and directories the overlay declares.
   */
  lemma AcceptedPlansExecute(snapshot: Snapshot, plan: Plan, t: Tree)
    requires Closed(t) && Observes(snapshot, t)
    requires SoundPlan(plan.operations, plan.store) && ParentsStand(plan.operations, t)
    requires Applied(snapshot, plan).Ok?
    ensures Executable(plan.operations, plan.store, t)
    ensures Nodes(Applied(snapshot, plan).value.files)
      == After(plan.operations, plan.store, t, |plan.operations|).files
    ensures Applied(snapshot, plan).value.directories
      == After(plan.operations, plan.store, t, |plan.operations|).dirs
  {
    var ops, store, ob := plan.operations, plan.store, ObservedOf(snapshot);
    var o := StartOverlay(snapshot);
    StartDescribes(snapshot, t);
    AcceptedRuns(ops, ob, store, o, t, t);
    forall i, j | 0 <= i < j < |ops| ensures Independent(ops[i], ops[j]) {
      AcceptedApart(ops, ob, store, o, i, j);
      assert ops[i] in ops && ops[j] in ops;
      OldStatesApart(ops[i], ops[j], store, t);
    }
  }

  /** Operations on different paths, both at their old states, are independent. */
  lemma OldStatesApart(a: Operation, b: Operation, store: Store, t: Tree)
    requires Closed(t) && SoundOperation(a, store) && SoundOperation(b, store) && a.path != b.path
    requires AtOldState(a, t) && AtOldState(b, t) && ParentStands(t, a.path) && ParentStands(t, b.path)
    ensures Independent(a, b)
  {
    if a.CreateTree? { NotBelowAbsent(t, a.path, b.path); }
    if b.CreateTree? { NotBelowAbsent(t, b.path, a.path); }
  }
}
