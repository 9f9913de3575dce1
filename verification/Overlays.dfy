/** When a run of operations of one sort is accepted, and what it leaves. */
module Overlays {
  import opened Results
  import opened Paths
  import opened Sorting
  import opened Identity
  import opened Plans
  import opened Rollback
  import opened Targets
  import opened Apply

  function OpPaths(ops: seq<Operation>): (r: set<Path>)
    ensures forall i :: 0 <= i < |ops| ==> ops[i].path in r
    ensures forall p :: p in r ==> exists i :: 0 <= i < |ops| && ops[i].path == p
  {
    set i | 0 <= i < |ops| :: ops[i].path
  }

  predicate Distinct(ops: seq<Operation>) {
    forall i, j :: 0 <= i < j < |ops| ==> ops[i].path != ops[j].path
  }

  lemma OpPathsHead(ops: seq<Operation>)
    requires ops != []
    ensures OpPaths(ops) == {ops[0].path} + OpPaths(ops[1..])
    ensures Distinct(ops) ==> ops[0].path !in OpPaths(ops[1..]) && Distinct(ops[1..])
  {
    assert forall i :: 0 <= i < |ops| - 1 ==> ops[1..][i] == ops[i + 1];
    forall p | p in OpPaths(ops) && p != ops[0].path ensures p in OpPaths(ops[1..]) {
      var i :| 0 <= i < |ops| && ops[i].path == p;
      assert ops[1..][i - 1].path == p;
    }
  }

  lemma {:induction false} OverlayConcat(a: seq<Operation>, b: seq<Operation>, ob: Observed, store: Store, o: Overlay)
    ensures OverlayAll(a + b, ob, store, o) ==
      match OverlayAll(a, ob, store, o)
      case Err(e) => Err(e)
      case Ok(u) => OverlayAll(b, ob, store, u)
    decreases |a|
  {
    if a == [] {
      assert a + b == b;
    } else {
      assert (a + b)[1..] == a[1..] + b;
      match OverlayStep(a[0], ob, store, o)
      case Ok(u) => OverlayConcat(a[1..], b, ob, store, u);
      case Err(_) =>
    }
  }

  lemma MergeAssociates<V>(a: map<Path, V>, b: map<Path, V>, c: map<Path, V>)
    ensures a + (b + c) == a + b + c
  {
  }

  lemma RemoveInTwo<V>(a: map<Path, V>, s: set<Path>, t: set<Path>)
    ensures a - (s + t) == a - s - t
  {
  }

  lemma UnionAssociates(a: set<Path>, b: set<Path>, c: set<Path>)
    ensures a + (b + c) == a + b + c
  {
  }

  lemma NothingMerged<V>(a: map<Path, V>, s: set<Path>)
    ensures a + map[] == a && a - {} == a && s + {} == s
  {
  }

  // Files written

  predicate IsWrite(op: Operation) {
    op.CreateFile? || op.ReplaceFile?
  }

  predicate WriteReady(op: Operation, ob: Observed, store: Store, o: Overlay) {
    IsWrite(op) && WriteAllowed(op.path, op.before, ob, o) && store.Get(op.planned.contentId).Some?
  }

  function FileWritten(op: Operation, store: Store): map<Path, ExpectedFile> {
    if IsWrite(op) && store.Get(op.planned.contentId).Some?
    then map[op.path := ExpectedFile(op.planned.identity.kind, op.planned.mode, store.Get(op.planned.contentId).value)]
    else map[]
  }

  function FilesWritten(ops: seq<Operation>, store: Store): map<Path, ExpectedFile> {
    if ops == [] then map[] else FileWritten(ops[0], store) + FilesWritten(ops[1..], store)
  }

  lemma WriteAccepted(op: Operation, ob: Observed, store: Store, o: Overlay)
    requires WriteReady(op, ob, store, o)
    ensures OverlayStep(op, ob, store, o)
      == Ok(Overlay(o.files + FileWritten(op, store), o.directories, o.written + {op.path}))
  {
    var f := FileWritten(op, store)[op.path];
    assert o.files[op.path := f] == o.files + FileWritten(op, store);
  }

  lemma {:induction false} WritesAccepted(ops: seq<Operation>, ob: Observed, store: Store, o: Overlay)
    requires Distinct(ops) && forall i :: 0 <= i < |ops| ==> WriteReady(ops[i], ob, store, o)
    ensures OverlayAll(ops, ob, store, o)
      == Ok(Overlay(o.files + FilesWritten(ops, store), o.directories, o.written + OpPaths(ops)))
    decreases |ops|
  {
    if ops == [] {
      NothingMerged(o.files, o.written);
      assert OpPaths(ops) == {};
    } else {
      OpPathsHead(ops);
      var u := OverlayStep(ops[0], ob, store, o).value;
      WriteAccepted(ops[0], ob, store, o);
      forall i | 0 <= i < |ops[1..]| ensures WriteReady(ops[1..][i], ob, store, u) {
        assert WriteReady(ops[i + 1], ob, store, o);
      }
      WritesAccepted(ops[1..], ob, store, u);
      MergeAssociates(o.files, FileWritten(ops[0], store), FilesWritten(ops[1..], store));
      UnionAssociates(o.written, {ops[0].path}, OpPaths(ops[1..]));
    }
  }

  /** With distinct paths every write is there as it was planned. */
  lemma {:induction false} FilesWrittenAt(ops: seq<Operation>, store: Store)
    requires Distinct(ops) && forall i :: 0 <= i < |ops| ==> IsWrite(ops[i]) && store.Get(ops[i].planned.contentId).Some?
    ensures FilesWritten(ops, store).Keys == OpPaths(ops)
    ensures forall i :: 0 <= i < |ops| ==> FilesWritten(ops, store)[ops[i].path] == FileWritten(ops[i], store)[ops[i].path]
    decreases |ops|
  {
    if ops != [] {
      OpPathsHead(ops);
      FilesWrittenAt(ops[1..], store);
      forall i | 0 <= i < |ops| ensures FilesWritten(ops, store)[ops[i].path] == FileWritten(ops[i], store)[ops[i].path] {
        if i > 0 { assert ops[i] == ops[1..][i - 1]; }
      }
    }
  }

  // Trees created

  predicate IsFree(p: Path, t: ExpectedTarget) {
    p !in t.files && p !in t.directories
  }

  function ExpectedEntryFiles(es: seq<PlannedEntry>, store: Store): map<Path, ExpectedFile> {
    if es == [] then map[] else
      var e := es[|es| - 1];
      var rest := ExpectedEntryFiles(es[..|es| - 1], store);
      if e.PlannedFileEntry? && store.Get(e.file.contentId).Some?
      then rest[e.path := ExpectedFile(e.file.identity.kind, e.file.mode, store.Get(e.file.contentId).value)]
      else rest
  }

  function ExpectedEntryDirectories(es: seq<PlannedEntry>): map<Path, Mode> {
    if es == [] then map[] else
      var e := es[|es| - 1];
      var rest := ExpectedEntryDirectories(es[..|es| - 1]);
      if e.PlannedDirectoryEntry? then rest[e.path := e.mode] else rest
  }

  predicate FileEntered(e: PlannedEntry, files: map<Path, ExpectedFile>, store: Store)
    requires e.PlannedFileEntry?
  {
    && store.Get(e.file.contentId).Some? && e.path in files
    && files[e.path] == ExpectedFile(e.file.identity.kind, e.file.mode, store.Get(e.file.contentId).value)
  }

  lemma {:induction false} EntryMapsAt(es: seq<PlannedEntry>, store: Store)
    requires DistinctEntries(es) && HasBlobs(es, store)
    ensures forall p :: p in ExpectedEntryFiles(es, store) <==> exists e :: e in es && e.PlannedFileEntry? && e.path == p
    ensures forall p :: p in ExpectedEntryDirectories(es) <==> exists e :: e in es && e.PlannedDirectoryEntry? && e.path == p
    ensures forall e :: e in es && e.PlannedFileEntry? ==> FileEntered(e, ExpectedEntryFiles(es, store), store)
    ensures forall e :: e in es && e.PlannedDirectoryEntry? ==>
      e.path in ExpectedEntryDirectories(es) && ExpectedEntryDirectories(es)[e.path] == e.mode
    decreases |es|
  {
    if es != [] {
      var front, last := es[..|es| - 1], es[|es| - 1];
      assert es == front + [last];
      assert forall e :: e in es <==> e in front || e == last;
      EntryMapsAt(front, store);
      forall e | e in front ensures e.path != last.path {
        var i :| 0 <= i < |front| && front[i] == e;
        assert es[i].path != es[|es| - 1].path;
      }
    }
  }

  lemma EntryAccepted(es: seq<PlannedEntry>, store: Store, t: ExpectedTarget)
    requires es != []
    requires OverlayEntries(es[..|es| - 1], store, t) == Ok(ExpectedTarget(
      t.files + ExpectedEntryFiles(es[..|es| - 1], store), t.directories + ExpectedEntryDirectories(es[..|es| - 1])))
    requires var e := es[|es| - 1];
      && IsFree(e.path, OverlayEntries(es[..|es| - 1], store, t).value)
      && (e.PlannedFileEntry? ==> store.Get(e.file.contentId).Some?)
    ensures OverlayEntries(es, store, t)
      == Ok(ExpectedTarget(t.files + ExpectedEntryFiles(es, store), t.directories + ExpectedEntryDirectories(es)))
  {
    var front, e := es[..|es| - 1], es[|es| - 1];
    if e.PlannedFileEntry? {
      UpdateMerged(t.files, ExpectedEntryFiles(front, store), e.path,
        ExpectedFile(e.file.identity.kind, e.file.mode, store.Get(e.file.contentId).value));
    } else {
      UpdateMerged(t.directories, ExpectedEntryDirectories(front), e.path, e.mode);
    }
  }

  lemma UpdateMerged<V>(a: map<Path, V>, b: map<Path, V>, p: Path, v: V)
    ensures (a + b)[p := v] == a + b[p := v]
  {
  }

  lemma LastIsFree(es: seq<PlannedEntry>, store: Store, t: ExpectedTarget)
    requires es != [] && DistinctEntries(es) && HasBlobs(es, store) && IsFree(es[|es| - 1].path, t)
    ensures var front := es[..|es| - 1];
      IsFree(es[|es| - 1].path,
        ExpectedTarget(t.files + ExpectedEntryFiles(front, store), t.directories + ExpectedEntryDirectories(front)))
  {
    var front, last := es[..|es| - 1], es[|es| - 1];
    assert forall e :: e in front ==> e in es;
    EntryMapsAt(front, store);
    forall e | e in front ensures e.path != last.path {
      var i :| 0 <= i < |front| && front[i] == e;
      assert es[i].path != es[|es| - 1].path;
    }
  }

  lemma {:induction false} EntriesAccepted(es: seq<PlannedEntry>, store: Store, t: ExpectedTarget)
    requires DistinctEntries(es) && HasBlobs(es, store)
    requires forall i :: 0 <= i < |es| ==> IsFree(es[i].path, t)
    ensures OverlayEntries(es, store, t)
      == Ok(ExpectedTarget(t.files + ExpectedEntryFiles(es, store), t.directories + ExpectedEntryDirectories(es)))
    decreases |es|
  {
    if es == [] {
      assert t.files + ExpectedEntryFiles(es, store) == t.files;
      assert t.directories + ExpectedEntryDirectories(es) == t.directories;
    } else {
      var front := es[..|es| - 1];
      assert forall e :: e in front ==> e in es;
      EntriesAccepted(front, store, t);
      assert es[|es| - 1] in es;
      LastIsFree(es, store, t);
      EntryAccepted(es, store, t);
    }
  }

  /** A tree whose paths are all free, observed or not, and not written yet. */
  ghost predicate TreeReady(op: Operation, ob: Observed, store: Store, o: Overlay) {
    && op.CreateTree? && HasBlobs(op.tree.entries, store) && DistinctEntries(op.tree.entries)
    && forall p :: TreeTouches(op, p) ==>
      p !in o.written && p !in ob.states && p !in ob.directoryStates && p !in o.files && p !in o.directories
  }

  /** The paths a created tree brings into being. */
  predicate TreeTouches(op: Operation, p: Path)
    requires op.CreateTree?
  {
    p == op.path || p in EntryPaths(op.tree.entries)
  }

  ghost predicate TreesApart(ops: seq<Operation>) {
    forall i, j, p :: 0 <= i < j < |ops| && ops[i].CreateTree? && ops[j].CreateTree? && TreeTouches(ops[i], p) ==>
      !TreeTouches(ops[j], p)
  }

  function TreeFilesOf(op: Operation, store: Store): map<Path, ExpectedFile> {
    if op.CreateTree? then ExpectedEntryFiles(op.tree.entries, store) else map[]
  }

  function TreeDirectoriesOf(op: Operation): map<Path, Mode> {
    if op.CreateTree? then map[op.path := op.tree.rootMode] + ExpectedEntryDirectories(op.tree.entries) else map[]
  }

  function TreePathsOf(op: Operation): set<Path> {
    if op.CreateTree? then {op.path} + EntryPaths(op.tree.entries) else {}
  }

  function TreeFiles(ops: seq<Operation>, store: Store): map<Path, ExpectedFile> {
    if ops == [] then map[] else TreeFilesOf(ops[0], store) + TreeFiles(ops[1..], store)
  }

  function TreeDirectories(ops: seq<Operation>): map<Path, Mode> {
    if ops == [] then map[] else TreeDirectoriesOf(ops[0]) + TreeDirectories(ops[1..])
  }

  function TreePaths(ops: seq<Operation>): set<Path> {
    if ops == [] then {} else TreePathsOf(ops[0]) + TreePaths(ops[1..])
  }

  lemma RootMerged<V>(a: map<Path, V>, p: Path, v: V, b: map<Path, V>)
    ensures a[p := v] + b == a + (map[p := v] + b)
  {
  }

  lemma TreeAccepted(op: Operation, ob: Observed, store: Store, o: Overlay)
    requires TreeReady(op, ob, store, o)
    requires forall e :: e in op.tree.entries ==> e.path != op.path
    ensures OverlayStep(op, ob, store, o) == Ok(Overlay(
      o.files + TreeFilesOf(op, store), o.directories + TreeDirectoriesOf(op), o.written + TreePathsOf(op)))
  {
    var es := op.tree.entries;
    var t := ExpectedTarget(o.files, o.directories[op.path := op.tree.rootMode]);
    assert TreeTouches(op, op.path);
    forall i | 0 <= i < |es| ensures IsFree(es[i].path, t) {
      assert es[i] in es;
      assert TreeTouches(op, es[i].path);
    }
    EntriesAccepted(es, store, t);
    RootMerged(o.directories, op.path, op.tree.rootMode, ExpectedEntryDirectories(es));
    UnionAssociates(o.written, {op.path}, EntryPaths(es));
  }

  lemma EntryMapKeys(op: Operation, store: Store, p: Path)
    requires op.CreateTree? && HasBlobs(op.tree.entries, store) && DistinctEntries(op.tree.entries)
    ensures p in TreeFilesOf(op, store) || p in TreeDirectoriesOf(op) ==> TreeTouches(op, p)
  {
    EntryMapsAt(op.tree.entries, store);
  }

  lemma TreeStaysReady(a: Operation, b: Operation, ob: Observed, store: Store, o: Overlay)
    requires TreeReady(a, ob, store, o) && TreeReady(b, ob, store, o)
    requires forall p :: TreeTouches(a, p) ==> !TreeTouches(b, p)
    ensures TreeReady(b, ob, store, Overlay(
      o.files + TreeFilesOf(a, store), o.directories + TreeDirectoriesOf(a), o.written + TreePathsOf(a)))
  {
    forall p | TreeTouches(b, p) ensures p !in TreeFilesOf(a, store) && p !in TreeDirectoriesOf(a) && p !in TreePathsOf(a) {
      EntryMapKeys(a, store, p);
      assert TreeTouches(a, p) <==> p in TreePathsOf(a);
    }
  }

  lemma {:induction false} TreesAccepted(ops: seq<Operation>, ob: Observed, store: Store, o: Overlay)
    requires TreesApart(ops) && forall i :: 0 <= i < |ops| ==> TreeReady(ops[i], ob, store, o)
    requires forall i, e :: 0 <= i < |ops| && ops[i].CreateTree? && e in ops[i].tree.entries ==> e.path != ops[i].path
    ensures OverlayAll(ops, ob, store, o) == Ok(Overlay(
      o.files + TreeFiles(ops, store), o.directories + TreeDirectories(ops), o.written + TreePaths(ops)))
    decreases |ops|
  {
    if ops == [] {
      NothingMerged(o.files, o.written);
      NothingMerged(o.directories, o.written);
    } else {
      var op, rest := ops[0], ops[1..];
      assert TreeReady(op, ob, store, o);
      TreeAccepted(op, ob, store, o);
      var u := OverlayStep(op, ob, store, o).value;
      forall i | 0 <= i < |rest| ensures TreeReady(rest[i], ob, store, u) {
        assert TreeReady(ops[i + 1], ob, store, o);
        TreeStaysReady(op, ops[i + 1], ob, store, o);
      }
      RestApart(ops);
      TreesAccepted(rest, ob, store, u);
      MergeAssociates(o.files, TreeFilesOf(op, store), TreeFiles(rest, store));
      MergeAssociates(o.directories, TreeDirectoriesOf(op), TreeDirectories(rest));
      UnionAssociates(o.written, TreePathsOf(op), TreePaths(rest));
    }
  }

  lemma RestApart(ops: seq<Operation>)
    requires ops != [] && TreesApart(ops)
    ensures TreesApart(ops[1..])
  {
    forall i, j, p | 0 <= i < j < |ops[1..]| && ops[1..][i].CreateTree? && ops[1..][j].CreateTree? && TreeTouches(ops[1..][i], p)
      ensures !TreeTouches(ops[1..][j], p)
    {
      assert TreeTouches(ops[i + 1], p);
    }
  }

  // Files deleted

  predicate DeleteReady(op: Operation, ob: Observed, o: Overlay) {
    && op.DeleteFile? && op.path !in o.written && op.path in o.files
    && op.path in ob.states && ob.states[op.path] == op.before
    && op.path !in ob.directoryStates && op.path !in o.directories
  }

  lemma {:induction false} DeletesAccepted(ops: seq<Operation>, ob: Observed, store: Store, o: Overlay)
    requires Distinct(ops) && forall i :: 0 <= i < |ops| ==> DeleteReady(ops[i], ob, o)
    ensures OverlayAll(ops, ob, store, o) == Ok(Overlay(o.files - OpPaths(ops), o.directories, o.written + OpPaths(ops)))
    decreases |ops|
  {
    if ops == [] {
      NothingMerged(o.files, o.written);
      assert OpPaths(ops) == {};
    } else {
      OpPathsHead(ops);
      var u := OverlayStep(ops[0], ob, store, o).value;
      assert u == Overlay(o.files - {ops[0].path}, o.directories, o.written + {ops[0].path});
      forall i | 0 <= i < |ops[1..]| ensures DeleteReady(ops[1..][i], ob, u) {
        assert DeleteReady(ops[i + 1], ob, o);
      }
      DeletesAccepted(ops[1..], ob, store, u);
      RemoveInTwo(o.files, {ops[0].path}, OpPaths(ops[1..]));
      UnionAssociates(o.written, {ops[0].path}, OpPaths(ops[1..]));
    }
  }

  // Directories removed, deepest first

  predicate RemovalListed(op: Operation, o: Overlay) {
    && op.RemoveEmptyDirectory? && op.path !in o.written
    && op.path in o.directories && o.directories[op.path] == op.directoryBefore.rootMode
  }

  predicate DeepestFirst(ops: seq<Operation>) {
    forall i, j :: 0 <= i < j < |ops| ==> |ops[i].path| >= |ops[j].path|
  }

  /** Whatever is below a directory to be removed is itself a directory to be removed. */
  predicate OnlyRemovedBelow(ops: seq<Operation>, o: Overlay) {
    && (forall i, q :: 0 <= i < |ops| && q in o.files ==> !Above(ops[i].path, q))
    && (forall i, q :: 0 <= i < |ops| && q in o.directories && Above(ops[i].path, q) ==> q in OpPaths(ops))
  }

  lemma FirstHoldsNothing(ops: seq<Operation>, o: Overlay)
    requires ops != [] && DeepestFirst(ops) && OnlyRemovedBelow(ops, o)
    ensures !HoldsBelow(ops[0].path, ExpectedTarget(o.files, o.directories))
  {
    forall q | q in o.directories ensures !Above(ops[0].path, q) {
      if q in OpPaths(ops) {
        var i :| 0 <= i < |ops| && ops[i].path == q;
      }
    }
  }

  lemma RestOnlyRemoved(ops: seq<Operation>, o: Overlay, u: Overlay)
    requires ops != [] && OnlyRemovedBelow(ops, o)
    requires u.files == o.files && u.directories == o.directories - {ops[0].path}
    ensures OnlyRemovedBelow(ops[1..], u)
  {
    OpPathsHead(ops);
    forall i, q | 0 <= i < |ops[1..]| && q in u.files ensures !Above(ops[1..][i].path, q) {
      assert !Above(ops[i + 1].path, q);
    }
    forall i, q | 0 <= i < |ops[1..]| && q in u.directories && Above(ops[1..][i].path, q) ensures q in OpPaths(ops[1..]) {
      assert ops[1..][i] == ops[i + 1];
    }
  }

  lemma {:induction false} RemovalsAccepted(ops: seq<Operation>, ob: Observed, store: Store, o: Overlay)
    requires Distinct(ops) && DeepestFirst(ops) && OnlyRemovedBelow(ops, o)
    requires forall i :: 0 <= i < |ops| ==> RemovalListed(ops[i], o)
    ensures OverlayAll(ops, ob, store, o) == Ok(Overlay(o.files, o.directories - OpPaths(ops), o.written + OpPaths(ops)))
    decreases |ops|
  {
    if ops == [] {
      NothingMerged(o.directories, o.written);
      assert OpPaths(ops) == {};
    } else {
      OpPathsHead(ops);
      FirstHoldsNothing(ops, o);
      var u := OverlayStep(ops[0], ob, store, o).value;
      assert u == Overlay(o.files, o.directories - {ops[0].path}, o.written + {ops[0].path});
      forall i | 0 <= i < |ops[1..]| ensures RemovalListed(ops[1..][i], u) {
        assert RemovalListed(ops[i + 1], o);
      }
      RestOnlyRemoved(ops, o, u);
      RemovalsAccepted(ops[1..], ob, store, u);
      RemoveInTwo(o.directories, {ops[0].path}, OpPaths(ops[1..]));
      UnionAssociates(o.written, {ops[0].path}, OpPaths(ops[1..]));
    }
  }
}
