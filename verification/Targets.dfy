/**
 The target tree and what executing one operation, or rolling one back, does to it.

 A tree maps paths to files and directories.  `ApplyOperation` and
 `AttemptRollback` are one atomic change each, or a refusal that changes nothing.
 */
module Targets {
  import opened Results
  import opened Paths
  import opened Sorting
  import opened Identity
  import opened Plans
  import opened Rollback

  datatype Node = Node(content: Bytes, mode: Mode)
  datatype Tree = Tree(files: map<Path, Node>, dirs: map<Path, Mode>)

  predicate Exists(t: Tree, p: Path) {
    p in t.files || p in t.dirs
  }

  predicate ParentStands(t: Tree, p: Path) {
    |p| == 1 || (|p| > 1 && Parent(p) in t.dirs)
  }

  /** What any file system guarantees: parents are directories and no path is both kinds. */
  ghost predicate Closed(t: Tree) {
    && t.files.Keys !! t.dirs.Keys
    && forall p :: p in t.files.Keys + t.dirs.Keys ==> Valid(p) && ParentStands(t, p)
  }

  lemma {:induction false} ClosedAncestors(t: Tree, a: Path, p: Path)
    requires Closed(t) && Exists(t, p) && a != [] && Above(a, p)
    ensures a in t.dirs
    decreases |p|
  {
    assert p in t.files.Keys + t.dirs.Keys;
    AboveParent(a, p);
    if a != Parent(p) { ClosedAncestors(t, a, Parent(p)); }
  }

  // Observation

  function ObserveFile(t: Tree, p: Path): FileState {
    if p in t.files then ObservedState(t.files[p].content, t.files[p].mode) else Absent
  }

  ghost function Below(t: Tree, root: Path): set<Path> {
    set p | p in t.files.Keys + t.dirs.Keys && Above(root, p)
  }

  function EntryAt(t: Tree, p: Path): TreeEntry
    requires Exists(t, p)
  {
    if p in t.files then FileEntry(p, t.files[p].content, t.files[p].mode)
    else DirectoryEntry(p, t.dirs[p])
  }

  function EntriesAt(t: Tree, ps: seq<Path>): (r: seq<TreeEntry>)
    requires forall p :: p in ps ==> Exists(t, p)
    ensures |r| == |ps|
    ensures forall i :: 0 <= i < |ps| ==> ps[i] in ps && r[i] == EntryAt(t, ps[i])
  {
    seq(|ps|, i requires 0 <= i < |ps| => assert ps[i] in ps; EntryAt(t, ps[i]))
  }

  ghost function EntriesBelow(t: Tree, root: Path): seq<TreeEntry> {
    var ps := Listing(Below(t, root), PathLess);
    assert forall p :: p in ps ==> Exists(t, p) by {
      SameElements(Enumerate(Below(t, root)), PathLess);
    }
    EntriesAt(t, ps)
  }

  /** The full state of a directory: its mode and everything below it in path order. */
  ghost function DeepState(t: Tree, p: Path): Option<DirectoryState> {
    if p in t.dirs then Some(DirectoryState(t.dirs[p], EntriesBelow(t, p))) else None
  }

  function ShallowState(t: Tree, p: Path): Option<DirectoryState> {
    if p in t.dirs then Some(DirectoryState(t.dirs[p], [])) else None
  }

  lemma PathsBelowListed(t: Tree, root: Path)
    requires Closed(t)
    ensures Sorted(Listing(Below(t, root), PathLess), PathLess)
    ensures forall p :: p in Listing(Below(t, root), PathLess) <==> p in Below(t, root)
  {
    EntryLessIsStrict();
    forall a, b | a in Below(t, root) && b in Below(t, root)
      ensures PathLess(a, b) || PathLess(b, a) || a == b
    {
      PathOrderIsTotal(a, b);
    }
    ListingIsSorted(Below(t, root), PathLess);
  }

  lemma EntriesBelowCanonical(t: Tree, root: Path)
    requires Closed(t)
    ensures Canonical(EntriesBelow(t, root))
  {
    PathsBelowListed(t, root);
    var ps, es := Listing(Below(t, root), PathLess), EntriesBelow(t, root);
    forall i, j | 0 <= i < j < |es| ensures EntryPathLess(es[i], es[j]) {
      assert PathLess(ps[i], ps[j]);
    }
  }

  lemma EntriesBelowEmpty(t: Tree, root: Path)
    requires Closed(t)
    ensures EntriesBelow(t, root) == [] <==> Below(t, root) == {}
  {
    PathsBelowListed(t, root);
    var ps := Listing(Below(t, root), PathLess);
    if Below(t, root) != {} {
      var p :| p in Below(t, root);
      assert p in ps;
    }
    if ps != [] { assert ps[0] in ps; }
  }

  // The entries of a tree that is being created

  function EntryFiles(es: seq<TreeEntry>): map<Path, Node> {
    if es == [] then map[] else
      var e := es[|es| - 1];
      var rest := EntryFiles(es[..|es| - 1]);
      if e.FileEntry? then rest[e.path := Node(e.content, e.mode)] else rest
  }

  function EntryDirs(es: seq<TreeEntry>): map<Path, Mode> {
    if es == [] then map[] else
      var e := es[|es| - 1];
      var rest := EntryDirs(es[..|es| - 1]);
      if e.DirectoryEntry? then rest[e.path := e.mode] else rest
  }

  predicate DistinctEntryPaths(es: seq<TreeEntry>) {
    forall i, j :: 0 <= i < j < |es| ==> es[i].path != es[j].path
  }

  lemma CanonicalIsDistinct(es: seq<TreeEntry>)
    requires Canonical(es)
    ensures DistinctEntryPaths(es)
  {
    EntryLessIsStrict();
    forall i, j | 0 <= i < j < |es| ensures es[i].path != es[j].path {
      assert EntryPathLess(es[i], es[j]);
      assert !PathLess(es[j].path, es[j].path);
    }
  }

  predicate FileEntryAt(es: seq<TreeEntry>, i: nat, p: Path) {
    i < |es| && es[i].FileEntry? && es[i].path == p
  }

  predicate DirectoryEntryAt(es: seq<TreeEntry>, i: nat, p: Path) {
    i < |es| && es[i].DirectoryEntry? && es[i].path == p
  }

  lemma {:induction false} EntryFilesAre(es: seq<TreeEntry>)
    requires DistinctEntryPaths(es)
    ensures forall p :: p in EntryFiles(es) <==> exists i: nat :: FileEntryAt(es, i, p)
    ensures forall i :: 0 <= i < |es| && es[i].FileEntry? ==>
      es[i].path in EntryFiles(es) && EntryFiles(es)[es[i].path] == Node(es[i].content, es[i].mode)
    decreases |es|
  {
    if es != [] {
      var front := es[..|es| - 1];
      assert forall i :: 0 <= i < |front| ==> front[i] == es[i];
      EntryFilesAre(front);
      forall p ensures p in EntryFiles(es) <==> exists i: nat :: FileEntryAt(es, i, p) {
        if i: nat :| FileEntryAt(front, i, p) { assert FileEntryAt(es, i, p); }
        if i: nat :| FileEntryAt(es, i, p) { assert i == |front| || FileEntryAt(front, i, p); }
        if es[|front|].FileEntry? && es[|front|].path == p { assert FileEntryAt(es, |front|, p); }
      }
    }
  }

  lemma {:induction false} EntryDirsAre(es: seq<TreeEntry>)
    requires DistinctEntryPaths(es)
    ensures forall p :: p in EntryDirs(es) <==> exists i: nat :: DirectoryEntryAt(es, i, p)
    ensures forall i :: 0 <= i < |es| && es[i].DirectoryEntry? ==>
      es[i].path in EntryDirs(es) && EntryDirs(es)[es[i].path] == es[i].mode
    decreases |es|
  {
    if es != [] {
      var front := es[..|es| - 1];
      assert forall i :: 0 <= i < |front| ==> front[i] == es[i];
      EntryDirsAre(front);
      forall p ensures p in EntryDirs(es) <==> exists i: nat :: DirectoryEntryAt(es, i, p) {
        if i: nat :| DirectoryEntryAt(front, i, p) { assert DirectoryEntryAt(es, i, p); }
        if i: nat :| DirectoryEntryAt(es, i, p) { assert i == |front| || DirectoryEntryAt(front, i, p); }
        if es[|front|].DirectoryEntry? && es[|front|].path == p { assert DirectoryEntryAt(es, |front|, p); }
      }
    }
  }

  lemma EntryMaps(es: seq<TreeEntry>)
    requires Canonical(es)
    ensures forall p :: p in EntryFiles(es) <==> exists i: nat :: FileEntryAt(es, i, p)
    ensures forall p :: p in EntryDirs(es) <==> exists i: nat :: DirectoryEntryAt(es, i, p)
    ensures forall i :: 0 <= i < |es| && es[i].FileEntry? ==>
      es[i].path in EntryFiles(es) && EntryFiles(es)[es[i].path] == Node(es[i].content, es[i].mode)
    ensures forall i :: 0 <= i < |es| && es[i].DirectoryEntry? ==>
      es[i].path in EntryDirs(es) && EntryDirs(es)[es[i].path] == es[i].mode
    ensures EntryFiles(es).Keys !! EntryDirs(es).Keys
  {
    CanonicalIsDistinct(es);
    EntryFilesAre(es);
    EntryDirsAre(es);
    forall p | p in EntryFiles(es) ensures p !in EntryDirs(es) {
      var i: nat :| FileEntryAt(es, i, p);
      forall j: nat ensures !DirectoryEntryAt(es, j, p) {
        assert i < j < |es| ==> es[i].path != es[j].path;
        assert j < i ==> es[j].path != es[i].path;
      }
    }
  }

  // Executing one operation

  predicate OldFileMatches(before: FileState, node: Node) {
    before.Present? && before.identity.raw == Sha256(node.content) && before.mode == node.mode
  }

  function WriteFile(t: Tree, p: Path, node: Node): Tree {
    t.(files := t.files[p := node])
  }

  function RemoveFile(t: Tree, p: Path): Tree {
    t.(files := t.files - {p})
  }

  function AddTree(t: Tree, root: Path, state: DirectoryState): Tree {
    Tree(t.files + EntryFiles(state.entries), t.dirs[root := state.rootMode] + EntryDirs(state.entries))
  }

  function RemoveTree(t: Tree, root: Path): Tree {
    Tree(map p | p in t.files && !AtOrAbove(root, p) :: t.files[p],
         map p | p in t.dirs && !AtOrAbove(root, p) :: t.dirs[p])
  }

  /** One apply effect; `None` is a refusal that leaves the target as it was. */
  ghost function ApplyOperation(op: Operation, store: Store, t: Tree): Option<Tree> {
    match op
    case CreateFile(p, _, planned) =>
      if ParentStands(t, p) && !Exists(t, p) && store.Get(planned.contentId).Some?
      then Some(WriteFile(t, p, Node(store.Get(planned.contentId).value, planned.mode)))
      else None
    case ReplaceFile(p, before, planned) =>
      if ParentStands(t, p) && p in t.files && OldFileMatches(before, t.files[p])
         && store.Get(planned.contentId).Some?
      then Some(WriteFile(t, p, Node(store.Get(planned.contentId).value, planned.mode)))
      else None
    case DeleteFile(p, before) =>
      if ParentStands(t, p) && p in t.files && OldFileMatches(before, t.files[p])
      then Some(RemoveFile(t, p))
      else None
    case CreateTree(p, _, tree) =>
      if ParentStands(t, p) && !Exists(t, p) && HasBlobs(tree.entries, store)
      then Some(AddTree(t, p, PlannedContent(tree, store)))
      else None
    case RemoveEmptyDirectory(p, before) =>
      if ParentStands(t, p) && p in t.dirs && t.dirs[p] == before.rootMode && Below(t, p) == {}
      then Some(t.(dirs := t.dirs - {p}))
      else None
  }

  // Rolling one operation back

  /** The rollback executor reads the kind from the bytes, and not from the mode as other observations do. */
  function RollbackView(t: Tree, p: Path): FileState {
    if p in t.files then ByteState(t.files[p].content, t.files[p].mode) else Absent
  }

  datatype RollbackOutcome = Done(tree: Tree, restoredNow: bool) | ThirdStateKept | RollbackFailed

  ghost function AttemptRollback(op: Operation, backup: Option<Node>, t: Tree): RollbackOutcome {
    if FileOperation(op) then
      if op.path in t.dirs then RollbackFailed else
      match RollbackFileStep(op.before, PlannedState(op), RollbackView(t, op.path))
      case AlreadyRestored => Done(t, false)
      case RestoreOldFile =>
        if op.CreateFile? then Done(RemoveFile(t, op.path), true)
        else if backup.None? || !OldFileMatches(op.before, backup.value) || !ParentStands(t, op.path)
        then RollbackFailed
        else Done(WriteFile(t, op.path, backup.value), true)
      case _ => ThirdStateKept
    else
      if op.path in t.files || !ParentStands(t, op.path) then RollbackFailed else
      match RollbackDirectoryStep(op, DeepState(t, op.path))
      case AlreadyRestored => Done(t, false)
      case RemoveCreatedTree => Done(RemoveTree(t, op.path), true)
      case RestoreEmptyDirectory =>
        Done(t.(dirs := t.dirs[op.path := op.directoryBefore.rootMode]), true)
      case _ => ThirdStateKept
  }

  // Well-formed operations

  /** A present state recorded from an observation. */
  predicate ObservedShape(s: FileState) {
    s.Present? ==> s == ObservedState(s.identity.raw.content, s.mode)
  }

  /** The shape of recorded old states that every compiler produces. */
  predicate ShapedOperation(op: Operation) {
    && Valid(op.path)
    && (op.CreateFile? ==> op.before == Absent)
    && (op.ReplaceFile? || op.DeleteFile? ==> op.before.Present? && ObservedShape(op.before))
    && (op.CreateTree? ==> op.treeBefore == None)
    && (op.RemoveEmptyDirectory? ==> op.directoryBefore.entries == [])
  }

  /** The identity of the stored bytes, under whatever kind was declared. */
  predicate SoundFile(f: PlannedFile, store: Store) {
    && store.Get(f.contentId).Some?
    && f.identity == IdentityOf(store.Get(f.contentId).value, f.identity.kind)
  }

  /** Everything strictly below the root, every intermediate directory included, in path order. */
  ghost predicate SoundTree(root: Path, tree: PlannedTree, store: Store) {
    && HasBlobs(tree.entries, store)
    && tree.hash == TreeHash(PlannedContent(tree, store))
    && Canonical(PlannedContent(tree, store).entries)
    && (forall e :: e in tree.entries ==> Valid(e.path) && Above(root, e.path))
    && (forall e {:trigger ParentPlanned(root, tree.entries, e)} :: e in tree.entries ==> ParentPlanned(root, tree.entries, e))
  }

  /** The parent of an entry is the root or a directory entry itself. */
  predicate ParentPlanned(root: Path, es: seq<PlannedEntry>, e: PlannedEntry) {
    e.path != [] && (Parent(e.path) == root || PlannedDirectoryAt(es, Parent(e.path)))
  }

  predicate PlannedDirectoryAt(es: seq<PlannedEntry>, p: Path) {
    exists e :: e in es && e.PlannedDirectoryEntry? && e.path == p
  }

  ghost predicate SoundOperation(op: Operation, store: Store) {
    && ShapedOperation(op)
    && (op.CreateFile? || op.ReplaceFile? ==> SoundFile(op.planned, store))
    && (op.CreateTree? ==> SoundTree(op.path, op.tree, store))
  }

  /** The recorded old state of `op` is the state of its path in `t`. */
  predicate AtOldState(op: Operation, t: Tree) {
    if FileOperation(op) then op.path !in t.dirs && ObserveFile(t, op.path) == op.before
    else op.path !in t.files && ShallowState(t, op.path) == (if op.CreateTree? then None else Some(op.directoryBefore))
  }

  predicate Touches(op: Operation, p: Path) {
    if op.CreateTree? then AtOrAbove(op.path, p) else p == op.path
  }

  predicate Independent(a: Operation, b: Operation) {
    !Touches(a, b.path) && !Touches(b, a.path)
  }

  predicate SameAt(s: Tree, t: Tree, p: Path) {
    && (p in s.files <==> p in t.files)
    && (p in s.files ==> s.files[p] == t.files[p])
    && (p in s.dirs <==> p in t.dirs)
    && (p in s.dirs ==> s.dirs[p] == t.dirs[p])
  }

  lemma SameEverywhere(s: Tree, t: Tree)
    requires forall p :: SameAt(s, t, p)
    ensures s == t
  {
    assert forall p :: SameAt(s, t, p) ==> (p in s.files <==> p in t.files) && (p in s.dirs <==> p in t.dirs);
    forall p ensures p in s.files <==> p in t.files { assert SameAt(s, t, p); }
    forall p ensures p in s.dirs <==> p in t.dirs { assert SameAt(s, t, p); }
    forall p | p in s.files ensures s.files[p] == t.files[p] { assert SameAt(s, t, p); }
    forall p | p in s.dirs ensures s.dirs[p] == t.dirs[p] { assert SameAt(s, t, p); }
    assert s.files == t.files && s.dirs == t.dirs;
  }
}
