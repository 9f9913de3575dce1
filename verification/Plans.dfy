/** Observed snapshots, the content store, and operation plans. */
module Plans {
  import opened Results
  import opened Paths
  import opened Identity

  // The content-addressed store

  datatype Limits = Limits(maxPaths: nat, maxOperations: nat, maxFileBytes: nat, maxUniqueBytes: nat)

  datatype Store = Store(limits: Limits, records: seq<Digest>, uniqueBytes: nat, index: map<Digest, Bytes>)
  {
    function Get(id: Digest): Option<Bytes> {
      if id in index then Some(index[id]) else None
    }

    /** Every record is stored once, under the digest of its own bytes. */
    ghost predicate Verified() {
      && (forall id :: id in index ==> index[id] == id.content)
      && (forall id :: id in records <==> id in index)
      && (forall i, j :: 0 <= i < j < |records| ==> records[i] != records[j])
      && uniqueBytes == TotalBytes(records)
    }

    /**
     Storing bytes keeps everything stored before and adds them at most once; refused
     exactly when they exceed the file limit, or are new and exceed the total.
     */
    function Intern(content: Bytes): (r: Result<(Digest, Store), string>)
      ensures r.Ok? <==>
        && |content| <= limits.maxFileBytes
        && (Get(Sha256(content)).Some? || uniqueBytes + |content| <= limits.maxUniqueBytes)
      ensures r.Ok? ==>
        && r.value.0 == Sha256(content) && r.value.1.limits == limits
        && forall id :: id in r.value.1.index <==> id in index || id == Sha256(content)
      ensures Verified() && r.Ok? ==>
        && r.value.1.Verified()
        && r.value.1.Get(r.value.0) == Some(content)
        && (forall id :: id in index ==> r.value.1.Get(id) == Get(id))
        && (Sha256(content) in index ==> r.value.1 == this)
    {
      var id := Sha256(content);
      if |content| > limits.maxFileBytes then Err("file_bytes")
      else if id in index then Ok((id, this))
      else if uniqueBytes + |content| > limits.maxUniqueBytes then Err("unique_bytes")
      else
        TotalBytesAppend(records, id);
        Ok((id, Store(limits, records + [id], uniqueBytes + |content|, index[id := content])))
    }
  }

  function TotalBytes(ids: seq<Digest>): nat {
    if ids == [] then 0 else |ids[0].content| + TotalBytes(ids[1..])
  }

  lemma {:induction false} TotalBytesAppend(ids: seq<Digest>, id: Digest)
    ensures TotalBytes(ids + [id]) == TotalBytes(ids) + |id.content|
    decreases |ids|
  {
    if ids == [] {
      assert ids + [id] == [id];
    } else {
      assert (ids + [id])[1..] == ids[1..] + [id];
      TotalBytesAppend(ids[1..], id);
    }
  }

  function EmptyStore(limits: Limits): (s: Store)
    ensures s.Verified()
  {
    Store(limits, [], 0, map[])
  }

  // Observations

  datatype ObservedFile = ObservedFile(path: Path, state: FileState, content: Bytes)
  datatype ObservedDirectory = ObservedDirectory(path: Path, state: DirectoryState)
  datatype Snapshot = Snapshot(files: seq<ObservedFile>, directories: seq<ObservedDirectory>)

  /** The last entry for each path wins, as when a dictionary is built from the list. */
  function FileStates(es: seq<ObservedFile>): map<Path, FileState> {
    if es == [] then map[] else
      var last := es[|es| - 1];
      FileStates(es[..|es| - 1])[last.path := last.state]
  }

  function DirectoryStates(es: seq<ObservedDirectory>): map<Path, DirectoryState> {
    if es == [] then map[] else
      var last := es[|es| - 1];
      DirectoryStates(es[..|es| - 1])[last.path := last.state]
  }

  // Operations

  datatype PlannedFile = PlannedFile(identity: ContentIdentity, mode: Mode, contentId: Digest)

  datatype PlannedEntry =
    | PlannedDirectoryEntry(path: Path, mode: Mode)
    | PlannedFileEntry(path: Path, file: PlannedFile)

  datatype PlannedTree = PlannedTree(rootMode: Mode, entries: seq<PlannedEntry>, hash: TreeDigest)

  predicate DistinctEntries(es: seq<PlannedEntry>) {
    forall i, j :: 0 <= i < j < |es| ==> es[i].path != es[j].path
  }

  datatype Operation =
    | CreateFile(path: Path, before: FileState, planned: PlannedFile)
    | ReplaceFile(path: Path, before: FileState, planned: PlannedFile)
    | DeleteFile(path: Path, before: FileState)
    | CreateTree(path: Path, treeBefore: Option<DirectoryState>, tree: PlannedTree)
    | RemoveEmptyDirectory(path: Path, directoryBefore: DirectoryState)

  predicate FileOperation(op: Operation) {
    op.CreateFile? || op.ReplaceFile? || op.DeleteFile?
  }

  /** The state a file operation leaves at its path. */
  function PlannedState(op: Operation): FileState
    requires FileOperation(op)
  {
    if op.DeleteFile? then Absent else Present(op.planned.identity, op.planned.mode)
  }

  datatype OperationKind = Initial | Add | Restore | Reconcile

  datatype Plan = Plan(
    kind: OperationKind,
    target: nat,
    operations: seq<Operation>,
    store: Store)

  // The planned content of a tree, as the bytes it will hold

  predicate HasBlobs(entries: seq<PlannedEntry>, store: Store) {
    forall e :: e in entries && e.PlannedFileEntry? ==> store.Get(e.file.contentId).Some?
  }

  function EntryContent(e: PlannedEntry, store: Store): TreeEntry
    requires e.PlannedFileEntry? ==> store.Get(e.file.contentId).Some?
  {
    match e
    case PlannedDirectoryEntry(path, mode) => DirectoryEntry(path, mode)
    case PlannedFileEntry(path, file) => FileEntry(path, store.Get(file.contentId).value, file.mode)
  }

  function PlannedContent(tree: PlannedTree, store: Store): (r: DirectoryState)
    requires HasBlobs(tree.entries, store)
    ensures |r.entries| == |tree.entries|
    ensures forall i :: 0 <= i < |tree.entries| ==>
      tree.entries[i] in tree.entries && r.entries[i] == EntryContent(tree.entries[i], store)
  {
    DirectoryState(tree.rootMode,
      seq(|tree.entries|, i requires 0 <= i < |tree.entries| =>
        assert tree.entries[i] in tree.entries; EntryContent(tree.entries[i], store)))
  }
}
