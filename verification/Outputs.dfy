/** Planned outputs: what a compiler is asked to leave at a path, and how one output is classified. */
module Outputs {
  import opened Results
  import opened Paths
  import opened Sorting
  import opened Identity
  import opened Plans
  import opened Apply
  import opened Receipts

  datatype Refused =
    | InvalidTarget
    | BlobMissing
    | PathCollision
    | CleanupDisagreement
    | UnmatchedDeclaration
    | IllegalReplaceTarget
    | UndeclaredCollision
    | InvalidMaintenance
    | InvalidManifest
    | RenderContractViolation
    | PlanLimitExceeded

  datatype Output = Output(path: Path, kind: Kind, mode: Mode, contentId: Digest)

  /** A file to be installed, with its bytes. */
  datatype RenderFile = RenderFile(path: Path, kind: Kind, mode: Mode, content: Bytes)

  function OutputOf(file: RenderFile): Output {
    Output(file.path, file.kind, file.mode, Sha256(file.content))
  }

  predicate Stored(outputs: seq<Output>, store: Store) {
    forall o :: o in outputs ==> store.Get(o.contentId).Some?
  }

  function Resolved(o: Output, store: Store): PlannedFile
    requires store.Get(o.contentId).Some?
  {
    PlannedFile(IdentityOf(store.Get(o.contentId).value, o.kind), o.mode, o.contentId)
  }

  function ExpectedOf(o: Output, store: Store): ExpectedFile
    requires store.Get(o.contentId).Some?
  {
    ExpectedFile(o.kind, o.mode, store.Get(o.contentId).value)
  }

  // What a list of outputs has to satisfy

  /** Valid paths, each once, none an ancestor of another. */
  predicate WellFormed(outputs: seq<Output>) {
    && (forall i :: 0 <= i < |outputs| ==> Valid(outputs[i].path))
    && (forall i, j :: 0 <= i < j < |outputs| ==> outputs[i].path != outputs[j].path)
    && Unnested(outputs)
  }

  predicate Unnested(outputs: seq<Output>) {
    forall i, j :: 0 <= i < |outputs| && 0 <= j < |outputs| && outputs[i].path != [] ==>
      !Above(outputs[i].path, outputs[j].path)
  }

  function PathsOf(outputs: seq<Output>): (r: set<Path>)
    ensures forall i :: 0 <= i < |outputs| ==> outputs[i].path in r
    ensures forall p :: p in r ==> exists i :: 0 <= i < |outputs| && outputs[i].path == p
  {
    set i | 0 <= i < |outputs| :: outputs[i].path
  }

  /** Succeeds exactly when no output is an ancestor of another. */
  method ValidateNoNestedOutputs(outputs: seq<Output>) returns (r: Result<(), Refused>)
    ensures r.Ok? <==> Unnested(outputs)
  {
    var values := PathsOf(outputs);
    for i := 0 to |outputs|
      invariant forall k, j :: 0 <= k < |outputs| && 0 <= j < i && outputs[k].path != [] ==>
        !Above(outputs[k].path, outputs[j].path)
    {
      var parents := Parents(outputs[i].path);
      for n := 0 to |parents|
        invariant forall m :: 0 <= m < n ==> parents[m] !in values
      {
        if parents[n] in values {
          var k :| 0 <= k < |outputs| && outputs[k].path == parents[n];
          assert Above(outputs[k].path, outputs[i].path);
          return Err(InvalidTarget);
        }
      }
      forall k | 0 <= k < |outputs| && outputs[k].path != [] ensures !Above(outputs[k].path, outputs[i].path) {
        assert outputs[k].path in parents <==> Above(outputs[k].path, outputs[i].path);
      }
    }
    return Ok(());
  }

  /** Acceptable paths, all distinct even when letter case is folded. */
  ghost predicate CleanPaths(paths: seq<Path>, fold: Path -> Path, limited: bool) {
    && (forall i :: 0 <= i < |paths| ==> Parses(paths[i]) && (limited ==> WithinLimits(paths[i])))
    && (forall i, j :: 0 <= i < j < |paths| ==> paths[i] != paths[j] && fold(paths[i]) != fold(paths[j]))
  }

  /** `fold` lower-cases a path; a snapshot's paths are not held to the length limits. */
  method ValidatePaths(paths: seq<Path>, fold: Path -> Path, limited: bool) returns (r: Result<(), Refused>)
    ensures r.Ok? <==> CleanPaths(paths, fold, limited)
  {
    var seen: set<Path>, lowered: set<Path> := {}, {};
    for i := 0 to |paths|
      invariant seen == set k | 0 <= k < i :: paths[k]
      invariant lowered == set k | 0 <= k < i :: fold(paths[k])
      invariant forall k :: 0 <= k < i ==> Parses(paths[k]) && (limited ==> WithinLimits(paths[k]))
      invariant forall k, j :: 0 <= k < j < i ==> paths[k] != paths[j] && fold(paths[k]) != fold(paths[j])
    {
      if paths[i] in seen || fold(paths[i]) in lowered || (limited && !WithinLimits(paths[i])) || !Parses(paths[i]) {
        return Err(InvalidTarget);
      }
      seen, lowered := seen + {paths[i]}, lowered + {fold(paths[i])};
    }
    return Ok(());
  }

  predicate InOrder(paths: seq<Path>) {
    Sort(paths, PathLess) == paths
  }

  lemma SortingIsOrder(paths: seq<Path>)
    requires forall i :: 0 <= i < |paths| ==> Valid(paths[i])
    ensures InOrder(paths) <==> NonDecreasing(paths, PathLess)
  {
    EntryLessIsStrict();
    if NonDecreasing(paths, PathLess) { SortOfSorted(paths, PathLess); }
    forall a, b | a in paths && b in paths ensures PathLess(a, b) || PathLess(b, a) || a == b {
      PathOrderIsTotal(a, b);
    }
    SortSorts(paths, PathLess);
  }

  // Interning

  /** The contents not stored yet, each once, in the order in which they come. */
  function NewContents(files: seq<RenderFile>, known: set<Digest>): (r: seq<Digest>)
    ensures forall d :: d in r <==> d !in known && exists i :: 0 <= i < |files| && Sha256(files[i].content) == d
    ensures forall i, j :: 0 <= i < j < |r| ==> r[i] != r[j]
  {
    if files == [] then [] else
      var rest := files[..|files| - 1];
      var front, d := NewContents(rest, known), Sha256(files[|files| - 1].content);
      assert files[|files| - 1].content == d.content && forall i :: 0 <= i < |rest| ==> rest[i] == files[i];
      if d in known || d in front then front else front + [d]
  }

  /** Every file is within the file limit, and what is new is within the total. */
  predicate Internable(files: seq<RenderFile>, store: Store) {
    var added := NewContents(files, store.index.Keys);
    && (forall f :: f in files ==> |f.content| <= store.limits.maxFileBytes)
    && (added == [] || store.uniqueBytes + TotalBytes(added) <= store.limits.maxUniqueBytes)
  }

  lemma {:induction false} TotalBytesGrows(a: seq<Digest>, b: seq<Digest>)
    ensures TotalBytes(a) <= TotalBytes(a + b)
    decreases |b|
  {
    if b == [] {
      assert a + b == a;
    } else {
      assert a + b == (a + b[..|b| - 1]) + [b[|b| - 1]];
      TotalBytesAppend(a + b[..|b| - 1], b[|b| - 1]);
      TotalBytesGrows(a, b[..|b| - 1]);
    }
  }

  /** What is new in a prefix comes first in what is new. */
  lemma {:induction false} NewInPrefix(files: seq<RenderFile>, known: set<Digest>, i: nat) returns (more: seq<Digest>)
    requires i <= |files|
    ensures NewContents(files, known) == NewContents(files[..i], known) + more
    decreases |files|
  {
    if i == |files| {
      assert files[..i] == files;
      more := [];
    } else {
      var rest, d := files[..|files| - 1], Sha256(files[|files| - 1].content);
      assert rest[..i] == files[..i];
      more := NewInPrefix(rest, known, i);
      if d !in known && d !in NewContents(rest, known) { more := more + [d]; }
    }
  }

  lemma InternedStep(files: seq<RenderFile>, known: set<Digest>, i: nat)
    requires i < |files|
    ensures var front, d := NewContents(files[..i], known), Sha256(files[i].content);
      NewContents(files[..i + 1], known) == if d in known || d in front then front else front + [d]
  {
    assert files[..i + 1][..i] == files[..i];
  }

  /** A file that cannot be stored after those before it stops the whole list. */
  lemma OneTooMany(files: seq<RenderFile>, store: Store, after: Store, i: nat)
    requires i < |files| && after.limits == store.limits
    requires after.uniqueBytes == store.uniqueBytes + TotalBytes(NewContents(files[..i], store.index.Keys))
    requires forall d :: d in after.index <==> d in store.index || d in NewContents(files[..i], store.index.Keys)
    requires after.Intern(files[i].content).Err?
    ensures !Internable(files, store)
  {
    var known, d := store.index.Keys, Sha256(files[i].content);
    InternedStep(files, known, i);
    if |files[i].content| <= store.limits.maxFileBytes {
      var more := NewInPrefix(files, known, i + 1);
      TotalBytesAppend(NewContents(files[..i], known), d);
      TotalBytesGrows(NewContents(files[..i + 1], known), more);
    }
  }

  /** What has been stored so far: the digests, their total, and that it stayed within the limits. */
  ghost predicate Interned(files: seq<RenderFile>, store: Store, after: Store) {
    var added := NewContents(files, store.index.Keys);
    && after.limits == store.limits && after.uniqueBytes == store.uniqueBytes + TotalBytes(added)
    && (forall d :: d in after.index <==> d in store.index || d in added)
    && Internable(files, store)
  }

  lemma InternedOne(files: seq<RenderFile>, store: Store, after: Store, i: nat, next: Store)
    requires i < |files| && Interned(files[..i], store, after)
    requires after.Intern(files[i].content) == Ok((Sha256(files[i].content), next))
    ensures Interned(files[..i + 1], store, next)
  {
    var known, d := store.index.Keys, Sha256(files[i].content);
    var before := NewContents(files[..i], known);
    InternedStep(files, known, i);
    TotalBytesAppend(before, d);
    assert d in after.index <==> d in known || d in before;
    InternedTotals(after, files[i].content, next);
    SizesGrow(files, store.limits, i);
  }

  lemma InternedTotals(after: Store, content: Bytes, next: Store)
    requires after.Intern(content) == Ok((Sha256(content), next))
    ensures next.limits == after.limits && |content| <= after.limits.maxFileBytes
    ensures forall d :: d in next.index <==> d in after.index || d == Sha256(content)
    ensures if Sha256(content) in after.index then next.uniqueBytes == after.uniqueBytes
      else next.uniqueBytes == after.uniqueBytes + |content| && next.uniqueBytes <= after.limits.maxUniqueBytes
  {
  }

  lemma SizesGrow(files: seq<RenderFile>, limits: Limits, i: nat)
    requires i < |files| && |files[i].content| <= limits.maxFileBytes
    requires forall f :: f in files[..i] ==> |f.content| <= limits.maxFileBytes
    ensures forall f :: f in files[..i + 1] ==> |f.content| <= limits.maxFileBytes
  {
    assert files[..i + 1] == files[..i] + [files[i]];
  }

  /** The outputs of `files`, each with its bytes stored, and nothing lost that was stored before. */
  ghost predicate OutputsOf(files: seq<RenderFile>, outputs: seq<Output>, store: Store, after: Store) {
    && after.Verified() && |outputs| == |files|
    && (forall i :: 0 <= i < |files| ==>
          outputs[i] == OutputOf(files[i]) && after.Get(outputs[i].contentId) == Some(files[i].content))
    && (forall id :: store.Get(id).Some? ==> after.Get(id) == store.Get(id))
  }

  lemma StoreKeeps(after: Store, content: Bytes, next: Store)
    requires after.Verified() && after.Intern(content) == Ok((Sha256(content), next))
    ensures next.Verified() && next.Get(Sha256(content)) == Some(content)
    ensures forall id :: after.Get(id).Some? ==> next.Get(id) == after.Get(id)
  {
  }

  lemma OneMoreOutput(files: seq<RenderFile>, outputs: seq<Output>, store: Store, after: Store, next: Store, i: nat)
    requires i < |files| && OutputsOf(files[..i], outputs, store, after)
    requires after.Intern(files[i].content) == Ok((Sha256(files[i].content), next))
    ensures OutputsOf(files[..i + 1], outputs + [OutputOf(files[i])], store, next)
  {
    StoreKeeps(after, files[i].content, next);
    var front, more := files[..i], outputs + [OutputOf(files[i])];
    assert files[..i + 1] == front + [files[i]];
    forall k | 0 <= k < i + 1
      ensures more[k] == OutputOf(files[..i + 1][k]) && next.Get(more[k].contentId) == Some(files[..i + 1][k].content)
    {
      if k < i { assert files[..i + 1][k] == front[k] && more[k] == outputs[k]; }
    }
  }

  /**
   Stores every file under its own digest; nothing stored before is lost.  Refused
   exactly when a file is too large, or the new contents together are.
   */
  method InternOutputs(files: seq<RenderFile>, store: Store) returns (r: Result<(seq<Output>, Store), Refused>)
    requires store.Verified()
    ensures r.Ok? <==> Internable(files, store)
    ensures r.Err? ==> r.error == PlanLimitExceeded
    ensures r.Ok? ==> OutputsOf(files, r.value.0, store, r.value.1)
  {
    var outputs: seq<Output> := [];
    var after := store;
    for i := 0 to |files|
      invariant Interned(files[..i], store, after) && OutputsOf(files[..i], outputs, store, after)
    {
      match after.Intern(files[i].content)
      case Err(_) =>
        OneTooMany(files, store, after, i);
        return Err(PlanLimitExceeded);
      case Ok((id, updated)) =>
        assert id == Sha256(files[i].content);
        InternedOne(files, store, after, i, updated);
        OneMoreOutput(files, outputs, store, after, updated, i);
        after := updated;
        outputs := outputs + [Output(files[i].path, files[i].kind, files[i].mode, id)];
    }
    assert files[..|files|] == files;
    return Ok((outputs, after));
  }

  // Classification

  /** The operation of one output that no created tree covers. */
  function PlainOperation(o: Output, ob: Observed, store: Store): Operation
    requires store.Get(o.contentId).Some?
  {
    if o.path in ob.states then ReplaceFile(o.path, ob.states[o.path], Resolved(o, store))
    else CreateFile(o.path, Absent, Resolved(o, store))
  }

  predicate Classifiable(o: Output, ob: Observed, store: Store, refusePresentOld: bool) {
    && o.path !in ob.directoryStates
    && store.Get(o.contentId).Some?
    && (refusePresentOld ==> o.path !in ob.states)
  }

  function Uncovered(outputs: seq<Output>, covered: set<Path>): (r: seq<Output>)
    ensures forall o :: o in r <==> o in outputs && o.path !in covered
  {
    if outputs == [] then [] else
      var front := Uncovered(outputs[..|outputs| - 1], covered);
      var o := outputs[|outputs| - 1];
      assert outputs == outputs[..|outputs| - 1] + [o];
      if o.path in covered then front else front + [o]
  }

  /** One operation per output, in order; refused exactly when some output cannot be placed. */
  method ClassifyOutputs(outputs: seq<Output>, ob: Observed, store: Store, refusePresentOld: bool)
    returns (r: Result<seq<Operation>, Refused>)
    ensures r.Ok? <==> forall o :: o in outputs ==> Classifiable(o, ob, store, refusePresentOld)
    ensures r.Ok? ==> |r.value| == |outputs|
    ensures r.Ok? ==> forall i :: 0 <= i < |outputs| ==>
      store.Get(outputs[i].contentId).Some? && r.value[i] == PlainOperation(outputs[i], ob, store)
  {
    var operations: seq<Operation> := [];
    for i := 0 to |outputs|
      invariant forall k :: 0 <= k < i ==> Classifiable(outputs[k], ob, store, refusePresentOld)
      invariant |operations| == i
      invariant forall k :: 0 <= k < i ==> operations[k] == PlainOperation(outputs[k], ob, store)
    {
      var o := outputs[i];
      assert o in outputs;
      if o.path in ob.directoryStates { return Err(InvalidTarget); }
      if store.Get(o.contentId).None? { return Err(BlobMissing); }
      if o.path in ob.states && refusePresentOld { return Err(InvalidTarget); }
      operations := operations + [PlainOperation(o, ob, store)];
    }
    return Ok(operations);
  }
}
