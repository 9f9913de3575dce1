/**
 The byte-erased plan receipt and the plan that recovery rebuilds from it.

 Documents are values, not text; a digest and a path are values of their own, so
 that "is a 256-bit digest" and "parses as a path" are constructor tests.
 */
module Receipts {
  import opened Results
  import opened Paths
  import opened Identity
  import opened Plans
  import opened Rollback

  /** The field names of receipts and journals, and any other. */
  datatype Key =
    | KindKey | ModeKey | NormalizedSha256Key | RawSha256Key | SizeKey | ContentIdKey | PathKey | FileKindKey
    | RootModeKey | RawTreeSha256Key | EntriesKey | ExpectedOldKey | PlannedNewKey | RootKey | PlanSchemaKey
    | OperationKindKey | TargetBindingKey | OperationsKey | TransactionIdKey | OperationIndexKey | RoleKey
    | OwnershipTokenSha256Key | ExpectedKindKey | ExpectedRawSha256Key | ExpectedModeKey | SchemaVersionKey
    | OperationKey | TargetKey | PhaseKey | PreparationsKey | ReceiptKey | OtherKey(text: string)

  datatype Value =
    | Null
    | Int(i: int)
    | Str(s: string)
    | PathText(p: Path)
    | Hash(d: Digest)
    | TreeHashText(t: TreeDigest)
    | List(items: seq<Value>)
    | Object(fields: map<Key, Value>)

  datatype ReceiptError =
    | BadPath | BadIdentity | BadOldState | BadPlannedState | BadEntries | BadOperation | UnknownOperation
    | UnknownOperationKind | ForeignTarget | NoOperations

  // Paths inside the limits

  function Utf8Length(s: string): nat {
    if s == [] then 0 else
      var c := s[0] as int;
      (if c < 0x80 then 1 else if c < 0x800 then 2 else if c < 0x10000 then 3 else 4) + Utf8Length(s[1..])
  }

  predicate Parses(p: Path) {
    && Valid(p)
    && forall i :: 0 <= i < |p| ==>
      && p[i] != "." && p[i] != ".."
      && forall c :: c in p[i] ==> c != '\\' && c as int >= 0x20
  }

  predicate WithinLimits(p: Path) {
    && Utf8Length(Render(p)) <= 1024
    && |p| <= 64
    && forall i :: 0 <= i < |p| ==> Utf8Length(p[i]) <= 255
  }

  predicate Portable(p: Path) {
    Parses(p) && WithinLimits(p)
  }

  // Erasing a plan

  function KindText(k: Kind): string { if k.Text? then "text" else "binary" }

  function IdentityFields(id: ContentIdentity, mode: Mode): map<Key, Value> {
    map[KindKey := Str(KindText(id.kind)), ModeKey := Int(mode), NormalizedSha256Key := Hash(id.normalized),
        RawSha256Key := Hash(id.raw), SizeKey := Int(id.size)]
  }

  function StateDocument(s: FileState): Value {
    if s.Absent? then Null else Object(IdentityFields(s.identity, s.mode))
  }

  function PlannedFields(f: PlannedFile): map<Key, Value> {
    IdentityFields(f.identity, f.mode)[ContentIdKey := Hash(f.contentId)]
  }

  function EntryDocument(e: PlannedEntry): Value {
    match e
    case PlannedDirectoryEntry(path, mode) =>
      Object(map[KindKey := Str("directory"), PathKey := PathText(path), ModeKey := Int(mode)])
    case PlannedFileEntry(path, f) =>
      Object(map[KindKey := Str("file"), FileKindKey := Str(KindText(f.identity.kind)), PathKey := PathText(path),
                 ModeKey := Int(f.mode), NormalizedSha256Key := Hash(f.identity.normalized),
                 RawSha256Key := Hash(f.identity.raw), SizeKey := Int(f.identity.size),
                 ContentIdKey := Hash(f.contentId)])
  }

  function EntryDocuments(es: seq<PlannedEntry>): (r: seq<Value>)
    ensures |r| == |es|
    ensures forall i :: 0 <= i < |es| ==> r[i] == EntryDocument(es[i])
  {
    seq(|es|, i requires 0 <= i < |es| => EntryDocument(es[i]))
  }

  function TreeDocument(t: PlannedTree): Value {
    Object(map[RootModeKey := Int(t.rootMode), RawTreeSha256Key := TreeHashText(t.hash),
               EntriesKey := List(EntryDocuments(t.entries))])
  }

  function FileDocument(kind: string, path: Path, before: FileState, planned: Value): Value {
    Object(map[KindKey := Str(kind), PathKey := PathText(path), ExpectedOldKey := StateDocument(before),
               PlannedNewKey := planned])
  }

  function OperationDocument(op: Operation): Value {
    match op
    case CreateFile(p, before, f) => FileDocument("create_file", p, before, Object(PlannedFields(f)))
    case ReplaceFile(p, before, f) => FileDocument("replace_file", p, before, Object(PlannedFields(f)))
    case DeleteFile(p, before) => FileDocument("delete_file", p, before, Null)
    case CreateTree(p, _, tree) =>
      Object(map[KindKey := Str("create_tree"), RootKey := PathText(p), ExpectedOldKey := Null,
                 PlannedNewKey := TreeDocument(tree)])
    case RemoveEmptyDirectory(p, before) =>
      Object(map[KindKey := Str("remove_empty_directory"), PathKey := PathText(p),
                 ExpectedOldKey := Object(map[ModeKey := Int(before.rootMode),
                                              RawTreeSha256Key := TreeHashText(TreeHash(before))]),
                 PlannedNewKey := Null])
  }

  function OperationDocuments(ops: seq<Operation>): (r: seq<Value>)
    ensures |r| == |ops|
    ensures forall i :: 0 <= i < |ops| ==> r[i] == OperationDocument(ops[i])
  {
    seq(|ops|, i requires 0 <= i < |ops| => OperationDocument(ops[i]))
  }

  function OperationKindText(k: OperationKind): string {
    match k
    case Initial => "initial"
    case Add => "add"
    case Restore => "restore"
    case Reconcile => "reconcile"
  }

  function Receipt(plan: Plan): Value {
    Object(map[PlanSchemaKey := Int(1), OperationKindKey := Str(OperationKindText(plan.kind)),
               TargetBindingKey := Int(plan.target), OperationsKey := List(OperationDocuments(plan.operations))])
  }

  method BuildReceipt(plan: Plan) returns (r: Value)
    ensures r == Receipt(plan)
  {
    var operations: seq<Value> := [];
    for i := 0 to |plan.operations|
      invariant operations == OperationDocuments(plan.operations[..i])
    {
      operations := operations + [OperationDocument(plan.operations[i])];
    }
    assert plan.operations[..|plan.operations|] == plan.operations;
    r := Object(map[PlanSchemaKey := Int(1), OperationKindKey := Str(OperationKindText(plan.kind)),
                    TargetBindingKey := Int(plan.target), OperationsKey := List(operations)]);
  }

  // Rebuilding

  function Field(fields: map<Key, Value>, key: Key): Value {
    if key in fields then fields[key] else Null
  }

  function ReadPath(v: Value): Result<Path, ReceiptError> {
    if v.PathText? && Portable(v.p) then Ok(v.p) else Err(BadPath)
  }

  predicate ModeInRange(i: int) { 0 <= i <= 4095 }

  /** The identity fields shared by observed and planned documents; `install` narrows the modes. */
  function ReadIdentity(fields: map<Key, Value>, install: bool): Result<(ContentIdentity, Mode), ReceiptError> {
    var kind, mode, size := Field(fields, KindKey), Field(fields, ModeKey), Field(fields, SizeKey);
    var normalized, raw := Field(fields, NormalizedSha256Key), Field(fields, RawSha256Key);
    if (kind != Str("text") && kind != Str("binary")) || !mode.Int? || !ModeInRange(mode.i)
       || (install && mode.i != FILE_MODE && mode.i != EXECUTABLE_MODE)
       || !normalized.Hash? || !raw.Hash? || !size.Int? || size.i < 0
    then Err(BadIdentity)
    else Ok((ContentIdentity(if kind == Str("text") then Kind.Text else Kind.Binary, normalized.d, raw.d, size.i), mode.i))
  }

  const IDENTITY_KEYS: set<Key> := {KindKey, ModeKey, NormalizedSha256Key, RawSha256Key, SizeKey}

  function ReadState(v: Value): Result<FileState, ReceiptError> {
    if v.Null? then Ok(Absent)
    else if !v.Object? || v.fields.Keys != IDENTITY_KEYS then Err(BadOldState)
    else
      match ReadIdentity(v.fields, false)
      case Err(e) => Err(e)
      case Ok(r) => Ok(Present(r.0, r.1))
  }

  function ReadPlanned(v: Value): Result<PlannedFile, ReceiptError> {
    if !v.Object? || (v.fields.Keys != IDENTITY_KEYS && v.fields.Keys != IDENTITY_KEYS + {ContentIdKey})
    then Err(BadPlannedState)
    else
      match ReadIdentity(v.fields, true)
      case Err(e) => Err(e)
      case Ok(r) =>
        if !Field(v.fields, ContentIdKey).Hash? then Err(BadPlannedState)
        else Ok(PlannedFile(r.0, r.1, v.fields[ContentIdKey].d))
  }

  function ReadEntry(v: Value, seen: set<Path>): Result<PlannedEntry, ReceiptError> {
    if !v.Object? then Err(BadPlannedState)
    else if Field(v.fields, KindKey) == Str("directory") then
      if v.fields.Keys != {KindKey, PathKey, ModeKey} then Err(BadEntries) else
      match ReadPath(v.fields[PathKey])
      case Err(e) => Err(e)
      case Ok(p) =>
        if p in seen || v.fields[ModeKey] != Int(DIRECTORY_MODE) then Err(BadEntries)
        else Ok(PlannedDirectoryEntry(p, DIRECTORY_MODE))
    else if Field(v.fields, KindKey) == Str("file") then
      if v.fields.Keys != {KindKey, FileKindKey, PathKey, ModeKey, NormalizedSha256Key, RawSha256Key, SizeKey, ContentIdKey}
      then Err(BadEntries) else
      match ReadPath(v.fields[PathKey])
      case Err(e) => Err(e)
      case Ok(p) =>
        if p in seen then Err(BadEntries) else
        match ReadPlanned(Object(map[KindKey := v.fields[FileKindKey], ModeKey := v.fields[ModeKey],
            NormalizedSha256Key := v.fields[NormalizedSha256Key], RawSha256Key := v.fields[RawSha256Key],
            SizeKey := v.fields[SizeKey], ContentIdKey := v.fields[ContentIdKey]]))
        case Err(e) => Err(e)
        case Ok(f) => Ok(PlannedFileEntry(p, f))
    else Err(BadEntries)
  }

  /** Reads entries left to right, refusing a path already seen. */
  function ReadEntries(vs: seq<Value>): Result<seq<PlannedEntry>, ReceiptError> {
    if vs == [] then Ok([]) else
      match ReadEntries(vs[..|vs| - 1])
      case Err(e) => Err(e)
      case Ok(es) =>
        match ReadEntry(vs[|vs| - 1], set e | e in es :: e.path)
        case Err(e) => Err(e)
        case Ok(e) => Ok(es + [e])
  }

  function ReadTree(v: Value): Result<PlannedTree, ReceiptError> {
    if !v.Object? || v.fields.Keys != {RootModeKey, RawTreeSha256Key, EntriesKey}
       || v.fields[RootModeKey] != Int(DIRECTORY_MODE) || !v.fields[RawTreeSha256Key].TreeHashText?
       || !v.fields[EntriesKey].List?
    then Err(BadPlannedState)
    else
      match ReadEntries(v.fields[EntriesKey].items)
      case Err(e) => Err(e)
      case Ok(es) => Ok(PlannedTree(DIRECTORY_MODE, es, v.fields[RawTreeSha256Key].t))
  }

  const FILE_KEYS: set<Key> := {KindKey, PathKey, ExpectedOldKey, PlannedNewKey}

  function ReadWrite(fields: map<Key, Value>, create: bool): Result<Operation, ReceiptError> {
    if fields.Keys != FILE_KEYS then Err(BadOperation) else
    match ReadPath(fields[PathKey])
    case Err(e) => Err(e)
    case Ok(p) =>
      match ReadState(fields[ExpectedOldKey])
      case Err(e) => Err(e)
      case Ok(before) =>
        match ReadPlanned(fields[PlannedNewKey])
        case Err(e) => Err(e)
        case Ok(f) => Ok(if create then CreateFile(p, before, f) else ReplaceFile(p, before, f))
  }

  function ReadDelete(fields: map<Key, Value>): Result<Operation, ReceiptError> {
    if fields.Keys != FILE_KEYS then Err(BadOperation) else
    match ReadPath(fields[PathKey])
    case Err(e) => Err(e)
    case Ok(p) =>
      match ReadState(fields[ExpectedOldKey])
      case Err(e) => Err(e)
      case Ok(before) => if fields[PlannedNewKey] != Null then Err(BadPlannedState) else Ok(DeleteFile(p, before))
  }

  function ReadCreateTree(fields: map<Key, Value>): Result<Operation, ReceiptError> {
    if fields.Keys != {KindKey, RootKey, ExpectedOldKey, PlannedNewKey} then Err(BadOperation) else
    match ReadPath(fields[RootKey])
    case Err(e) => Err(e)
    case Ok(p) =>
      if fields[ExpectedOldKey] != Null then Err(BadOldState) else
      match ReadTree(fields[PlannedNewKey])
      case Err(e) => Err(e)
      case Ok(tree) => Ok(CreateTree(p, None, tree))
  }

  function ReadRemove(fields: map<Key, Value>): Result<Operation, ReceiptError> {
    if fields.Keys != FILE_KEYS then Err(BadOperation) else
    match ReadPath(fields[PathKey])
    case Err(e) => Err(e)
    case Ok(p) =>
      var expected := fields[ExpectedOldKey];
      if !expected.Object? || expected.fields.Keys != {ModeKey, RawTreeSha256Key}
         || !expected.fields[ModeKey].Int? || !ModeInRange(expected.fields[ModeKey].i)
         || !expected.fields[RawTreeSha256Key].TreeHashText? || fields[PlannedNewKey] != Null
      then Err(BadOldState)
      else Ok(RemoveEmptyDirectory(p, DirectoryState(expected.fields[ModeKey].i, [])))
  }

  function ReadOperation(v: Value): Result<Operation, ReceiptError> {
    if !v.Object? then Err(BadOperation) else
    var kind := Field(v.fields, KindKey);
    if kind == Str("create_file") then ReadWrite(v.fields, true)
    else if kind == Str("replace_file") then ReadWrite(v.fields, false)
    else if kind == Str("delete_file") then ReadDelete(v.fields)
    else if kind == Str("create_tree") then ReadCreateTree(v.fields)
    else if kind == Str("remove_empty_directory") then ReadRemove(v.fields)
    else Err(UnknownOperation)
  }

  function ReadOperations(vs: seq<Value>): Result<seq<Operation>, ReceiptError> {
    if vs == [] then Ok([]) else
      match ReadOperations(vs[..|vs| - 1])
      case Err(e) => Err(e)
      case Ok(ops) =>
        match ReadOperation(vs[|vs| - 1])
        case Err(e) => Err(e)
        case Ok(op) => Ok(ops + [op])
  }

  function ReadKind(v: Value): Result<OperationKind, ReceiptError> {
    if v == Str("initial") then Ok(Initial)
    else if v == Str("add") then Ok(Add)
    else if v == Str("restore") then Ok(Restore)
    else if v == Str("reconcile") then Ok(Reconcile)
    else Err(UnknownOperationKind)
  }

  function Reconstructed(receipt: Value, target: nat, limits: Limits): Result<Plan, ReceiptError> {
    if !receipt.Object? || Field(receipt.fields, TargetBindingKey) != Int(target) then Err(ForeignTarget) else
    match ReadKind(Field(receipt.fields, OperationKindKey))
    case Err(e) => Err(e)
    case Ok(kind) =>
      if !Field(receipt.fields, OperationsKey).List? then Err(NoOperations) else
      match ReadOperations(receipt.fields[OperationsKey].items)
      case Err(e) => Err(e)
      case Ok(ops) => Ok(Plan(kind, target, ops, EmptyStore(limits)))
  }

  lemma {:induction false} ReadOperationsFails(vs: seq<Value>, i: nat)
    requires i <= |vs| && ReadOperations(vs[..i]).Err?
    ensures ReadOperations(vs) == ReadOperations(vs[..i])
    decreases |vs|
  {
    if i < |vs| {
      assert vs[..|vs| - 1][..i] == vs[..i];
      ReadOperationsFails(vs[..|vs| - 1], i);
    } else {
      assert vs[..i] == vs;
    }
  }

  method ReconstructPlan(receipt: Value, target: nat, limits: Limits) returns (r: Result<Plan, ReceiptError>)
    ensures r == Reconstructed(receipt, target, limits)
  {
    if !receipt.Object? || Field(receipt.fields, TargetBindingKey) != Int(target) { return Err(ForeignTarget); }
    var kind := ReadKind(Field(receipt.fields, OperationKindKey));
    if kind.Err? { return Err(kind.error); }
    if !Field(receipt.fields, OperationsKey).List? { return Err(NoOperations); }
    var documents := receipt.fields[OperationsKey].items;
    var operations: seq<Operation> := [];
    for i := 0 to |documents|
      invariant ReadOperations(documents[..i]) == Ok(operations)
    {
      assert documents[..i + 1][..i] == documents[..i];
      var one := ReadOperation(documents[i]);
      if one.Err? {
        ReadOperationsFails(documents, i + 1);
        return Err(one.error);
      }
      operations := operations + [one.value];
    }
    assert documents[..|documents|] == documents;
    return Ok(Plan(kind.value, target, operations, EmptyStore(limits)));
  }

  lemma {:induction false} ReadEntriesFails(vs: seq<Value>, i: nat)
    requires i <= |vs| && ReadEntries(vs[..i]).Err?
    ensures ReadEntries(vs) == ReadEntries(vs[..i])
    decreases |vs|
  {
    if i < |vs| {
      assert vs[..|vs| - 1][..i] == vs[..i];
      ReadEntriesFails(vs[..|vs| - 1], i);
    } else {
      assert vs[..i] == vs;
    }
  }

  lemma ReadEntriesGoesOn(vs: seq<Value>, i: nat, front: seq<PlannedEntry>)
    requires i < |vs| && ReadEntries(vs[..i]) == Ok(front)
    ensures var one := ReadEntry(vs[i], set e | e in front :: e.path);
      ReadEntries(vs[..i + 1]) == if one.Ok? then Ok(front + [one.value]) else Err(one.error)
  {
    assert vs[..i + 1][..i] == vs[..i];
  }

  method ReconstructEntries(documents: seq<Value>) returns (r: Result<seq<PlannedEntry>, ReceiptError>)
    ensures r == ReadEntries(documents)
  {
    var entries: seq<PlannedEntry> := [];
    var seen: set<Path> := {};
    for i := 0 to |documents|
      invariant ReadEntries(documents[..i]) == Ok(entries)
      invariant seen == set e | e in entries :: e.path
    {
      ReadEntriesGoesOn(documents, i, entries);
      var one := ReadEntry(documents[i], seen);
      if one.Err? {
        ReadEntriesFails(documents, i + 1);
        return Err(one.error);
      }
      entries := entries + [one.value];
      seen := seen + {one.value.path};
    }
    assert documents[..|documents|] == documents;
    return Ok(entries);
  }

  // What survives the round trip

  predicate EntrySurvives(e: PlannedEntry) {
    && Portable(e.path)
    && (if e.PlannedDirectoryEntry? then e.mode == DIRECTORY_MODE else InstallMode(e.file.mode))
  }

  predicate EntriesSurvive(es: seq<PlannedEntry>) {
    && (forall i :: 0 <= i < |es| ==> EntrySurvives(es[i]))
    && DistinctEntries(es)
  }

  /** The operations whose receipt carries all of them. */
  predicate Survives(op: Operation) {
    && Portable(op.path)
    && match op
      case CreateFile(_, _, f) => InstallMode(f.mode)
      case ReplaceFile(_, _, f) => InstallMode(f.mode)
      case DeleteFile(_, _) => true
      case CreateTree(_, before, tree) =>
        before == None && tree.rootMode == DIRECTORY_MODE && EntriesSurvive(tree.entries)
      case RemoveEmptyDirectory(_, before) => before.entries == []
  }

  lemma StateRoundTrip(s: FileState)
    ensures ReadState(StateDocument(s)) == Ok(s)
  {
    if s.Present? {
      assert IdentityFields(s.identity, s.mode).Keys == IDENTITY_KEYS;
    }
  }

  lemma PlannedRoundTrip(f: PlannedFile)
    ensures InstallMode(f.mode) ==> ReadPlanned(Object(PlannedFields(f))) == Ok(f)
    ensures !InstallMode(f.mode) ==> ReadPlanned(Object(PlannedFields(f))).Err?
  {
    assert PlannedFields(f).Keys == IDENTITY_KEYS + {ContentIdKey};
  }

  lemma EntryRoundTrip(e: PlannedEntry, seen: set<Path>)
    ensures EntrySurvives(e) && e.path !in seen ==> ReadEntry(EntryDocument(e), seen) == Ok(e)
    ensures !(EntrySurvives(e) && e.path !in seen) ==> ReadEntry(EntryDocument(e), seen).Err?
  {
    if e.PlannedFileEntry? {
      var f := e.file;
      PlannedRoundTrip(f);
      assert PlannedFields(f) == map[KindKey := Str(KindText(f.identity.kind)), ModeKey := Int(f.mode),
        NormalizedSha256Key := Hash(f.identity.normalized), RawSha256Key := Hash(f.identity.raw),
        SizeKey := Int(f.identity.size), ContentIdKey := Hash(f.contentId)];
    }
  }

  lemma EntriesSurviveStep(front: seq<PlannedEntry>, e: PlannedEntry)
    ensures EntriesSurvive(front + [e]) <==>
      EntriesSurvive(front) && EntrySurvives(e) && e.path !in (set x | x in front :: x.path)
  {
    var es, seen := front + [e], set x | x in front :: x.path;
    assert forall i :: 0 <= i < |front| ==> es[i] == front[i];
    assert es[|front|] == e;
    if EntriesSurvive(es) {
      forall x | x in front ensures x.path != e.path {
        var i :| 0 <= i < |front| && front[i] == x;
        assert es[i].path != es[|front|].path;
      }
    }
    forall i | 0 <= i < |front| ensures front[i].path in seen { assert front[i] in front; }
  }

  lemma ReadEntriesStep(front: seq<PlannedEntry>, e: PlannedEntry)
    requires ReadEntries(EntryDocuments(front)) == Ok(front)
    ensures EntrySurvives(e) && e.path !in (set x | x in front :: x.path) ==>
      ReadEntries(EntryDocuments(front + [e])) == Ok(front + [e])
    ensures !(EntrySurvives(e) && e.path !in (set x | x in front :: x.path)) ==>
      ReadEntries(EntryDocuments(front + [e])).Err?
  {
    var docs := EntryDocuments(front + [e]);
    assert docs[..|docs| - 1] == EntryDocuments(front);
    EntryRoundTrip(e, set x | x in front :: x.path);
  }

  lemma {:induction false} EntriesRoundTrip(es: seq<PlannedEntry>)
    ensures EntriesSurvive(es) ==> ReadEntries(EntryDocuments(es)) == Ok(es)
    ensures !EntriesSurvive(es) ==> ReadEntries(EntryDocuments(es)).Err?
    decreases |es|
  {
    if es != [] {
      var front, e := es[..|es| - 1], es[|es| - 1];
      assert es == front + [e];
      EntriesRoundTrip(front);
      EntriesSurviveStep(front, e);
      if EntriesSurvive(front) {
        ReadEntriesStep(front, e);
      } else {
        assert EntryDocuments(es)[..|es| - 1] == EntryDocuments(front);
      }
    }
  }

  lemma FileDocumentFields(kind: string, path: Path, before: FileState, planned: Value)
    ensures var fields := FileDocument(kind, path, before, planned).fields;
      && fields.Keys == FILE_KEYS
      && Field(fields, KindKey) == Str(kind) && fields[PathKey] == PathText(path)
      && fields[ExpectedOldKey] == StateDocument(before) && fields[PlannedNewKey] == planned
  {
  }

  lemma WriteRoundTrip(op: Operation)
    requires op.CreateFile? || op.ReplaceFile?
    ensures ReadOperation(OperationDocument(op)) == Ok(op) <==> Survives(op)
  {
    var kind := if op.CreateFile? then "create_file" else "replace_file";
    FileDocumentFields(kind, op.path, op.before, Object(PlannedFields(op.planned)));
    StateRoundTrip(op.before);
    PlannedRoundTrip(op.planned);
    assert ReadOperation(OperationDocument(op)) ==
      ReadWrite(FileDocument(kind, op.path, op.before, Object(PlannedFields(op.planned))).fields, op.CreateFile?);
  }

  lemma DeleteRoundTrip(op: Operation)
    requires op.DeleteFile?
    ensures ReadOperation(OperationDocument(op)) == Ok(op) <==> Survives(op)
  {
    FileDocumentFields("delete_file", op.path, op.before, Null);
    StateRoundTrip(op.before);
    assert ReadOperation(OperationDocument(op)) ==
      ReadDelete(FileDocument("delete_file", op.path, op.before, Null).fields);
  }

  lemma TreeRoundTrip(tree: PlannedTree)
    ensures tree.rootMode == DIRECTORY_MODE && EntriesSurvive(tree.entries) ==> ReadTree(TreeDocument(tree)) == Ok(tree)
    ensures !(tree.rootMode == DIRECTORY_MODE && EntriesSurvive(tree.entries)) ==> ReadTree(TreeDocument(tree)).Err?
  {
    EntriesRoundTrip(tree.entries);
    var fields := TreeDocument(tree).fields;
    assert fields.Keys == {RootModeKey, RawTreeSha256Key, EntriesKey};
    assert fields[RootModeKey] == Int(tree.rootMode) && fields[RawTreeSha256Key] == TreeHashText(tree.hash);
    assert fields[EntriesKey] == List(EntryDocuments(tree.entries));
  }

  lemma CreateTreeRoundTrip(op: Operation)
    requires op.CreateTree?
    ensures ReadOperation(OperationDocument(op)) == Ok(op) <==> Survives(op)
  {
    TreeRoundTrip(op.tree);
    var fields := OperationDocument(op).fields;
    assert fields.Keys == {KindKey, RootKey, ExpectedOldKey, PlannedNewKey};
    assert Field(fields, KindKey) == Str("create_tree") && fields[RootKey] == PathText(op.path);
    assert fields[ExpectedOldKey] == Null && fields[PlannedNewKey] == TreeDocument(op.tree);
    assert ReadOperation(OperationDocument(op)) == ReadCreateTree(fields);
  }

  lemma RemoveRoundTrip(op: Operation)
    requires op.RemoveEmptyDirectory?
    ensures ReadOperation(OperationDocument(op)) == Ok(op) <==> Survives(op)
  {
    var fields := OperationDocument(op).fields;
    assert fields.Keys == FILE_KEYS;
    assert Field(fields, KindKey) == Str("remove_empty_directory") && fields[PathKey] == PathText(op.path);
    assert fields[PlannedNewKey] == Null;
    var expected := fields[ExpectedOldKey];
    assert expected.fields.Keys == {ModeKey, RawTreeSha256Key};
    assert expected.fields[ModeKey] == Int(op.directoryBefore.rootMode);
    assert ReadOperation(OperationDocument(op)) == ReadRemove(fields);
  }

  /** Rebuilding an operation from its document gives it back exactly when nothing of it is erased or refused. */
  lemma OperationRoundTrip(op: Operation)
    ensures ReadOperation(OperationDocument(op)) == Ok(op) <==> Survives(op)
  {
    match op
    case CreateFile(_, _, _) => WriteRoundTrip(op);
    case ReplaceFile(_, _, _) => WriteRoundTrip(op);
    case DeleteFile(_, _) => DeleteRoundTrip(op);
    case CreateTree(_, _, _) => CreateTreeRoundTrip(op);
    case RemoveEmptyDirectory(_, _) => RemoveRoundTrip(op);
  }

  predicate AllSurvive(ops: seq<Operation>) {
    forall i {:trigger Survives(ops[i])} :: 0 <= i < |ops| ==> Survives(ops[i])
  }

  lemma ReadOperationsStep(front: seq<Operation>, op: Operation)
    requires ReadOperations(OperationDocuments(front)).Ok? ==>
      |ReadOperations(OperationDocuments(front)).value| == |front|
    ensures ReadOperations(OperationDocuments(front + [op])) == Ok(front + [op]) <==>
      ReadOperations(OperationDocuments(front)) == Ok(front) && ReadOperation(OperationDocument(op)) == Ok(op)
    ensures ReadOperations(OperationDocuments(front + [op])).Ok? ==>
      |ReadOperations(OperationDocuments(front + [op])).value| == |front| + 1
  {
    var docs := OperationDocuments(front + [op]);
    assert docs[..|docs| - 1] == OperationDocuments(front);
    assert docs[|docs| - 1] == OperationDocument(op);
    var first, last := ReadOperations(OperationDocuments(front)), ReadOperation(OperationDocument(op));
    if first.Ok? && last.Ok? && first.value + [last.value] == front + [op] {
      AppendedAreEqual(first.value, last.value, front, op);
    }
  }

  lemma AppendedAreEqual(a: seq<Operation>, x: Operation, b: seq<Operation>, y: Operation)
    requires |a| == |b| && a + [x] == b + [y]
    ensures a == b && x == y
  {
    assert a == (a + [x])[..|a|] == (b + [y])[..|b|] == b;
    assert x == (a + [x])[|a|];
  }

  lemma {:induction false} OperationsRoundTrip(ops: seq<Operation>)
    ensures ReadOperations(OperationDocuments(ops)) == Ok(ops) <==> AllSurvive(ops)
    ensures ReadOperations(OperationDocuments(ops)).Ok? ==> |ReadOperations(OperationDocuments(ops)).value| == |ops|
    decreases |ops|
  {
    if ops != [] {
      var front, op := ops[..|ops| - 1], ops[|ops| - 1];
      assert ops == front + [op];
      OperationsRoundTrip(front);
      OperationRoundTrip(op);
      ReadOperationsStep(front, op);
    }
  }

  lemma ReceiptFields(plan: Plan)
    ensures var fields := Receipt(plan).fields;
      && Field(fields, TargetBindingKey) == Int(plan.target)
      && ReadKind(Field(fields, OperationKindKey)) == Ok(plan.kind)
      && Field(fields, OperationsKey) == List(OperationDocuments(plan.operations))
  {
    assert Field(Receipt(plan).fields, OperationKindKey) == Str(OperationKindText(plan.kind));
  }

  /** A plan recovered from its own receipt has the same operations exactly when every operation survives. */
  lemma PlanRoundTrip(plan: Plan, limits: Limits)
    ensures Reconstructed(Receipt(plan), plan.target, limits) == Ok(plan.(store := EmptyStore(limits)))
      <==> AllSurvive(plan.operations)
  {
    OperationsRoundTrip(plan.operations);
    ReceiptFields(plan);
  }

  /**
   Recovery from the receipt alone decides what recovery from the plan would: the
   same rollback and sealed steps and verifications on every snapshot, and the same
   stages, backups, rollback containers and cleanup inventories.
   */
  lemma RecoveryFromReceipt(plan: Plan, limits: Limits, snapshot: Snapshot)
    requires AllSurvive(plan.operations)
    ensures Reconstructed(Receipt(plan), plan.target, limits).Ok?
    ensures var rebuilt := Reconstructed(Receipt(plan), plan.target, limits).value;
      && RollbackSteps(rebuilt, snapshot) == RollbackSteps(plan, snapshot)
      && SealedSteps(rebuilt, snapshot) == SealedSteps(plan, snapshot)
      && RestoredVerification(rebuilt, snapshot) == RestoredVerification(plan, snapshot)
      && SealedVerification(rebuilt, snapshot) == SealedVerification(plan, snapshot)
      && PreparationSpecs(rebuilt) == PreparationSpecs(plan)
      && RollbackSpecs(rebuilt) == RollbackSpecs(plan)
      && (forall isSealed :: Cleanup(rebuilt, isSealed) == Cleanup(plan, isSealed))
  {
    PlanRoundTrip(plan, limits);
    var rebuilt := Reconstructed(Receipt(plan), plan.target, limits).value;
    assert RollbackSteps(rebuilt, snapshot) == RollbackSteps(plan, snapshot);
    assert SealedSteps(rebuilt, snapshot) == SealedSteps(plan, snapshot);
  }
}
