/** What the readers of receipts and journals accept: only the documents of what they give back. */
module Documents {
  import opened Results
  import opened Paths
  import opened Identity
  import opened Plans
  import opened Rollback
  import opened Machine
  import opened Receipts
  import opened Journals

  // Receipts

  /** The fields of `fields` that say what a file holds and its mode. */
  predicate SaysIdentity(fields: map<Key, Value>, id: ContentIdentity, mode: Mode) {
    && Field(fields, KindKey) == Str(KindText(id.kind)) && Field(fields, ModeKey) == Int(mode)
    && Field(fields, NormalizedSha256Key) == Hash(id.normalized) && Field(fields, RawSha256Key) == Hash(id.raw)
    && Field(fields, SizeKey) == Int(id.size)
  }

  lemma IdentityRead(fields: map<Key, Value>, install: bool, id: ContentIdentity, mode: Mode)
    ensures ReadIdentity(fields, install) == Ok((id, mode)) <==>
      SaysIdentity(fields, id, mode) && (install ==> InstallMode(mode))
  {
  }

  lemma StateRead(v: Value, s: FileState)
    ensures ReadState(v) == Ok(s) <==> v == StateDocument(s)
  {
    StateRoundTrip(s);
    if ReadState(v) == Ok(s) && s.Present? {
      IdentityRead(v.fields, false, s.identity, s.mode);
      assert v.fields == IdentityFields(s.identity, s.mode);
    }
  }

  lemma PlannedRead(v: Value, f: PlannedFile)
    ensures ReadPlanned(v) == Ok(f) <==> v == Object(PlannedFields(f)) && InstallMode(f.mode)
  {
    PlannedRoundTrip(f);
    if ReadPlanned(v) == Ok(f) {
      IdentityRead(v.fields, true, f.identity, f.mode);
      assert v.fields == PlannedFields(f);
    }
  }

  lemma FileEntryRead(v: Value, seen: set<Path>, e: PlannedEntry)
    requires e.PlannedFileEntry? && ReadEntry(v, seen) == Ok(e)
    ensures v == EntryDocument(e) && EntrySurvives(e) && e.path !in seen
  {
    var fields, f := v.fields, e.file;
    var planned := Object(map[KindKey := fields[FileKindKey], ModeKey := fields[ModeKey],
            NormalizedSha256Key := fields[NormalizedSha256Key], RawSha256Key := fields[RawSha256Key],
            SizeKey := fields[SizeKey], ContentIdKey := fields[ContentIdKey]]);
    assert ReadPlanned(planned) == Ok(f);
    PlannedRead(planned, f);
    assert SaysIdentity(planned.fields, f.identity, f.mode);
    assert fields == EntryDocument(e).fields;
  }

  lemma DirectoryEntryRead(v: Value, seen: set<Path>, e: PlannedEntry)
    requires e.PlannedDirectoryEntry? && ReadEntry(v, seen) == Ok(e)
    ensures v == EntryDocument(e) && EntrySurvives(e) && e.path !in seen
  {
    assert v.fields == EntryDocument(e).fields;
  }

  lemma EntryRead(v: Value, seen: set<Path>, e: PlannedEntry)
    ensures ReadEntry(v, seen) == Ok(e) <==> v == EntryDocument(e) && EntrySurvives(e) && e.path !in seen
  {
    EntryRoundTrip(e, seen);
    if ReadEntry(v, seen) == Ok(e) {
      if e.PlannedFileEntry? { FileEntryRead(v, seen, e); } else { DirectoryEntryRead(v, seen, e); }
    }
  }

  lemma {:induction false} EntriesRead(vs: seq<Value>, es: seq<PlannedEntry>)
    ensures ReadEntries(vs) == Ok(es) <==> vs == EntryDocuments(es) && EntriesSurvive(es)
    decreases |vs|
  {
    EntriesRoundTrip(es);
    if ReadEntries(vs) == Ok(es) && vs != [] {
      var front, last := ReadEntries(vs[..|vs| - 1]).value, es[|es| - 1];
      var seen := set e | e in front :: e.path;
      assert es == front + [last];
      EntriesRead(vs[..|vs| - 1], front);
      EntryRead(vs[|vs| - 1], seen, last);
      EntriesSurviveStep(front, last);
      assert vs == EntryDocuments(es);
    }
  }

  lemma TreeRead(v: Value, tree: PlannedTree)
    ensures ReadTree(v) == Ok(tree) <==>
      v == TreeDocument(tree) && tree.rootMode == DIRECTORY_MODE && EntriesSurvive(tree.entries)
  {
    TreeRoundTrip(tree);
    if ReadTree(v) == Ok(tree) {
      EntriesRead(v.fields[EntriesKey].items, tree.entries);
      assert v.fields == TreeDocument(tree).fields;
    }
  }

  /** `v` is the document of `op`; of a removed directory, the tree hash is not read. */
  predicate Says(v: Value, op: Operation) {
    match op
    case RemoveEmptyDirectory(p, before) =>
      && v.Object? && v.fields.Keys == FILE_KEYS
      && v.fields[KindKey] == Str("remove_empty_directory") && v.fields[PathKey] == PathText(p)
      && v.fields[PlannedNewKey] == Null && v.fields[ExpectedOldKey].Object?
      && var expected := v.fields[ExpectedOldKey].fields;
        expected.Keys == {ModeKey, RawTreeSha256Key} && expected[ModeKey] == Int(before.rootMode) && expected[RawTreeSha256Key].TreeHashText?
    case _ => v == OperationDocument(op)
  }

  lemma WriteFieldsRead(fields: map<Key, Value>, create: bool, op: Operation)
    requires ReadWrite(fields, create) == Ok(op)
    ensures fields.Keys == FILE_KEYS && op.CreateFile? == create && op.ReplaceFile? == !create && Survives(op)
    ensures fields[PathKey] == PathText(op.path) && fields[ExpectedOldKey] == StateDocument(op.before)
    ensures fields[PlannedNewKey] == Object(PlannedFields(op.planned))
  {
    StateRead(fields[ExpectedOldKey], op.before);
    PlannedRead(fields[PlannedNewKey], op.planned);
  }

  lemma WriteDispatch(v: Value, op: Operation)
    requires ReadOperation(v) == Ok(op) && (op.CreateFile? || op.ReplaceFile?)
    ensures v.Object? && ReadWrite(v.fields, op.CreateFile?) == Ok(op)
    ensures Field(v.fields, KindKey) == Str(if op.CreateFile? then "create_file" else "replace_file")
  {
  }

  lemma FileFields(fields: map<Key, Value>, kind: string, path: Path, before: FileState, planned: Value)
    requires fields.Keys == FILE_KEYS && Field(fields, KindKey) == Str(kind) && fields[PathKey] == PathText(path)
    requires fields[ExpectedOldKey] == StateDocument(before) && fields[PlannedNewKey] == planned
    ensures Object(fields) == FileDocument(kind, path, before, planned)
  {
    FileDocumentFields(kind, path, before, planned);
    assert fields == FileDocument(kind, path, before, planned).fields;
  }

  lemma WriteRead(v: Value, op: Operation)
    requires ReadOperation(v) == Ok(op) && (op.CreateFile? || op.ReplaceFile?)
    ensures v == OperationDocument(op) && Survives(op)
  {
    WriteDispatch(v, op);
    WriteFieldsRead(v.fields, op.CreateFile?, op);
    FileFields(v.fields, if op.CreateFile? then "create_file" else "replace_file", op.path, op.before, Object(PlannedFields(op.planned)));
  }

  lemma DeleteDispatch(v: Value, op: Operation)
    requires ReadOperation(v) == Ok(op) && op.DeleteFile?
    ensures v.Object? && ReadDelete(v.fields) == Ok(op) && Field(v.fields, KindKey) == Str("delete_file")
  {
  }

  lemma DeleteRead(v: Value, op: Operation)
    requires ReadOperation(v) == Ok(op) && op.DeleteFile?
    ensures v == OperationDocument(op) && Survives(op)
  {
    DeleteDispatch(v, op);
    StateRead(v.fields[ExpectedOldKey], op.before);
    FileFields(v.fields, "delete_file", op.path, op.before, Null);
  }

  lemma CreateTreeDispatch(v: Value, op: Operation)
    requires ReadOperation(v) == Ok(op) && op.CreateTree?
    ensures v.Object? && ReadCreateTree(v.fields) == Ok(op) && Field(v.fields, KindKey) == Str("create_tree")
  {
  }

  lemma CreateTreeRead(v: Value, op: Operation)
    requires ReadOperation(v) == Ok(op) && op.CreateTree?
    ensures v == OperationDocument(op) && Survives(op)
  {
    CreateTreeDispatch(v, op);
    TreeRead(v.fields[PlannedNewKey], op.tree);
    var document := OperationDocument(op).fields;
    assert v.fields.Keys == document.Keys;
    assert v.fields == document;
  }

  lemma RemoveRead(v: Value, op: Operation)
    requires op.RemoveEmptyDirectory?
    ensures ReadOperation(v) == Ok(op) <==> Says(v, op) && Survives(op)
  {
  }

  /** An operation is read from its own document, if nothing of it is erased or refused, and from no other. */
  lemma OperationRead(v: Value, op: Operation)
    ensures ReadOperation(v) == Ok(op) <==> Says(v, op) && Survives(op)
  {
    OperationRoundTrip(op);
    if op.RemoveEmptyDirectory? {
      RemoveRead(v, op);
    } else if ReadOperation(v) == Ok(op) {
      match op
      case CreateFile(_, _, _) => WriteRead(v, op);
      case ReplaceFile(_, _, _) => WriteRead(v, op);
      case DeleteFile(_, _) => DeleteRead(v, op);
      case CreateTree(_, _, _) => CreateTreeRead(v, op);
    }
  }

  predicate SaysAll(vs: seq<Value>, ops: seq<Operation>) {
    |vs| == |ops| && forall i {:trigger vs[i]} {:trigger ops[i]} :: 0 <= i < |ops| ==> Says(vs[i], ops[i])
  }

  lemma OperationsReadStep(vs: seq<Value>, v: Value, ops: seq<Operation>, op: Operation)
    ensures SaysAll(vs + [v], ops + [op]) && AllSurvive(ops + [op]) <==>
      SaysAll(vs, ops) && AllSurvive(ops) && Says(v, op) && Survives(op)
  {
    var ws, os := vs + [v], ops + [op];
    if |vs| == |ops| {
      assert ws[|vs|] == v && os[|vs|] == op;
      assert forall i :: 0 <= i < |vs| ==> ws[i] == vs[i] && os[i] == ops[i];
      if AllSurvive(os) {
        forall i | 0 <= i < |ops| ensures Survives(ops[i]) { assert Survives(os[i]); }
        assert Survives(os[|ops|]);
      }
    }
  }

  lemma {:induction false} OperationsRead(vs: seq<Value>, ops: seq<Operation>)
    ensures ReadOperations(vs) == Ok(ops) <==> SaysAll(vs, ops) && AllSurvive(ops)
    decreases |vs|
  {
    if vs != [] && ops != [] {
      var before, v, front, op := vs[..|vs| - 1], vs[|vs| - 1], ops[..|ops| - 1], ops[|ops| - 1];
      assert vs == before + [v] && ops == front + [op];
      OperationsRead(before, front);
      OperationRead(v, op);
      OperationsReadStep(before, v, front, op);
      LastRead(vs, front, op);
    }
  }

  lemma LastRead(vs: seq<Value>, front: seq<Operation>, op: Operation)
    requires vs != []
    ensures ReadOperations(vs) == Ok(front + [op]) <==>
      ReadOperations(vs[..|vs| - 1]) == Ok(front) && ReadOperation(vs[|vs| - 1]) == Ok(op)
  {
    var first, last := ReadOperations(vs[..|vs| - 1]), ReadOperation(vs[|vs| - 1]);
    if first.Ok? && last.Ok? && first.value + [last.value] == front + [op] {
      assert |first.value + [last.value]| == |front + [op]|;
      AppendedAreEqual(first.value, last.value, front, op);
    }
  }

  /**
   A plan is rebuilt for the target its receipt names and for no other, and from a
   receipt that says just its kind and its operations, in order, each of which
   survives the receipt.
   */
  lemma PlanRead(receipt: Value, target: nat, limits: Limits, plan: Plan)
    ensures Reconstructed(receipt, target, limits) == Ok(plan) <==>
      && receipt.Object? && plan.target == target && plan.store == EmptyStore(limits)
      && Field(receipt.fields, TargetBindingKey) == Int(target)
      && Field(receipt.fields, OperationKindKey) == Str(OperationKindText(plan.kind))
      && Field(receipt.fields, OperationsKey).List?
      && SaysAll(Field(receipt.fields, OperationsKey).items, plan.operations) && AllSurvive(plan.operations)
  {
    if receipt.Object? && Field(receipt.fields, OperationsKey).List? {
      OperationsRead(Field(receipt.fields, OperationsKey).items, plan.operations);
      KindRead(Field(receipt.fields, OperationKindKey), plan.kind);
    }
  }

  lemma KindRead(v: Value, kind: OperationKind)
    ensures ReadKind(v) == Ok(kind) <==> v == Str(OperationKindText(kind))
  {
  }

  /** The receipt of one target is not rebuilt for another. */
  lemma ForeignReceiptIsRefused(plan: Plan, target: nat, limits: Limits)
    ensures Reconstructed(Receipt(plan), target, limits).Ok? ==> target == plan.target
    ensures target != plan.target ==> Reconstructed(Receipt(plan), target, limits) == Err(ForeignTarget)
  {
    ReceiptFields(plan);
  }

  /** Decoding a receipt asks for a schema, a kind, a target and operations that can be read; anything else is refused. */
  lemma ReceiptDecodes(v: Value)
    ensures DecodableReceipt(v) <==>
      && v.Object? && Field(v.fields, PlanSchemaKey) == Int(1) && Field(v.fields, TargetBindingKey).Int?
      && (exists kind :: Field(v.fields, OperationKindKey) == Str(OperationKindText(kind)))
      && Field(v.fields, OperationsKey).List?
      && exists ops :: SaysAll(Field(v.fields, OperationsKey).items, ops) && AllSurvive(ops)
  {
    if v.Object? && Field(v.fields, OperationsKey).List? {
      var kind, items := Field(v.fields, OperationKindKey), Field(v.fields, OperationsKey).items;
      forall k: OperationKind ensures ReadKind(kind) == Ok(k) <==> kind == Str(OperationKindText(k)) { KindRead(kind, k); }
      forall ops ensures ReadOperations(items) == Ok(ops) <==> SaysAll(items, ops) && AllSurvive(ops) { OperationsRead(items, ops); }
      if ReadKind(kind).Ok? { KindRead(kind, ReadKind(kind).value); }
      if ReadOperations(items).Ok? { OperationsRead(items, ReadOperations(items).value); }
    }
  }

  // Journals

  lemma PhaseRead(v: Value, phase: Phase)
    ensures ReadPhase(v) == Ok(phase) <==> v == Str(PhaseText(phase))
  {
  }

  lemma RoleRead(v: Value, role: Role)
    ensures ReadRole(v) == Ok(role) <==> v == Str(RoleText(role))
  {
  }

  /** `v` says what `p` is; other fields are not read. */
  predicate SaysPreparation(v: Value, p: PreparationIdentity) {
    && v.Object?
    && Field(v.fields, TransactionIdKey) == Int(p.transaction) && Field(v.fields, OperationIndexKey) == Int(p.spec.index)
    && Field(v.fields, RoleKey) == Str(RoleText(p.spec.role)) && Field(v.fields, OwnershipTokenSha256Key) == Hash(p.token)
    && Field(v.fields, ExpectedKindKey) == Str(if p.spec.kind.FileArtifact? then "file" else "directory")
    && Field(v.fields, ExpectedRawSha256Key) == (if p.spec.raw.Some? then Hash(p.spec.raw.value) else Null)
    && Field(v.fields, ExpectedModeKey) == Int(p.spec.mode)
  }

  lemma PreparationIsRead(v: Value, transaction: nat, p: PreparationIdentity)
    requires SaysPreparation(v, p) && ShapedPreparation(p) && p.transaction == transaction
    ensures ReadPreparation(v, transaction) == Ok(p)
  {
    RoleRead(Field(v.fields, RoleKey), p.spec.role);
  }

  lemma ReadPreparationSays(v: Value, transaction: nat, p: PreparationIdentity)
    requires ReadPreparation(v, transaction) == Ok(p)
    ensures SaysPreparation(v, p) && ShapedPreparation(p) && p.transaction == transaction
  {
    RoleRead(Field(v.fields, RoleKey), p.spec.role);
  }

  predicate SaysPreparations(vs: seq<Value>, ps: seq<PreparationIdentity>) {
    |vs| == |ps| && forall i {:trigger vs[i]} {:trigger ps[i]} :: 0 <= i < |ps| ==> SaysPreparation(vs[i], ps[i])
  }

  predicate ShapedFor(ps: seq<PreparationIdentity>, transaction: nat) {
    forall i :: 0 <= i < |ps| ==> ShapedPreparation(ps[i]) && ps[i].transaction == transaction
  }

  lemma PreparationsReadStep(
    vs: seq<Value>, v: Value, ps: seq<PreparationIdentity>, p: PreparationIdentity, transaction: nat)
    ensures SaysPreparations(vs + [v], ps + [p]) && ShapedFor(ps + [p], transaction) <==>
      && SaysPreparations(vs, ps) && ShapedFor(ps, transaction)
      && SaysPreparation(v, p) && ShapedPreparation(p) && p.transaction == transaction
  {
    var ws, qs := vs + [v], ps + [p];
    if |vs| == |ps| {
      assert ws[|vs|] == v && qs[|ps|] == p;
      assert forall i :: 0 <= i < |vs| ==> ws[i] == vs[i] && qs[i] == ps[i];
    }
  }

  lemma LastPreparationRead(vs: seq<Value>, front: seq<PreparationIdentity>, p: PreparationIdentity, transaction: nat)
    requires vs != []
    ensures ReadPreparations(vs, transaction) == Ok(front + [p]) <==>
      ReadPreparations(vs[..|vs| - 1], transaction) == Ok(front) && ReadPreparation(vs[|vs| - 1], transaction) == Ok(p)
  {
    var first, last := ReadPreparations(vs[..|vs| - 1], transaction), ReadPreparation(vs[|vs| - 1], transaction);
    if first.Ok? && last.Ok? && first.value + [last.value] == front + [p] {
      assert first.value == (first.value + [last.value])[..|first.value|];
      assert front == (front + [p])[..|front|];
    }
  }

  lemma {:induction false} PreparationsRead(vs: seq<Value>, ps: seq<PreparationIdentity>, transaction: nat)
    ensures ReadPreparations(vs, transaction) == Ok(ps) <==> SaysPreparations(vs, ps) && ShapedFor(ps, transaction)
    decreases |vs|
  {
    if vs != [] && ps != [] {
      var before, v, front, p := vs[..|vs| - 1], vs[|vs| - 1], ps[..|ps| - 1], ps[|ps| - 1];
      assert vs == before + [v] && ps == front + [p];
      PreparationsRead(before, front, transaction);
      PreparationsReadStep(before, v, front, p, transaction);
      LastPreparationRead(vs, front, p, transaction);
      if ReadPreparation(v, transaction) == Ok(p) { ReadPreparationSays(v, transaction, p); }
      if SaysPreparation(v, p) && ShapedPreparation(p) && p.transaction == transaction { PreparationIsRead(v, transaction, p); }
    }
  }

  /** The journal document `v` says what `e` is; fields it does not need are not read. */
  predicate SaysEnvelope(v: Value, e: Envelope) {
    && v.Object?
    && Field(v.fields, SchemaVersionKey) == Int(1) && Field(v.fields, OperationKey) == Str(e.operation)
    && Field(v.fields, TargetKey) == Int(e.target) && Field(v.fields, PhaseKey) == Str(PhaseText(e.phase))
    && Field(v.fields, TransactionIdKey) == Int(e.transaction)
    && Field(v.fields, PreparationsKey).List? && SaysPreparations(Field(v.fields, PreparationsKey).items, e.preparations)
    && Field(v.fields, ReceiptKey) == (if e.receipt.Some? then e.receipt.value else Null)
  }

  lemma ReceiptRead(v: Value, receipt: Option<Value>)
    ensures ReadReceipt(v) == Ok(receipt) <==>
      v == (if receipt.Some? then receipt.value else Null) && (receipt.Some? ==> DecodableReceipt(receipt.value))
  {
  }

  /**
   A journal document is read as the one record it says, if that is a record the
   constructors allow and its receipt decodes, and as no other.
   */
  lemma JournalRead(v: Value, e: Envelope)
    ensures DecodeJournal(v) == Ok(e) <==>
      SaysEnvelope(v, e) && ShapedEnvelope(e) && (e.receipt.Some? ==> DecodableReceipt(e.receipt.value))
  {
    if v.Object? {
      PhaseRead(Field(v.fields, PhaseKey), e.phase);
      ReceiptRead(Field(v.fields, ReceiptKey), e.receipt);
      if Field(v.fields, PreparationsKey).List? {
        PreparationsRead(Field(v.fields, PreparationsKey).items, e.preparations, e.transaction);
      }
    }
  }
}
