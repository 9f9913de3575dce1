/**
 The journal record, its documents, the state root that stores it, and the
 recovery family each state root leads to.
 */
module Journals {
  import opened Results
  import opened Paths
  import opened Identity
  import opened Plans
  import opened Rollback
  import opened Machine
  import opened Receipts

  datatype Envelope = Envelope(
    operation: string,
    target: nat,
    phase: Phase,
    transaction: nat,
    preparations: seq<PreparationIdentity>,
    receipt: Option<Value>)

  /** File preparations carry a digest and directory preparations none. */
  predicate ShapedPreparation(p: PreparationIdentity) {
    p.spec.kind.FileArtifact? <==> p.spec.raw.Some?
  }

  /** What the constructors of a journal record and of its preparations enforce. */
  predicate ShapedEnvelope(e: Envelope) {
    && e.operation != ""
    && (forall i :: 0 <= i < |e.preparations| ==>
          ShapedPreparation(e.preparations[i]) && e.preparations[i].transaction == e.transaction)
    && (e.receipt.Some? ==> e.receipt.value.Object?)
  }

  // Documents

  /** Why a journal record cannot be read, or a file of the state root cannot be written or removed. */
  datatype JournalError =
    | BadJournal | UnknownSchema | NoOperation | BadTransaction | BadTarget | UnknownPhase | BadReceipt
    | BadPreparations | BadPreparation | BadPreparationMode | ForeignPreparation | UnknownRole
    | PendingExists | BadPendingFile | BadJournalFile

  function PhaseText(p: Phase): string {
    match p
    case PlannedPhase => "PLANNED"
    case MutatingPhase => "MUTATING"
    case RestoredPhase => "RESTORED"
    case SealedPhase => "SEALED"
  }

  function RoleText(r: Role): string {
    match r
    case Stage => "stage"
    case Backup => "backup"
    case RollbackContainer => "rollback"
  }

  function PreparationDocument(p: PreparationIdentity): Value {
    Object(map[TransactionIdKey := Int(p.transaction), OperationIndexKey := Int(p.spec.index),
               RoleKey := Str(RoleText(p.spec.role)), OwnershipTokenSha256Key := Hash(p.token),
               ExpectedKindKey := Str(if p.spec.kind.FileArtifact? then "file" else "directory"),
               ExpectedRawSha256Key := if p.spec.raw.Some? then Hash(p.spec.raw.value) else Null,
               ExpectedModeKey := Int(p.spec.mode)])
  }

  function PreparationDocuments(ps: seq<PreparationIdentity>): (r: seq<Value>)
    ensures |r| == |ps|
    ensures forall i :: 0 <= i < |ps| ==> r[i] == PreparationDocument(ps[i])
  {
    seq(|ps|, i requires 0 <= i < |ps| => PreparationDocument(ps[i]))
  }

  function EncodeJournal(e: Envelope): Value {
    var fields := map[SchemaVersionKey := Int(1), OperationKey := Str(e.operation), TargetKey := Int(e.target),
                      PhaseKey := Str(PhaseText(e.phase)), TransactionIdKey := Int(e.transaction),
                      PreparationsKey := List(PreparationDocuments(e.preparations))];
    Object(if e.receipt.Some? then fields[ReceiptKey := e.receipt.value] else fields)
  }

  function ReadPhase(v: Value): Result<Phase, JournalError> {
    if v == Str("PLANNED") then Ok(PlannedPhase)
    else if v == Str("MUTATING") then Ok(MutatingPhase)
    else if v == Str("RESTORED") then Ok(RestoredPhase)
    else if v == Str("SEALED") then Ok(SealedPhase)
    else Err(UnknownPhase)
  }

  function ReadRole(v: Value): Result<Role, JournalError> {
    if v == Str("stage") then Ok(Stage)
    else if v == Str("backup") then Ok(Backup)
    else if v == Str("rollback") then Ok(RollbackContainer)
    else Err(UnknownRole)
  }

  function ReadPreparation(v: Value, transaction: nat): Result<PreparationIdentity, JournalError> {
    if !v.Object? then Err(BadPreparation) else
    match ReadRole(Field(v.fields, RoleKey))
    case Err(e) => Err(e)
    case Ok(role) =>
      var mode, index, token := Field(v.fields, ExpectedModeKey), Field(v.fields, OperationIndexKey),
                                Field(v.fields, OwnershipTokenSha256Key);
      var kind, raw := Field(v.fields, ExpectedKindKey), Field(v.fields, ExpectedRawSha256Key);
      if Field(v.fields, TransactionIdKey) != Int(transaction) then
        Err(ForeignPreparation)
      else if !mode.Int? || !ModeInRange(mode.i) then Err(BadPreparationMode)
      else if !index.Int? || index.i < 0 || !token.Hash? then Err(BadPreparation)
      else if kind == Str("file") && raw.Hash? then
        Ok(PreparationIdentity(transaction, PreparationSpec(index.i, role, FileArtifact, Some(raw.d), mode.i), token.d))
      else if kind == Str("directory") && raw.Null? then
        Ok(PreparationIdentity(transaction, PreparationSpec(index.i, role, DirectoryArtifact, None, mode.i), token.d))
      else Err(BadPreparation)
  }

  function ReadPreparations(vs: seq<Value>, transaction: nat): Result<seq<PreparationIdentity>, JournalError> {
    if vs == [] then Ok([]) else
      match ReadPreparations(vs[..|vs| - 1], transaction)
      case Err(e) => Err(e)
      case Ok(ps) =>
        match ReadPreparation(vs[|vs| - 1], transaction)
        case Err(e) => Err(e)
        case Ok(p) => Ok(ps + [p])
  }

  /** What decoding a receipt checks, its operations by the reader that rebuilds them. */
  predicate DecodableReceipt(v: Value) {
    && v.Object?
    && Field(v.fields, PlanSchemaKey) == Int(1)
    && ReadKind(Field(v.fields, OperationKindKey)).Ok?
    && Field(v.fields, TargetBindingKey).Int?
    && Field(v.fields, OperationsKey).List?
    && ReadOperations(v.fields[OperationsKey].items).Ok?
  }

  function ReadReceipt(v: Value): Result<Option<Value>, JournalError> {
    if v.Null? then Ok(None)
    else if !v.Object? then Err(BadReceipt)
    else if !DecodableReceipt(v) then Err(BadReceipt)
    else Ok(Some(v))
  }

  function DecodeJournal(v: Value): Result<Envelope, JournalError> {
    if !v.Object? then Err(BadJournal)
    else if Field(v.fields, SchemaVersionKey) != Int(1) then Err(UnknownSchema)
    else
      var operation, transaction := Field(v.fields, OperationKey), Field(v.fields, TransactionIdKey);
      var target, preparations := Field(v.fields, TargetKey), Field(v.fields, PreparationsKey);
      if !operation.Str? || operation.s == "" then Err(NoOperation)
      else if !transaction.Int? || transaction.i < 0 then Err(BadTransaction)
      else
        match ReadPhase(Field(v.fields, PhaseKey))
        case Err(e) => Err(e)
        case Ok(phase) =>
          if !target.Int? || target.i < 0 then Err(BadTarget)
          else if !preparations.List? then Err(BadPreparations)
          else
            match ReadPreparations(preparations.items, transaction.i)
            case Err(e) => Err(e)
            case Ok(ps) =>
              match ReadReceipt(Field(v.fields, ReceiptKey))
              case Err(e) => Err(e)
              case Ok(receipt) => Ok(Envelope(operation.s, target.i, phase, transaction.i, ps, receipt))
  }

  lemma {:induction false} ReadPreparationsFails(vs: seq<Value>, i: nat, transaction: nat)
    requires i <= |vs| && ReadPreparations(vs[..i], transaction).Err?
    ensures ReadPreparations(vs, transaction) == ReadPreparations(vs[..i], transaction)
    decreases |vs|
  {
    if i < |vs| {
      assert vs[..|vs| - 1][..i] == vs[..i];
      ReadPreparationsFails(vs[..|vs| - 1], i, transaction);
    } else {
      assert vs[..i] == vs;
    }
  }

  method DecodePreparations(documents: seq<Value>, transaction: nat) returns (r: Result<seq<PreparationIdentity>, JournalError>)
    ensures r == ReadPreparations(documents, transaction)
  {
    var preparations: seq<PreparationIdentity> := [];
    for i := 0 to |documents|
      invariant ReadPreparations(documents[..i], transaction) == Ok(preparations)
    {
      assert documents[..i + 1][..i] == documents[..i];
      var one := ReadPreparation(documents[i], transaction);
      if one.Err? {
        ReadPreparationsFails(documents, i + 1, transaction);
        return Err(one.error);
      }
      preparations := preparations + [one.value];
    }
    assert documents[..|documents|] == documents;
    return Ok(preparations);
  }

  lemma PreparationRoundTrip(p: PreparationIdentity, transaction: nat)
    requires ShapedPreparation(p) && p.transaction == transaction
    ensures ReadPreparation(PreparationDocument(p), transaction) == Ok(p)
  {
    var fields := PreparationDocument(p).fields;
    assert Field(fields, TransactionIdKey) == Int(p.transaction) && Field(fields, OperationIndexKey) == Int(p.spec.index);
    assert Field(fields, RoleKey) == Str(RoleText(p.spec.role)) && Field(fields, ExpectedModeKey) == Int(p.spec.mode);
    assert Field(fields, OwnershipTokenSha256Key) == Hash(p.token);
    assert Field(fields, ExpectedRawSha256Key) == if p.spec.raw.Some? then Hash(p.spec.raw.value) else Null;
    assert ReadRole(Field(fields, RoleKey)) == Ok(p.spec.role);
  }

  lemma PreparationsStep(front: seq<PreparationIdentity>, p: PreparationIdentity, transaction: nat)
    requires ReadPreparations(PreparationDocuments(front), transaction) == Ok(front)
    requires ReadPreparation(PreparationDocument(p), transaction) == Ok(p)
    ensures ReadPreparations(PreparationDocuments(front + [p]), transaction) == Ok(front + [p])
  {
    var docs := PreparationDocuments(front + [p]);
    assert docs[..|docs| - 1] == PreparationDocuments(front);
  }

  lemma {:induction false} PreparationsRoundTrip(ps: seq<PreparationIdentity>, transaction: nat)
    requires forall i :: 0 <= i < |ps| ==> ShapedPreparation(ps[i]) && ps[i].transaction == transaction
    ensures ReadPreparations(PreparationDocuments(ps), transaction) == Ok(ps)
    decreases |ps|
  {
    if ps != [] {
      var front, p := ps[..|ps| - 1], ps[|ps| - 1];
      PreparationsRoundTrip(front, transaction);
      PreparationRoundTrip(p, transaction);
      PreparationsStep(front, p, transaction);
      assert ps == front + [p];
    }
  }

  lemma JournalFields(e: Envelope)
    ensures var fields := EncodeJournal(e).fields;
      && Field(fields, SchemaVersionKey) == Int(1) && Field(fields, OperationKey) == Str(e.operation)
      && Field(fields, TargetKey) == Int(e.target) && ReadPhase(Field(fields, PhaseKey)) == Ok(e.phase)
      && Field(fields, TransactionIdKey) == Int(e.transaction)
      && Field(fields, PreparationsKey) == List(PreparationDocuments(e.preparations))
      && Field(fields, ReceiptKey) == if e.receipt.Some? then e.receipt.value else Null
  {
    assert Field(EncodeJournal(e).fields, PhaseKey) == Str(PhaseText(e.phase));
  }

  /** Every record the constructors allow is decoded back to itself, if and only if its receipt decodes. */
  lemma JournalRoundTrip(e: Envelope)
    requires ShapedEnvelope(e)
    ensures DecodeJournal(EncodeJournal(e)) == Ok(e) <==> (e.receipt.Some? ==> DecodableReceipt(e.receipt.value))
  {
    JournalFields(e);
    PreparationsRoundTrip(e.preparations, e.transaction);
  }

  // The state root

  datatype Stored = Record(document: Value) | Irregular

  /** The names of the state root that matter; `others` are entries no transaction ever makes. */
  datatype Root = Root(journal: Option<Stored>, pending: Option<Stored>, transactions: bool, others: set<string>)

  const EMPTY_ROOT := Root(None, None, false, {})

  function PendingWritten(r: Root, e: Envelope): Root {
    r.(pending := Some(Record(EncodeJournal(e))))
  }

  function PendingRenamed(r: Root): Root {
    r.(journal := r.pending, pending := None)
  }

  function PendingDiscarded(r: Root): Root {
    r.(pending := None)
  }

  function JournalRemoved(r: Root): Root {
    r.(journal := None)
  }

  datatype JournalObservation =
    | NoJournal
    | StaleJournalWrite
    | ValidatedJournal(operation: string, target: nat, phase: Phase)
    | JournalTargetMismatch
    | InvalidJournal
    | OrphanTransactionState

  function ClassifyStateRoot(r: Root, target: nat): JournalObservation {
    if r.others - {"lock"} != {} then OrphanTransactionState
    else if r.journal == Some(Irregular) then InvalidJournal
    else if r.journal.Some? then
      match DecodeJournal(r.journal.value.document)
      case Err(_) => InvalidJournal
      case Ok(e) => if e.target == target then ValidatedJournal(e.operation, e.target, e.phase) else JournalTargetMismatch
    else if r.transactions then OrphanTransactionState
    else if r.pending == Some(Irregular) then OrphanTransactionState
    else if r.pending.Some? then StaleJournalWrite
    else NoJournal
  }

  datatype RecoveryAction =
    | NothingToRecover
    | RefuseRecovery
    | DiscardStalePending
    | PlannedCleanup
    | RollbackInterrupted
    | FinishRestoredCleanup
    | FinishSealedCleanup

  function RecoveryActionFor(o: JournalObservation, target: nat): RecoveryAction {
    match o
    case NoJournal => NothingToRecover
    case StaleJournalWrite => DiscardStalePending
    case ValidatedJournal(_, journalTarget, phase) =>
      if journalTarget != target then RefuseRecovery else
      (match phase
       case PlannedPhase => PlannedCleanup
       case MutatingPhase => RollbackInterrupted
       case RestoredPhase => FinishRestoredCleanup
       case SealedPhase => FinishSealedCleanup)
    case _ => RefuseRecovery
  }

  /** A root with no foreign entries whose journal reads as a record of this target in this phase. */
  predicate Journaled(r: Root, target: nat, phase: Phase) {
    && r.others <= {"lock"} && r.journal.Some? && r.journal.value.Record?
    && var e := DecodeJournal(r.journal.value.document);
      e.Ok? && e.value.target == target && e.value.phase == phase
  }

  /**
   Every root decides its recovery: a readable journal of this target leads to the
   recovery of its phase; without a journal there may be a pending write to discard,
   or nothing; and every other root is refused.
   */
  lemma RecoveryIsDecided(r: Root, target: nat)
    ensures var action := RecoveryActionFor(ClassifyStateRoot(r, target), target);
      && (action.PlannedCleanup? <==> Journaled(r, target, PlannedPhase))
      && (action.RollbackInterrupted? <==> Journaled(r, target, MutatingPhase))
      && (action.FinishRestoredCleanup? <==> Journaled(r, target, RestoredPhase))
      && (action.FinishSealedCleanup? <==> Journaled(r, target, SealedPhase))
      && (action.NothingToRecover? <==> r.others <= {"lock"} && r.journal.None? && !r.transactions && r.pending.None?)
      && (action.RefuseRecovery? <==>
            || !(r.others <= {"lock"})
            || (r.journal.None? && (r.transactions || r.pending == Some(Irregular)))
            || (r.journal.Some? && forall phase :: !Journaled(r, target, phase)))
  {
    assert r.others - {"lock"} == {} <==> r.others <= {"lock"};
    if r.journal.Some? && r.journal.value.Record? {
      var e := DecodeJournal(r.journal.value.document);
      if e.Ok? { assert Journaled(r, target, e.value.phase) <==> r.others <= {"lock"} && e.value.target == target; }
    }
  }

  /** The journal of another target is told apart from one of this target, and refused; this target's is reported as it is. */
  lemma ForeignJournals(r: Root, target: nat)
    requires r.others <= {"lock"} && r.journal.Some? && r.journal.value.Record? && DecodeJournal(r.journal.value.document).Ok?
    ensures var e := DecodeJournal(r.journal.value.document).value;
      && (ClassifyStateRoot(r, target) == JournalTargetMismatch <==> e.target != target)
      && (RecoveryActionFor(ClassifyStateRoot(r, target), target).RefuseRecovery? <==> e.target != target)
      && (e.target == target ==> ClassifyStateRoot(r, target) == ValidatedJournal(e.operation, e.target, e.phase))
  {
    assert r.others - {"lock"} == {};
  }

  /** A pending write is discarded only where no journal exists: beside a journal it stays. */
  lemma PendingDiscardedOnlyAlone(r: Root, target: nat)
    ensures RecoveryActionFor(ClassifyStateRoot(r, target), target).DiscardStalePending? <==>
      r.others <= {"lock"} && r.journal.None? && !r.transactions && r.pending.Some? && r.pending.value.Record?
  {
  }

  // Persisting, step by step

  class StateRoot {
    var journal: Option<Stored>
    var pending: Option<Stored>
    var transactions: bool
    var others: set<string>

    constructor ()
      ensures Value() == EMPTY_ROOT
    {
      journal, pending, transactions, others := None, None, false, {};
    }

    ghost function Value(): Root
      reads this
    {
      Root(journal, pending, transactions, others)
    }

    /** Creates the pending file, or refuses when one is there. */
    method WritePending(e: Envelope) returns (r: Result<(), JournalError>)
      modifies this
      ensures r.Ok? <==> old(pending).None?
      ensures Value() == if r.Ok? then PendingWritten(old(Value()), e) else old(Value())
    {
      if pending.Some? { return Err(PendingExists); }
      pending := Some(Record(EncodeJournal(e)));
      return Ok(());
    }

    method RenamePending()
      requires pending.Some?
      modifies this
      ensures Value() == PendingRenamed(old(Value()))
    {
      journal := pending;
      pending := None;
    }

    /** The journal becomes exactly `e`, unless a pending write is left over: then nothing changes. */
    method PersistJournal(e: Envelope) returns (r: Result<(), JournalError>)
      modifies this
      ensures old(pending).Some? ==> r.Err? && Value() == old(Value())
      ensures old(pending).None? ==> r.Ok? && Value() == PendingRenamed(PendingWritten(old(Value()), e))
      ensures r.Ok? ==> journal == Some(Record(EncodeJournal(e))) && pending == None
    {
      r := WritePending(e);
      if r.Err? { return; }
      RenamePending();
    }

    /** Removes the pending file, or refuses when it is missing or no regular file. */
    method DiscardPending() returns (r: Result<(), JournalError>)
      modifies this
      ensures r.Ok? <==> old(pending).Some? && old(pending).value.Record?
      ensures Value() == if r.Ok? then PendingDiscarded(old(Value())) else old(Value())
      ensures r.Ok? && old(journal).None? && !old(transactions) && old(others) <= {"lock"} ==>
        forall target :: ClassifyStateRoot(Value(), target) == NoJournal
    {
      if pending.None? || pending == Some(Irregular) { return Err(BadPendingFile); }
      pending := None;
      assert old(others) <= {"lock"} ==> others - {"lock"} == {};
      return Ok(());
    }

    /** Removes the journal, if any, or refuses when it is no regular file. */
    method RemoveJournal() returns (r: Result<(), JournalError>)
      modifies this
      ensures r.Ok? <==> old(journal) != Some(Irregular)
      ensures Value() == if r.Ok? then JournalRemoved(old(Value())) else old(Value())
      ensures r.Ok? && old(transactions) ==> forall target :: ClassifyStateRoot(Value(), target) == OrphanTransactionState
    {
      if journal == Some(Irregular) { return Err(BadJournalFile); }
      journal := None;
      return Ok(());
    }

    /**
     The end of a recovery's cleanup: the transaction directory goes first, if it is
     empty, and the journal last.
     */
    method FinishCleanup(empty: bool) returns (r: Result<(), JournalError>)
      modifies this
      ensures r.Ok? <==> old(journal).Some? && old(journal).value.Record?
      ensures var pruned := old(Value()).(transactions := old(transactions) && !empty);
        Value() == if r.Ok? then JournalRemoved(pruned) else pruned
      ensures r.Ok? && (empty || !old(transactions)) && old(pending).None? && old(others) <= {"lock"} ==>
        forall target :: ClassifyStateRoot(Value(), target) == NoJournal
    {
      if empty { transactions := false; }
      if journal.None? { return Err(BadJournalFile); }
      r := RemoveJournal();
      assert old(others) <= {"lock"} ==> others - {"lock"} == {};
    }

    /** What a recovery does when it is told to discard a pending write: afterwards nothing is left to recover. */
    method DiscardStale(target: nat) returns (r: Result<(), JournalError>)
      requires RecoveryActionFor(ClassifyStateRoot(Value(), target), target).DiscardStalePending?
      modifies this
      ensures r.Ok? && Value() == PendingDiscarded(old(Value()))
      ensures RecoveryActionFor(ClassifyStateRoot(Value(), target), target).NothingToRecover?
    {
      DiscardedIsClear(Value(), target);
      r := DiscardPending();
    }
  }

  /** Discarding a stale pending write leaves nothing to recover, and beside a journal it changes no verdict. */
  lemma DiscardedIsClear(r: Root, target: nat)
    ensures RecoveryActionFor(ClassifyStateRoot(r, target), target).DiscardStalePending? ==>
      ClassifyStateRoot(PendingDiscarded(r), target) == NoJournal
    ensures r.journal.Some? ==> ClassifyStateRoot(PendingDiscarded(r), target) == ClassifyStateRoot(r, target)
  {
  }

  /**
   The journal goes last: once it is removed, a recovery is refused for good if the
   transaction directory still stands, and has nothing but a pending write to discard
   if not.
   */
  lemma JournalGoesLast(r: Root, target: nat)
    requires r.others <= {"lock"} && r.pending != Some(Irregular)
    ensures var action := RecoveryActionFor(ClassifyStateRoot(JournalRemoved(r), target), target);
      if r.transactions then action.RefuseRecovery?
      else if r.pending.Some? then action.DiscardStalePending? else action.NothingToRecover?
  {
    assert r.others - {"lock"} == {};
  }

  /**
   Wherever persisting is cut short, the state root still names exactly one phase:
   the old one, or none while there was none, or the new one.
   */
  lemma PersistIsAtomic(r: Root, e: Envelope, target: nat)
    requires r.pending.None? && r.others <= {"lock"} && e.target == target
    requires ShapedEnvelope(e) && (e.receipt.Some? ==> DecodableReceipt(e.receipt.value))
    requires r.journal.None? ==> !r.transactions
    ensures r.journal.Some? ==> ClassifyStateRoot(PendingWritten(r, e), target) == ClassifyStateRoot(r, target)
    ensures r.journal.None? ==> ClassifyStateRoot(PendingWritten(r, e), target) == StaleJournalWrite
    ensures ClassifyStateRoot(PendingRenamed(PendingWritten(r, e)), target)
      == ValidatedJournal(e.operation, e.target, e.phase)
  {
    JournalRoundTrip(e);
    DecodedIsClassified(PendingRenamed(PendingWritten(r, e)), EncodeJournal(e), e, target);
  }

  lemma DecodedIsClassified(r: Root, v: Value, e: Envelope, target: nat)
    requires r.others <= {"lock"} && r.journal == Some(Record(v)) && DecodeJournal(v) == Ok(e) && e.target == target
    ensures ClassifyStateRoot(r, target) == ValidatedJournal(e.operation, e.target, e.phase)
  {
  }
}
