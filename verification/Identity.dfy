/**
 Content identities, file and directory states, and the tree hash.

 Digests are taken as injective: a digest is represented by what was hashed.
 */
module Identity {
  import opened Results
  import opened Paths
  import opened Sorting

  type Byte = b: int | 0 <= b < 256
  type Bytes = seq<Byte>

  type Mode = m: nat | m <= 4095

  const FILE_MODE: Mode := 420
  const EXECUTABLE_MODE: Mode := 493
  const DIRECTORY_MODE: Mode := 493

  predicate InstallMode(m: Mode) {
    m == FILE_MODE || m == EXECUTABLE_MODE
  }

  datatype Digest = Sha256(content: Bytes)

  datatype Kind = Text | Binary

  datatype ContentIdentity = ContentIdentity(kind: Kind, normalized: Digest, raw: Digest, size: nat)

  datatype FileState = Absent | Present(identity: ContentIdentity, mode: Mode)

  // Text normalization on bytes

  /** Every CR LF pair and every lone CR becomes LF. */
  function UnifyNewlines(data: Bytes): Bytes {
    if data == [] then []
    else if data[0] == 13 then
      [10] + UnifyNewlines(if |data| > 1 && data[1] == 10 then data[2..] else data[1..])
    else [data[0]] + UnifyNewlines(data[1..])
  }

  function StripNewlines(data: Bytes): Bytes {
    if data != [] && data[|data| - 1] == 10 then StripNewlines(data[..|data| - 1]) else data
  }

  function Normalize(data: Bytes): Bytes {
    StripNewlines(UnifyNewlines(data)) + [10]
  }

  function IdentityOf(content: Bytes, kind: Kind): ContentIdentity {
    ContentIdentity(kind, Sha256(if kind.Text? then Normalize(content) else content),
                    Sha256(content), |content|)
  }

  // How an observation classifies a file

  predicate Continuation(b: Byte) { 128 <= b < 192 }

  /** Strict UTF-8: no overlong form, no surrogate, nothing past U+10FFFF. */
  predicate IsUtf8(data: Bytes) {
    if data == [] then true
    else if data[0] < 128 then IsUtf8(data[1..])
    else if 194 <= data[0] < 224 then
      |data| >= 2 && Continuation(data[1]) && IsUtf8(data[2..])
    else if 224 <= data[0] < 240 then
      && |data| >= 3 && Continuation(data[1]) && Continuation(data[2])
      && (data[0] == 224 ==> 160 <= data[1]) && (data[0] == 237 ==> data[1] < 160)
      && IsUtf8(data[3..])
    else if 240 <= data[0] < 245 then
      && |data| >= 4 && Continuation(data[1]) && Continuation(data[2]) && Continuation(data[3])
      && (data[0] == 240 ==> 144 <= data[1]) && (data[0] == 244 ==> data[1] < 144)
      && IsUtf8(data[4..])
    else false
  }

  predicate AnyExecuteBit(mode: Mode) {
    mode % 2 == 1 || (mode / 8) % 2 == 1 || (mode / 64) % 2 == 1
  }

  /** In octal digits: the owner's, the group's or the others' digit is odd. */
  lemma ExecuteBits(special: nat, owner: nat, group: nat, others: nat)
    requires special < 8 && owner < 8 && group < 8 && others < 8
    ensures AnyExecuteBit(special * 512 + owner * 64 + group * 8 + others) <==>
      owner % 2 == 1 || group % 2 == 1 || others % 2 == 1
  {
    var mode := special * 512 + owner * 64 + group * 8 + others;
    assert mode / 8 == special * 64 + owner * 8 + group && mode / 64 == special * 8 + owner;
  }

  function ObservedKind(content: Bytes, mode: Mode): Kind {
    if !AnyExecuteBit(mode) && IsUtf8(content) then Text else Binary
  }

  function ObservedState(content: Bytes, mode: Mode): FileState {
    Present(IdentityOf(content, ObservedKind(content, mode)), mode)
  }

  /** The kind by bytes alone, whatever the mode. */
  function ByteKind(content: Bytes): Kind {
    if IsUtf8(content) then Text else Binary
  }

  /** A file as the rollback executor classifies it. */
  function ByteState(content: Bytes, mode: Mode): FileState {
    Present(IdentityOf(content, ByteKind(content)), mode)
  }

  /** What the rollback executor makes of a file recorded as `s`. */
  function ByBytes(s: FileState): FileState {
    if s.Present? then ByteState(s.identity.raw.content, s.mode) else Absent
  }

  // Directory states

  datatype TreeEntry =
    | FileEntry(path: Path, content: Bytes, mode: Mode)
    | DirectoryEntry(path: Path, mode: Mode)

  datatype DirectoryState = DirectoryState(rootMode: Mode, entries: seq<TreeEntry>)

  datatype EntryPayload =
    | FilePayload(path: Path, mode: Mode, sha256: Digest)
    | DirectoryPayload(path: Path, mode: Mode)

  datatype TreeDigest = TreeSha(rootMode: Mode, payloads: seq<EntryPayload>)

  /** Path bytes first; at one path a directory sorts before a file. */
  predicate EntryLess(a: TreeEntry, b: TreeEntry) {
    PathLess(a.path, b.path)
    || (Render(a.path) == Render(b.path) && a.DirectoryEntry? && b.FileEntry?)
  }

  function PayloadOf(e: TreeEntry): EntryPayload {
    match e
    case FileEntry(path, content, mode) => FilePayload(path, mode, Sha256(content))
    case DirectoryEntry(path, mode) => DirectoryPayload(path, mode)
  }

  function PayloadsOf(es: seq<TreeEntry>): (r: seq<EntryPayload>)
    ensures |r| == |es|
    ensures forall i :: 0 <= i < |es| ==> r[i] == PayloadOf(es[i])
  {
    seq(|es|, i requires 0 <= i < |es| => PayloadOf(es[i]))
  }

  function TreeHash(state: DirectoryState): TreeDigest {
    TreeSha(state.rootMode, PayloadsOf(Sort(state.entries, EntryLess)))
  }

  /** Entries in strict path order, as an observation and a planned tree list them. */
  ghost predicate Canonical(entries: seq<TreeEntry>) {
    Sorted(entries, EntryPathLess)
  }

  predicate EntryPathLess(a: TreeEntry, b: TreeEntry) {
    PathLess(a.path, b.path)
  }

  lemma EntryLessIsStrict()
    ensures StrictOrder(EntryLess)
    ensures StrictOrder(EntryPathLess)
    ensures StrictOrder(PathLess)
  {
    forall a: string ensures !TextLess(a, a) { TextLessIrreflexive(a); }
    forall a: string, b, c | TextLess(a, b) && TextLess(b, c) ensures TextLess(a, c) {
      TextLessTransitive(a, b, c);
    }
  }

  lemma PathOrderIsTotal(a: Path, b: Path)
    requires Valid(a) && Valid(b)
    ensures PathLess(a, b) || PathLess(b, a) || a == b
  {
    TextLessTotal(Render(a), Render(b));
    if Render(a) == Render(b) { RenderInjective(a, b); }
  }

  lemma CanonicalIsSorted(entries: seq<TreeEntry>)
    requires Canonical(entries)
    ensures Sort(entries, EntryLess) == entries
  {
    EntryLessIsStrict();
    assert Sorted(entries, EntryLess);
    SortedIsNonDecreasing(entries, EntryLess);
    SortOfSorted(entries, EntryLess);
  }

  lemma PayloadsInjective(a: seq<TreeEntry>, b: seq<TreeEntry>)
    requires PayloadsOf(a) == PayloadsOf(b)
    ensures a == b
  {
    forall i | 0 <= i < |a| ensures a[i] == b[i] {
      assert PayloadOf(a[i]) == PayloadsOf(a)[i] == PayloadsOf(b)[i] == PayloadOf(b[i]);
    }
  }

  /** On canonically listed states the tree hash separates exactly what equality does. */
  lemma TreeHashIsEquality(a: DirectoryState, b: DirectoryState)
    requires Canonical(a.entries) && Canonical(b.entries)
    ensures TreeHash(a) == TreeHash(b) <==> a == b
  {
    CanonicalIsSorted(a.entries);
    CanonicalIsSorted(b.entries);
    if TreeHash(a) == TreeHash(b) {
      PayloadsInjective(a.entries, b.entries);
    }
  }
}
