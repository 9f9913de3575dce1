/**
 Grouping outputs under wholly new hierarchies.  Every output whose parents are
 not all there goes into exactly one tree, rooted just below the deepest observed
 directory above it.
 */
module Trees {
  import opened Results
  import opened Paths
  import opened Sorting
  import opened Identity
  import opened Plans
  import opened Orders
  import opened Targets
  import opened Inversion
  import opened Apply
  import opened Outputs

  /** The length of the deepest prefix of `p`, of length at most `k`, that is an observed directory. */
  function Nearest(p: Path, dirs: set<Path>, k: nat): (r: nat)
    requires k <= |p|
    ensures r <= k
    ensures r == 0 || p[..r] in dirs
    ensures forall j :: r < j <= k ==> p[..j] !in dirs
  {
    if k == 0 || p[..k] in dirs then k else Nearest(p, dirs, k - 1)
  }

  /** The ancestors of `p` below its deepest observed one, highest first. */
  function AbsentParents(p: Path, dirs: set<Path>): seq<Path> {
    if p == [] then [] else Parents(p)[Nearest(p, dirs, |p| - 1)..]
  }

  /** Where the tree that covers `p` is rooted, if one does. */
  function RootOf(p: Path, dirs: set<Path>): Option<Path> {
    var chain := AbsentParents(p, dirs);
    if chain == [] then None else Some(chain[0])
  }

  /** An observed file stands where `p` needs a directory. */
  predicate Blocked(p: Path, files: set<Path>) {
    exists a :: a in files && a != [] && Above(a, p)
  }

  predicate AnyBlocked(outputs: seq<Output>, files: set<Path>) {
    exists i :: 0 <= i < |outputs| && Blocked(outputs[i].path, files)
  }

  lemma BlockedGrows(outputs: seq<Output>, i: nat, files: set<Path>)
    requires i < |outputs|
    ensures AnyBlocked(outputs[..i + 1], files) <==> AnyBlocked(outputs[..i], files) || Blocked(outputs[i].path, files)
    ensures Blocked(outputs[i].path, files) ==> AnyBlocked(outputs, files)
  {
    var before, after := outputs[..i], outputs[..i + 1];
    assert forall k :: 0 <= k < i ==> after[k] == before[k];
    assert after[i] == outputs[i];
    if AnyBlocked(before, files) {
      var k :| 0 <= k < i && Blocked(before[k].path, files);
      assert Blocked(after[k].path, files);
    }
  }

  method AbsentChain(p: Path, ob: Observed) returns (r: Result<seq<Path>, Refused>)
    ensures r.Err? <==> Blocked(p, ob.states.Keys)
    ensures r.Ok? ==> r.value == AbsentParents(p, ob.directoryStates.Keys)
  {
    var parents, chain := Parents(p), [];
    ghost var dirs, nearest: nat := ob.directoryStates.Keys, 0;
    for i := 0 to |parents|
      invariant nearest <= i && (p != [] ==> nearest == Nearest(p, dirs, i))
      invariant chain == parents[nearest..i]
      invariant forall k :: 0 <= k < i ==> parents[k] !in ob.states
    {
      if parents[i] in ob.states {
        assert parents[i] in parents;
        assert parents[i] != [] && Above(parents[i], p);
        return Err(InvalidTarget);
      }
      if parents[i] in ob.directoryStates {
        chain, nearest := [], i + 1;
      } else {
        chain := chain + [parents[i]];
      }
    }
    NotBlocked(p, parents, ob.states.Keys);
    return Ok(chain);
  }

  lemma NotBlocked(p: Path, parents: seq<Path>, files: set<Path>)
    requires parents == Parents(p) && forall k :: 0 <= k < |parents| ==> parents[k] !in files
    ensures !Blocked(p, files)
  {
    forall a | a in files && a != [] ensures !Above(a, p) { assert a in parents <==> Above(a, p); }
  }

  // One tree

  /** A directory between `root` and one of the outputs. */
  predicate Between(root: Path, a: Path, outputs: seq<Output>) {
    Above(root, a) && exists i :: 0 <= i < |outputs| && Above(a, outputs[i].path)
  }

  predicate FileOf(e: PlannedEntry, outputs: seq<Output>, store: Store) {
    exists i :: 0 <= i < |outputs| && store.Get(outputs[i].contentId).Some? &&
      e == PlannedFileEntry(outputs[i].path, Resolved(outputs[i], store))
  }

  predicate DirectoryOf(e: PlannedEntry, root: Path, outputs: seq<Output>, ob: Observed) {
    && e.PlannedDirectoryEntry? && e.mode == DIRECTORY_MODE
    && Between(root, e.path, outputs)
    && e.path !in ob.states && e.path !in ob.directoryStates
  }

  predicate PlannedPathLess(a: PlannedEntry, b: PlannedEntry) {
    PathLess(a.path, b.path)
  }

  /** The tree of `outputs` at `root`: each output, each directory between, nothing else. */
  ghost predicate TreeFor(root: Path, outputs: seq<Output>, ob: Observed, store: Store, tree: PlannedTree) {
    && tree.rootMode == DIRECTORY_MODE
    && (forall e :: e in tree.entries <==> FileOf(e, outputs, store) || DirectoryOf(e, root, outputs, ob))
    && HasBlobs(tree.entries, store)
    && tree.hash == TreeHash(PlannedContent(tree, store))
  }

  /** The unobserved directories between `root` and `p`. */
  function NewDirectories(root: Path, p: Path, ob: Observed): set<Path> {
    set a | a in Parents(p) && Above(root, a) && a !in ob.states && a !in ob.directoryStates
  }

  function AllNewDirectories(root: Path, outputs: seq<Output>, ob: Observed): set<Path> {
    if outputs == [] then {} else
      AllNewDirectories(root, outputs[..|outputs| - 1], ob) + NewDirectories(root, outputs[|outputs| - 1].path, ob)
  }

  predicate AddedDirectory(e: PlannedEntry, added: set<Path>) {
    e.PlannedDirectoryEntry? && e.mode == DIRECTORY_MODE && e.path in added
  }

  /** Adds the directories above one output that are not there yet. */
  method AddParents(root: Path, p: Path, ob: Observed, entries: seq<PlannedEntry>, directories: set<Path>)
    returns (es: seq<PlannedEntry>, ds: set<Path>)
    ensures ds == directories + NewDirectories(root, p, ob)
    ensures forall e :: e in es <==> e in entries || AddedDirectory(e, ds - directories)
    ensures entries <= es
    ensures DistinctEntries(entries) && (forall e :: e in entries ==> e.path !in ds - directories) ==> DistinctEntries(es)
  {
    es, ds := entries, directories;
    var parents := Parents(p);
    ghost var apart := DistinctEntries(entries) && (forall e :: e in entries ==> e.path !in NewDirectories(root, p, ob) - directories);
    for n := 0 to |parents|
      invariant ds == directories + set a | a in parents[..n] && Above(root, a) && a !in ob.states && a !in ob.directoryStates
      invariant forall e :: e in es <==> e in entries || AddedDirectory(e, ds - directories)
      invariant entries <= es
      invariant apart ==> DistinctEntries(es)
    {
      var a := parents[n];
      assert parents[..n + 1] == parents[..n] + [a];
      if Above(root, a) && a !in ds && a !in ob.states && a !in ob.directoryStates {
        assert a in NewDirectories(root, p, ob) - directories;
        assert apart ==> forall e :: e in es ==> e.path != a;
        es, ds := es + [PlannedDirectoryEntry(a, DIRECTORY_MODE)], ds + {a};
      }
    }
    assert parents[..|parents|] == parents;
  }

  lemma BetweenGrows(root: Path, a: Path, front: seq<Output>, o: Output)
    ensures Between(root, a, front + [o]) <==> Between(root, a, front) || (Above(root, a) && Above(a, o.path))
  {
    var outputs := front + [o];
    if i :| 0 <= i < |front| && Above(a, front[i].path) { assert outputs[i] == front[i]; }
    if Above(a, o.path) { assert outputs[|front|] == o; }
    if i :| 0 <= i < |outputs| && Above(a, outputs[i].path) { assert i == |front| || front[i] == outputs[i]; }
  }

  lemma {:induction false} NewDirectoriesBetween(root: Path, outputs: seq<Output>, ob: Observed, a: Path)
    requires root != []
    ensures a in AllNewDirectories(root, outputs, ob) <==>
      Between(root, a, outputs) && a !in ob.states && a !in ob.directoryStates
    decreases |outputs|
  {
    if outputs != [] {
      var front, o := outputs[..|outputs| - 1], outputs[|outputs| - 1];
      assert outputs == front + [o];
      NewDirectoriesBetween(root, front, ob, a);
      BetweenGrows(root, a, front, o);
      assert a in Parents(o.path) <==> a != [] && Above(a, o.path);
    }
  }

  lemma FileOfGrows(e: PlannedEntry, outputs: seq<Output>, i: nat, store: Store)
    requires i < |outputs| && store.Get(outputs[i].contentId).Some?
    ensures FileOf(e, outputs[..i + 1], store) <==>
      FileOf(e, outputs[..i], store) || e == PlannedFileEntry(outputs[i].path, Resolved(outputs[i], store))
  {
    assert forall k :: 0 <= k < i ==> outputs[..i + 1][k] == outputs[..i][k];
    assert outputs[..i + 1][i] == outputs[i];
  }

  predicate Found(e: PlannedEntry, root: Path, outputs: seq<Output>, ob: Observed, store: Store) {
    || FileOf(e, outputs, store)
    || (e.PlannedDirectoryEntry? && e.mode == DIRECTORY_MODE && e.path in AllNewDirectories(root, outputs, ob))
  }

  ghost predicate FoundEntries(root: Path, outputs: seq<Output>, ob: Observed, store: Store, es: seq<PlannedEntry>) {
    forall e :: e in es <==> Found(e, root, outputs, ob, store)
  }

  lemma FoundGrows(root: Path, outputs: seq<Output>, i: nat, ob: Observed, store: Store, before: seq<PlannedEntry>,
                   after: seq<PlannedEntry>, ds: set<Path>)
    requires i < |outputs| && store.Get(outputs[i].contentId).Some?
    requires FoundEntries(root, outputs[..i], ob, store, before)
    requires ds == AllNewDirectories(root, outputs[..i], ob)
    requires var added := NewDirectories(root, outputs[i].path, ob) - ds;
      var file := PlannedFileEntry(outputs[i].path, Resolved(outputs[i], store));
      forall e :: e in after <==> e in before + [file] || AddedDirectory(e, added)
    ensures FoundEntries(root, outputs[..i + 1], ob, store, after)
    ensures AllNewDirectories(root, outputs[..i + 1], ob) == ds + NewDirectories(root, outputs[i].path, ob)
  {
    var more := outputs[..i + 1];
    assert more[..|more| - 1] == outputs[..i] && more[|more| - 1] == outputs[i];
    forall e ensures e in after <==> Found(e, root, more, ob, store) {
      FileOfGrows(e, outputs, i, store);
    }
  }

  /** No entry found so far stands at the path of a later output, nor at a directory above it that is new. */
  lemma FoundApart(root: Path, outputs: seq<Output>, i: nat, ob: Observed, store: Store, es: seq<PlannedEntry>)
    requires root != [] && WellFormed(outputs) && i < |outputs|
    requires FoundEntries(root, outputs[..i], ob, store, es)
    ensures forall e :: e in es ==> e.path != outputs[i].path
    ensures forall e :: e in es ==>
      e.path !in NewDirectories(root, outputs[i].path, ob) - AllNewDirectories(root, outputs[..i], ob)
  {
    forall e | e in es
      ensures e.path != outputs[i].path
      ensures e.path !in NewDirectories(root, outputs[i].path, ob) - AllNewDirectories(root, outputs[..i], ob)
    {
      assert Found(e, root, outputs[..i], ob, store);
      if FileOf(e, outputs[..i], store) {
        var k :| 0 <= k < i && e.path == outputs[k].path;
        assert e.path != [] && !Above(outputs[k].path, outputs[i].path);
      } else {
        NewDirectoriesBetween(root, outputs[..i], ob, e.path);
        var k :| 0 <= k < i && Above(e.path, outputs[k].path);
        assert !Above(outputs[i].path, outputs[k].path);
      }
    }
  }

  lemma FileIsApart(root: Path, outputs: seq<Output>, i: nat, ob: Observed, store: Store, es: seq<PlannedEntry>, file: PlannedEntry)
    requires root != [] && WellFormed(outputs) && i < |outputs| && file.path == outputs[i].path
    requires FoundEntries(root, outputs[..i], ob, store, es) && DistinctEntries(es)
    ensures DistinctEntries(es + [file])
    ensures forall e :: e in es + [file] ==>
      e.path !in NewDirectories(root, outputs[i].path, ob) - AllNewDirectories(root, outputs[..i], ob)
  {
    FoundApart(root, outputs, i, ob, store, es);
    assert forall k :: 0 <= k < |es| ==> es[k] in es;
    assert file.path !in NewDirectories(root, outputs[i].path, ob);
  }

  /** Two outputs at one path. */
  ghost predicate Repeats(outputs: seq<Output>) {
    exists i: nat, j: nat :: RepeatsAt(outputs, i, j)
  }

  predicate RepeatsAt(outputs: seq<Output>, i: nat, j: nat) {
    i < j < |outputs| && outputs[i].path == outputs[j].path
  }

  lemma RepeatShows(root: Path, outputs: seq<Output>, i: nat, ob: Observed, store: Store, before: seq<PlannedEntry>,
                    es: seq<PlannedEntry>)
    requires i < |outputs| && Stored(outputs[..i + 1], store) && FoundEntries(root, outputs[..i], ob, store, before)
    requires Repeats(outputs[..i]) ==> !DistinctEntries(before)
    requires store.Get(outputs[i].contentId).Some?
    requires before + [PlannedFileEntry(outputs[i].path, Resolved(outputs[i], store))] <= es
    ensures Repeats(outputs[..i + 1]) ==> !DistinctEntries(es)
  {
    var more, file := outputs[..i + 1], PlannedFileEntry(outputs[i].path, Resolved(outputs[i], store));
    if Repeats(more) {
      var a: nat, b: nat :| RepeatsAt(more, a, b);
      if b < i {
        assert RepeatsAt(outputs[..i], a, b);
        var x, y :| 0 <= x < y < |before| && before[x].path == before[y].path;
        assert es[x] == before[x] && es[y] == before[y];
      } else {
        assert more[a] in more && store.Get(more[a].contentId).Some? && outputs[..i][a] == more[a];
        var e := PlannedFileEntry(more[a].path, Resolved(more[a], store));
        assert Found(e, root, outputs[..i], ob, store);
        var x :| 0 <= x < |before| && before[x] == e;
        assert es[x] == e && es[|before|] == file;
      }
    }
  }

  /** What has been collected from the first `i` outputs. */
  ghost predicate Collected(root: Path, outputs: seq<Output>, i: nat, ob: Observed, store: Store,
                            es: seq<PlannedEntry>, ds: set<Path>)
    requires i <= |outputs|
  {
    && FoundEntries(root, outputs[..i], ob, store, es)
    && ds == AllNewDirectories(root, outputs[..i], ob)
    && (WellFormed(outputs) ==> DistinctEntries(es))
    && (Repeats(outputs[..i]) ==> !DistinctEntries(es))
  }

  lemma CollectStep(root: Path, outputs: seq<Output>, i: nat, ob: Observed, store: Store,
                    before: seq<PlannedEntry>, known: set<Path>, es: seq<PlannedEntry>, ds: set<Path>)
    requires root != [] && i < |outputs| && Stored(outputs[..i + 1], store) && store.Get(outputs[i].contentId).Some?
    requires Collected(root, outputs, i, ob, store, before, known)
    requires before + [PlannedFileEntry(outputs[i].path, Resolved(outputs[i], store))] <= es
    requires ds == known + NewDirectories(root, outputs[i].path, ob)
    requires var file := PlannedFileEntry(outputs[i].path, Resolved(outputs[i], store));
      && (forall e :: e in es <==> e in before + [file] || AddedDirectory(e, ds - known))
      && (DistinctEntries(before + [file]) && (forall e :: e in before + [file] ==> e.path !in ds - known) ==> DistinctEntries(es))
    ensures Collected(root, outputs, i + 1, ob, store, es, ds)
  {
    var file := PlannedFileEntry(outputs[i].path, Resolved(outputs[i], store));
    var added := NewDirectories(root, outputs[i].path, ob) - known;
    assert ds - known == added;
    FoundGrows(root, outputs, i, ob, store, before, es, known);
    RepeatShows(root, outputs, i, ob, store, before, es);
    if WellFormed(outputs) { FileIsApart(root, outputs, i, ob, store, before, file); }
  }

  /** The entries of a tree in the order they are found. */
  method CollectEntries(root: Path, outputs: seq<Output>, ob: Observed, store: Store)
    returns (r: Result<seq<PlannedEntry>, Refused>)
    requires root != []
    ensures r.Ok? <==> Stored(outputs, store)
    ensures r.Ok? ==> FoundEntries(root, outputs, ob, store, r.value)
    ensures r.Ok? && WellFormed(outputs) ==> DistinctEntries(r.value)
    ensures r.Ok? && Repeats(outputs) ==> !DistinctEntries(r.value)
  {
    var entries: seq<PlannedEntry>, directories: set<Path> := [], {};
    for i := 0 to |outputs|
      invariant forall k :: 0 <= k < i ==> store.Get(outputs[k].contentId).Some?
      invariant Collected(root, outputs, i, ob, store, entries, directories)
    {
      var o := outputs[i];
      if store.Get(o.contentId).None? {
        assert o in outputs;
        return Err(BlobMissing);
      }
      assert outputs[..i + 1] == outputs[..i] + [o] && forall k :: 0 <= k < i ==> outputs[..i][k] == outputs[k];
      var found, known := entries, directories;
      entries, directories := AddParents(root, o.path, ob, found + [PlannedFileEntry(o.path, Resolved(o, store))], known);
      CollectStep(root, outputs, i, ob, store, found, known, entries, directories);
    }
    assert outputs[..|outputs|] == outputs;
    return Ok(entries);
  }

  // Trees in path order

  lemma EntriesSort(es: seq<PlannedEntry>)
    requires DistinctEntries(es) && forall e :: e in es ==> Valid(e.path)
    ensures Sorted(Sort(es, PlannedPathLess), PlannedPathLess)
  {
    EntryLessIsStrict();
    forall a, b | a in es && b in es ensures PlannedPathLess(a, b) || PlannedPathLess(b, a) || a == b {
      PathOrderIsTotal(a.path, b.path);
    }
    SortStrictly(es, PlannedPathLess);
  }

  /** Sorting neither parts nor joins two entries at one path. */
  lemma SortKeepsRepeats(es: seq<PlannedEntry>)
    requires !DistinctEntries(es)
    ensures !DistinctEntries(Sort(es, PlannedPathLess))
  {
    var r := Sort(es, PlannedPathLess);
    var i, j :| 0 <= i < j < |es| && es[i].path == es[j].path;
    SameElements(es, PlannedPathLess);
    if es[i] == es[j] {
      assert !NoDuplicates(es);
      NoDuplicatesCounts(es);
      NoDuplicatesCounts(r);
      var x, y :| 0 <= x < y < |r| && r[x] == r[y];
      assert r[x].path == r[y].path;
    } else {
      assert es[i] in r && es[j] in r;
      var x :| 0 <= x < |r| && r[x] == es[i];
      var y :| 0 <= y < |r| && r[y] == es[j];
      assert r[x].path == r[y].path && x != y;
    }
  }

  lemma {:induction false} AllStored(root: Path, outputs: seq<Output>, ob: Observed, store: Store, es: seq<PlannedEntry>)
    requires FoundEntries(root, outputs, ob, store, es)
    ensures HasBlobs(es, store)
  {
    forall e | e in es && e.PlannedFileEntry? ensures store.Get(e.file.contentId).Some? {
      assert Found(e, root, outputs, ob, store);
    }
  }

  lemma FoundIsTree(root: Path, outputs: seq<Output>, ob: Observed, store: Store, e: PlannedEntry)
    requires root != []
    ensures Found(e, root, outputs, ob, store) <==> FileOf(e, outputs, store) || DirectoryOf(e, root, outputs, ob)
  {
    NewDirectoriesBetween(root, outputs, ob, e.path);
  }

  lemma FoundAreValid(root: Path, outputs: seq<Output>, ob: Observed, store: Store, e: PlannedEntry)
    requires root != [] && WellFormed(outputs) && Found(e, root, outputs, ob, store)
    ensures Valid(e.path)
  {
    NewDirectoriesBetween(root, outputs, ob, e.path);
    if !FileOf(e, outputs, store) {
      var k :| 0 <= k < |outputs| && Above(e.path, outputs[k].path);
      assert e.path == outputs[k].path[..|e.path|];
    }
  }

  /** The planned tree of the outputs grouped at `root`; strictly in path order when they are well formed. */
  method BuildTree(root: Path, outputs: seq<Output>, ob: Observed, store: Store) returns (r: Result<PlannedTree, Refused>)
    requires root != []
    ensures r.Ok? <==> Stored(outputs, store)
    ensures r.Ok? ==> TreeFor(root, outputs, ob, store, r.value)
    ensures r.Ok? && WellFormed(outputs) ==> Sorted(r.value.entries, PlannedPathLess)
    ensures r.Ok? && Repeats(outputs) ==> !DistinctEntries(r.value.entries)
  {
    var found := CollectEntries(root, outputs, ob, store);
    if found.Err? { return Err(found.error); }
    var entries := Sort(found.value, PlannedPathLess);
    SameElements(found.value, PlannedPathLess);
    AllStored(root, outputs, ob, store, found.value);
    forall e ensures e in entries <==> FileOf(e, outputs, store) || DirectoryOf(e, root, outputs, ob) {
      FoundIsTree(root, outputs, ob, store, e);
    }
    if Repeats(outputs) { SortKeepsRepeats(found.value); }
    if WellFormed(outputs) {
      forall e | e in found.value ensures Valid(e.path) { FoundAreValid(root, outputs, ob, store, e); }
      EntriesSort(found.value);
    }
    var unhashed := PlannedTree(DIRECTORY_MODE, entries, TreeSha(DIRECTORY_MODE, []));
    var tree := PlannedTree(DIRECTORY_MODE, entries, TreeHash(PlannedContent(unhashed, store)));
    assert PlannedContent(tree, store) == PlannedContent(unhashed, store);
    return Ok(tree);
  }

  // Grouping

  /** The outputs a tree at `root` covers. */
  function Group(outputs: seq<Output>, root: Path, dirs: set<Path>): (r: seq<Output>)
    ensures forall o :: o in r <==> o in outputs && RootOf(o.path, dirs) == Some(root)
  {
    if outputs == [] then [] else
      var front, o := Group(outputs[..|outputs| - 1], root, dirs), outputs[|outputs| - 1];
      assert outputs == outputs[..|outputs| - 1] + [o];
      if RootOf(o.path, dirs) == Some(root) then front + [o] else front
  }

  function Roots(outputs: seq<Output>, dirs: set<Path>): set<Path> {
    set i | 0 <= i < |outputs| && RootOf(outputs[i].path, dirs).Some? :: RootOf(outputs[i].path, dirs).value
  }

  function Covered(outputs: seq<Output>, dirs: set<Path>): set<Path> {
    set i | 0 <= i < |outputs| && RootOf(outputs[i].path, dirs).Some? :: outputs[i].path
  }

  ghost predicate Enumerates(roots: seq<Path>, all: set<Path>) {
    NoDuplicates(roots) && forall a :: a in roots <==> a in all
  }

  ghost predicate Grouped(outputs: seq<Output>, dirs: set<Path>, roots: seq<Path>, groups: map<Path, seq<Output>>) {
    && Enumerates(roots, Roots(outputs, dirs))
    && groups.Keys == Roots(outputs, dirs)
    && GroupsOf(groups, outputs, dirs)
  }

  lemma RootsGrowAt(before: seq<Output>, o: Output, dirs: set<Path>, a: Path)
    ensures a in Roots(before + [o], dirs) <==> a in Roots(before, dirs) || RootOf(o.path, dirs) == Some(a)
  {
    var after := before + [o];
    if a in Roots(before, dirs) {
      var k :| 0 <= k < |before| && RootOf(before[k].path, dirs) == Some(a);
      assert after[k] == before[k];
    }
    if RootOf(o.path, dirs) == Some(a) { assert after[|before|] == o; }
    if a in Roots(after, dirs) {
      var k :| 0 <= k < |after| && RootOf(after[k].path, dirs) == Some(a);
      assert k == |before| || after[k] == before[k];
    }
  }

  lemma CoveredGrowsAt(before: seq<Output>, o: Output, dirs: set<Path>, p: Path)
    ensures p in Covered(before + [o], dirs) <==>
      p in Covered(before, dirs) || (RootOf(o.path, dirs).Some? && o.path == p)
  {
    var after := before + [o];
    if p in Covered(before, dirs) {
      var k :| 0 <= k < |before| && RootOf(before[k].path, dirs).Some? && before[k].path == p;
      assert after[k] == before[k];
    }
    if RootOf(o.path, dirs).Some? && o.path == p { assert after[|before|] == o; }
    if p in Covered(after, dirs) {
      var k :| 0 <= k < |after| && RootOf(after[k].path, dirs).Some? && after[k].path == p;
      assert k == |before| || after[k] == before[k];
    }
  }

  function RootSet(root: Option<Path>): set<Path> {
    if root.Some? then {root.value} else {}
  }

  lemma RootsGrow(outputs: seq<Output>, i: nat, dirs: set<Path>)
    requires i < |outputs|
    ensures Roots(outputs[..i + 1], dirs) == Roots(outputs[..i], dirs) + RootSet(RootOf(outputs[i].path, dirs))
  {
    assert outputs[..i + 1] == outputs[..i] + [outputs[i]];
    forall a ensures a in Roots(outputs[..i + 1], dirs) <==>
      a in Roots(outputs[..i], dirs) || a in RootSet(RootOf(outputs[i].path, dirs))
    {
      RootsGrowAt(outputs[..i], outputs[i], dirs, a);
    }
  }

  lemma CoveredGrows(outputs: seq<Output>, i: nat, dirs: set<Path>)
    requires i < |outputs|
    ensures Covered(outputs[..i + 1], dirs) ==
      Covered(outputs[..i], dirs) + if RootOf(outputs[i].path, dirs).Some? then {outputs[i].path} else {}
  {
    assert outputs[..i + 1] == outputs[..i] + [outputs[i]];
    forall p ensures p in Covered(outputs[..i + 1], dirs) <==>
      p in Covered(outputs[..i], dirs) || (RootOf(outputs[i].path, dirs).Some? && outputs[i].path == p)
    {
      CoveredGrowsAt(outputs[..i], outputs[i], dirs, p);
    }
  }

  lemma GroupGrows(outputs: seq<Output>, i: nat, a: Path, dirs: set<Path>)
    requires i < |outputs|
    ensures Group(outputs[..i + 1], a, dirs) ==
      Group(outputs[..i], a, dirs) + (if RootOf(outputs[i].path, dirs) == Some(a) then [outputs[i]] else [])
  {
    var after := outputs[..i + 1];
    assert after[..|after| - 1] == outputs[..i];
  }

  lemma {:induction false} EmptyGroup(outputs: seq<Output>, a: Path, dirs: set<Path>)
    requires a !in Roots(outputs, dirs)
    ensures Group(outputs, a, dirs) == []
    decreases |outputs|
  {
    if outputs != [] {
      RootsGrow(outputs, |outputs| - 1, dirs);
      assert outputs[..|outputs|] == outputs;
      EmptyGroup(outputs[..|outputs| - 1], a, dirs);
    }
  }

  lemma EnumeratesMore(roots: seq<Path>, all: set<Path>, root: Path)
    requires Enumerates(roots, all) && root !in all
    ensures Enumerates(roots + [root], all + {root})
  {
  }

  /** The groups of a longer list. */
  ghost predicate GroupsOf(groups: map<Path, seq<Output>>, outputs: seq<Output>, dirs: set<Path>) {
    forall a :: a in groups ==> groups[a] == Group(outputs, a, dirs)
  }

  lemma OtherGroupsStay(outputs: seq<Output>, i: nat, dirs: set<Path>, groups: map<Path, seq<Output>>, a: Path)
    requires i < |outputs| && GroupsOf(groups, outputs[..i], dirs) && a in groups
    requires RootOf(outputs[i].path, dirs) != Some(a)
    ensures groups[a] == Group(outputs[..i + 1], a, dirs)
  {
    GroupGrows(outputs, i, a, dirs);
  }

  lemma UnrootedStep(outputs: seq<Output>, i: nat, dirs: set<Path>, roots: seq<Path>, groups: map<Path, seq<Output>>)
    requires i < |outputs| && Grouped(outputs[..i], dirs, roots, groups) && RootOf(outputs[i].path, dirs).None?
    ensures Grouped(outputs[..i + 1], dirs, roots, groups)
  {
    RootsGrow(outputs, i, dirs);
    forall a | a in groups ensures groups[a] == Group(outputs[..i + 1], a, dirs) {
      OtherGroupsStay(outputs, i, dirs, groups, a);
    }
  }

  lemma RootedGroups(outputs: seq<Output>, i: nat, dirs: set<Path>, groups: map<Path, seq<Output>>, root: Path)
    requires i < |outputs| && GroupsOf(groups, outputs[..i], dirs) && RootOf(outputs[i].path, dirs) == Some(root)
    requires root !in groups ==> root !in Roots(outputs[..i], dirs)
    ensures var was := if root in groups then groups[root] else [];
      GroupsOf(groups[root := was + [outputs[i]]], outputs[..i + 1], dirs)
  {
    var was := if root in groups then groups[root] else [];
    var grown := groups[root := was + [outputs[i]]];
    GroupGrows(outputs, i, root, dirs);
    if root !in groups { EmptyGroup(outputs[..i], root, dirs); }
    forall a | a in grown && a != root ensures grown[a] == Group(outputs[..i + 1], a, dirs) {
      OtherGroupsStay(outputs, i, dirs, groups, a);
    }
  }

  lemma KnownRootStep(outputs: seq<Output>, i: nat, dirs: set<Path>, roots: seq<Path>, groups: map<Path, seq<Output>>,
                      root: Path)
    requires i < |outputs| && Grouped(outputs[..i], dirs, roots, groups) && RootOf(outputs[i].path, dirs) == Some(root)
    requires root in groups
    ensures Grouped(outputs[..i + 1], dirs, roots, groups[root := groups[root] + [outputs[i]]])
  {
    RootsGrow(outputs, i, dirs);
    RootedGroups(outputs, i, dirs, groups, root);
    var all := Roots(outputs[..i], dirs);
    assert root in all && all + {root} == all;
  }

  lemma NewRootStep(outputs: seq<Output>, i: nat, dirs: set<Path>, roots: seq<Path>, groups: map<Path, seq<Output>>,
                    root: Path)
    requires i < |outputs| && Grouped(outputs[..i], dirs, roots, groups) && RootOf(outputs[i].path, dirs) == Some(root)
    requires root !in groups
    ensures Grouped(outputs[..i + 1], dirs, roots + [root], groups[root := [outputs[i]]])
  {
    RootsGrow(outputs, i, dirs);
    EnumeratesMore(roots, Roots(outputs[..i], dirs), root);
    RootedGroups(outputs, i, dirs, groups, root);
    assert [] + [outputs[i]] == [outputs[i]];
  }

  /** Groups outputs by root, roots in the order they are met. */
  method GroupOutputs(outputs: seq<Output>, ob: Observed)
    returns (r: Result<(seq<Path>, map<Path, seq<Output>>, set<Path>), Refused>)
    ensures r.Err? <==> AnyBlocked(outputs, ob.states.Keys)
    ensures r.Ok? ==> Grouped(outputs, ob.directoryStates.Keys, r.value.0, r.value.1)
    ensures r.Ok? ==> r.value.2 == Covered(outputs, ob.directoryStates.Keys)
  {
    var roots: seq<Path>, groups: map<Path, seq<Output>>, covered: set<Path> := [], map[], {};
    ghost var dirs := ob.directoryStates.Keys;
    for i := 0 to |outputs|
      invariant !AnyBlocked(outputs[..i], ob.states.Keys)
      invariant Grouped(outputs[..i], dirs, roots, groups)
      invariant covered == Covered(outputs[..i], dirs)
    {
      var o := outputs[i];
      var chain := AbsentChain(o.path, ob);
      BlockedGrows(outputs, i, ob.states.Keys);
      if chain.Err? { return Err(chain.error); }
      CoveredGrows(outputs, i, dirs);
      if chain.value == [] {
        UnrootedStep(outputs, i, dirs, roots, groups);
      } else {
        var root := chain.value[0];
        if root in groups {
          KnownRootStep(outputs, i, dirs, roots, groups, root);
          groups := groups[root := groups[root] + [o]];
        } else {
          NewRootStep(outputs, i, dirs, roots, groups, root);
          roots, groups := roots + [root], groups[root := [o]];
        }
        covered := covered + {o.path};
      }
    }
    assert outputs[..|outputs|] == outputs;
    return Ok((roots, groups, covered));
  }

  /** A tree operation for the outputs grouped at its root. */
  ghost predicate TreeOperationFor(op: Operation, outputs: seq<Output>, ob: Observed, store: Store) {
    && op.CreateTree? && op.treeBefore == None
    && TreeFor(op.path, Group(outputs, op.path, ob.directoryStates.Keys), ob, store, op.tree)
    && (WellFormed(outputs) ==> Sorted(op.tree.entries, PlannedPathLess))
    && (Repeats(Group(outputs, op.path, ob.directoryStates.Keys)) ==> !DistinctEntries(op.tree.entries))
  }

  ghost predicate TreesFor(trees: seq<Operation>, outputs: seq<Output>, ob: Observed, store: Store) {
    && (forall k :: 0 <= k < |trees| ==> TreeOperationFor(trees[k], outputs, ob, store))
    && (forall i, j :: 0 <= i < j < |trees| ==> trees[i].path != trees[j].path)
    && (forall a :: a in Roots(outputs, ob.directoryStates.Keys) <==> exists k :: 0 <= k < |trees| && trees[k].path == a)
  }

  predicate CoveredStored(outputs: seq<Output>, ob: Observed, store: Store) {
    forall o :: o in outputs && RootOf(o.path, ob.directoryStates.Keys).Some? ==> store.Get(o.contentId).Some?
  }

  predicate Apart(a: Output, b: Output) {
    a.path != b.path && !Above(a.path, b.path) && !Above(b.path, a.path)
  }

  lemma WellFormedAppend(outputs: seq<Output>, o: Output)
    requires WellFormed(outputs) && Valid(o.path) && forall x :: x in outputs ==> Apart(x, o)
    ensures WellFormed(outputs + [o])
  {
    forall k | 0 <= k < |outputs| ensures Apart(outputs[k], o) { assert outputs[k] in outputs; }
    assert !Above(o.path, o.path);
  }

  lemma WellFormedFront(front: seq<Output>, o: Output)
    requires WellFormed(front + [o])
    ensures WellFormed(front) && Valid(o.path) && forall x :: x in front ==> Apart(x, o)
  {
    var outputs := front + [o];
    forall k | 0 <= k < |front| ensures outputs[k] == front[k] { }
    assert outputs[|front|] == o;
    forall x | x in front ensures Apart(x, o) {
      var k :| 0 <= k < |front| && front[k] == x;
      assert outputs[k].path != outputs[|front|].path;
    }
  }

  lemma {:induction false} GroupWellFormed(outputs: seq<Output>, a: Path, dirs: set<Path>)
    requires WellFormed(outputs)
    ensures WellFormed(Group(outputs, a, dirs))
    decreases |outputs|
  {
    if outputs != [] {
      var front, o := outputs[..|outputs| - 1], outputs[|outputs| - 1];
      assert outputs == front + [o];
      WellFormedFront(front, o);
      GroupWellFormed(front, a, dirs);
      WellFormedAppend(Group(front, a, dirs), o);
    }
  }

  lemma RootsNonempty(outputs: seq<Output>, dirs: set<Path>, a: Path)
    requires a in Roots(outputs, dirs)
    ensures a != [] && exists o :: o in outputs && RootOf(o.path, dirs) == Some(a)
  {
    var i :| 0 <= i < |outputs| && RootOf(outputs[i].path, dirs) == Some(a);
    assert outputs[i] in outputs;
    assert a in Parents(outputs[i].path);
  }

  predicate ValidPaths(outputs: seq<Output>) {
    forall o :: o in outputs ==> Valid(o.path)
  }

  lemma RootsAreSorted(roots: seq<Path>, outputs: seq<Output>, dirs: set<Path>)
    requires ValidPaths(outputs) && NoDuplicates(roots) && forall a :: a in roots ==> a in Roots(outputs, dirs)
    ensures Sorted(Sort(roots, PathLess), PathLess)
  {
    forall a | a in roots ensures Valid(a) {
      var i :| 0 <= i < |outputs| && RootOf(outputs[i].path, dirs) == Some(a);
      assert outputs[i] in outputs && a in Parents(outputs[i].path);
      assert forall k :: 0 <= k < |a| ==> a[k] == outputs[i].path[..|a|][k];
    }
    SortedPaths(roots);
  }

  /** The trees of the first roots have been built. */
  ghost predicate BuiltUpTo(trees: seq<Operation>, roots: seq<Path>, outputs: seq<Output>, ob: Observed, store: Store) {
    && |trees| <= |roots|
    && forall j :: 0 <= j < |trees| ==> BuiltAt(trees[j], roots[j], outputs, ob, store)
  }

  ghost predicate BuiltAt(op: Operation, root: Path, outputs: seq<Output>, ob: Observed, store: Store) {
    && op.path == root && TreeOperationFor(op, outputs, ob, store)
    && Stored(Group(outputs, root, ob.directoryStates.Keys), store)
  }

  lemma BuiltStep(trees: seq<Operation>, roots: seq<Path>, op: Operation, outputs: seq<Output>, ob: Observed, store: Store)
    requires |trees| < |roots| && BuiltUpTo(trees, roots, outputs, ob, store)
    requires BuiltAt(op, roots[|trees|], outputs, ob, store)
    ensures BuiltUpTo(trees + [op], roots, outputs, ob, store)
  {
    var more := trees + [op];
    forall j | 0 <= j < |more| ensures BuiltAt(more[j], roots[j], outputs, ob, store) {
      if j < |trees| { assert more[j] == trees[j]; }
    }
  }

  lemma BuiltAll(trees: seq<Operation>, roots: seq<Path>, outputs: seq<Output>, ob: Observed, store: Store)
    requires BuiltUpTo(trees, roots, outputs, ob, store) && |trees| == |roots|
    requires Enumerates(roots, Roots(outputs, ob.directoryStates.Keys))
    ensures TreesFor(trees, outputs, ob, store) && CoveredStored(outputs, ob, store)
  {
    var dirs := ob.directoryStates.Keys;
    forall k | 0 <= k < |trees| ensures trees[k].path == roots[k] && TreeOperationFor(trees[k], outputs, ob, store) {
      assert BuiltAt(trees[k], roots[k], outputs, ob, store);
    }
    forall o | o in outputs && RootOf(o.path, dirs).Some? ensures store.Get(o.contentId).Some? {
      var root := RootOf(o.path, dirs).value;
      var i :| 0 <= i < |outputs| && outputs[i] == o;
      assert root in roots;
      var j :| 0 <= j < |roots| && roots[j] == root;
      assert BuiltAt(trees[j], roots[j], outputs, ob, store);
      assert o in Group(outputs, roots[j], dirs);
    }
  }

  /**
   Every output with an absent parent goes into exactly one tree.  Refused exactly
   when an observed file stands above some output, or a covered output has no blob.
   */
  method BuildTrees(outputs: seq<Output>, ob: Observed, store: Store)
    returns (r: Result<(seq<Operation>, set<Path>), Refused>)
    ensures r.Ok? <==> !AnyBlocked(outputs, ob.states.Keys) && CoveredStored(outputs, ob, store)
    ensures r.Ok? ==> TreesFor(r.value.0, outputs, ob, store)
    ensures r.Ok? ==> r.value.1 == Covered(outputs, ob.directoryStates.Keys)
    ensures r.Ok? && ValidPaths(outputs) ==> InPathOrder(r.value.0)
  {
    var grouping := GroupOutputs(outputs, ob);
    if grouping.Err? { return Err(grouping.error); }
    var (roots, groups, covered) := grouping.value;
    ghost var dirs := ob.directoryStates.Keys;
    var ordered := Sort(roots, PathLess);
    SortKeepsNoDuplicates(roots, PathLess);
    SameElements(roots, PathLess);
    var trees: seq<Operation> := [];
    for k := 0 to |ordered|
      invariant |trees| == k
      invariant BuiltUpTo(trees, ordered, outputs, ob, store)
    {
      var root := ordered[k];
      assert root in ordered;
      RootsNonempty(outputs, dirs, root);
      if WellFormed(outputs) { GroupWellFormed(outputs, root, dirs); }
      var tree := BuildTree(root, groups[root], ob, store);
      if tree.Err? {
        assert !CoveredStored(outputs, ob, store);
        return Err(tree.error);
      }
      var op := CreateTree(root, None, tree.value);
      assert BuiltAt(op, root, outputs, ob, store);
      BuiltStep(trees, ordered, op, outputs, ob, store);
      trees := trees + [op];
    }
    BuiltAll(trees, ordered, outputs, ob, store);
    if ValidPaths(outputs) {
      RootsAreSorted(roots, outputs, dirs);
      forall k | 0 <= k < |trees| ensures trees[k].path == ordered[k] { assert BuiltAt(trees[k], ordered[k], outputs, ob, store); }
      OperationsInOrder(trees, ordered);
    }
    return Ok((trees, covered));
  }
}
