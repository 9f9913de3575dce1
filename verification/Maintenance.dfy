/** Maintenance cleanup: which observed files are deleted and which directories removed. */
module Maintenance {
  import opened Results
  import opened Paths
  import opened Sorting
  import opened Identity
  import opened Plans
  import opened Orders
  import opened Apply
  import opened Outputs
  import opened Grouping
  import opened Overlays

  const INVENTORY: Path := [".rygor", "maintenance-artifacts.json"]

  datatype CleanupContract = CleanupContract(lifecyclePaths: seq<Path>, cleanupPaths: seq<Path>)

  function ToSet(ps: seq<Path>): set<Path> {
    set p | p in ps
  }

  /** Owned by the lifecycle, or declared but not observed, or observed but not declared: refused. */
  function ValidateContract(contract: CleanupContract, observed: seq<Path>): Result<(), Refused> {
    if ToSet(contract.lifecyclePaths) * ToSet(contract.cleanupPaths) != {}
       || ToSet(contract.cleanupPaths) != ToSet(observed)
    then Err(CleanupDisagreement) else Ok(())
  }

  function ObservedOnes(ps: seq<Path>, ob: Observed): (r: seq<Path>)
    ensures forall p :: p in r <==> p in ps && Seen(ob, p)
  {
    if ps == [] then [] else
      assert ps == [ps[0]] + ps[1..];
      if Seen(ob, ps[0]) then [ps[0]] + ObservedOnes(ps[1..], ob) else ObservedOnes(ps[1..], ob)
  }

  predicate Flat(ps: seq<Path>) {
    forall i, j :: 0 <= i < |ps| && 0 <= j < |ps| && ps[i] != [] ==> !Above(ps[i], ps[j])
  }

  /** Declared paths that no output replaces. */
  function Effective(ps: seq<Path>, replaced: set<Path>): (r: seq<Path>)
    ensures forall p :: p in r <==> p in ps && p !in replaced
  {
    if ps == [] then [] else
      var front, p := Effective(ps[..|ps| - 1], replaced), ps[|ps| - 1];
      assert ps == ps[..|ps| - 1] + [p];
      if p in replaced then front else front + [p]
  }

  /** What a declared path takes with it: itself, and all below it if it is no file. */
  predicate Takes(c: Path, ob: Observed, p: Path) {
    c == p || (c !in ob.states && Above(c, p))
  }

  predicate Taken(cs: seq<Path>, ob: Observed, p: Path) {
    exists i :: 0 <= i < |cs| && Takes(cs[i], ob, p)
  }

  predicate IsDeletion(op: Operation, ob: Observed) {
    op.DeleteFile? && op.path in ob.states && op.before == ob.states[op.path]
  }

  predicate IsRemoval(op: Operation, ob: Observed) {
    && op.RemoveEmptyDirectory? && op.path in ob.directoryStates
    && op.directoryBefore == DirectoryState(ob.directoryStates[op.path].rootMode, [])
  }

  predicate OperationPathLess(a: Operation, b: Operation) {
    PathLess(a.path, b.path)
  }

  /** When cleanup is accepted. */
  predicate Cleanable(contract: CleanupContract, ob: Observed, replaced: set<Path>) {
    && ToSet(contract.lifecyclePaths) * ToSet(contract.cleanupPaths) == {}
    && (forall p :: p in contract.cleanupPaths ==> Seen(ob, p))
    && INVENTORY !in contract.cleanupPaths
    && Flat(contract.cleanupPaths)
    && (forall p :: p in contract.cleanupPaths && p !in replaced && p in ob.states ==> ob.states[p].Present?)
  }

  /** `known` lists the observed paths, each once. */
  ghost predicate Lists(known: seq<Path>, ob: Observed) {
    && (forall p :: p in known <==> Seen(ob, p))
    && (forall i, j :: 0 <= i < j < |known| ==> known[i] != known[j])
    && ob.states.Keys !! ob.directoryStates.Keys
  }

  lemma SortedLists(known: seq<Path>, ob: Observed)
    requires Lists(known, ob)
    ensures Lists(Sort(known, PathLess), ob)
  {
    SameElements(known, PathLess);
    SortKeepsNoDuplicates(known, PathLess);
  }

  method DeleteBelow(c: Path, ordered: seq<Path>, ob: Observed) returns (deletes: seq<Operation>)
    requires Lists(ordered, ob)
    ensures forall op :: op in deletes <==> IsDeletion(op, ob) && Above(c, op.path)
    ensures Distinct(deletes)
  {
    deletes := [];
    ghost var gone: set<Path> := {};
    for i := 0 to |ordered|
      invariant forall p :: p in gone <==> p in ordered[..i] && Above(c, p) && p in ob.states
      invariant forall op :: op in deletes <==> IsDeletion(op, ob) && op.path in gone
      invariant Distinct(deletes)
    {
      var p := ordered[i];
      assert ordered[..i + 1] == ordered[..i] + [p];
      if Above(c, p) && p in ob.states {
        forall k | 0 <= k < |deletes| ensures deletes[k].path != p { assert deletes[k] in deletes; }
        deletes, gone := deletes + [DeleteFile(p, ob.states[p])], gone + {p};
      }
    }
    assert ordered[..|ordered|] == ordered;
  }

  method RemoveDirectoriesBelow(c: Path, ordered: seq<Path>, ob: Observed) returns (removes: seq<Operation>)
    requires Lists(ordered, ob)
    ensures forall op :: op in removes <==> IsRemoval(op, ob) && Above(c, op.path)
    ensures Distinct(removes)
  {
    removes := [];
    ghost var gone: set<Path> := {};
    for i := 0 to |ordered|
      invariant forall p :: p in gone <==> p in ordered[..i] && Above(c, p) && p in ob.directoryStates
      invariant forall op :: op in removes <==> IsRemoval(op, ob) && op.path in gone
      invariant Distinct(removes)
    {
      var p := ordered[i];
      assert ordered[..i + 1] == ordered[..i] + [p];
      if Above(c, p) && p in ob.directoryStates {
        forall k | 0 <= k < |removes| ensures removes[k].path != p { assert removes[k] in removes; }
        removes := removes + [RemoveEmptyDirectory(p, DirectoryState(ob.directoryStates[p].rootMode, []))];
        gone := gone + {p};
      }
    }
    assert ordered[..|ordered|] == ordered;
  }

  /** Deletes every observed file below `c` and removes every observed directory at or below it, each once. */
  method CleanDirectory(c: Path, known: seq<Path>, ob: Observed)
    returns (deletes: seq<Operation>, removes: seq<Operation>)
    requires Lists(known, ob) && c in ob.directoryStates
    ensures forall op :: op in deletes <==> IsDeletion(op, ob) && Above(c, op.path)
    ensures forall op :: op in removes <==> IsRemoval(op, ob) && AtOrAbove(c, op.path)
    ensures Distinct(deletes) && Distinct(removes)
  {
    var ordered := Sort(known, PathLess);
    SortedLists(known, ob);
    deletes := DeleteBelow(c, ordered, ob);
    removes := RemoveDirectoriesBelow(c, ordered, ob);
    forall k | 0 <= k < |removes| ensures removes[k].path != c { assert removes[k] in removes; }
    removes := removes + [RemoveEmptyDirectory(c, DirectoryState(ob.directoryStates[c].rootMode, []))];
  }

  /** What the first declared paths have contributed. */
  ghost predicate Gathered(cs: seq<Path>, ob: Observed, deletes: seq<Operation>, removes: seq<Operation>) {
    && (forall op :: op in deletes <==> IsDeletion(op, ob) && Taken(cs, ob, op.path))
    && (forall op :: op in removes <==> IsRemoval(op, ob) && Taken(cs, ob, op.path))
    && (NoDuplicates(cs) <==> Distinct(deletes) && Distinct(removes))
  }

  lemma TakenGrows(cs: seq<Path>, c: Path, ob: Observed, p: Path)
    ensures Taken(cs + [c], ob, p) <==> Taken(cs, ob, p) || Takes(c, ob, p)
  {
    var more := cs + [c];
    assert forall i :: 0 <= i < |cs| ==> more[i] == cs[i];
    assert more[|cs|] == c;
    if Taken(cs, ob, p) {
      var i :| 0 <= i < |cs| && Takes(cs[i], ob, p);
      assert Takes(more[i], ob, p);
    }
  }

  /** Unnested declared paths take nothing in common. */
  lemma TakenApart(cs: seq<Path>, c: Path, ob: Observed, p: Path)
    requires forall i :: 0 <= i < |cs| ==> cs[i] != [] && cs[i] != c && !Above(cs[i], c) && !Above(c, cs[i])
    requires Takes(c, ob, p)
    ensures !Taken(cs, ob, p)
  {
    forall i | 0 <= i < |cs| ensures !Takes(cs[i], ob, p) {
      if Takes(cs[i], ob, p) { AncestorsComparable(cs[i], c, p); }
    }
  }

  /** What one more declared path adds. */
  ghost predicate Contribution(c: Path, ob: Observed, deletes: seq<Operation>, removes: seq<Operation>) {
    && (forall op :: op in deletes <==> IsDeletion(op, ob) && Takes(c, ob, op.path))
    && (forall op :: op in removes <==> IsRemoval(op, ob) && Takes(c, ob, op.path))
    && Distinct(deletes) && Distinct(removes)
  }

  lemma DistinctConcat(a: seq<Operation>, b: seq<Operation>)
    requires Distinct(b)
    requires forall x, y :: x in a && y in b ==> x.path != y.path
    ensures Distinct(a + b) <==> Distinct(a)
  {
    assert forall i :: 0 <= i < |a| ==> (a + b)[i] == a[i] && a[i] in a;
    assert forall i :: 0 <= i < |b| ==> (a + b)[|a| + i] == b[i] && b[i] in b;
    assert forall i :: |a| <= i < |a + b| ==> (a + b)[i] == b[i - |a|];
  }

  lemma RepeatIsNotDistinct(a: seq<Operation>, b: seq<Operation>, x: Operation)
    requires x in a && x in b
    ensures !Distinct(a + b)
  {
    var i :| 0 <= i < |a| && a[i] == x;
    var j :| 0 <= j < |b| && b[j] == x;
    assert (a + b)[i].path == (a + b)[|a| + j].path;
  }

  lemma NoDuplicatesGrows(cs: seq<Path>, c: Path)
    ensures NoDuplicates(cs + [c]) <==> NoDuplicates(cs) && c !in cs
  {
    var more := cs + [c];
    assert forall i :: 0 <= i < |cs| ==> more[i] == cs[i];
    if NoDuplicates(more) {
      assert forall i, j :: 0 <= i < j < |cs| ==> more[i] != more[j];
      assert forall i :: 0 <= i < |cs| ==> more[i] != more[|cs|];
    }
  }

  lemma NewPathGathered(cs: seq<Path>, c: Path, ob: Observed, ds: seq<Operation>, rs: seq<Operation>,
                        d: seq<Operation>, r: seq<Operation>)
    requires Gathered(cs, ob, ds, rs) && Contribution(c, ob, d, r) && c !in cs
    requires forall i :: 0 <= i < |cs| ==> cs[i] != [] && !Above(cs[i], c) && !Above(c, cs[i])
    ensures NoDuplicates(cs + [c]) <==> Distinct(ds + d) && Distinct(rs + r)
  {
    forall x, y | x in ds && y in d ensures x.path != y.path { TakenApart(cs, c, ob, y.path); }
    forall x, y | x in rs && y in r ensures x.path != y.path { TakenApart(cs, c, ob, y.path); }
    DistinctConcat(ds, d);
    DistinctConcat(rs, r);
    NoDuplicatesGrows(cs, c);
  }

  lemma OldPathGathered(cs: seq<Path>, c: Path, ob: Observed, ds: seq<Operation>, rs: seq<Operation>,
                        d: seq<Operation>, r: seq<Operation>)
    requires Gathered(cs, ob, ds, rs) && Contribution(c, ob, d, r) && c in cs && Seen(ob, c)
    ensures NoDuplicates(cs + [c]) <==> Distinct(ds + d) && Distinct(rs + r)
  {
    NoDuplicatesGrows(cs, c);
    var i :| 0 <= i < |cs| && cs[i] == c;
    assert Takes(cs[i], ob, c);
    if c in ob.states {
      RepeatIsNotDistinct(ds, d, DeleteFile(c, ob.states[c]));
    } else {
      RepeatIsNotDistinct(rs, r, RemoveEmptyDirectory(c, DirectoryState(ob.directoryStates[c].rootMode, [])));
    }
  }

  lemma GatheredGrows(cs: seq<Path>, c: Path, ob: Observed, ds: seq<Operation>, rs: seq<Operation>,
                      d: seq<Operation>, r: seq<Operation>)
    requires Gathered(cs, ob, ds, rs) && Contribution(c, ob, d, r) && Seen(ob, c)
    requires forall i :: 0 <= i < |cs| ==> cs[i] != [] && !Above(cs[i], c) && !Above(c, cs[i])
    ensures Gathered(cs + [c], ob, ds + d, rs + r)
  {
    if c in cs { OldPathGathered(cs, c, ob, ds, rs, d, r); } else { NewPathGathered(cs, c, ob, ds, rs, d, r); }
    forall op ensures op in ds + d <==> IsDeletion(op, ob) && Taken(cs + [c], ob, op.path) {
      TakenGrows(cs, c, ob, op.path);
    }
    forall op ensures op in rs + r <==> IsRemoval(op, ob) && Taken(cs + [c], ob, op.path) {
      TakenGrows(cs, c, ob, op.path);
    }
  }

  /** Operations that are determined by their paths are distinct exactly when no one is listed twice. */
  lemma DistinctIsNoDuplicates(ops: seq<Operation>)
    requires forall x, y :: x in ops && y in ops && x.path == y.path ==> x == y
    ensures Distinct(ops) <==> NoDuplicates(ops)
  {
    assert forall i :: 0 <= i < |ops| ==> ops[i] in ops;
  }

  lemma SortKeepsDistinct(ops: seq<Operation>, less: (Operation, Operation) -> bool)
    requires forall x, y :: x in ops && y in ops && x.path == y.path ==> x == y
    ensures Distinct(Sort(ops, less)) <==> Distinct(ops)
    ensures forall op :: op in Sort(ops, less) <==> op in ops
  {
    SameElements(ops, less);
    DistinctIsNoDuplicates(ops);
    DistinctIsNoDuplicates(Sort(ops, less));
    NoDuplicatesCounts(ops);
    NoDuplicatesCounts(Sort(ops, less));
  }

  lemma EffectiveGrows(ps: seq<Path>, i: nat, replaced: set<Path>)
    requires i < |ps|
    ensures Effective(ps[..i + 1], replaced) ==
      if ps[i] in replaced then Effective(ps[..i], replaced) else Effective(ps[..i], replaced) + [ps[i]]
  {
    var more := ps[..i + 1];
    assert more[..|more| - 1] == ps[..i];
  }

  lemma EffectiveApart(ps: seq<Path>, i: nat, replaced: set<Path>)
    requires i < |ps| && Flat(ps) && [] !in ps
    ensures var cs := Effective(ps[..i], replaced);
      forall k :: 0 <= k < |cs| ==> cs[k] != [] && !Above(cs[k], ps[i]) && !Above(ps[i], cs[k])
  {
    var cs := Effective(ps[..i], replaced);
    forall k | 0 <= k < |cs| ensures cs[k] != [] && !Above(cs[k], ps[i]) && !Above(ps[i], cs[k]) {
      assert cs[k] in cs && cs[k] in ps[..i];
      var m :| 0 <= m < i && ps[m] == cs[k];
      assert ps[m] in ps && !Above(ps[m], ps[i]) && !Above(ps[i], ps[m]);
    }
  }

  lemma DeletionsInOrder(deletes: seq<Operation>, ob: Observed)
    requires (forall op :: op in deletes ==> IsDeletion(op, ob)) && forall p :: Seen(ob, p) ==> Valid(p)
    ensures InPathOrder(Sort(deletes, OperationPathLess))
  {
    EntryLessIsStrict();
    forall a, b | a in deletes && b in deletes ensures OperationPathLess(a, b) || OperationPathLess(b, a) || a == b {
      PathOrderIsTotal(a.path, b.path);
    }
    SortSorts(deletes, OperationPathLess);
    SameElements(deletes, OperationPathLess);
    var r := Sort(deletes, OperationPathLess);
    forall i, j | 0 <= i < j < |r| ensures r[i].path == r[j].path || PathLess(r[i].path, r[j].path) {
      assert r[i] in r && r[j] in r && !OperationPathLess(r[j], r[i]);
    }
  }

  lemma SortedGathered(cs: seq<Path>, ob: Observed, deletes: seq<Operation>, removes: seq<Operation>)
    requires Gathered(cs, ob, deletes, removes)
    ensures Gathered(cs, ob, Sort(deletes, OperationPathLess), removes)
  {
    SortKeepsDistinct(deletes, OperationPathLess);
  }

  /** Refuses a declared path that contains another. */
  method ValidateFlat(ps: seq<Path>) returns (r: Result<(), Refused>)
    ensures r.Ok? <==> Flat(ps)
  {
    for i := 0 to |ps|
      invariant forall k, j :: 0 <= k < |ps| && 0 <= j < i && ps[k] != [] ==> !Above(ps[k], ps[j])
    {
      var parents := Parents(ps[i]);
      for n := 0 to |parents|
        invariant forall m :: 0 <= m < n ==> parents[m] !in ps
      {
        if parents[n] in ps {
          var k :| 0 <= k < |ps| && ps[k] == parents[n];
          assert Above(ps[k], ps[i]);
          return Err(CleanupDisagreement);
        }
      }
      forall k | 0 <= k < |ps| && ps[k] != [] ensures !Above(ps[k], ps[i]) {
        assert ps[k] in parents <==> Above(ps[k], ps[i]);
      }
    }
    return Ok(());
  }

  lemma AllObserved(ps: seq<Path>, ob: Observed)
    ensures ToSet(ps) == ToSet(ObservedOnes(ps, ob)) <==> forall p :: p in ps ==> Seen(ob, p)
  {
    var observed := ObservedOnes(ps, ob);
    assert forall p :: p in ps <==> p in ToSet(ps);
    assert forall p :: p in observed <==> p in ToSet(observed);
  }

  /** The checks before anything is planned. */
  method ValidateCleanup(contract: CleanupContract, ob: Observed) returns (r: Result<(), Refused>)
    ensures r.Ok? <==>
      && ToSet(contract.lifecyclePaths) * ToSet(contract.cleanupPaths) == {}
      && (forall p :: p in contract.cleanupPaths ==> Seen(ob, p))
      && INVENTORY !in contract.cleanupPaths && Flat(contract.cleanupPaths)
  {
    var ps := contract.cleanupPaths;
    AllObserved(ps, ob);
    var valid := ValidateContract(contract, ObservedOnes(ps, ob));
    if valid.Err? { return valid; }
    if INVENTORY in ps { return Err(CleanupDisagreement); }
    r := ValidateFlat(ps);
  }

  /** The contribution of one declared, observed path. */
  method CleanPath(c: Path, known: seq<Path>, ob: Observed)
    returns (deletes: seq<Operation>, removes: seq<Operation>)
    requires Lists(known, ob) && Seen(ob, c)
    ensures Contribution(c, ob, deletes, removes)
  {
    if c in ob.states {
      deletes, removes := [DeleteFile(c, ob.states[c])], [];
    } else {
      deletes, removes := CleanDirectory(c, known, ob);
    }
  }

  /** What each declared path contributes, declaration by declaration. */
  method GatherCleanup(contract: CleanupContract, known: seq<Path>, ob: Observed, replaced: set<Path>)
    returns (r: Result<(seq<Operation>, seq<Operation>), Refused>)
    requires Lists(known, ob) && [] !in contract.cleanupPaths
    ensures r.Ok? <==> Cleanable(contract, ob, replaced)
    ensures r.Ok? ==> Gathered(Effective(contract.cleanupPaths, replaced), ob, r.value.0, r.value.1)
  {
    var ps := contract.cleanupPaths;
    var valid := ValidateCleanup(contract, ob);
    if valid.Err? { return Err(valid.error); }
    var deletes: seq<Operation>, removes: seq<Operation> := [], [];
    ghost var cs: seq<Path> := [];
    for i := 0 to |ps|
      invariant forall k :: 0 <= k < i && ps[k] !in replaced && ps[k] in ob.states ==> ob.states[ps[k]].Present?
      invariant cs == Effective(ps[..i], replaced)
      invariant Gathered(cs, ob, deletes, removes)
    {
      var c := ps[i];
      EffectiveGrows(ps, i, replaced);
      if c !in replaced {
        assert c in ps;
        if c in ob.states && ob.states[c].Absent? { return Err(CleanupDisagreement); }
        var d, rs := CleanPath(c, known, ob);
        EffectiveApart(ps, i, replaced);
        GatheredGrows(cs, c, ob, deletes, removes, d, rs);
        deletes, removes, cs := deletes + d, removes + rs, cs + [c];
      }
    }
    assert ps[..|ps|] == ps;
    return Ok((deletes, removes));
  }

  /**
   Deletes exactly the observed files, and removes exactly the observed directories,
   that the declared paths take, outputs excepted; each once exactly when no declared
   path is repeated.
   */
  method CleanupOperations(contract: CleanupContract, known: seq<Path>, ob: Observed, replaced: set<Path>)
    returns (r: Result<(seq<Operation>, seq<Operation>), Refused>)
    requires Lists(known, ob) && [] !in contract.cleanupPaths
    ensures r.Ok? <==> Cleanable(contract, ob, replaced)
    ensures r.Ok? ==> Gathered(Effective(contract.cleanupPaths, replaced), ob, r.value.0, r.value.1)
    ensures r.Ok? && (forall p :: Seen(ob, p) ==> Valid(p)) ==> InPathOrder(r.value.0)
  {
    var gathered := GatherCleanup(contract, known, ob, replaced);
    if gathered.Err? { return Err(gathered.error); }
    var (deletes, removes) := gathered.value;
    SortedGathered(Effective(contract.cleanupPaths, replaced), ob, deletes, removes);
    if forall p :: Seen(ob, p) ==> Valid(p) { DeletionsInOrder(deletes, ob); }
    return Ok((Sort(deletes, OperationPathLess), removes));
  }
}
