/** The order of operations in a plan. */
module Orders {
  import opened Paths
  import opened Sorting
  import opened Identity
  import opened Plans

  /** By the byte order of the paths. */
  ghost predicate InPathOrder(ops: seq<Operation>) {
    forall i, j :: 0 <= i < j < |ops| ==> ops[i].path == ops[j].path || PathLess(ops[i].path, ops[j].path)
  }

  /** Deepest first, and by the byte order of the paths at one depth. */
  ghost predicate InRemovalOrder(ops: seq<Operation>) {
    forall i, j :: 0 <= i < j < |ops| ==> GoesBefore(ops[i].path, ops[j].path)
  }

  predicate GoesBefore(a: Path, b: Path) {
    |a| > |b| || (|a| == |b| && (a == b || PathLess(a, b)))
  }

  lemma PathsAreOrdered(ps: seq<Path>)
    requires forall p :: p in ps ==> Valid(p)
    ensures TotalOn(PathLess, ps)
  {
    EntryLessIsStrict();
    forall a, b | a in ps && b in ps ensures PathLess(a, b) || PathLess(b, a) || a == b { PathOrderIsTotal(a, b); }
  }

  lemma SortedPaths(ps: seq<Path>)
    requires (forall p :: p in ps ==> Valid(p)) && NoDuplicates(ps)
    ensures Sorted(Sort(ps, PathLess), PathLess)
  {
    PathsAreOrdered(ps);
    SortStrictly(ps, PathLess);
  }

  /** Operations at sorted paths are in path order. */
  lemma OperationsInOrder(ops: seq<Operation>, ps: seq<Path>)
    requires |ops| <= |ps| && Sorted(ps, PathLess) && forall k :: 0 <= k < |ops| ==> ops[k].path == ps[k]
    ensures InPathOrder(ops)
  {
    forall i, j | 0 <= i < j < |ops| ensures PathLess(ops[i].path, ops[j].path) { assert PathLess(ps[i], ps[j]); }
  }

  // Operations gathered along a sorted listing

  /** The operations are at the first `i` listed paths, in path order if the listing is. */
  ghost predicate Along(ops: seq<Operation>, ps: seq<Path>, i: nat) {
    && i <= |ps| && (forall op :: op in ops ==> op.path in ps[..i])
    && (Sorted(ps, PathLess) ==> InPathOrder(ops))
  }

  lemma AlongGrows(ops: seq<Operation>, ps: seq<Path>, i: nat, next: nat, op: Operation)
    requires Along(ops, ps, i) && next == i + 1 <= |ps| && op.path == ps[i]
    ensures Along(ops + [op], ps, next) && Along(ops, ps, next)
  {
    assert ps[..next] == ps[..i] + [ps[i]];
    if Sorted(ps, PathLess) {
      var more := ops + [op];
      forall k, j | 0 <= k < j < |more| ensures more[k].path == more[j].path || PathLess(more[k].path, more[j].path) {
        if j == |ops| {
          assert more[k] == ops[k] && ops[k] in ops;
          var a :| 0 <= a < i && ps[a] == ops[k].path;
          assert PathLess(ps[a], ps[i]);
        } else {
          assert more[k] == ops[k] && more[j] == ops[j];
        }
      }
    }
  }

  ghost predicate Downward(ps: seq<Path>) {
    forall i, j :: 0 <= i < j < |ps| ==> GoesBefore(ps[i], ps[j])
  }

  /** The operations are at the first `i` listed paths, in removal order if the listing is. */
  ghost predicate Down(ops: seq<Operation>, ps: seq<Path>, i: nat) {
    && i <= |ps| && (forall op :: op in ops ==> op.path in ps[..i])
    && (Downward(ps) ==> InRemovalOrder(ops))
  }

  lemma DownGrows(ops: seq<Operation>, ps: seq<Path>, i: nat, next: nat, op: Operation)
    requires Down(ops, ps, i) && next == i + 1 <= |ps| && op.path == ps[i]
    ensures Down(ops + [op], ps, next) && Down(ops, ps, next)
  {
    assert ps[..next] == ps[..i] + [ps[i]];
    if Downward(ps) {
      var more := ops + [op];
      forall k, j | 0 <= k < j < |more| ensures GoesBefore(more[k].path, more[j].path) {
        if j == |ops| {
          assert more[k] == ops[k] && ops[k] in ops;
          var a :| 0 <= a < i && ps[a] == ops[k].path;
          assert GoesBefore(ps[a], ps[i]);
        } else {
          assert more[k] == ops[k] && more[j] == ops[j];
        }
      }
    }
  }
}
