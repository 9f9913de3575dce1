/** Adoption: every planned output that meets an observed file must be declared, and exactly those. */
module Adoption {
  import opened Results
  import opened Paths
  import opened Sorting
  import opened Identity
  import opened Plans
  import opened Outputs
  import opened Maintenance

  datatype CollisionAction = KeepExisting | Replace
  datatype Declaration = Declaration(path: Path, action: CollisionAction)

  predicate IsDeclared(ds: seq<Declaration>, p: Path) {
    exists i :: 0 <= i < |ds| && ds[i].path == p
  }

  function Kept(ds: seq<Declaration>): set<Path> {
    set i | 0 <= i < |ds| && ds[i].action.KeepExisting? :: ds[i].path
  }

  predicate Acceptable(d: Declaration, colliding: set<Path>, legal: set<Path>) {
    d.path in colliding && (d.action.Replace? ==> d.path !in legal)
  }

  /** The declarations name exactly the colliding paths, and replace no legal or provenance path. */
  predicate DeclaresExactly(ds: seq<Declaration>, colliding: set<Path>, legal: set<Path>) {
    && (forall i :: 0 <= i < |ds| ==> Acceptable(ds[i], colliding, legal))
    && (forall p :: p in colliding ==> IsDeclared(ds, p))
  }

  predicate DeclarationLess(a: Declaration, b: Declaration) {
    PathLess(a.path, b.path)
  }

  method PartitionAdoptionCollisions(planned: set<Path>, legal: set<Path>, observed: set<Path>, ds: seq<Declaration>)
    returns (r: Result<set<Path>, Refused>)
    ensures r.Ok? <==> DeclaresExactly(ds, planned * observed, legal)
    ensures r.Ok? ==> r.value == Kept(ds)
  {
    var colliding := planned * observed;
    var keep: set<Path> := {};
    var ordered := Sort(ds, DeclarationLess);
    SameElements(ds, DeclarationLess);
    for i := 0 to |ordered|
      invariant forall k :: 0 <= k < i ==> Acceptable(ordered[k], colliding, legal)
      invariant keep == Kept(ordered[..i])
    {
      var d := ordered[i];
      assert ordered[..i + 1] == ordered[..i] + [d];
      assert d in ordered && d in ds;
      KeptGrows(ordered, i);
      if d.path !in colliding { return Err(UnmatchedDeclaration); }
      match d.action
      case KeepExisting => keep := keep + {d.path};
      case Replace => if d.path in legal { return Err(IllegalReplaceTarget); }
    }
    assert ordered[..|ordered|] == ordered;
    SameKept(ds, ordered);
    forall i | 0 <= i < |ds| ensures Acceptable(ds[i], colliding, legal) { assert ds[i] in ordered; }
    var declared := set i | 0 <= i < |ds| :: ds[i].path;
    assert forall p :: p in declared <==> IsDeclared(ds, p);
    if colliding - declared != {} {
      var p :| p in colliding - declared;
      assert !IsDeclared(ds, p);
      return Err(UndeclaredCollision);
    }
    forall p | p in colliding ensures IsDeclared(ds, p) { assert p !in colliding - declared; }
    return Ok(keep);
  }

  lemma KeptGrows(ds: seq<Declaration>, i: nat)
    requires i < |ds|
    ensures Kept(ds[..i + 1]) == Kept(ds[..i]) + (if ds[i].action.KeepExisting? then {ds[i].path} else {})
  {
    var before, after := ds[..i], ds[..i + 1];
    assert forall k :: 0 <= k < i ==> after[k] == before[k];
    assert after[i] == ds[i];
    forall p | p in Kept(before) ensures p in Kept(after) {
      var k :| 0 <= k < i && before[k].action.KeepExisting? && before[k].path == p;
      assert after[k].path == p;
    }
  }

  lemma SameKept(ds: seq<Declaration>, es: seq<Declaration>)
    requires forall d :: d in ds <==> d in es
    ensures Kept(ds) == Kept(es)
  {
    forall p ensures p in Kept(ds) <==> p in Kept(es) {
      if p in Kept(ds) {
        var k :| 0 <= k < |ds| && ds[k].action.KeepExisting? && ds[k].path == p;
        assert ds[k] in es;
      }
      if p in Kept(es) {
        var k :| 0 <= k < |es| && es[k].action.KeepExisting? && es[k].path == p;
        assert es[k] in ds;
      }
    }
  }
}
