/** Capability resolution: dependency closure, layered order, settings, and append-only additions. */
module Resolver {
  import opened Results
  import opened Paths
  import opened Sorting

  type Id = string

  datatype SettingValue = Text(s: string) | Flag(b: bool)
  datatype SettingType = StringSetting | BooleanSetting | EnumSetting

  /** `pattern` says which stripped texts are acceptable. */
  datatype SettingDefinition = SettingDefinition(
    name: string, kind: SettingType, required: bool, defaultValue: Option<SettingValue>, choices: seq<string>,
    secret: bool, pattern: Option<string -> bool>)

  datatype Definition = Definition(dependencies: seq<Id>, settings: seq<SettingDefinition>)

  type Catalog = map<Id, Definition>

  datatype Failure =
    | UnknownCapability(id: Id)
    | DependencyCycle
    | DuplicateAddition
    | UnselectedSettings
    | UnknownSetting
    | MissingRequiredSetting
    | UndeterminedSetting
    | SecretSetting
    | TypeViolation
    | EnumViolation
    | PatternViolation
    | ReconfigureSettings

  // Closure

  predicate DependencyClosed(s: set<Id>, catalog: Catalog) {
    forall id, d :: id in s && id in catalog && d in catalog[id].dependencies ==> d in s
  }

  predicate Requests(requested: seq<Id>, s: set<Id>) {
    forall id :: id in requested ==> id in s
  }

  /** `s` is the least dependency-closed set with everything requested. */
  ghost predicate LeastClosure(requested: seq<Id>, catalog: Catalog, s: set<Id>) {
    && Requests(requested, s) && DependencyClosed(s, catalog)
    && forall u: set<Id> :: Requests(requested, u) && DependencyClosed(u, catalog) ==> s <= u
  }

  /**
   The least dependency-closed superset of the request.  Refused exactly when no
   closed superset stays inside the catalog, naming a capability all of them need.
   */
  method Closure(requested: seq<Id>, catalog: Catalog) returns (r: Result<set<Id>, Failure>)
    ensures r.Ok? ==> LeastClosure(requested, catalog, r.value) && r.value <= catalog.Keys
    ensures r.Err? ==> r.error.UnknownCapability? && r.error.id !in catalog
    ensures r.Err? ==>
      forall u: set<Id> :: Requests(requested, u) && DependencyClosed(u, catalog) ==> r.error.id in u
  {
    var effective: set<Id>, pending := {}, requested;
    while pending != []
      invariant effective <= catalog.Keys
      invariant forall id :: id in requested ==> id in effective || id in pending
      invariant forall id, d :: id in effective && d in catalog[id].dependencies ==> d in effective || d in pending
      invariant forall u: set<Id> :: Requests(requested, u) && DependencyClosed(u, catalog) ==> effective <= u && Requests(pending, u)
      decreases catalog.Keys - effective, |pending|
    {
      var last := |pending| - 1;
      var id := pending[last];
      assert pending == pending[..last] + [id];
      pending := pending[..last];
      if id !in effective {
        if id !in catalog { return Err(UnknownCapability(id)); }
        effective, pending := effective + {id}, pending + catalog[id].dependencies;
      }
    }
    return Ok(effective);
  }

  /** A request has at most one least closure, and neither order nor repetition in it matters. */
  lemma ClosureIgnoresOrder(a: seq<Id>, b: seq<Id>, catalog: Catalog, s: set<Id>, t: set<Id>)
    requires forall id :: id in a <==> id in b
    requires LeastClosure(a, catalog, s) && LeastClosure(b, catalog, t)
    ensures s == t
  {
    assert Requests(b, s) && Requests(a, t);
  }

  // Layered order

  function Available(remaining: set<Id>, catalog: Catalog): set<Id>
    requires remaining <= catalog.Keys
  {
    set id | id in remaining && forall d :: d in catalog[id].dependencies ==> d !in remaining
  }

  /** Layer by layer, each layer sorted; none if some layer is empty. */
  ghost function Layered(remaining: set<Id>, catalog: Catalog): Option<seq<Id>>
    requires remaining <= catalog.Keys
    decreases |remaining|
  {
    if remaining == {} then Some([]) else
      var layer := Available(remaining, catalog);
      if layer == {} then None else
        RestIsSmaller(remaining, layer);
        Prepend(Listing(layer, TextLess), Layered(remaining - layer, catalog))
  }

  lemma RestIsSmaller(s: set<Id>, layer: set<Id>)
    requires layer <= s && layer != {}
    ensures |s - layer| < |s|
  {
    assert |s - layer| == |s| - |layer|;
  }

  lemma TextOrderIsStrict()
    ensures StrictOrder(TextLess)
  {
    forall a: string ensures !TextLess(a, a) { TextLessIrreflexive(a); }
    forall a: string, b, c | TextLess(a, b) && TextLess(b, c) ensures TextLess(a, c) { TextLessTransitive(a, b, c); }
  }

  lemma TextListing(s: set<Id>)
    ensures Sorted(Listing(s, TextLess), TextLess)
    ensures forall x :: x in Listing(s, TextLess) <==> x in s
  {
    TextOrderIsStrict();
    forall a, b | a in s && b in s ensures TextLess(a, b) || TextLess(b, a) || a == b { TextLessTotal(a, b); }
    ListingIsSorted(s, TextLess);
  }

  /** Whatever order its elements are met in, a set has one sorted listing. */
  method SortedIds(s: set<Id>) returns (r: seq<Id>)
    ensures r == Listing(s, TextLess)
  {
    var rest, found: seq<Id> := s, [];
    while rest != {}
      invariant forall x :: x in s <==> x in rest || x in found
      invariant NoDuplicates(found) && forall x :: x in found ==> x !in rest
      decreases rest
    {
      var x :| x in rest;
      ghost var before := found;
      rest, found := rest - {x}, found + [x];
      assert forall i :: 0 <= i < |before| ==> before[i] in before;
    }
    r := Sort(found, TextLess);
    TextOrderIsStrict();
    forall a, b | a in found && b in found ensures TextLess(a, b) || TextLess(b, a) || a == b { TextLessTotal(a, b); }
    SortStrictly(found, TextLess);
    SameElements(found, TextLess);
    TextListing(s);
    SortedUnique(r, Listing(s, TextLess), TextLess);
  }

  function Prepend(front: seq<Id>, rest: Option<seq<Id>>): Option<seq<Id>> {
    match rest
    case None => None
    case Some(order) => Some(front + order)
  }

  lemma LayerTaken(front: seq<Id>, remaining: set<Id>, catalog: Catalog)
    requires remaining <= catalog.Keys && Available(remaining, catalog) != {}
    ensures var layer := Available(remaining, catalog);
      Prepend(front, Layered(remaining, catalog))
        == Prepend(front + Listing(layer, TextLess), Layered(remaining - layer, catalog))
  {
    var layer := Available(remaining, catalog);
    RestIsSmaller(remaining, layer);
    PrependTwice(front, Listing(layer, TextLess), Layered(remaining - layer, catalog));
  }

  lemma PrependTwice(a: seq<Id>, b: seq<Id>, rest: Option<seq<Id>>)
    ensures Prepend(a, Prepend(b, rest)) == Prepend(a + b, rest)
  {
    if rest.Some? { assert a + (b + rest.value) == a + b + rest.value; }
  }

  lemma NothingPrepended(rest: Option<seq<Id>>)
    ensures Prepend([], rest) == rest
  {
    if rest.Some? { assert [] + rest.value == rest.value; }
  }

  /**
   The layered order of the set, whatever order its elements are met in: the one
   that goes by depth and, at one depth, by text.  Refused exactly on a cycle.
   */
  method TopologicalOrder(ids: set<Id>, catalog: Catalog) returns (r: Result<seq<Id>, Failure>)
    requires ids <= catalog.Keys
    ensures r.Ok? <==> Acyclic(ids, catalog)
    ensures r.Ok? ==> Permutes(r.value, ids) && ByDepth(r.value, ids, catalog)
    ensures r == if Layered(ids, catalog).Some? then Ok(Layered(ids, catalog).value) else Err(DependencyCycle)
  {
    var result: seq<Id>, remaining := [], ids;
    RefusedExactlyOnCycles(ids, catalog);
    NothingPrepended(Layered(ids, catalog));
    while remaining != {}
      invariant remaining <= ids
      invariant Layered(ids, catalog) == Prepend(result, Layered(remaining, catalog))
      decreases |remaining|
    {
      var layer := Available(remaining, catalog);
      var available := SortedIds(layer);
      if layer == {} { return Err(DependencyCycle); }
      LayerTaken(result, remaining, catalog);
      RestIsSmaller(remaining, layer);
      result, remaining := result + available, remaining - layer;
    }
    assert Prepend(result, Layered(remaining, catalog)) == Some(result + []);
    assert result + [] == result;
    LayeredIsPermutation(ids, catalog);
    LayeredIsByDepth(ids, catalog);
    return Ok(result);
  }

  /** Every dependency inside `ids` comes before what depends on it. */
  predicate DependenciesFirst(order: seq<Id>, ids: set<Id>, catalog: Catalog)
    requires ids <= catalog.Keys
  {
    forall i, d :: 0 <= i < |order| && order[i] in ids && d in catalog[order[i]].dependencies && d in ids ==> d in order[..i]
  }

  /** `order` lists `ids`, each once. */
  ghost predicate Permutes(order: seq<Id>, ids: set<Id>) {
    (forall x :: x in order <==> x in ids) && NoDuplicates(order)
  }

  lemma PermutationsConcat(first: seq<Id>, a: set<Id>, rest: seq<Id>, b: set<Id>)
    requires Permutes(first, a) && Permutes(rest, b - a) && a <= b
    ensures Permutes(first + rest, b)
  {
    assert forall i :: 0 <= i < |first| ==> first[i] in first;
    assert forall i :: 0 <= i < |rest| ==> rest[i] in rest;
  }

  lemma LayerPermutes(layer: set<Id>)
    ensures Permutes(Listing(layer, TextLess), layer)
  {
    TextListing(layer);
    TextOrderIsStrict();
    var first := Listing(layer, TextLess);
    forall i, j | 0 <= i < j < |first| ensures first[i] != first[j] { assert TextLess(first[i], first[j]); }
  }

  lemma {:induction false} LayeredIsPermutation(ids: set<Id>, catalog: Catalog)
    requires ids <= catalog.Keys && Layered(ids, catalog).Some?
    ensures Permutes(Layered(ids, catalog).value, ids)
    decreases |ids|
  {
    if ids != {} {
      var layer := Available(ids, catalog);
      RestIsSmaller(ids, layer);
      LayeredIsPermutation(ids - layer, catalog);
      LayerPermutes(layer);
      var first, rest := Listing(layer, TextLess), Layered(ids - layer, catalog).value;
      PermutationsConcat(first, layer, rest, ids);
    }
  }

  /** What a first layer puts before the rest is all the rest could be waiting for. */
  lemma LayerGoesFirst(first: seq<Id>, rest: seq<Id>, ids: set<Id>, layer: set<Id>, catalog: Catalog)
    requires ids <= catalog.Keys && layer == Available(ids, catalog)
    requires Permutes(first, layer) && Permutes(rest, ids - layer) && DependenciesFirst(rest, ids - layer, catalog)
    ensures DependenciesFirst(first + rest, ids, catalog)
  {
    var order := first + rest;
    forall i | 0 <= i < |first| ensures first[i] in layer { assert first[i] in first; }
    forall i, d | 0 <= i < |order| && order[i] in ids && d in catalog[order[i]].dependencies && d in ids
      ensures d in order[..i]
    {
      if i >= |first| {
        assert order[..i] == first + rest[..i - |first|];
        assert rest[i - |first|] in rest;
      }
    }
  }

  lemma {:induction false} LayeredIsTopological(ids: set<Id>, catalog: Catalog)
    requires ids <= catalog.Keys && Layered(ids, catalog).Some?
    ensures DependenciesFirst(Layered(ids, catalog).value, ids, catalog)
    decreases |ids|
  {
    if ids != {} {
      var layer := Available(ids, catalog);
      RestIsSmaller(ids, layer);
      LayeredIsTopological(ids - layer, catalog);
      LayeredIsPermutation(ids - layer, catalog);
      LayerPermutes(layer);
      LayerGoesFirst(Listing(layer, TextLess), Layered(ids - layer, catalog).value, ids, layer, catalog);
    }
  }

  // Cycles

  /** Every member depends on a member. */
  predicate Knot(s: set<Id>, catalog: Catalog)
    requires s <= catalog.Keys
  {
    s != {} && forall id {:trigger Held(id, s, catalog)} :: id in s ==> Held(id, s, catalog)
  }

  predicate Held(id: Id, s: set<Id>, catalog: Catalog) {
    id in catalog && exists d :: d in catalog[id].dependencies && d in s
  }

  lemma {:induction false} KnotBlocks(ids: set<Id>, catalog: Catalog, s: set<Id>)
    requires ids <= catalog.Keys && s <= ids && Knot(s, catalog)
    ensures Layered(ids, catalog) == None
    decreases |ids|
  {
    var layer := Available(ids, catalog);
    forall id | id in s ensures id !in layer {
      assert Held(id, s, catalog);
      var d :| d in catalog[id].dependencies && d in s;
    }
    if layer != {} {
      RestIsSmaller(ids, layer);
      KnotBlocks(ids - layer, catalog, s);
    }
  }

  lemma {:induction false} BlockedHasKnot(ids: set<Id>, catalog: Catalog) returns (s: set<Id>)
    requires ids <= catalog.Keys && Layered(ids, catalog) == None
    ensures s <= ids && Knot(s, catalog)
    decreases |ids|
  {
    var layer := Available(ids, catalog);
    if layer == {} {
      s := ids;
      forall id | id in s ensures Held(id, s, catalog) { assert id !in layer; }
    } else {
      RestIsSmaller(ids, layer);
      s := BlockedHasKnot(ids - layer, catalog);
    }
  }

  /** Each element depends on the next. */
  predicate Chain(p: seq<Id>, ids: set<Id>, catalog: Catalog)
    requires ids <= catalog.Keys
  {
    && (forall i :: 0 <= i < |p| ==> p[i] in ids)
    && (forall i :: 0 <= i < |p| - 1 ==> p[i + 1] in catalog[p[i]].dependencies)
  }

  predicate Cycle(p: seq<Id>, ids: set<Id>, catalog: Catalog)
    requires ids <= catalog.Keys
  {
    |p| > 1 && Chain(p, ids, catalog) && p[0] == p[|p| - 1]
  }

  lemma {:induction false} ChainInKnot(s: set<Id>, catalog: Catalog, n: nat) returns (p: seq<Id>)
    requires s <= catalog.Keys && Knot(s, catalog)
    ensures |p| == n + 1 && Chain(p, s, catalog)
    decreases n
  {
    if n == 0 {
      var id :| id in s;
      p := [id];
    } else {
      p := ChainInKnot(s, catalog, n - 1);
      assert Held(p[n - 1], s, catalog);
      var d :| d in catalog[p[n - 1]].dependencies && d in s;
      p := p + [d];
    }
  }

  lemma {:induction false} Pigeonhole(p: seq<Id>, s: set<Id>) returns (i: nat, j: nat)
    requires |p| > |s| && forall k :: 0 <= k < |p| ==> p[k] in s
    ensures i < j < |p| && p[i] == p[j]
    decreases |p|
  {
    var last := |p| - 1;
    if k :| 0 <= k < last && p[k] == p[last] {
      i, j := k, last;
    } else {
      i, j := Pigeonhole(p[..last], s - {p[last]});
    }
  }

  lemma KnotHasCycle(s: set<Id>, catalog: Catalog) returns (p: seq<Id>)
    requires s <= catalog.Keys && Knot(s, catalog)
    ensures Cycle(p, s, catalog)
  {
    var chain := ChainInKnot(s, catalog, |s|);
    var i, j := Pigeonhole(chain, s);
    p := chain[i..j + 1];
  }

  lemma CycleIsKnot(p: seq<Id>, ids: set<Id>, catalog: Catalog)
    requires ids <= catalog.Keys && Cycle(p, ids, catalog)
    ensures exists s: set<Id> :: s <= ids && Knot(s, catalog)
  {
    var s := set i | 0 <= i < |p| - 1 :: p[i];
    assert p[0] in s;
    forall id | id in s ensures Held(id, s, catalog) {
      var i :| 0 <= i < |p| - 1 && p[i] == id;
      assert p[i + 1] in catalog[id].dependencies;
      if i + 1 == |p| - 1 { assert p[i + 1] == p[0]; }
    }
    assert s <= ids;
  }

  /** The order is refused exactly when the selection has a dependency cycle. */
  lemma RefusedExactlyOnCycles(ids: set<Id>, catalog: Catalog)
    requires ids <= catalog.Keys
    ensures Layered(ids, catalog) == None <==> exists p :: Cycle(p, ids, catalog)
  {
    if Layered(ids, catalog) == None {
      var s := BlockedHasKnot(ids, catalog);
      var p := KnotHasCycle(s, catalog);
      assert Cycle(p, ids, catalog);
    }
    if p :| Cycle(p, ids, catalog) {
      CycleIsKnot(p, ids, catalog);
      var s: set<Id> :| s <= ids && Knot(s, catalog);
      KnotBlocks(ids, catalog, s);
    }
  }

  // Depth

  predicate ChainFrom(p: seq<Id>, id: Id, ids: set<Id>, catalog: Catalog)
    requires ids <= catalog.Keys
  {
    p != [] && p[0] == id && Chain(p, ids, catalog)
  }

  /** The longest chain of dependencies from `id` inside `ids` has `n` members. */
  ghost predicate Deep(id: Id, ids: set<Id>, catalog: Catalog, n: nat)
    requires ids <= catalog.Keys
  {
    && (exists p :: ChainFrom(p, id, ids, catalog) && |p| == n)
    && forall p :: ChainFrom(p, id, ids, catalog) ==> |p| <= n
  }

  lemma OneDepth(id: Id, ids: set<Id>, catalog: Catalog, m: nat, n: nat)
    requires ids <= catalog.Keys && Deep(id, ids, catalog, m) && Deep(id, ids, catalog, n)
    ensures m == n
  {
  }

  /** `a` is less deep than `b`, or as deep and before it as text. */
  ghost predicate Earlier(a: Id, b: Id, ids: set<Id>, catalog: Catalog)
    requires ids <= catalog.Keys
  {
    exists m, n :: Deep(a, ids, catalog, m) && Deep(b, ids, catalog, n) && (m < n || (m == n && TextLess(a, b)))
  }

  ghost predicate ByDepth(order: seq<Id>, ids: set<Id>, catalog: Catalog)
    requires ids <= catalog.Keys
  {
    forall i, j :: 0 <= i < j < |order| ==> Earlier(order[i], order[j], ids, catalog)
  }

  lemma LongChainWaits(p: seq<Id>, id: Id, ids: set<Id>, catalog: Catalog)
    requires ids <= catalog.Keys
    ensures ChainFrom(p, id, ids, catalog) && |p| > 1 ==> id !in Available(ids, catalog)
  {
    if ChainFrom(p, id, ids, catalog) && |p| > 1 { assert p[1] in catalog[p[0]].dependencies; }
  }

  lemma LayerIsShallow(id: Id, ids: set<Id>, catalog: Catalog)
    requires ids <= catalog.Keys && id in Available(ids, catalog)
    ensures Deep(id, ids, catalog, 1)
  {
    assert ChainFrom([id], id, ids, catalog);
    forall p | ChainFrom(p, id, ids, catalog) ensures |p| <= 1 { LongChainWaits(p, id, ids, catalog); }
  }

  /** Taking the first layer away shortens every chain by its last member. */
  lemma ChainLosesLast(p: seq<Id>, id: Id, ids: set<Id>, catalog: Catalog)
    requires ids <= catalog.Keys && ChainFrom(p, id, ids, catalog) && |p| > 1
    ensures ChainFrom(p[..|p| - 1], id, ids - Available(ids, catalog), catalog)
  {
    forall i | 0 <= i < |p| - 1 ensures p[i] !in Available(ids, catalog) {
      assert p[i + 1] in catalog[p[i]].dependencies && p[i + 1] in ids;
    }
  }

  lemma ChainGainsLast(p: seq<Id>, id: Id, ids: set<Id>, catalog: Catalog) returns (q: seq<Id>)
    requires ids <= catalog.Keys && ChainFrom(p, id, ids - Available(ids, catalog), catalog)
    ensures ChainFrom(q, id, ids, catalog) && |q| == |p| + 1
  {
    var last := p[|p| - 1];
    assert last in ids && last !in Available(ids, catalog);
    var d :| d in catalog[last].dependencies && d in ids;
    q := p + [d];
  }

  lemma DeeperByOne(id: Id, ids: set<Id>, catalog: Catalog, n: nat)
    requires ids <= catalog.Keys && Deep(id, ids - Available(ids, catalog), catalog, n)
    ensures n > 0 && Deep(id, ids, catalog, n + 1)
  {
    var rest := ids - Available(ids, catalog);
    var p :| ChainFrom(p, id, rest, catalog) && |p| == n;
    var q := ChainGainsLast(p, id, ids, catalog);
    forall q | ChainFrom(q, id, ids, catalog) ensures |q| <= n + 1 {
      if |q| > 1 { ChainLosesLast(q, id, ids, catalog); }
    }
  }

  /** What is listed layer by layer has a depth. */
  lemma {:induction false} ListedHasDepth(id: Id, ids: set<Id>, catalog: Catalog) returns (n: nat)
    requires ids <= catalog.Keys && Layered(ids, catalog).Some? && id in ids
    ensures Deep(id, ids, catalog, n)
    decreases |ids|
  {
    var layer := Available(ids, catalog);
    if id in layer {
      LayerIsShallow(id, ids, catalog);
      n := 1;
    } else {
      RestIsSmaller(ids, layer);
      var m := ListedHasDepth(id, ids - layer, catalog);
      DeeperByOne(id, ids, catalog, m);
      n := m + 1;
    }
  }

  lemma EarlierInLayer(a: Id, b: Id, ids: set<Id>, catalog: Catalog)
    requires ids <= catalog.Keys && a in Available(ids, catalog) && b in Available(ids, catalog) && TextLess(a, b)
    ensures Earlier(a, b, ids, catalog)
  {
    LayerIsShallow(a, ids, catalog);
    LayerIsShallow(b, ids, catalog);
  }

  lemma EarlierThanRest(a: Id, b: Id, ids: set<Id>, catalog: Catalog)
    requires ids <= catalog.Keys && Layered(ids - Available(ids, catalog), catalog).Some?
    requires a in Available(ids, catalog) && b in ids - Available(ids, catalog)
    ensures Earlier(a, b, ids, catalog)
  {
    LayerIsShallow(a, ids, catalog);
    var n := ListedHasDepth(b, ids - Available(ids, catalog), catalog);
    DeeperByOne(b, ids, catalog, n);
  }

  lemma EarlierInRest(a: Id, b: Id, ids: set<Id>, catalog: Catalog)
    requires ids <= catalog.Keys && Earlier(a, b, ids - Available(ids, catalog), catalog)
    ensures Earlier(a, b, ids, catalog)
  {
    var rest := ids - Available(ids, catalog);
    var m, n :| Deep(a, rest, catalog, m) && Deep(b, rest, catalog, n) && (m < n || (m == n && TextLess(a, b)));
    DeeperByOne(a, ids, catalog, m);
    DeeperByOne(b, ids, catalog, n);
  }

  lemma LayerThenRest(first: seq<Id>, rest: seq<Id>, ids: set<Id>, catalog: Catalog)
    requires ids <= catalog.Keys && Layered(ids - Available(ids, catalog), catalog).Some?
    requires Permutes(first, Available(ids, catalog)) && Sorted(first, TextLess)
    requires Permutes(rest, ids - Available(ids, catalog)) && ByDepth(rest, ids - Available(ids, catalog), catalog)
    ensures ByDepth(first + rest, ids, catalog)
  {
    var order := first + rest;
    forall i, j | 0 <= i < j < |order| ensures Earlier(order[i], order[j], ids, catalog) {
      if j < |first| {
        assert order[i] in first && order[j] in first;
        EarlierInLayer(order[i], order[j], ids, catalog);
      } else if i < |first| {
        assert order[i] in first && order[j] in rest;
        EarlierThanRest(order[i], order[j], ids, catalog);
      } else {
        EarlierInRest(rest[i - |first|], rest[j - |first|], ids, catalog);
      }
    }
  }

  /** The layered order goes by depth, and by text where the depth is the same. */
  lemma {:induction false} LayeredIsByDepth(ids: set<Id>, catalog: Catalog)
    requires ids <= catalog.Keys && Layered(ids, catalog).Some?
    ensures ByDepth(Layered(ids, catalog).value, ids, catalog)
    decreases |ids|
  {
    if ids != {} {
      var layer := Available(ids, catalog);
      RestIsSmaller(ids, layer);
      LayeredIsByDepth(ids - layer, catalog);
      LayeredIsPermutation(ids - layer, catalog);
      LayerPermutes(layer);
      TextListing(layer);
      LayerThenRest(Listing(layer, TextLess), Layered(ids - layer, catalog).value, ids, catalog);
    }
  }

  lemma EarlierIsStrict(ids: set<Id>, catalog: Catalog)
    requires ids <= catalog.Keys
    ensures forall a, b, c :: Earlier(a, b, ids, catalog) && Earlier(b, c, ids, catalog) ==> Earlier(a, c, ids, catalog)
    ensures forall a :: !Earlier(a, a, ids, catalog)
  {
    TextOrderIsStrict();
    forall a, b, c | Earlier(a, b, ids, catalog) && Earlier(b, c, ids, catalog) ensures Earlier(a, c, ids, catalog) {
      var l, m :| Deep(a, ids, catalog, l) && Deep(b, ids, catalog, m) && (l < m || (l == m && TextLess(a, b)));
      var k, n :| Deep(b, ids, catalog, k) && Deep(c, ids, catalog, n) && (k < n || (k == n && TextLess(b, c)));
      OneDepth(b, ids, catalog, k, m);
    }
    forall a ensures !Earlier(a, a, ids, catalog) {
      forall m: nat, n: nat | Deep(a, ids, catalog, m) && Deep(a, ids, catalog, n) ensures m == n { OneDepth(a, ids, catalog, m, n); }
    }
  }

  /** There is only one such order of a set. */
  lemma OneOrderByDepth(a: seq<Id>, b: seq<Id>, ids: set<Id>, catalog: Catalog)
    requires ids <= catalog.Keys && Permutes(a, ids) && Permutes(b, ids)
    requires ByDepth(a, ids, catalog) && ByDepth(b, ids, catalog)
    ensures a == b
  {
    EarlierIsStrict(ids, catalog);
    SortedUnique(a, b, (x: Id, y: Id) => Earlier(x, y, ids, catalog));
  }

  // A request as a whole

  ghost predicate Acyclic(ids: set<Id>, catalog: Catalog)
    requires ids <= catalog.Keys
  {
    !exists p :: Cycle(p, ids, catalog)
  }

  /** `s` is what the request comes to: its least closure, all of it known, without a cycle. */
  ghost predicate ComesTo(requested: seq<Id>, catalog: Catalog, s: set<Id>) {
    LeastClosure(requested, catalog, s) && s <= catalog.Keys && Acyclic(s, catalog)
  }

  ghost predicate Orderable(requested: seq<Id>, catalog: Catalog) {
    exists s: set<Id> :: ComesTo(requested, catalog, s)
  }

  /** The ordered closure of a request; refused exactly on an unknown capability or a cycle. */
  method Order(requested: seq<Id>, catalog: Catalog) returns (r: Result<seq<Id>, Failure>, ghost s: set<Id>)
    ensures r.Ok? <==> Orderable(requested, catalog)
    ensures r.Ok? ==> ComesTo(requested, catalog, s) && Permutes(r.value, s) && Layered(s, catalog) == Some(r.value)
    ensures r.Ok? ==> ByDepth(r.value, s, catalog)
  {
    s := {};
    var closed := Closure(requested, catalog);
    if closed.Err? {
      forall u: set<Id> ensures !ComesTo(requested, catalog, u) { }
      return Err(closed.error), s;
    }
    s := closed.value;
    RefusedExactlyOnCycles(s, catalog);
    r := TopologicalOrder(closed.value, catalog);
    if r.Ok? {
      LayeredIsPermutation(s, catalog);
      assert ComesTo(requested, catalog, s);
    } else {
      forall u: set<Id> ensures !ComesTo(requested, catalog, u) {
        if LeastClosure(requested, catalog, u) { ClosureIgnoresOrder(requested, requested, catalog, u, s); }
      }
    }
  }

  /** The order depends on what is requested, not on the order in which it is. */
  lemma OrderIgnoresRequestOrder(a: seq<Id>, b: seq<Id>, catalog: Catalog, s: set<Id>, t: set<Id>)
    requires forall id :: id in a <==> id in b
    requires ComesTo(a, catalog, s) && ComesTo(b, catalog, t)
    ensures s == t && Layered(s, catalog).Some? && Layered(s, catalog) == Layered(t, catalog)
    ensures DependenciesFirst(Layered(s, catalog).value, s, catalog)
  {
    ClosureIgnoresOrder(a, b, catalog, s, t);
    RefusedExactlyOnCycles(s, catalog);
    LayeredIsTopological(s, catalog);
  }
}
