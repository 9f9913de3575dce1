/** Append-only additions to a resolved selection. */
module Additions {
  import opened Results
  import opened Sorting
  import opened Resolver
  import opened Settings

  datatype Item = Item(id: Id, values: Values)

  function NormalAll(values: Values): Values {
    map name | name in values :: Normal(values[name])
  }

  /** The given values say again what is already set, outer whitespace aside. */
  predicate Restates(current: Values, values: Values) {
    forall name :: name in values ==> name in current && Normal(values[name]) == current[name]
  }

  lemma NormalTwice(v: SettingValue)
    ensures Normal(Normal(v)) == Normal(v)
  {
    if v.Text? {
      StripStrips(v.s);
      StripStrips(Strip(v.s));
    }
  }

  /** A resolved value is the normal form of what was supplied. */
  lemma ResolvedIsNormal(d: SettingDefinition, supplied: Values)
    requires d.name in supplied && SettingValueOf(d, supplied).Ok?
    ensures SettingValueOf(d, supplied).value == Normal(supplied[d.name])
  {
  }

  /** Existing settings overlaid with normalised new ones resolve to themselves exactly if nothing new is said. */
  lemma OverlaidIsCurrent(ds: seq<SettingDefinition>, current: Values, values: Values, resolved: Values)
    requires ResolvedAs(ds, current, current) && ResolvedAs(ds, current + NormalAll(values), resolved)
    requires forall name :: name in current + NormalAll(values) ==> Declares(ds, name)
    ensures resolved == current <==> Restates(current, values)
  {
    var candidate := current + NormalAll(values);
    if Restates(current, values) {
      assert candidate == current;
      ResolvedIsUnique(ds, current, resolved, current);
    }
    if resolved == current {
      forall name | name in values ensures name in current && Normal(values[name]) == current[name] {
        assert name in candidate;
        var i :| 0 <= i < |ds| && ds[i].name == name;
        assert ComesToValue(ds[i], candidate, resolved[ds[i].name]);
        SettingIsResolved(ds[i], candidate);
        ResolvedIsNormal(ds[i], candidate);
        NormalTwice(values[name]);
      }
    }
  }

  lemma RestatedResolves(ds: seq<SettingDefinition>, current: Values, values: Values)
    requires ResolvedAs(ds, current, current) && Restates(current, values)
    ensures Resolvable(ds, current + NormalAll(values))
  {
    assert current + NormalAll(values) == current;
    forall i | 0 <= i < |ds| ensures Acceptable(ds[i], current) {
      assert ComesToValue(ds[i], current, current[ds[i].name]);
    }
  }

  /** Values for a capability that is already there are accepted exactly if they change nothing. */
  method CheckRestated(current: Selection, item: Item, catalog: Catalog) returns (r: Result<(), Failure>)
    requires GoodCatalog(catalog) && FixedSettings(current, catalog) && item.id in current.effective
    ensures r.Ok? <==> Restates(current.settings[item.id], item.values)
  {
    var was, candidate := current.settings[item.id], current.settings[item.id] + NormalAll(item.values);
    var ds := catalog[item.id].settings;
    var resolved := ResolveSettings([item.id], map[item.id := candidate], catalog);
    assert SuppliedTo(map[item.id := candidate], item.id) == candidate;
    assert item.id in [item.id];
    if resolved.Err? {
      if Restates(was, item.values) { RestatedResolves(ds, was, item.values); }
      return Err(resolved.error);
    }
    OverlaidIsCurrent(ds, was, item.values, resolved.value[item.id]);
    if resolved.value[item.id] != was { return Err(ReconfigureSettings); }
    return Ok(());
  }

  predicate KeepsExisting(current: Selection, supplied: AllValues) {
    forall id :: id in current.effective ==> id in supplied && id in current.settings && supplied[id] == current.settings[id]
  }

  predicate ItemRestates(current: Selection, item: Item) {
    item.id in current.effective ==> item.id in current.settings && Restates(current.settings[item.id], item.values)
  }

  /** The settings to resolve: the existing ones untouched, those of new capabilities as given. */
  function Merged(current: Selection, items: seq<Item>): AllValues {
    if items == [] then current.settings else
      var front, last := Merged(current, items[..|items| - 1]), items[|items| - 1];
      if last.id in current.effective then front else front[last.id := NormalAll(last.values)]
  }

  lemma {:induction false} MergedKeeps(current: Selection, items: seq<Item>)
    requires forall id :: id in current.effective ==> id in current.settings
    ensures KeepsExisting(current, Merged(current, items))
    decreases |items|
  {
    if items != [] { MergedKeeps(current, items[..|items| - 1]); }
  }

  predicate LastFor(items: seq<Item>, i: int, id: Id) {
    0 <= i < |items| && items[i].id == id && forall k :: i < k < |items| ==> items[k].id != id
  }

  /** `given` are the values of `values`, name by name, trimmed. */
  ghost predicate TrimmedAll(values: Values, given: Values) {
    (forall name :: name in given <==> name in values) && forall name :: name in values ==> Trimmed(values[name], given[name])
  }

  lemma NormalAllIsTrimmed(values: Values)
    ensures TrimmedAll(values, NormalAll(values))
  {
    forall name | name in values ensures Trimmed(values[name], NormalAll(values)[name]) {
      NormalIsTrimmed(values[name], NormalAll(values)[name]);
    }
  }

  /** What `m` holds for `id`: what the last item for it says if it is new, and else what is there already, if anything. */
  ghost predicate HoldsLastSaid(current: Selection, items: seq<Item>, id: Id, m: AllValues) {
    if id in current.effective || forall i :: 0 <= i < |items| ==> items[i].id != id then
      (id in m <==> id in current.settings) && (id in m ==> m[id] == current.settings[id])
    else
      id in m && exists i :: LastFor(items, i, id) && TrimmedAll(items[i].values, m[id])
  }

  lemma LastForStays(items: seq<Item>, item: Item, i: int, id: Id)
    requires LastFor(items, i, id) && item.id != id
    ensures LastFor(items + [item], i, id) && (items + [item])[i] == items[i]
  {
  }

  lemma SaidLater(current: Selection, items: seq<Item>, item: Item, id: Id, m: AllValues)
    requires HoldsLastSaid(current, items, id, m) && (item.id != id || id in current.effective)
    ensures HoldsLastSaid(current, items + [item], id, m)
  {
    var more := items + [item];
    assert forall i :: 0 <= i < |items| ==> more[i] == items[i];
    assert more[|items|] == item;
    if id !in current.effective && exists i :: 0 <= i < |items| && items[i].id == id {
      var i :| LastFor(items, i, id) && TrimmedAll(items[i].values, m[id]);
      LastForStays(items, item, i, id);
    }
  }

  lemma SaidLast(current: Selection, items: seq<Item>, item: Item, m: AllValues)
    requires item.id !in current.effective && item.id in m && TrimmedAll(item.values, m[item.id])
    ensures HoldsLastSaid(current, items + [item], item.id, m)
  {
    assert LastFor(items + [item], |items|, item.id);
  }

  /** A new capability is given what the last item for it says; everything else keeps the settings it has. */
  lemma {:induction false} MergedIsLastSaid(current: Selection, items: seq<Item>, id: Id)
    ensures HoldsLastSaid(current, items, id, Merged(current, items))
    decreases |items|
  {
    if items != [] {
      var front, last := items[..|items| - 1], items[|items| - 1];
      assert items == front + [last];
      MergedIsLastSaid(current, front, id);
      NormalAllIsTrimmed(last.values);
      var m, before := Merged(current, items), Merged(current, front);
      if last.id == id && id !in current.effective {
        SaidLast(current, front, last, m);
      } else {
        SaidLater(current, front, last, id, before);
        assert (id in m <==> id in before) && (id in m ==> m[id] == before[id]);
      }
    }
  }

  /** Merges, or refuses exactly when an existing capability is given something new. */
  method MergeSettings(current: Selection, items: seq<Item>, catalog: Catalog) returns (r: Result<AllValues, Failure>)
    requires GoodCatalog(catalog) && FixedSettings(current, catalog)
    ensures r.Ok? <==> forall i :: 0 <= i < |items| ==> ItemRestates(current, items[i])
    ensures r.Ok? ==> r.value == Merged(current, items)
  {
    var supplied := current.settings;
    for i := 0 to |items|
      invariant forall k :: 0 <= k < i ==> ItemRestates(current, items[k])
      invariant supplied == Merged(current, items[..i])
    {
      assert items[..i + 1][..i] == items[..i];
      if items[i].id in current.effective {
        var restated := CheckRestated(current, items[i], catalog);
        if restated.Err? {
          assert !ItemRestates(current, items[i]);
          return Err(restated.error);
        }
      } else {
        supplied := supplied[items[i].id := NormalAll(items[i].values)];
      }
    }
    assert items[..|items|] == items;
    return Ok(supplied);
  }

  function NotIn(add: seq<Id>, present: seq<Id>): (r: seq<Id>)
    ensures forall id :: id in r <==> id in add && id !in present
  {
    if add == [] then [] else
      assert add == [add[0]] + add[1..];
      if add[0] in present then NotIn(add[1..], present) else [add[0]] + NotIn(add[1..], present)
  }

  lemma NotInStep(add: seq<Id>, present: seq<Id>)
    requires add != []
    ensures NotIn(add, present) == (if add[0] in present then [] else [add[0]]) + NotIn(add[1..], present)
  {
  }

  lemma NotInFirst(id: Id, rest: seq<Id>, present: seq<Id>)
    ensures NotIn([id] + rest, present) == NotIn([id], present) + NotIn(rest, present)
  {
    NotInStep([id] + rest, present);
    NotInStep([id], present);
    assert ([id] + rest)[1..] == rest && [id][1..] == [];
  }

  /** What is new keeps the order it is added in. */
  lemma {:induction false} NotInGoesAlong(a: seq<Id>, b: seq<Id>, present: seq<Id>)
    ensures NotIn(a + b, present) == NotIn(a, present) + NotIn(b, present)
    decreases |a|
  {
    if a == [] {
      assert a + b == b;
    } else {
      var first, rest := a[0], a[1..];
      assert a == [first] + rest && a + b == [first] + (rest + b);
      NotInFirst(first, rest, present);
      NotInFirst(first, rest + b, present);
      NotInGoesAlong(rest, b, present);
      Associates(NotIn([first], present), NotIn(rest, present), NotIn(b, present));
    }
  }

  lemma Associates(a: seq<Id>, b: seq<Id>, c: seq<Id>)
    ensures a + (b + c) == (a + b) + c
  {
  }

  /** Everything requested, selected and set in `a` is so in `b`. */
  predicate Extends(a: Selection, b: Selection) {
    && |a.requested| <= |b.requested| && b.requested[..|a.requested|] == a.requested
    && forall id :: id in a.effective ==>
      id in b.effective && id in a.settings && id in b.settings && b.settings[id] == a.settings[id]
  }

  lemma ClosureGrows(requested: seq<Id>, more: seq<Id>, catalog: Catalog, s: set<Id>, t: set<Id>)
    requires LeastClosure(requested, catalog, s) && LeastClosure(requested + more, catalog, t)
    ensures s <= t
  {
    assert forall id :: id in requested ==> id in requested + more;
  }

  /** Resolved anew from its own values, a setting stays as it was. */
  lemma KeptSettings(current: Selection, effective: seq<Id>, supplied: AllValues, settings: AllValues, catalog: Catalog)
    requires FixedSettings(current, catalog) && Known(effective, catalog)
    requires KeepsExisting(current, supplied) && forall id :: id in current.effective ==> id in effective
    requires forall id :: id in settings <==> id in effective
    requires forall id :: id in effective ==> ResolvedAs(catalog[id].settings, SuppliedTo(supplied, id), settings[id])
    ensures forall id :: id in current.effective ==> settings[id] == current.settings[id]
  {
    forall id | id in current.effective ensures settings[id] == current.settings[id] {
      ResolvedIsUnique(catalog[id].settings, current.settings[id], settings[id], current.settings[id]);
    }
  }

  /** `next` is what adding `add` with the settings `items` makes of `current`. */
  ghost predicate IsAddition(current: Selection, add: seq<Id>, items: seq<Item>, catalog: Catalog, next: Selection) {
    && next.requested == current.requested + NotIn(add, current.effective)
    && IsResolved(next, catalog) && FromSupplied(next, Merged(current, items), catalog)
    && forall i :: 0 <= i < |items| ==> ItemRestates(current, items[i])
  }

  /** An addition is append-only. */
  lemma AdditionExtends(current: Selection, add: seq<Id>, items: seq<Item>, catalog: Catalog, next: Selection)
    requires IsResolved(current, catalog) && IsAddition(current, add, items, catalog, next)
    ensures Extends(current, next)
  {
    ClosureGrows(current.requested, NotIn(add, current.effective), catalog, ToIds(current.effective), ToIds(next.effective));
    forall id | id in current.effective ensures id in next.effective { assert id in ToIds(current.effective); }
    MergedKeeps(current, items);
    KeptSettings(current, next.effective, Merged(current, items), next.settings, catalog);
  }

  /**
   An addition is append-only, and what it produces is again a resolved selection, so
   the next addition is append-only too.  Refused exactly when an existing capability
   is given something new, or the whole request does not resolve.
   */
  method ResolveAdditions(current: Selection, add: seq<Id>, items: seq<Item>, catalog: Catalog)
    returns (r: Result<Selection, Failure>)
    requires GoodCatalog(catalog) && TidyCatalog(catalog) && IsResolved(current, catalog)
    ensures r.Ok? <==>
      && (forall i :: 0 <= i < |items| ==> ItemRestates(current, items[i]))
      && Resolves(current.requested + NotIn(add, current.effective), Merged(current, items), catalog)
    ensures r.Ok? ==> IsAddition(current, add, items, catalog, r.value) && Extends(current, r.value)
  {
    var requested := current.requested + NotIn(add, current.effective);
    var effective, s := Order(requested, catalog);
    if effective.Err? { return Err(effective.error); }
    var supplied := MergeSettings(current, items, catalog);
    if supplied.Err? { return Err(supplied.error); }
    r := ResolveOrdered(requested, effective.value, s, supplied.value, catalog);
    if r.Ok? { AdditionExtends(current, add, items, catalog, r.value); }
  }

  /** Each selection is what some addition made of the one before. */
  ghost predicate History(history: seq<Selection>, catalog: Catalog) {
    && history != [] && IsResolved(history[0], catalog)
    && forall k :: 0 <= k < |history| - 1 ==> AddedTo(history[k], history[k + 1], catalog)
  }

  ghost predicate AddedTo(current: Selection, next: Selection, catalog: Catalog) {
    exists add, items :: IsAddition(current, add, items, catalog, next)
  }

  lemma {:induction false} HistoryIsResolved(history: seq<Selection>, catalog: Catalog, k: nat)
    requires History(history, catalog) && k < |history|
    ensures IsResolved(history[k], catalog)
    decreases k
  {
    if k > 0 { assert AddedTo(history[k - 1], history[k], catalog); }
  }

  lemma NextExtends(history: seq<Selection>, catalog: Catalog, k: nat)
    requires History(history, catalog) && k + 1 < |history|
    ensures Extends(history[k], history[k + 1])
  {
    HistoryIsResolved(history, catalog, k);
    assert AddedTo(history[k], history[k + 1], catalog);
    var add, items :| IsAddition(history[k], add, items, catalog, history[k + 1]);
    AdditionExtends(history[k], add, items, catalog, history[k + 1]);
  }

  lemma ExtendsTwice(a: Selection, b: Selection, c: Selection)
    requires Extends(a, b) && Extends(b, c)
    ensures Extends(a, c)
  {
    assert c.requested[..|a.requested|] == c.requested[..|b.requested|][..|a.requested|];
  }

  lemma ExtendsItself(s: Selection, catalog: Catalog)
    requires IsResolved(s, catalog)
    ensures Extends(s, s)
  {
  }

  lemma {:induction false} LaterExtends(history: seq<Selection>, catalog: Catalog, i: nat, j: nat)
    requires History(history, catalog) && i <= j < |history|
    ensures Extends(history[i], history[j])
    decreases j - i
  {
    if i < j {
      LaterExtends(history, catalog, i + 1, j);
      NextExtends(history, catalog, i);
      ExtendsTwice(history[i], history[i + 1], history[j]);
    } else {
      HistoryIsResolved(history, catalog, i);
      ExtendsItself(history[i], catalog);
    }
  }

  /** Over any sequence of additions, every selection extends every earlier one, and is resolved. */
  lemma HistoryExtends(history: seq<Selection>, catalog: Catalog, i: nat, j: nat)
    requires History(history, catalog) && i <= j < |history|
    ensures Extends(history[i], history[j]) && IsResolved(history[j], catalog)
  {
    LaterExtends(history, catalog, i, j);
    HistoryIsResolved(history, catalog, j);
  }
}
