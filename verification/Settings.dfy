/** Settings of capabilities, and additions to a selection that leave what is there alone. */
module Settings {
  import opened Results
  import opened Paths
  import opened Sorting
  import opened Resolver

  // Stripping

  predicate IsSpace(c: char) {
    var n := c as int;
    || 9 <= n <= 13 || 28 <= n <= 32 || n == 0x85 || n == 0xA0 || n == 0x1680 || 0x2000 <= n <= 0x200A
    || n == 0x2028 || n == 0x2029 || n == 0x202F || n == 0x205F || n == 0x3000
  }

  function StripLeft(s: string): string {
    if s != [] && IsSpace(s[0]) then StripLeft(s[1..]) else s
  }

  function StripRight(s: string): string {
    if s != [] && IsSpace(s[|s| - 1]) then StripRight(s[..|s| - 1]) else s
  }

  function Strip(s: string): string {
    StripRight(StripLeft(s))
  }

  predicate Stripped(s: string) {
    s == [] || (!IsSpace(s[0]) && !IsSpace(s[|s| - 1]))
  }

  lemma {:induction false} StripLeftStarts(s: string)
    ensures StripLeft(s) == [] || !IsSpace(StripLeft(s)[0])
    decreases |s|
  {
    if s != [] && IsSpace(s[0]) { StripLeftStarts(s[1..]); }
  }

  lemma {:induction false} StripRightEnds(s: string)
    requires s == [] || !IsSpace(s[0])
    ensures Stripped(StripRight(s))
    decreases |s|
  {
    if s != [] && IsSpace(s[|s| - 1]) { StripRightEnds(s[..|s| - 1]); }
  }

  lemma StripStrips(s: string)
    ensures Stripped(Strip(s))
    ensures Stripped(s) ==> Strip(s) == s
  {
    StripLeftStarts(s);
    StripRightEnds(StripLeft(s));
  }

  /** `t` is `s` without the whitespace around it. */
  ghost predicate StripsTo(s: string, t: string) {
    Stripped(t) && exists i :: CutAt(s, i, t)
  }

  ghost predicate CutAt(s: string, i: nat, t: string) {
    && i + |t| <= |s| && s[i..i + |t|] == t
    && (forall k :: 0 <= k < i ==> IsSpace(s[k]))
    && (forall k :: i + |t| <= k < |s| ==> IsSpace(s[k]))
  }

  lemma {:induction false} StripLeftCuts(s: string) returns (i: nat)
    ensures i <= |s| && StripLeft(s) == s[i..] && forall k :: 0 <= k < i ==> IsSpace(s[k])
    decreases |s|
  {
    i := 0;
    if s != [] && IsSpace(s[0]) {
      var j := StripLeftCuts(s[1..]);
      i := j + 1;
    }
  }

  lemma {:induction false} StripRightCuts(s: string) returns (n: nat)
    ensures n <= |s| && StripRight(s) == s[..n] && forall k :: n <= k < |s| ==> IsSpace(s[k])
    decreases |s|
  {
    n := |s|;
    if s != [] && IsSpace(s[|s| - 1]) { n := StripRightCuts(s[..|s| - 1]); }
  }

  lemma CutCharacters(s: string, i: nat, t: string)
    requires CutAt(s, i, t)
    ensures forall k {:trigger t[k]} :: 0 <= k < |t| ==> t[k] == s[i + k]
  {
    assert t == s[i..i + |t|];
  }

  lemma CutsAreOne(s: string, i: nat, t: string, j: nat, u: string)
    requires Stripped(t) && Stripped(u) && CutAt(s, i, t) && CutAt(s, j, u)
    ensures t == u
  {
    CutCharacters(s, i, t);
    CutCharacters(s, j, u);
    if t != [] && u != [] {
      assert t[0] == s[i] && t[|t| - 1] == s[i + |t| - 1];
      assert u[0] == s[j] && u[|u| - 1] == s[j + |u| - 1];
      assert i == j && |t| == |u|;
    }
  }

  /** Stripping takes the whitespace around a text away, and nothing else. */
  lemma StripIsExact(s: string, t: string)
    ensures Strip(s) == t <==> StripsTo(s, t)
  {
    var i := StripLeftCuts(s);
    var n := StripRightCuts(s[i..]);
    StripStrips(s);
    assert CutAt(s, i, Strip(s)) by {
      assert s[i..][..n] == s[i..i + n];
      forall k | i + n <= k < |s| ensures IsSpace(s[k]) { assert s[k] == s[i..][k - i]; }
    }
    if StripsTo(s, t) {
      var j :| CutAt(s, j, t);
      CutsAreOne(s, i, Strip(s), j, t);
    }
  }

  // One setting

  type Values = map<string, SettingValue>

  function Normal(v: SettingValue): SettingValue {
    if v.Text? then Text(Strip(v.s)) else v
  }

  function SettingValueOf(d: SettingDefinition, supplied: Values): Result<SettingValue, Failure> {
    if d.name !in supplied && d.defaultValue.None? then
      Err(if d.required then MissingRequiredSetting else UndeterminedSetting)
    else
      var value := if d.name in supplied then supplied[d.name] else d.defaultValue.value;
      if d.secret then Err(SecretSetting)
      else match d.kind
        case StringSetting =>
          if !value.Text? then Err(TypeViolation)
          else if d.pattern.Some? && !d.pattern.value(Strip(value.s)) then Err(PatternViolation)
          else Ok(Normal(value))
        case BooleanSetting => if !value.Flag? then Err(TypeViolation) else Ok(value)
        case EnumSetting =>
          if !value.Text? || value.s !in d.choices then Err(EnumViolation) else Ok(Normal(value))
  }

  /** What `d` is given: the supplied value, or else its default. */
  predicate Given(d: SettingDefinition, supplied: Values, v: SettingValue) {
    if d.name in supplied then v == supplied[d.name] else d.defaultValue == Some(v)
  }

  /** `v` has the type of `d`, is a choice of an enum, and without its outer whitespace has the pattern of a string. */
  ghost predicate Fits(d: SettingDefinition, v: SettingValue) {
    match d.kind
    case StringSetting => v.Text? && (d.pattern.Some? ==> HasPattern(d.pattern.value, v.s))
    case BooleanSetting => v.Flag?
    case EnumSetting => v.Text? && v.s in d.choices
  }

  ghost predicate HasPattern(pattern: string -> bool, s: string) {
    exists t :: StripsTo(s, t) && pattern(t)
  }

  ghost predicate Trimmed(v: SettingValue, w: SettingValue) {
    if v.Text? then w.Text? && StripsTo(v.s, w.s) else w == v
  }

  /** A setting that is not secret comes to the fitting value it is given, trimmed. */
  ghost predicate ComesToValue(d: SettingDefinition, supplied: Values, w: SettingValue) {
    !d.secret && exists v :: Given(d, supplied, v) && Fits(d, v) && Trimmed(v, w)
  }

  ghost predicate Acceptable(d: SettingDefinition, supplied: Values) {
    !d.secret && exists v :: Given(d, supplied, v) && Fits(d, v)
  }

  lemma PatternIsOfStripped(pattern: string -> bool, s: string)
    ensures HasPattern(pattern, s) <==> pattern(Strip(s))
  {
    StripIsExact(s, Strip(s));
    forall t | StripsTo(s, t) ensures t == Strip(s) { StripIsExact(s, t); }
  }

  lemma NormalIsTrimmed(v: SettingValue, w: SettingValue)
    ensures Trimmed(v, w) <==> w == Normal(v)
  {
    if v.Text? && w.Text? { StripIsExact(v.s, w.s); }
  }

  lemma PatternsAreOfStripped(d: SettingDefinition)
    ensures forall v: SettingValue :: d.pattern.Some? && v.Text? ==> (HasPattern(d.pattern.value, v.s) <==> d.pattern.value(Strip(v.s)))
  {
    forall v: SettingValue | d.pattern.Some? && v.Text? ensures HasPattern(d.pattern.value, v.s) <==> d.pattern.value(Strip(v.s)) {
      PatternIsOfStripped(d.pattern.value, v.s);
    }
  }

  lemma GivenIsOne(d: SettingDefinition, supplied: Values)
    ensures (exists v :: Given(d, supplied, v)) <==> d.name in supplied || d.defaultValue.Some?
  {
    if d.name in supplied {
      assert Given(d, supplied, supplied[d.name]);
    } else if d.defaultValue.Some? {
      assert Given(d, supplied, d.defaultValue.value);
    }
  }

  lemma GivenResolves(d: SettingDefinition, supplied: Values, v: SettingValue)
    requires Given(d, supplied, v)
    ensures SettingValueOf(d, supplied) == Ok(Normal(v)) <==> !d.secret && Fits(d, v)
    ensures SettingValueOf(d, supplied).Ok? <==> !d.secret && Fits(d, v)
  {
    PatternsAreOfStripped(d);
  }

  /** A setting resolves exactly if it is acceptable, and to the one value it comes to. */
  lemma SettingIsResolved(d: SettingDefinition, supplied: Values)
    ensures SettingValueOf(d, supplied).Ok? <==> Acceptable(d, supplied)
    ensures forall w :: SettingValueOf(d, supplied) == Ok(w) <==> ComesToValue(d, supplied, w)
  {
    GivenIsOne(d, supplied);
    if v :| Given(d, supplied, v) {
      GivenResolves(d, supplied, v);
      forall w ensures Trimmed(v, w) <==> w == Normal(v) { NormalIsTrimmed(v, w); }
      NormalIsTrimmed(v, Normal(v));
    }
  }

  predicate WrongType(d: SettingDefinition, v: SettingValue) {
    (d.kind.StringSetting? && v.Flag?) || (d.kind.BooleanSetting? && v.Text?)
  }

  ghost predicate WrongPattern(d: SettingDefinition, v: SettingValue) {
    d.kind.StringSetting? && v.Text? && d.pattern.Some? && !HasPattern(d.pattern.value, v.s)
  }

  /** Which failure each missing condition gives. */
  lemma SettingIsRefused(d: SettingDefinition, supplied: Values)
    ensures var r, missing := SettingValueOf(d, supplied), d.name !in supplied && d.defaultValue.None?;
      && (r == Err(MissingRequiredSetting) <==> missing && d.required)
      && (r == Err(UndeterminedSetting) <==> missing && !d.required)
      && (r == Err(SecretSetting) <==> !missing && d.secret)
      && (r == Err(TypeViolation) <==> !d.secret && exists v :: Given(d, supplied, v) && WrongType(d, v))
      && (r == Err(PatternViolation) <==> !d.secret && exists v :: Given(d, supplied, v) && WrongPattern(d, v))
      && (r == Err(EnumViolation) <==> !d.secret && d.kind.EnumSetting? && exists v :: Given(d, supplied, v) && !Fits(d, v))
  {
    PatternsAreOfStripped(d);
    GivenIsOne(d, supplied);
  }

  /**
   Normalising is idempotent: a resolved value resolves to itself, exactly if it is
   not the stripped form of an enum choice that is itself no choice.
   */
  lemma NormalisingIsIdempotent(d: SettingDefinition, supplied: Values, again: Values)
    requires SettingValueOf(d, supplied).Ok?
    requires d.name in again && again[d.name] == SettingValueOf(d, supplied).value
    ensures SettingValueOf(d, again) == SettingValueOf(d, supplied) <==>
      (d.kind.EnumSetting? ==> SettingValueOf(d, supplied).value.s in d.choices)
  {
    var value := if d.name in supplied then supplied[d.name] else d.defaultValue.value;
    if value.Text? {
      StripStrips(value.s);
      StripStrips(Strip(value.s));
    }
  }

  // The settings of one capability

  predicate DistinctNames(ds: seq<SettingDefinition>) {
    forall i, j :: 0 <= i < j < |ds| ==> ds[i].name != ds[j].name
  }

  predicate Declares(ds: seq<SettingDefinition>, name: string) {
    exists i :: 0 <= i < |ds| && ds[i].name == name
  }

  /** Every declared setting, and nothing else, at the value it resolves to. */
  ghost predicate ResolvedAs(ds: seq<SettingDefinition>, values: Values, m: Values) {
    && (forall name :: name in m <==> Declares(ds, name))
    && (forall i :: 0 <= i < |ds| ==> ComesToValue(ds[i], values, m[ds[i].name]))
  }

  /** Nothing undeclared is set, and every declared setting is acceptable. */
  ghost predicate Resolvable(ds: seq<SettingDefinition>, values: Values) {
    && (forall name :: name in values ==> Declares(ds, name))
    && (forall i :: 0 <= i < |ds| ==> Acceptable(ds[i], values))
  }

  method ResolveCapability(ds: seq<SettingDefinition>, values: Values) returns (r: Result<Values, Failure>)
    requires DistinctNames(ds)
    ensures r.Ok? <==> Resolvable(ds, values)
    ensures r.Ok? ==> ResolvedAs(ds, values, r.value)
  {
    var declared := set i | 0 <= i < |ds| :: ds[i].name;
    assert forall name :: name in declared <==> Declares(ds, name);
    if name :| name in values && name !in declared { return Err(UnknownSetting); }
    var normalized: Values := map[];
    for i := 0 to |ds|
      invariant forall k :: 0 <= k < i ==> Acceptable(ds[k], values)
      invariant forall k :: 0 <= k < i ==> ds[k].name in normalized && ComesToValue(ds[k], values, normalized[ds[k].name])
      invariant forall name :: name in normalized ==> Declares(ds, name)
    {
      SettingIsResolved(ds[i], values);
      match SettingValueOf(ds[i], values)
      case Err(failure) => return Err(failure);
      case Ok(value) => normalized := normalized[ds[i].name := value];
    }
    return Ok(normalized);
  }

  lemma ResolvedIsUnique(ds: seq<SettingDefinition>, values: Values, a: Values, b: Values)
    requires ResolvedAs(ds, values, a) && ResolvedAs(ds, values, b)
    ensures a == b
  {
    forall name | name in a ensures name in b && a[name] == b[name] {
      var i :| 0 <= i < |ds| && ds[i].name == name;
      SettingIsResolved(ds[i], values);
      assert ComesToValue(ds[i], values, a[ds[i].name]) && ComesToValue(ds[i], values, b[ds[i].name]);
    }
    assert forall name :: name in b ==> name in a;
  }

  /** No enum choice has outer whitespace. */
  predicate Tidy(ds: seq<SettingDefinition>) {
    forall i, c :: 0 <= i < |ds| && ds[i].kind.EnumSetting? && c in ds[i].choices ==> Stripped(c)
  }

  /** Resolved values resolve to themselves. */
  lemma ResolvedIsFixed(ds: seq<SettingDefinition>, values: Values, m: Values)
    requires Tidy(ds) && ResolvedAs(ds, values, m)
    ensures ResolvedAs(ds, m, m)
  {
    forall i | 0 <= i < |ds| ensures ComesToValue(ds[i], m, m[ds[i].name]) {
      var d := ds[i];
      assert ComesToValue(d, values, m[d.name]);
      SettingIsResolved(d, values);
      SettingIsResolved(d, m);
      NormalisingIsIdempotent(d, values, m);
      if d.kind.EnumSetting? {
        var value := if d.name in values then values[d.name] else d.defaultValue.value;
        StripStrips(value.s);
      }
    }
  }

  // The settings of a selection

  type AllValues = map<Id, Values>

  function SuppliedTo(supplied: AllValues, id: Id): Values {
    if id in supplied then supplied[id] else map[]
  }

  predicate GoodCatalog(catalog: Catalog) {
    forall id :: id in catalog ==> DistinctNames(catalog[id].settings)
  }

  predicate TidyCatalog(catalog: Catalog) {
    forall id :: id in catalog ==> Tidy(catalog[id].settings)
  }

  predicate Known(ids: seq<Id>, catalog: Catalog) {
    forall id :: id in ids ==> id in catalog
  }

  method ResolveSettings(effective: seq<Id>, supplied: AllValues, catalog: Catalog) returns (r: Result<AllValues, Failure>)
    requires GoodCatalog(catalog) && Known(effective, catalog)
    ensures r.Ok? <==>
      && (forall id :: id in supplied ==> id in effective)
      && (forall id :: id in effective ==> Resolvable(catalog[id].settings, SuppliedTo(supplied, id)))
    ensures r.Ok? ==> forall id :: id in r.value <==> id in effective
    ensures r.Ok? ==> forall id :: id in effective ==>
      ResolvedAs(catalog[id].settings, SuppliedTo(supplied, id), r.value[id])
  {
    if id :| id in supplied && id !in effective { return Err(UnselectedSettings); }
    var resolved: AllValues := map[];
    for i := 0 to |effective|
      invariant forall id :: id in resolved <==> id in effective[..i]
      invariant forall id :: id in resolved ==> id in catalog && Resolvable(catalog[id].settings, SuppliedTo(supplied, id))
      invariant forall id :: id in resolved ==> ResolvedAs(catalog[id].settings, SuppliedTo(supplied, id), resolved[id])
    {
      var id := effective[i];
      assert id in effective && effective[..i + 1] == effective[..i] + [id];
      var one := ResolveCapability(catalog[id].settings, SuppliedTo(supplied, id));
      if one.Err? { return Err(one.error); }
      resolved := resolved[id := one.value];
    }
    assert effective[..|effective|] == effective;
    return Ok(resolved);
  }

  // Selections

  datatype Selection = Selection(requested: seq<Id>, effective: seq<Id>, settings: AllValues)

  function ToIds(ids: seq<Id>): set<Id> {
    set id | id in ids
  }

  /** Every selected capability, and no other, has settings that resolve to themselves. */
  ghost predicate FixedSettings(s: Selection, catalog: Catalog) {
    && Known(s.effective, catalog)
    && (forall id :: id in s.settings <==> id in s.effective)
    && (forall id :: id in s.effective ==> ResolvedAs(catalog[id].settings, s.settings[id], s.settings[id]))
  }

  /** What resolution produces: the ordered least closure of the request, every setting at a value that resolves to itself. */
  ghost predicate IsResolved(s: Selection, catalog: Catalog) {
    && FixedSettings(s, catalog)
    && LeastClosure(s.requested, catalog, ToIds(s.effective))
    && ToIds(s.effective) <= catalog.Keys && Layered(ToIds(s.effective), catalog) == Some(s.effective)
  }

  /** Only selected capabilities are given settings, and every one of them can be resolved. */
  ghost predicate Suppliable(s: set<Id>, supplied: AllValues, catalog: Catalog)
    requires s <= catalog.Keys
  {
    && (forall id :: id in supplied ==> id in s)
    && forall id :: id in s ==> Resolvable(catalog[id].settings, SuppliedTo(supplied, id))
  }

  /** What a request comes to exists, and its settings can be resolved. */
  ghost predicate Resolves(requested: seq<Id>, supplied: AllValues, catalog: Catalog) {
    exists s: set<Id> :: ComesTo(requested, catalog, s) && Suppliable(s, supplied, catalog)
  }

  /** The selection `s` holds the settings `supplied` resolves to. */
  ghost predicate FromSupplied(s: Selection, supplied: AllValues, catalog: Catalog) {
    && Known(s.effective, catalog) && (forall id :: id in s.settings <==> id in s.effective)
    && forall id :: id in s.effective ==> ResolvedAs(catalog[id].settings, SuppliedTo(supplied, id), s.settings[id])
  }

  lemma OneClosure(requested: seq<Id>, supplied: AllValues, catalog: Catalog, s: set<Id>)
    requires ComesTo(requested, catalog, s)
    ensures Resolves(requested, supplied, catalog) <==> Suppliable(s, supplied, catalog)
  {
    if Resolves(requested, supplied, catalog) {
      var u: set<Id> :| ComesTo(requested, catalog, u) && Suppliable(u, supplied, catalog);
      ClosureIgnoresOrder(requested, requested, catalog, u, s);
    }
  }

  /** Resolves the settings of an ordered request. */
  method ResolveOrdered(
    requested: seq<Id>, effective: seq<Id>, ghost s: set<Id>, supplied: AllValues, catalog: Catalog) returns (r: Result<Selection, Failure>)
    requires GoodCatalog(catalog) && TidyCatalog(catalog)
    requires ComesTo(requested, catalog, s) && Permutes(effective, s) && Layered(s, catalog) == Some(effective)
    ensures r.Ok? <==> Resolves(requested, supplied, catalog)
    ensures r.Ok? ==> r.value.requested == requested && IsResolved(r.value, catalog) && FromSupplied(r.value, supplied, catalog)
  {
    OneClosure(requested, supplied, catalog, s);
    var settings := ResolveSettings(effective, supplied, catalog);
    if settings.Err? { return Err(settings.error); }
    SettingsAreFixed(effective, supplied, settings.value, catalog);
    assert ToIds(effective) == s;
    return Ok(Selection(requested, effective, settings.value));
  }

  /** Orders a request and resolves its settings; refused exactly if it does not resolve. */
  method Resolve(requested: seq<Id>, supplied: AllValues, catalog: Catalog) returns (r: Result<Selection, Failure>)
    requires GoodCatalog(catalog) && TidyCatalog(catalog)
    ensures r.Ok? <==> Resolves(requested, supplied, catalog)
    ensures r.Ok? ==> r.value.requested == requested && IsResolved(r.value, catalog) && FromSupplied(r.value, supplied, catalog)
  {
    var effective, s := Order(requested, catalog);
    if effective.Err? { return Err(effective.error); }
    r := ResolveOrdered(requested, effective.value, s, supplied, catalog);
  }

  lemma SettingsAreFixed(effective: seq<Id>, supplied: AllValues, settings: AllValues, catalog: Catalog)
    requires TidyCatalog(catalog) && Known(effective, catalog) && forall id :: id in settings <==> id in effective
    requires forall id :: id in effective ==> ResolvedAs(catalog[id].settings, SuppliedTo(supplied, id), settings[id])
    ensures forall id :: id in effective ==> ResolvedAs(catalog[id].settings, settings[id], settings[id])
  {
    forall id | id in effective ensures ResolvedAs(catalog[id].settings, settings[id], settings[id]) {
      ResolvedIsFixed(catalog[id].settings, SuppliedTo(supplied, id), settings[id]);
    }
  }

  predicate DistinctIds(ids: seq<Id>) {
    forall i, j :: 0 <= i < j < |ids| ==> ids[i] != ids[j]
  }

  /** A list is as long as its set exactly if it repeats nothing. */
  lemma {:induction false} DistinctCount(ids: seq<Id>)
    ensures |ToIds(ids)| <= |ids|
    ensures |ToIds(ids)| == |ids| <==> DistinctIds(ids)
    decreases |ids|
  {
    if ids != [] {
      var front, last := ids[..|ids| - 1], ids[|ids| - 1];
      DistinctCount(front);
      assert ids == front + [last];
      assert ToIds(ids) == ToIds(front) + {last};
      DistinctAppend(front, last);
    }
  }

  lemma DistinctAppend(front: seq<Id>, last: Id)
    ensures DistinctIds(front + [last]) <==> DistinctIds(front) && last !in front
  {
    var ids := front + [last];
    assert forall i :: 0 <= i < |front| ==> ids[i] == front[i];
    assert ids[|front|] == last;
  }

  /** Resolves a request from scratch; refused exactly if it repeats a capability or does not resolve. */
  method ResolveBundle(requested: seq<Id>, supplied: AllValues, catalog: Catalog) returns (r: Result<Selection, Failure>)
    requires GoodCatalog(catalog) && TidyCatalog(catalog)
    ensures r.Ok? <==> DistinctIds(requested) && Resolves(requested, supplied, catalog)
    ensures r.Ok? ==> r.value.requested == requested && IsResolved(r.value, catalog) && FromSupplied(r.value, supplied, catalog)
  {
    DistinctCount(requested);
    if |ToIds(requested)| != |requested| { return Err(DuplicateAddition); }
    r := Resolve(requested, supplied, catalog);
  }
}
