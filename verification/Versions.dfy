/**
 Python version ranges.  A final release is its list of numbers, compared as if
 padded with zeros without end (PEP 440, section "Final releases").
 */
module Versions {
  import opened Results
  import opened Sorting

  type Release = seq<nat>

  function At(v: Release, k: nat): nat {
    if k < |v| then v[k] else 0
  }

  ghost predicate SameUpTo(a: Release, b: Release, k: nat) {
    forall j: nat :: j < k ==> At(a, j) == At(b, j)
  }

  /** The first number in which they differ decides. */
  ghost predicate ReleaseLess(a: Release, b: Release) {
    exists k: nat :: SameUpTo(a, b, k) && At(a, k) < At(b, k)
  }

  ghost predicate SameRelease(a: Release, b: Release) {
    forall j: nat :: At(a, j) == At(b, j)
  }

  lemma ReleaseLessTransitive(a: Release, b: Release, c: Release)
    requires ReleaseLess(a, b) && ReleaseLess(b, c)
    ensures ReleaseLess(a, c)
  {
    var k: nat :| SameUpTo(a, b, k) && At(a, k) < At(b, k);
    var m: nat :| SameUpTo(b, c, m) && At(b, m) < At(c, m);
    var n := if k < m then k else m;
    assert SameUpTo(a, c, n) && At(a, n) < At(c, n);
  }

  lemma ReleaseLessIrreflexive(a: Release, b: Release)
    requires ReleaseLess(a, b)
    ensures !SameRelease(a, b) && !ReleaseLess(b, a)
  {
    var k: nat :| SameUpTo(a, b, k) && At(a, k) < At(b, k);
    forall m: nat ensures !(SameUpTo(b, a, m) && At(b, m) < At(a, m)) {
      assert m < k ==> At(a, m) == At(b, m);
      assert k < m && SameUpTo(b, a, m) ==> At(b, k) == At(a, k);
    }
  }

  lemma {:induction false} FirstDifference(a: Release, b: Release, k: nat)
    requires SameUpTo(a, b, k)
    ensures ReleaseLess(a, b) || ReleaseLess(b, a) || SameRelease(a, b)
    decreases |a| + |b| - k
  {
    if At(a, k) < At(b, k) {
    } else if At(b, k) < At(a, k) {
      assert SameUpTo(b, a, k);
    } else if k < |a| + |b| {
      FirstDifference(a, b, k + 1);
    }
  }

  lemma ReleasesComparable(a: Release, b: Release)
    ensures ReleaseLess(a, b) || ReleaseLess(b, a) || SameRelease(a, b)
  {
    FirstDifference(a, b, 0);
  }

  lemma SameIsInterchangeable(a: Release, b: Release, c: Release)
    requires SameRelease(a, b)
    ensures ReleaseLess(a, c) <==> ReleaseLess(b, c)
    ensures ReleaseLess(c, a) <==> ReleaseLess(c, b)
    ensures SameRelease(a, c) <==> SameRelease(b, c)
  {
    if ReleaseLess(a, c) { var k: nat :| SameUpTo(a, c, k) && At(a, k) < At(c, k); assert SameUpTo(b, c, k) && At(b, k) < At(c, k); }
    if ReleaseLess(b, c) { var k: nat :| SameUpTo(b, c, k) && At(b, k) < At(c, k); assert SameUpTo(a, c, k) && At(a, k) < At(c, k); }
    if ReleaseLess(c, a) { var k: nat :| SameUpTo(c, a, k) && At(c, k) < At(a, k); assert SameUpTo(c, b, k) && At(c, k) < At(b, k); }
    if ReleaseLess(c, b) { var k: nat :| SameUpTo(c, b, k) && At(c, k) < At(b, k); assert SameUpTo(c, a, k) && At(c, k) < At(a, k); }
  }

  /** Between two releases there is always a third. */
  lemma ReleasesAreDense(a: Release, b: Release) returns (c: Release)
    requires ReleaseLess(a, b)
    ensures ReleaseLess(a, c) && ReleaseLess(c, b)
  {
    var n := |a| + |b|;
    c := seq(n, j requires 0 <= j < n => At(a, j)) + [1];
    assert SameUpTo(a, c, n) && At(a, n) < At(c, n);
    var k: nat :| SameUpTo(a, b, k) && At(a, k) < At(b, k);
    assert k < n;
    assert SameUpTo(c, b, k) && At(c, k) < At(b, k);
  }

  // Trimmed tuples

  predicate Trimmed(v: Release) {
    |v| > 0 && (|v| > 1 ==> v[|v| - 1] != 0)
  }

  /** Drops trailing zeros but keeps one number: the same release, in its only trimmed form. */
  method ParseVersion(parts: Release) returns (v: Release)
    requires |parts| > 0
    ensures Trimmed(v) && SameRelease(v, parts)
  {
    v := parts;
    while |v| > 1 && v[|v| - 1] == 0
      invariant |v| > 0 && SameRelease(v, parts)
    {
      v := v[..|v| - 1];
    }
  }

  /** How tuples compare: at the first difference, a proper prefix being less. */
  predicate TupleLess(a: Release, b: Release) {
    exists k :: 0 <= k <= |a| && k < |b| && a[..k] == b[..k] && (k == |a| || a[k] < b[k])
  }

  lemma PrefixSame(a: Release, b: Release, k: nat)
    requires k <= |a| && k <= |b| && a[..k] == b[..k]
    ensures SameUpTo(a, b, k)
  {
    assert forall j: nat :: j < k ==> a[..k][j] == b[..k][j];
  }

  lemma TupleLessIsReleaseLess(a: Release, b: Release)
    requires Trimmed(a) && Trimmed(b) && TupleLess(a, b)
    ensures ReleaseLess(a, b)
  {
    var k :| 0 <= k <= |a| && k < |b| && a[..k] == b[..k] && (k == |a| || a[k] < b[k]);
    PrefixSame(a, b, k);
    if k == |a| { LongerIsGreater(a, b, |b| - 1); } else { assert At(a, k) < At(b, k); }
  }

  /** A trimmed extension is greater: some number it adds is not zero. */
  lemma {:induction false} LongerIsGreater(a: Release, b: Release, m: nat)
    requires SameUpTo(a, b, |a|) && |a| <= m < |b| && b[m] != 0
    ensures ReleaseLess(a, b)
    decreases m
  {
    if SameUpTo(a, b, m) {
      assert At(a, m) < At(b, m);
    } else {
      var j: nat :| j < m && At(a, j) != At(b, j);
      LongerIsGreater(a, b, j);
    }
  }

  lemma TrimmedIsUnique(a: Release, b: Release)
    requires Trimmed(a) && Trimmed(b) && SameRelease(a, b)
    ensures a == b
  {
    var last := (if |a| < |b| then |b| else |a|) - 1;
    assert At(a, last) == At(b, last);
    forall j | 0 <= j < |a| && j < |b| ensures a[j] == b[j] { assert At(a, j) == At(b, j); }
  }

  lemma {:induction false} TuplesComparable(a: Release, b: Release, k: nat)
    requires k <= |a| && k <= |b| && a[..k] == b[..k]
    ensures TupleLess(a, b) || TupleLess(b, a) || a == b
    decreases |a| - k
  {
    if k < |a| && k < |b| && a[k] == b[k] {
      assert a[..k + 1] == a[..k] + [a[k]] && b[..k + 1] == b[..k] + [b[k]];
      TuplesComparable(a, b, k + 1);
    } else if k == |a| && k == |b| {
      assert a == a[..k] && b == b[..k];
    } else if k < |b| && (k == |a| || a[k] < b[k]) {
      assert TupleLess(a, b);
    } else {
      assert b[..k] == a[..k] && k < |a| && (k == |b| || b[k] < a[k]);
      assert TupleLess(b, a);
    }
  }

  /** On trimmed tuples the order of tuples is the order of releases. */
  lemma TupleOrderIsReleaseOrder(a: Release, b: Release)
    requires Trimmed(a) && Trimmed(b)
    ensures TupleLess(a, b) <==> ReleaseLess(a, b)
    ensures a == b <==> SameRelease(a, b)
  {
    TuplesComparable(a, b, 0);
    if TupleLess(a, b) { TupleLessIsReleaseLess(a, b); }
    if TupleLess(b, a) { TupleLessIsReleaseLess(b, a); }
    if ReleaseLess(a, b) { ReleaseLessIrreflexive(a, b); }
    if SameRelease(a, b) { TrimmedIsUnique(a, b); }
  }

  // Clauses and ranges

  datatype Comparator = AtLeast | Above | AtMost | Below

  datatype Clause = Clause(op: Comparator, version: Release)

  /** A range as its grammar reads it, versions not yet trimmed. */
  datatype Range = Malformed | Clauses(clauses: seq<Clause>)

  ghost predicate Satisfies(v: Release, c: Clause) {
    match c.op
    case AtLeast => ReleaseLess(c.version, v) || SameRelease(c.version, v)
    case Above => ReleaseLess(c.version, v)
    case AtMost => ReleaseLess(v, c.version) || SameRelease(c.version, v)
    case Below => ReleaseLess(v, c.version)
  }

  ghost predicate SatisfiesAll(v: Release, cs: seq<Clause>) {
    forall c :: c in cs ==> Satisfies(v, c)
  }

  predicate IsLower(c: Clause) { c.op.AtLeast? || c.op.Above? }

  predicate IsStrict(c: Clause) { c.op.Above? || c.op.Below? }

  /** Lower bounds first, then by version, a strict comparator before its non-strict counterpart. */
  predicate ClauseLess(a: Clause, b: Clause) {
    || (IsLower(a) && !IsLower(b))
    || (IsLower(a) == IsLower(b) && TupleLess(a.version, b.version))
    || (IsLower(a) == IsLower(b) && a.version == b.version && IsStrict(a) && !IsStrict(b))
  }

  /** Every version in a range has at least one number, as the grammar reads it. */
  predicate Readable(range: Range) {
    range.Clauses? ==> forall c :: c in range.clauses ==> |c.version| > 0
  }

  /** Lower bounds before upper ones, then the lesser release, then the strict comparator. */
  ghost predicate GoesFirst(a: Clause, b: Clause) {
    if IsLower(a) != IsLower(b) then IsLower(a)
    else ReleaseLess(a.version, b.version) || (a.version == b.version && (IsStrict(b) ==> IsStrict(a)))
  }

  ghost predicate CanonicalOrder(cs: seq<Clause>) {
    forall i, j :: 0 <= i < j < |cs| ==> GoesFirst(cs[i], cs[j])
  }

  lemma TupleLessIrreflexive(a: Release)
    ensures !TupleLess(a, a)
  {
  }

  lemma TupleLessTransitive(a: Release, b: Release, c: Release)
    requires TupleLess(a, b) && TupleLess(b, c)
    ensures TupleLess(a, c)
  {
    var k :| 0 <= k <= |a| && k < |b| && a[..k] == b[..k] && (k == |a| || a[k] < b[k]);
    var m :| 0 <= m <= |b| && m < |c| && b[..m] == c[..m] && (m == |b| || b[m] < c[m]);
    var n := if k < m then k else m;
    assert a[..n] == a[..k][..n] == b[..k][..n] == b[..n] == b[..m][..n] == c[..m][..n] == c[..n];
    if k < m { assert b[..m][k] == c[..m][k]; }
    if m < k { assert a[..k][m] == b[..k][m]; }
  }

  lemma ClauseOrderIsStrict()
    ensures StrictOrder(ClauseLess)
  {
    forall a ensures !ClauseLess(a, a) { TupleLessIrreflexive(a.version); }
    forall a, b, c | ClauseLess(a, b) && ClauseLess(b, c) ensures ClauseLess(a, c) {
      if TupleLess(a.version, b.version) && TupleLess(b.version, c.version) { TupleLessTransitive(a.version, b.version, c.version); }
    }
  }

  lemma NotBehind(a: Clause, b: Clause)
    requires Trimmed(a.version) && Trimmed(b.version) && !ClauseLess(b, a)
    ensures GoesFirst(a, b)
  {
    TuplesComparable(a.version, b.version, 0);
    TupleOrderIsReleaseOrder(a.version, b.version);
  }

  lemma ParsedInOrder(parsed: seq<Clause>)
    requires forall c :: c in parsed ==> Trimmed(c.version)
    ensures CanonicalOrder(Sort(parsed, ClauseLess))
  {
    ClauseOrderIsStrict();
    forall a, b | a in parsed && b in parsed ensures ClauseLess(a, b) || ClauseLess(b, a) || a == b {
      TuplesComparable(a.version, b.version, 0);
    }
    SortSorts(parsed, ClauseLess);
    SameElements(parsed, ClauseLess);
    var r := Sort(parsed, ClauseLess);
    forall i, j | 0 <= i < j < |r| ensures GoesFirst(r[i], r[j]) {
      assert r[i] in r && r[j] in r;
      NotBehind(r[i], r[j]);
    }
  }

  /** The clauses with trimmed versions, in canonical order: satisfied by the same releases. */
  method ParsePythonRange(range: Range) returns (r: Result<seq<Clause>, ()>)
    requires Readable(range)
    ensures r.Ok? <==> range.Clauses?
    ensures r.Ok? ==> forall c :: c in r.value ==> Trimmed(c.version)
    ensures r.Ok? ==> forall v :: SatisfiesAll(v, r.value) <==> SatisfiesAll(v, range.clauses)
    ensures r.Ok? ==> ((exists c :: c in r.value && IsLower(c)) <==> exists c :: c in range.clauses && IsLower(c))
    ensures r.Ok? ==> CanonicalOrder(r.value)
  {
    if range.Malformed? { return Err(()); }
    var cs, parsed: seq<Clause> := range.clauses, [];
    for i := 0 to |cs|
      invariant |parsed| == i
      invariant forall k :: 0 <= k < i ==>
        parsed[k].op == cs[k].op && Trimmed(parsed[k].version) && SameRelease(parsed[k].version, cs[k].version)
    {
      assert cs[i] in cs;
      var version := ParseVersion(cs[i].version);
      parsed := parsed + [Clause(cs[i].op, version)];
    }
    var ordered := Sort(parsed, ClauseLess);
    SameElements(parsed, ClauseLess);
    forall v ensures SatisfiesAll(v, ordered) <==> SatisfiesAll(v, cs) { ParsedSame(cs, parsed, ordered, v); }
    SameDirections(cs, parsed, ordered);
    ParsedInOrder(parsed);
    return Ok(ordered);
  }

  lemma ParsedSame(cs: seq<Clause>, parsed: seq<Clause>, ordered: seq<Clause>, v: Release)
    requires |parsed| == |cs| && forall c :: c in ordered <==> c in parsed
    requires forall k :: 0 <= k < |cs| ==> parsed[k].op == cs[k].op && SameRelease(parsed[k].version, cs[k].version)
    ensures SatisfiesAll(v, ordered) <==> SatisfiesAll(v, cs)
  {
    forall k | 0 <= k < |cs| ensures Satisfies(v, parsed[k]) <==> Satisfies(v, cs[k]) {
      SameIsInterchangeable(parsed[k].version, cs[k].version, v);
    }
    assert forall k :: 0 <= k < |cs| ==> parsed[k] in ordered && cs[k] in cs;
  }

  lemma SameDirections(cs: seq<Clause>, parsed: seq<Clause>, ordered: seq<Clause>)
    requires |parsed| == |cs| && forall c :: c in ordered <==> c in parsed
    requires forall k :: 0 <= k < |cs| ==> parsed[k].op == cs[k].op
    ensures (exists c :: c in ordered && IsLower(c)) <==> exists c :: c in cs && IsLower(c)
  {
    if c :| c in ordered && IsLower(c) {
      var k :| 0 <= k < |parsed| && parsed[k] == c;
      assert cs[k] in cs;
    }
    if c :| c in cs && IsLower(c) {
      var k :| 0 <= k < |cs| && cs[k] == c;
      assert parsed[k] in ordered;
    }
  }

  // The meet

  datatype Bound = Bound(version: Release, strict: bool)

  ghost predicate AboveLower(v: Release, lower: Option<Bound>) {
    lower.None? || ReleaseLess(lower.value.version, v) || (!lower.value.strict && SameRelease(lower.value.version, v))
  }

  ghost predicate BelowUpper(v: Release, upper: Option<Bound>) {
    upper.None? || ReleaseLess(v, upper.value.version) || (!upper.value.strict && SameRelease(upper.value.version, v))
  }

  predicate GoodBound(b: Option<Bound>) {
    b.Some? ==> Trimmed(b.value.version)
  }

  function RaiseLower(lower: Option<Bound>, c: Clause): Option<Bound> {
    if lower.None? || TupleLess(lower.value.version, c.version)
       || (c.version == lower.value.version && IsStrict(c) && !lower.value.strict)
    then Some(Bound(c.version, IsStrict(c))) else lower
  }

  function DropUpper(upper: Option<Bound>, c: Clause): Option<Bound> {
    if upper.None? || TupleLess(c.version, upper.value.version)
       || (c.version == upper.value.version && IsStrict(c) && !upper.value.strict)
    then Some(Bound(c.version, IsStrict(c))) else upper
  }

  /** The stronger of two lower bounds is exactly both of them. */
  lemma RaiseIsMeet(lower: Option<Bound>, c: Clause, v: Release)
    requires GoodBound(lower) && Trimmed(c.version) && IsLower(c)
    ensures GoodBound(RaiseLower(lower, c))
    ensures AboveLower(v, RaiseLower(lower, c)) <==> AboveLower(v, lower) && Satisfies(v, c)
  {
    if lower.Some? {
      var w := lower.value.version;
      TupleOrderIsReleaseOrder(w, c.version);
      ReleasesComparable(w, c.version);
      if ReleaseLess(w, c.version) { BoundsChain(w, c.version, v); }
      if ReleaseLess(c.version, w) { BoundsChain(c.version, w, v); }
    }
  }

  lemma BoundsChain(a: Release, b: Release, v: Release)
    requires ReleaseLess(a, b)
    ensures ReleaseLess(b, v) || SameRelease(b, v) ==> ReleaseLess(a, v)
    ensures ReleaseLess(v, a) || SameRelease(a, v) ==> ReleaseLess(v, b)
  {
    if ReleaseLess(b, v) { ReleaseLessTransitive(a, b, v); }
    if SameRelease(b, v) { SameIsInterchangeable(b, v, a); }
    if ReleaseLess(v, a) { ReleaseLessTransitive(v, a, b); }
    if SameRelease(a, v) { SameIsInterchangeable(a, v, b); }
  }

  lemma DropIsMeet(upper: Option<Bound>, c: Clause, v: Release)
    requires GoodBound(upper) && Trimmed(c.version) && !IsLower(c)
    ensures GoodBound(DropUpper(upper, c))
    ensures BelowUpper(v, DropUpper(upper, c)) <==> BelowUpper(v, upper) && Satisfies(v, c)
  {
    if upper.Some? {
      var w := upper.value.version;
      TupleOrderIsReleaseOrder(c.version, w);
      ReleasesComparable(w, c.version);
      if ReleaseLess(w, c.version) { BoundsChain(w, c.version, v); }
      if ReleaseLess(c.version, w) { BoundsChain(c.version, w, v); }
    }
  }

  /** The bounds cross: the test the meet refuses on. */
  predicate Crossed(lower: Option<Bound>, upper: Option<Bound>) {
    && lower.Some? && upper.Some?
    && (TupleLess(upper.value.version, lower.value.version)
        || (lower.value.version == upper.value.version && (lower.value.strict || upper.value.strict)))
  }

  /** With a lower bound there is a release between the bounds exactly if they do not cross. */
  lemma CrossedIsEmpty(lower: Option<Bound>, upper: Option<Bound>)
    requires GoodBound(lower) && GoodBound(upper) && lower.Some?
    ensures Crossed(lower, upper) <==> !exists v :: AboveLower(v, lower) && BelowUpper(v, upper)
  {
    var l := lower.value.version;
    if upper.None? {
      AlwaysGreater(l);
      var v :| ReleaseLess(l, v);
      assert AboveLower(v, lower) && BelowUpper(v, upper);
    } else {
      var u := upper.value.version;
      TupleOrderIsReleaseOrder(l, u);
      TupleOrderIsReleaseOrder(u, l);
      ReleasesComparable(l, u);
      if ReleaseLess(l, u) {
        ReleaseLessIrreflexive(l, u);
        var c := ReleasesAreDense(l, u);
        assert AboveLower(c, lower) && BelowUpper(c, upper);
      } else {
        forall v | AboveLower(v, lower) && BelowUpper(v, upper) ensures l == u && !lower.value.strict && !upper.value.strict {
          BetweenIsBoth(lower.value, upper.value, v);
        }
        if l == u && !lower.value.strict && !upper.value.strict { assert AboveLower(l, lower) && BelowUpper(l, upper); }
      }
    }
  }

  lemma AlwaysGreater(l: Release)
    ensures exists v :: ReleaseLess(l, v)
  {
    var v := l + [1];
    assert SameUpTo(l, v, |l|) && At(l, |l|) < At(v, |l|);
    assert ReleaseLess(l, v);
  }

  /** A release between bounds that are not in order is both of them. */
  lemma BetweenIsBoth(lower: Bound, upper: Bound, v: Release)
    requires Trimmed(lower.version) && Trimmed(upper.version) && !ReleaseLess(lower.version, upper.version)
    requires AboveLower(v, Some(lower)) && BelowUpper(v, Some(upper))
    ensures lower.version == upper.version && !lower.strict && !upper.strict
  {
    var l, u := lower.version, upper.version;
    if ReleaseLess(l, v) {
      if ReleaseLess(v, u) { ReleaseLessTransitive(l, v, u); } else { SameIsInterchangeable(u, v, l); }
    } else if ReleaseLess(v, u) {
      SameIsInterchangeable(l, v, u);
    } else {
      assert SameRelease(l, u);
      TrimmedIsUnique(l, u);
    }
  }

  /** The bounds stand for all clauses met so far. */
  ghost predicate Denotes(lower: Option<Bound>, upper: Option<Bound>, sources: seq<Range>) {
    && GoodBound(lower) && GoodBound(upper)
    && forall v :: AboveLower(v, lower) && BelowUpper(v, upper) <==> InAll(v, sources)
  }

  /** `v` satisfies every clause of every source. */
  ghost predicate InAll(v: Release, sources: seq<Range>) {
    forall r :: r in sources ==> r.Clauses? && SatisfiesAll(v, r.clauses)
  }

  /** Meets one more list of clauses. */
  method MeetClauses(lower: Option<Bound>, upper: Option<Bound>, cs: seq<Clause>)
    returns (l: Option<Bound>, u: Option<Bound>)
    requires GoodBound(lower) && GoodBound(upper) && forall c :: c in cs ==> Trimmed(c.version)
    ensures GoodBound(l) && GoodBound(u)
    ensures l.Some? <==> lower.Some? || exists c :: c in cs && IsLower(c)
    ensures forall v :: AboveLower(v, l) && BelowUpper(v, u) <==>
      AboveLower(v, lower) && BelowUpper(v, upper) && SatisfiesAll(v, cs)
  {
    l, u := lower, upper;
    for i := 0 to |cs|
      invariant GoodBound(l) && GoodBound(u)
      invariant l.Some? <==> lower.Some? || exists c :: c in cs[..i] && IsLower(c)
      invariant forall v :: AboveLower(v, l) && BelowUpper(v, u) <==>
        AboveLower(v, lower) && BelowUpper(v, upper) && SatisfiesAll(v, cs[..i])
    {
      var c := cs[i];
      assert c in cs && cs[..i + 1] == cs[..i] + [c];
      forall v ensures SatisfiesAll(v, cs[..i + 1]) <==> SatisfiesAll(v, cs[..i]) && Satisfies(v, c) { }
      if IsLower(c) {
        forall v ensures AboveLower(v, RaiseLower(l, c)) <==> AboveLower(v, l) && Satisfies(v, c) { RaiseIsMeet(l, c, v); }
        RaiseIsMeet(l, c, []);
        l := RaiseLower(l, c);
      } else {
        forall v ensures BelowUpper(v, DropUpper(u, c)) <==> BelowUpper(v, u) && Satisfies(v, c) { DropIsMeet(u, c, v); }
        DropIsMeet(u, c, []);
        u := DropUpper(u, c);
      }
    }
    assert cs[..|cs|] == cs;
  }

  datatype RangeError =
    | InvalidPythonRange(source: nat)
    | IncompatiblePythonRange(source: nat)

  ghost predicate Satisfiable(sources: seq<Range>) {
    exists v :: InAll(v, sources)
  }

  /**
   The effective range is the exact meet of all sources, the first being the
   baseline, which gives a lower bound.  It is refused exactly when some source is
   malformed or no release is in every source, at the first such prefix.
   */
  method EffectivePythonRange(sources: seq<Range>) returns (r: Result<(Option<Bound>, Option<Bound>), RangeError>)
    requires forall s :: s in sources ==> Readable(s)
    requires |sources| > 0 && sources[0].Clauses? && exists c :: c in sources[0].clauses && IsLower(c)
    ensures r.Ok? ==> Denotes(r.value.0, r.value.1, sources)
    ensures r.Ok? <==> Satisfiable(sources)
    ensures r.Err? && r.error.InvalidPythonRange? ==>
      r.error.source < |sources| && sources[r.error.source].Malformed? && Satisfiable(sources[..r.error.source])
    ensures r.Err? && r.error.IncompatiblePythonRange? ==>
      && r.error.source < |sources| && Satisfiable(sources[..r.error.source]) && !Satisfiable(sources[..r.error.source + 1])
      && forall i :: 0 <= i <= r.error.source ==> sources[i].Clauses?
  {
    var lower: Option<Bound>, upper: Option<Bound> := None, None;
    assert InAll([0], sources[..0]);
    for i := 0 to |sources|
      invariant Denotes(lower, upper, sources[..i]) && Satisfiable(sources[..i])
      invariant i > 0 ==> lower.Some?
      invariant forall k :: 0 <= k < i ==> sources[k].Clauses?
    {
      var s := sources[i];
      assert s in sources && sources[..i + 1] == sources[..i] + [s];
      MorePrefix(sources, i);
      var parsed := ParsePythonRange(s);
      if parsed.Err? { return Err(InvalidPythonRange(i)); }
      var l, u := MeetClauses(lower, upper, parsed.value);
      MetDenotes(lower, upper, l, u, sources, i, parsed.value);
      CrossedIsEmpty(l, u);
      if Crossed(l, u) { return Err(IncompatiblePythonRange(i)); }
      lower, upper := l, u;
    }
    assert sources[..|sources|] == sources;
    return Ok((lower, upper));
  }

  lemma MetDenotes(lower: Option<Bound>, upper: Option<Bound>, l: Option<Bound>, u: Option<Bound>,
                   sources: seq<Range>, i: nat, cs: seq<Clause>)
    requires i < |sources| && Denotes(lower, upper, sources[..i]) && GoodBound(l) && GoodBound(u)
    requires sources[i].Clauses? && forall v :: SatisfiesAll(v, cs) <==> SatisfiesAll(v, sources[i].clauses)
    requires forall v :: AboveLower(v, l) && BelowUpper(v, u) <==>
      AboveLower(v, lower) && BelowUpper(v, upper) && SatisfiesAll(v, cs)
    ensures Denotes(l, u, sources[..i + 1])
  {
    MorePrefix(sources, i);
  }

  lemma MorePrefix(sources: seq<Range>, i: nat)
    requires i < |sources|
    ensures forall v :: InAll(v, sources[..i + 1]) <==>
      InAll(v, sources[..i]) && sources[i].Clauses? && SatisfiesAll(v, sources[i].clauses)
    ensures Satisfiable(sources) ==> Satisfiable(sources[..i + 1])
  {
    var more := sources[..i] + [sources[i]];
    assert sources[..i + 1] == more;
    assert forall r :: r in more <==> r in sources[..i] || r == sources[i];
    forall v ensures InAll(v, more) <==> InAll(v, sources[..i]) && sources[i].Clauses? && SatisfiesAll(v, sources[i].clauses) {
      assert sources[i] in more;
    }
    if Satisfiable(sources) {
      var v :| InAll(v, sources);
      assert InAll(v, sources[..i + 1]);
    }
  }

  /** The range the engine itself needs: `>=3.14`. */
  const BASELINE := Clauses([Clause(AtLeast, [3, 14])])

  function RangesOf(ids: seq<string>, catalog: map<string, Range>): seq<Range>
    requires forall id :: id in ids ==> id in catalog
  {
    seq(|ids|, i requires 0 <= i < |ids| => assert ids[i] in ids; catalog[ids[i]])
  }

  /** The baseline and the range of every selected capability, in order; refused if one is unknown. */
  method GatherRanges(ids: seq<string>, catalog: map<string, Range>) returns (r: Result<seq<Range>, string>)
    ensures r.Ok? <==> forall id :: id in ids ==> id in catalog
    ensures r.Ok? ==> r.value == [BASELINE] + RangesOf(ids, catalog)
    ensures r.Err? ==> r.error in ids && r.error !in catalog
  {
    var ranges := [BASELINE];
    for i := 0 to |ids|
      invariant forall k :: 0 <= k < i ==> ids[k] in catalog
      invariant |ranges| == i + 1 && ranges[0] == BASELINE
      invariant forall k :: 0 <= k < i ==> ranges[k + 1] == catalog[ids[k]]
    {
      assert ids[i] in ids;
      if ids[i] !in catalog { return Err(ids[i]); }
      ranges := ranges + [catalog[ids[i]]];
    }
    forall id | id in ids ensures id in catalog {
      var k :| 0 <= k < |ids| && ids[k] == id;
    }
    return Ok(ranges);
  }

  // The range of a selection

  datatype SupportError =
    | UnknownCapability(id: string)
    | InvalidRange(owner: string)
    | Incompatible(owner: string)

  /** Who contributed source `k`. */
  function OwnerOf(ids: seq<string>, k: nat): string
    requires k <= |ids|
  {
    if k == 0 then "baseline" else ids[k - 1]
  }

  /** The ranges of the baseline and the first `k` capabilities. */
  function SourcesUpTo(ids: seq<string>, catalog: map<string, Range>, k: nat): seq<Range>
    requires k <= |ids| && forall id :: id in ids ==> id in catalog
  {
    [BASELINE] + RangesOf(ids, catalog)[..k]
  }

  /** The first `k` capabilities leave some release, and one more leaves none. */
  ghost predicate BreaksAt(ids: seq<string>, catalog: map<string, Range>, k: nat)
    requires k < |ids| && forall id :: id in ids ==> id in catalog
  {
    Satisfiable(SourcesUpTo(ids, catalog, k)) && !Satisfiable(SourcesUpTo(ids, catalog, k + 1))
  }

  lemma BaselineIsReadable()
    ensures Readable(BASELINE) && exists c :: c in BASELINE.clauses && IsLower(c)
  {
    assert BASELINE.clauses[0] in BASELINE.clauses && IsLower(BASELINE.clauses[0]);
  }

  /** The baseline by itself admits its own lowest release. */
  lemma BaselineIsSatisfiable(ids: seq<string>, catalog: map<string, Range>)
    requires forall id :: id in ids ==> id in catalog
    ensures Satisfiable(SourcesUpTo(ids, catalog, 0))
  {
    assert Satisfies([3, 14], Clause(AtLeast, [3, 14]));
    assert InAll([3, 14], [BASELINE]);
    assert SourcesUpTo(ids, catalog, 0) == [BASELINE];
  }

  /**
   The range of a selection is the exact meet of the baseline and of every selected
   capability.  It is refused exactly when a capability is unknown or malformed, or no
   release is in all ranges; then the first capability that makes it so is named.
   */
  method SupportedPython(ids: seq<string>, catalog: map<string, Range>)
    returns (r: Result<(Option<Bound>, Option<Bound>), SupportError>)
    requires forall id :: id in catalog ==> Readable(catalog[id])
    ensures r.Ok? <==> (forall id :: id in ids ==> id in catalog) && Satisfiable([BASELINE] + RangesOf(ids, catalog))
    ensures r.Ok? ==> Denotes(r.value.0, r.value.1, [BASELINE] + RangesOf(ids, catalog))
    ensures r.Err? && r.error.UnknownCapability? ==> r.error.id in ids && r.error.id !in catalog
    ensures r.Err? && !r.error.UnknownCapability? ==> forall id :: id in ids ==> id in catalog
    ensures r.Err? && r.error.InvalidRange? ==>
      exists k: nat :: k < |ids| && r.error.owner == ids[k] && BreaksAt(ids, catalog, k) && catalog[ids[k]].Malformed?
    ensures r.Err? && r.error.Incompatible? ==>
      exists k: nat :: k < |ids| && r.error.owner == ids[k] && BreaksAt(ids, catalog, k)
  {
    var gathered := GatherRanges(ids, catalog);
    if gathered.Err? { return Err(UnknownCapability(gathered.error)); }
    var sources := gathered.value;
    BaselineIsReadable();
    forall s | s in sources ensures Readable(s) { ReadableSource(ids, catalog, s); }
    var met := EffectivePythonRange(sources);
    if met.Ok? { return Ok(met.value); }
    var k := met.error.source;
    BaselineIsSatisfiable(ids, catalog);
    SourcePrefixes(ids, catalog, sources, k);
    assert k > 0 ==> BreaksAt(ids, catalog, k - 1);
    if met.error.InvalidPythonRange? { return Err(InvalidRange(OwnerOf(ids, k))); }
    return Err(Incompatible(OwnerOf(ids, k)));
  }

  lemma ReadableSource(ids: seq<string>, catalog: map<string, Range>, s: Range)
    requires forall id :: id in ids ==> id in catalog
    requires forall id :: id in catalog ==> Readable(catalog[id])
    requires s in [BASELINE] + RangesOf(ids, catalog)
    ensures Readable(s)
  {
    BaselineIsReadable();
    if s != BASELINE {
      var i :| 0 <= i < |ids| && RangesOf(ids, catalog)[i] == s;
      assert ids[i] in ids;
    }
  }

  lemma SourcePrefixes(ids: seq<string>, catalog: map<string, Range>, sources: seq<Range>, k: nat)
    requires forall id :: id in ids ==> id in catalog
    requires sources == [BASELINE] + RangesOf(ids, catalog) && k < |sources|
    ensures k > 0 ==> sources[..k] == SourcesUpTo(ids, catalog, k - 1)
    ensures sources[..k + 1] == SourcesUpTo(ids, catalog, k)
    ensures k > 0 ==> ids[k - 1] in ids && sources[k] == catalog[ids[k - 1]]
    ensures sources[k].Malformed? ==> !Satisfiable(SourcesUpTo(ids, catalog, k))
  {
    if k > 0 { assert ids[k - 1] in ids; }
    assert sources[k] in sources[..k + 1];
  }
}
