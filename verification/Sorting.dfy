/**
 Sorted listings.  `Sort` is what the built-in stable sort computes; the lemmas
 say that it permutes, that it sorts, and that a strictly sorted listing of given
 elements is unique, which is why a listing can stand for the set it lists.
 */
module Sorting {
  import opened Paths

  ghost predicate StrictOrder<T(!new)>(less: (T, T) -> bool) {
    && (forall a :: !less(a, a))
    && (forall a, b, c :: less(a, b) && less(b, c) ==> less(a, c))
  }

  /** A strict order that leaves no two distinct elements of `s` unordered. */
  ghost predicate TotalOn<T(!new)>(less: (T, T) -> bool, s: seq<T>) {
    && StrictOrder(less)
    && forall a, b :: a in s && b in s ==> less(a, b) || less(b, a) || a == b
  }

  ghost predicate Sorted<T>(s: seq<T>, less: (T, T) -> bool) {
    forall i, j :: 0 <= i < j < |s| ==> less(s[i], s[j])
  }

  /** No later element is less than an earlier one. */
  ghost predicate NonDecreasing<T>(s: seq<T>, less: (T, T) -> bool) {
    forall i, j :: 0 <= i < j < |s| ==> !less(s[j], s[i])
  }

  function Insert<T>(x: T, s: seq<T>, less: (T, T) -> bool): (r: seq<T>)
    ensures |r| == |s| + 1
    ensures multiset(r) == multiset(s) + multiset{x}
  {
    if s == [] || !less(s[0], x) then [x] + s
    else
      assert s == [s[0]] + s[1..];
      [s[0]] + Insert(x, s[1..], less)
  }

  /** Stable insertion sort: the first of two equal elements stays first. */
  function Sort<T>(s: seq<T>, less: (T, T) -> bool): (r: seq<T>)
    ensures |r| == |s|
    ensures multiset(r) == multiset(s)
  {
    if s == [] then []
    else
      assert s == [s[0]] + s[1..];
      Insert(s[0], Sort(s[1..], less), less)
  }

  lemma {:induction false} SameElements<T>(s: seq<T>, less: (T, T) -> bool)
    ensures forall x :: x in Sort(s, less) <==> x in s
  {
    forall x ensures x in Sort(s, less) <==> x in s {
      assert x in multiset(Sort(s, less)) <==> x in multiset(s);
    }
  }

  lemma {:induction false} InsertSorts<T(!new)>(x: T, s: seq<T>, less: (T, T) -> bool)
    requires TotalOn(less, [x] + s) && NonDecreasing(s, less)
    ensures NonDecreasing(Insert(x, s, less), less)
    decreases |s|
  {
    var r := Insert(x, s, less);
    assert forall y :: y in s ==> y in [x] + s;
    assert x in [x] + s;
    if s == [] {
    } else if !less(s[0], x) {
      forall i, j | 0 <= i < j < |r| ensures !less(r[j], r[i]) {
        if i == 0 && j > 1 {
          assert r[j] == s[j - 1];
          assert !less(s[j - 1], s[0]);
        }
      }
    } else {
      var t := Insert(x, s[1..], less);
      assert forall y :: y in [x] + s[1..] ==> y in [x] + s;
      InsertSorts(x, s[1..], less);
      forall j | 0 <= j < |t| ensures !less(t[j], s[0]) {
        assert t[j] in multiset(t);
        if t[j] != x {
          assert t[j] in multiset(s[1..]);
          var k :| 0 <= k < |s[1..]| && s[1..][k] == t[j];
          assert !less(s[k + 1], s[0]);
        }
      }
    }
  }

  lemma {:induction false} SortSorts<T(!new)>(s: seq<T>, less: (T, T) -> bool)
    requires TotalOn(less, s)
    ensures NonDecreasing(Sort(s, less), less)
    decreases |s|
  {
    if s != [] {
      SortSorts(s[1..], less);
      SameElements(s[1..], less);
      assert forall y :: y in [s[0]] + Sort(s[1..], less) ==> y in s;
      InsertSorts(s[0], Sort(s[1..], less), less);
    }
  }

  ghost predicate NoDuplicates<T>(s: seq<T>) {
    forall i, j :: 0 <= i < j < |s| ==> s[i] != s[j]
  }

  lemma {:induction false} NoDuplicatesCounts<T>(s: seq<T>)
    ensures NoDuplicates(s) <==> forall x :: x in multiset(s) ==> multiset(s)[x] == 1
    decreases |s|
  {
    if s != [] {
      var t := s[1..];
      assert s == [s[0]] + t;
      assert multiset(s) == multiset{s[0]} + multiset(t);
      NoDuplicatesCounts(t);
      if NoDuplicates(s) {
        assert NoDuplicates(t) by {
          forall i, j | 0 <= i < j < |t| ensures t[i] != t[j] { assert s[i + 1] != s[j + 1]; }
        }
        assert s[0] !in t by {
          forall k | 0 <= k < |t| ensures t[k] != s[0] { assert s[0] != s[k + 1]; }
        }
      }
      if forall x :: x in multiset(s) ==> multiset(s)[x] == 1 {
        assert forall x :: x in multiset(t) ==> x in multiset(s) && multiset(s)[x] >= multiset(t)[x];
        assert s[0] in multiset(s);
        assert s[0] !in multiset(t);
        forall i, j | 0 <= i < j < |s| ensures s[i] != s[j] {
          assert s[j] == t[j - 1] && t[j - 1] in multiset(t);
          if i > 0 { assert s[i] == t[i - 1]; }
        }
      }
    }
  }

  lemma SortKeepsNoDuplicates<T>(s: seq<T>, less: (T, T) -> bool)
    requires NoDuplicates(s)
    ensures NoDuplicates(Sort(s, less))
  {
    NoDuplicatesCounts(s);
    NoDuplicatesCounts(Sort(s, less));
  }

  /** Sorting distinct elements gives a strictly sorted listing of them. */
  lemma SortStrictly<T(!new)>(s: seq<T>, less: (T, T) -> bool)
    requires TotalOn(less, s) && NoDuplicates(s)
    ensures Sorted(Sort(s, less), less)
  {
    SortSorts(s, less);
    SortKeepsNoDuplicates(s, less);
    SameElements(s, less);
    var r := Sort(s, less);
    forall i, j | 0 <= i < j < |r| ensures less(r[i], r[j]) {
      assert r[i] in s && r[j] in s;
    }
  }

  lemma FirstIsLeast<T(!new)>(s: seq<T>, less: (T, T) -> bool, k: nat)
    requires Sorted(s, less) && k < |s|
    ensures k == 0 || less(s[0], s[k])
  {
  }

  lemma LeastFirst<T(!new)>(s: seq<T>, less: (T, T) -> bool, y: T)
    requires s != [] && NonDecreasing(s, less) && StrictOrder(less) && y in s
    ensures !less(y, s[0])
  {
    var j :| 0 <= j < |s| && s[j] == y;
  }

  /** A sorted listing, repetitions included, is determined by what it lists. */
  lemma {:induction false} NonDecreasingUnique<T(!new)>(s: seq<T>, t: seq<T>, less: (T, T) -> bool)
    requires TotalOn(less, s) && multiset(s) == multiset(t) && NonDecreasing(s, less) && NonDecreasing(t, less)
    ensures s == t
    decreases |s|
  {
    assert |s| == |multiset(s)| == |multiset(t)| == |t|;
    if s != [] {
      assert t[0] in multiset(s) && s[0] in multiset(t);
      LeastFirst(s, less, t[0]);
      LeastFirst(t, less, s[0]);
      assert s == [s[0]] + s[1..] && t == [t[0]] + t[1..];
      assert multiset(s[1..]) == multiset(s) - multiset{s[0]} && multiset(t[1..]) == multiset(t) - multiset{t[0]};
      NonDecreasingUnique(s[1..], t[1..], less);
    }
  }

  /** Sorting the same things in another order gives the same listing. */
  lemma SortIgnoresOrder<T(!new)>(s: seq<T>, t: seq<T>, less: (T, T) -> bool)
    requires TotalOn(less, s) && TotalOn(less, t)
    ensures Sort(s, less) == Sort(t, less) <==> multiset(s) == multiset(t)
  {
    SortSorts(s, less);
    SortSorts(t, less);
    SameElements(s, less);
    if multiset(s) == multiset(t) { NonDecreasingUnique(Sort(s, less), Sort(t, less), less); }
  }

  lemma SomethingIn<T(!new)>(t: seq<T>)
    ensures t != [] ==> exists x :: x in t
  {
    if t != [] { assert t[0] in t; }
  }

  /** A strictly sorted listing is determined by its elements. */
  lemma {:induction false} SortedUnique<T(!new)>(s: seq<T>, t: seq<T>, less: (T, T) -> bool)
    requires StrictOrder(less) && Sorted(s, less) && Sorted(t, less)
    requires forall x :: x in s <==> x in t
    ensures s == t
    decreases |s|
  {
    if s == [] {
      SomethingIn(t);
    } else {
      assert s[0] in t && t[0] in s;
      var i :| 0 <= i < |t| && t[i] == s[0];
      var j :| 0 <= j < |s| && s[j] == t[0];
      FirstIsLeast(t, less, i);
      FirstIsLeast(s, less, j);
      assert i == 0;
      forall x ensures x in s[1..] <==> x in t[1..] {
        if x in s[1..] {
          var k :| 0 <= k < |s[1..]| && s[1..][k] == x;
          assert s[k + 1] == x && less(s[0], x);
          assert x in t;
          var m :| 0 <= m < |t| && t[m] == x;
          assert t[1..][m - 1] == x;
        }
        if x in t[1..] {
          var k :| 0 <= k < |t[1..]| && t[1..][k] == x;
          assert t[k + 1] == x && less(t[0], x);
          assert x in s;
          var m :| 0 <= m < |s| && s[m] == x;
          assert s[1..][m - 1] == x;
        }
      }
      assert Sorted(s[1..], less) && Sorted(t[1..], less);
      SortedUnique(s[1..], t[1..], less);
      assert s == [s[0]] + s[1..] && t == [t[0]] + t[1..];
    }
  }

  /** Sorting a listing already in order changes nothing. */
  lemma {:induction false} SortOfSorted<T>(s: seq<T>, less: (T, T) -> bool)
    requires NonDecreasing(s, less)
    ensures Sort(s, less) == s
    decreases |s|
  {
    if s != [] {
      SortOfSorted(s[1..], less);
      assert s == [s[0]] + s[1..];
    }
  }

  lemma SortedIsNonDecreasing<T(!new)>(s: seq<T>, less: (T, T) -> bool)
    requires StrictOrder(less) && Sorted(s, less)
    ensures NonDecreasing(s, less)
  {
    forall i, j | 0 <= i < j < |s| ensures !less(s[j], s[i]) {
      assert less(s[i], s[j]);
      assert !less(s[i], s[i]);
    }
  }

  // Listing a finite set

  ghost function Enumerate<T(!new)>(s: set<T>): (r: seq<T>)
    ensures NoDuplicates(r)
    ensures forall x :: x in r <==> x in s
  {
    if s == {} then [] else
      var x :| x in s;
      var rest := Enumerate(s - {x});
      assert forall i :: 0 <= i < |rest| ==> rest[i] in s - {x};
      [x] + rest
  }

  /** The sorted listing of a finite set. */
  ghost function Listing<T(!new)>(s: set<T>, less: (T, T) -> bool): (r: seq<T>) {
    Sort(Enumerate(s), less)
  }

  lemma ListingIsSorted<T(!new)>(s: set<T>, less: (T, T) -> bool)
    requires StrictOrder(less)
    requires forall a, b :: a in s && b in s ==> less(a, b) || less(b, a) || a == b
    ensures Sorted(Listing(s, less), less)
    ensures forall x :: x in Listing(s, less) <==> x in s
  {
    SortStrictly(Enumerate(s), less);
    SameElements(Enumerate(s), less);
  }
}
