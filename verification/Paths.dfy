/**
 Repository-relative paths and the byte order every listing uses.

 A path is kept as its sequence of components.  `Render` gives the slash-joined
 text, and `PrefixTestIsAncestry` shows that the textual prefix test used on that
 text says exactly "is a strict ancestor of" on component sequences.
 */
module Paths {

  type Path = seq<string>

  /** Nonempty components without a slash, as a parsed path has them. */
  predicate Valid(p: Path) {
    p != [] && forall i :: 0 <= i < |p| ==> p[i] != "" && '/' !in p[i]
  }

  function Render(p: Path): string {
    if p == [] then ""
    else if |p| == 1 then p[0]
    else p[0] + "/" + Render(p[1..])
  }

  /** `a` is a strict ancestor of `p`. */
  predicate Above(a: Path, p: Path) {
    |a| < |p| && p[..|a|] == a
  }

  predicate AtOrAbove(a: Path, p: Path) {
    a == p || Above(a, p)
  }

  /** The proper nonempty prefixes, shortest first. */
  function Parents(p: Path): (r: seq<Path>)
    ensures |r| == if p == [] then 0 else |p| - 1
    ensures forall i :: 0 <= i < |r| ==> r[i] == p[..i + 1]
    ensures forall a :: a in r <==> a != [] && Above(a, p)
  {
    if p == [] then [] else
      var r := seq(|p| - 1, i requires 0 <= i < |p| - 1 => p[..i + 1]);
      assert forall a | a != [] && Above(a, p) :: r[|a| - 1] == a;
      r
  }

  function Parent(p: Path): Path
    requires p != []
  {
    p[..|p| - 1]
  }

  lemma AboveTransitive(a: Path, b: Path, c: Path)
    requires AtOrAbove(a, b) && AtOrAbove(b, c)
    ensures AtOrAbove(a, c)
    ensures a != b || b != c ==> Above(a, c)
  {
    if Above(a, b) && Above(b, c) {
      assert c[..|a|] == c[..|b|][..|a|];
    }
  }

  /** Two ancestors of one path are comparable. */
  lemma AncestorsComparable(a: Path, b: Path, p: Path)
    requires AtOrAbove(a, p) && AtOrAbove(b, p)
    ensures AtOrAbove(a, b) || Above(b, a)
  {
    assert p[..|a|] == a && p[..|b|] == b;
    if |a| <= |b| {
      assert p[..|b|][..|a|] == p[..|a|];
      if |a| == |b| { assert a == b; }
    } else {
      assert p[..|a|][..|b|] == p[..|b|];
    }
  }

  /** Whatever is above `p` is its parent or above its parent. */
  lemma AboveParent(a: Path, p: Path)
    requires p != []
    ensures Above(a, p) <==> AtOrAbove(a, Parent(p))
  {
    if Above(a, p) {
      assert Parent(p)[..|a|] == p[..|a|];
      if |a| == |p| - 1 { assert a == Parent(p); }
    }
    if AtOrAbove(a, Parent(p)) {
      assert p[..|a|] == Parent(p)[..|a|];
    }
  }

  // The textual prefix test

  predicate StartsWith(text: string, prefix: string) {
    |prefix| <= |text| && text[..|prefix|] == prefix
  }

  /** Cutting two texts at their first slash is unambiguous. */
  lemma FirstSlash(a: string, x: string, b: string, y: string)
    requires '/' !in a && '/' !in b
    requires StartsWith(b + "/" + y, a + "/" + x)
    ensures a == b && StartsWith(y, x)
  {
    var s, t := a + "/" + x, b + "/" + y;
    assert s[|a|] == '/' && t[..|s|][|a|] == '/';
    assert forall i :: 0 <= i < |b| ==> t[i] == b[i] && b[i] != '/';
    assert forall i :: 0 <= i < |a| ==> s[i] == a[i] && a[i] != '/';
    assert |a| >= |b|;
    assert |b| < |s| ==> t[..|s|][|b|] == s[|b|];
    assert |a| == |b|;
    assert a == s[..|a|] == t[..|a|] == b;
    assert x == s[|a| + 1..] && y == t[|a| + 1..];
    assert t[..|s|] == s;
    assert y[..|x|] == t[..|s|][|a| + 1..];
  }

  lemma PrefixHasSlash(text: string, prefix: string)
    ensures StartsWith(text, prefix + "/") ==> '/' in text
  {
    if StartsWith(text, prefix + "/") {
      assert text[|prefix|] == (prefix + "/")[|prefix|] == '/';
    }
  }

  lemma {:induction false} PrefixTestIsAncestry(a: Path, p: Path)
    requires Valid(a) && Valid(p)
    ensures StartsWith(Render(p), Render(a) + "/") <==> Above(a, p)
    decreases |a|
  {
    var ra, rp := Render(a), Render(p);
    if |a| == 1 {
      if |p| == 1 {
        PrefixHasSlash(rp, ra);
      } else {
        if StartsWith(rp, ra + "/") {
          assert ra + "/" == a[0] + "/" + "";
          FirstSlash(a[0], "", p[0], Render(p[1..]));
          assert p[..1] == a;
        }
        if Above(a, p) {
          assert p[..1][0] == p[0] == a[0];
        }
      }
    } else if |p| == 1 {
      PrefixHasSlash(rp, ra);
    } else {
      PrefixTestIsAncestry(a[1..], p[1..]);
      assert ra + "/" == a[0] + "/" + (Render(a[1..]) + "/");
      if StartsWith(rp, ra + "/") {
        FirstSlash(a[0], Render(a[1..]) + "/", p[0], Render(p[1..]));
        assert p[..|a|] == [p[0]] + p[1..][..|a| - 1];
        assert a == [a[0]] + a[1..];
      }
      if Above(a, p) {
        assert p[1..][..|a| - 1] == p[..|a|][1..] == a[1..];
        assert p[..|a|][0] == p[0] == a[0];
        var x, y := Render(a[1..]) + "/", Render(p[1..]);
        assert StartsWith(y, x);
        assert (p[0] + "/" + y)[..|a[0]| + 1 + |x|] == a[0] + "/" + x;
      }
    }
  }

  /** Distinct valid paths have distinct text. */
  lemma {:induction false} RenderInjective(a: Path, b: Path)
    requires Valid(a) && Valid(b) && Render(a) == Render(b)
    ensures a == b
    decreases |a|
  {
    assert |a| > 1 ==> Render(a)[|a[0]|] == '/';
    assert |b| > 1 ==> Render(b)[|b[0]|] == '/';
    assert |a| == 1 || |b| > 1;
    if |a| == 1 {
    } else {
      FirstSlash(a[0], Render(a[1..]), b[0], Render(b[1..]));
      FirstSlash(b[0], Render(b[1..]), a[0], Render(a[1..]));
      RenderInjective(a[1..], b[1..]);
      assert a == [a[0]] + a[1..] && b == [b[0]] + b[1..];
    }
  }

  // The byte order.  UTF-8 orders texts as their code points do.

  predicate TextLess(a: string, b: string) {
    b != [] && (a == [] || a[0] < b[0] || (a[0] == b[0] && TextLess(a[1..], b[1..])))
  }

  lemma {:induction false} TextLessTransitive(a: string, b: string, c: string)
    requires TextLess(a, b) && TextLess(b, c)
    ensures TextLess(a, c)
    decreases |a|
  {
    if a != [] && a[0] == b[0] && b[0] == c[0] {
      TextLessTransitive(a[1..], b[1..], c[1..]);
    }
  }

  lemma {:induction false} TextLessIrreflexive(a: string)
    ensures !TextLess(a, a)
    decreases |a|
  {
    if a != [] { TextLessIrreflexive(a[1..]); }
  }

  lemma {:induction false} TextLessTotal(a: string, b: string)
    ensures a == b || TextLess(a, b) || TextLess(b, a)
    decreases |a|
  {
    if a != [] && b != [] && a[0] == b[0] {
      TextLessTotal(a[1..], b[1..]);
      if a[1..] == b[1..] { assert a == [a[0]] + a[1..] && b == [b[0]] + b[1..]; }
    }
  }

  predicate PathLess(a: Path, b: Path) {
    TextLess(Render(a), Render(b))
  }
}
