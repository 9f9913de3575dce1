/** What normalising a text means: two texts have one normal form exactly if they have the same lines. */
module Lines {
  import opened Identity

  /** The lines of a text, cut at every CR LF pair, lone CR and LF; the last one is what follows the last cut. */
  function LinesOf(data: Bytes): (r: seq<Bytes>)
    ensures |r| > 0
  {
    if data == [] then [[]]
    else if data[0] == 10 then [[]] + LinesOf(data[1..])
    else if data[0] == 13 then [[]] + LinesOf(if |data| > 1 && data[1] == 10 then data[2..] else data[1..])
    else
      var rest := LinesOf(data[1..]);
      [[data[0]] + rest[0]] + rest[1..]
  }

  /** Without the empty lines at the end. */
  function DropEmptyEnd(lines: seq<Bytes>): seq<Bytes> {
    if lines != [] && lines[|lines| - 1] == [] then DropEmptyEnd(lines[..|lines| - 1]) else lines
  }

  ghost predicate SameLines(a: Bytes, b: Bytes) {
    DropEmptyEnd(LinesOf(a)) == DropEmptyEnd(LinesOf(b))
  }

  predicate Unbroken(line: Bytes) {
    10 !in line && 13 !in line
  }

  predicate AllUnbroken(lines: seq<Bytes>) {
    forall i :: 0 <= i < |lines| ==> Unbroken(lines[i])
  }

  lemma {:induction false} LinesAreUnbroken(data: Bytes)
    ensures AllUnbroken(LinesOf(data))
    decreases |data|
  {
    if data != [] {
      if data[0] == 10 {
        LinesAreUnbroken(data[1..]);
      } else if data[0] == 13 {
        LinesAreUnbroken(if |data| > 1 && data[1] == 10 then data[2..] else data[1..]);
      } else {
        LinesAreUnbroken(data[1..]);
        assert Unbroken(LinesOf(data[1..])[0]);
      }
    }
  }

  /** The lines with one LF between each two. */
  function Joined(lines: seq<Bytes>): Bytes {
    if lines == [] then [] else if |lines| == 1 then lines[0] else lines[0] + [10] + Joined(lines[1..])
  }

  lemma JoinedHead(first: Bytes, rest: seq<Bytes>)
    requires rest != []
    ensures Joined([first] + rest) == first + [10] + Joined(rest)
  {
    assert ([first] + rest)[1..] == rest;
  }

  lemma JoinedLonger(b: Byte, first: Bytes, rest: seq<Bytes>)
    ensures Joined([[b] + first] + rest) == [b] + Joined([first] + rest)
  {
    if rest == [] {
      assert Joined([[b] + first]) == [b] + first && Joined([first]) == first;
      assert [[b] + first] + rest == [[b] + first] && [first] + rest == [first];
    } else {
      JoinedHead([b] + first, rest);
      JoinedHead(first, rest);
      assert [b] + first + [10] + Joined(rest) == [b] + (first + [10] + Joined(rest));
    }
  }

  lemma LinesOfLonger(b: Byte, data: Bytes)
    requires b != 10 && b != 13
    ensures LinesOf([b] + data) == [[b] + LinesOf(data)[0]] + LinesOf(data)[1..]
  {
    assert ([b] + data)[1..] == data;
  }

  lemma UnifyingLonger(b: Byte, data: Bytes)
    requires b != 10 && b != 13 && UnifyNewlines(data) == Joined(LinesOf(data))
    ensures UnifyNewlines([b] + data) == Joined(LinesOf([b] + data))
  {
    var lines := LinesOf(data);
    LinesOfLonger(b, data);
    JoinedLonger(b, lines[0], lines[1..]);
    assert lines == [lines[0]] + lines[1..] && ([b] + data)[1..] == data;
  }

  lemma UnifyingBreak(rest: Bytes)
    requires UnifyNewlines(rest) == Joined(LinesOf(rest))
    ensures [10] + UnifyNewlines(rest) == Joined([[]] + LinesOf(rest))
  {
    JoinedHead([], LinesOf(rest));
  }

  /** Unifying newlines keeps the lines and puts one LF between them. */
  lemma {:induction false} UnifyingJoins(data: Bytes)
    ensures UnifyNewlines(data) == Joined(LinesOf(data))
    decreases |data|
  {
    if data != [] {
      if data[0] == 10 {
        UnifyingJoins(data[1..]);
        UnifyingBreak(data[1..]);
      } else if data[0] == 13 {
        var rest := if |data| > 1 && data[1] == 10 then data[2..] else data[1..];
        UnifyingJoins(rest);
        UnifyingBreak(rest);
      } else {
        UnifyingJoins(data[1..]);
        assert data == [data[0]] + data[1..];
        UnifyingLonger(data[0], data[1..]);
      }
    }
  }

  lemma {:induction false} JoinedEnd(lines: seq<Bytes>)
    requires |lines| > 1
    ensures Joined(lines) == Joined(lines[..|lines| - 1]) + [10] + lines[|lines| - 1]
    decreases |lines|
  {
    var n := |lines|;
    if n == 2 {
      assert lines[1..] == [lines[1]] && lines[..1] == [lines[0]];
    } else {
      JoinedEnd(lines[1..]);
      assert lines[1..][..n - 2] == lines[..n - 1][1..];
      assert lines[1..][n - 2] == lines[n - 1];
    }
  }

  /** Stripping newlines drops the empty lines at the end. */
  lemma {:induction false} StrippingDrops(lines: seq<Bytes>)
    requires AllUnbroken(lines)
    ensures StripNewlines(Joined(lines)) == Joined(DropEmptyEnd(lines))
    decreases |lines|
  {
    var n := |lines|;
    if n > 1 {
      JoinedEnd(lines);
      var front, last := Joined(lines[..n - 1]), lines[n - 1];
      if last == [] {
        assert Joined(lines) == front + [10];
        assert (front + [10])[..|front|] == front;
        StrippingDrops(lines[..n - 1]);
      } else {
        assert last[|last| - 1] in last;
        assert Joined(lines)[|Joined(lines)| - 1] == last[|last| - 1];
      }
    } else if n == 1 && lines[0] != [] {
      assert lines[0][|lines[0]| - 1] in lines[0];
    }
  }

  /** The normal form: the lines, each followed by one LF; a text without any is one LF. */
  lemma NormalFormOfLines(data: Bytes)
    ensures Normalize(data) == Joined(DropEmptyEnd(LinesOf(data))) + [10]
    ensures AllUnbroken(DropEmptyEnd(LinesOf(data)))
  {
    UnifyingJoins(data);
    LinesAreUnbroken(data);
    StrippingDrops(LinesOf(data));
    DroppedAreLines(LinesOf(data));
  }

  lemma {:induction false} DroppedAreLines(lines: seq<Bytes>)
    ensures DropEmptyEnd(lines) <= lines
    ensures DropEmptyEnd(lines) == [] || DropEmptyEnd(lines)[|DropEmptyEnd(lines)| - 1] != []
    decreases |lines|
  {
    if lines != [] && lines[|lines| - 1] == [] { DroppedAreLines(lines[..|lines| - 1]); }
  }

  lemma LinesOfBreak(rest: Bytes)
    ensures LinesOf([10] + rest) == [[]] + LinesOf(rest)
  {
    assert ([10] + rest)[1..] == rest;
  }

  lemma {:induction false} LinesOfUnbroken(line: Bytes, rest: Bytes)
    requires Unbroken(line)
    ensures LinesOf(line + [10] + rest) == [line] + LinesOf(rest)
    ensures LinesOf(line) == [line]
    decreases |line|
  {
    if line == [] {
      LinesOfBreak(rest);
      assert line + [10] + rest == [10] + rest;
    } else {
      var b, tail := line[0], line[1..];
      assert line == [b] + tail && line + [10] + rest == [b] + (tail + [10] + rest);
      assert b in line && forall x :: x in tail ==> x in line;
      LinesOfUnbroken(tail, rest);
      LinesOfLonger(b, tail + [10] + rest);
      LinesOfLonger(b, tail);
      assert ([tail] + LinesOf(rest))[1..] == LinesOf(rest);
    }
  }

  /** Joined lines fall apart into the same lines. */
  lemma {:induction false} JoinedFallsApart(lines: seq<Bytes>)
    requires AllUnbroken(lines) && lines != []
    ensures LinesOf(Joined(lines)) == lines
    decreases |lines|
  {
    if |lines| == 1 {
      LinesOfUnbroken(lines[0], []);
    } else {
      var first, rest := lines[0], lines[1..];
      assert lines == [first] + rest && Unbroken(first) && AllUnbroken(rest);
      JoinedFallsApart(rest);
      LinesOfUnbroken(first, Joined(rest));
    }
  }

  lemma {:induction false} JoinedIsNothing(lines: seq<Bytes>)
    requires lines != [] && lines[|lines| - 1] != []
    ensures Joined(lines) != []
    decreases |lines|
  {
    if |lines| > 1 { JoinedIsNothing(lines[1..]); }
  }

  lemma NormalFormFallsApart(lines: seq<Bytes>)
    requires AllUnbroken(lines)
    ensures LinesOf(Joined(lines) + [10]) == if lines == [] then [[], []] else lines + [[]]
  {
    if lines == [] {
      LinesOfUnbroken([], []);
      assert Joined(lines) + [10] == [] + [10] + [];
    } else {
      var all := lines + [[]];
      JoinedEnd(all);
      assert all[..|all| - 1] == lines;
      assert Joined(lines) + [10] + [] == Joined(lines) + [10];
      JoinedFallsApart(all);
    }
  }

  /**
   Two texts have the same normal form if and only if they have the same lines, empty
   ones at the end aside.
   */
  lemma NormalFormsAreLines(a: Bytes, b: Bytes)
    ensures Normalize(a) == Normalize(b) <==> SameLines(a, b)
  {
    NormalFormOfLines(a);
    NormalFormOfLines(b);
    var la, lb := DropEmptyEnd(LinesOf(a)), DropEmptyEnd(LinesOf(b));
    if Normalize(a) == Normalize(b) {
      DroppedAreLines(LinesOf(a));
      DroppedAreLines(LinesOf(b));
      assert Joined(la) == (Joined(la) + [10])[..|Joined(la)|] == (Joined(lb) + [10])[..|Joined(lb)|] == Joined(lb);
      if la != [] { JoinedIsNothing(la); JoinedFallsApart(la); }
      if lb != [] { JoinedIsNothing(lb); JoinedFallsApart(lb); }
    }
  }

  lemma {:induction false} JoinedHasNoReturn(lines: seq<Bytes>)
    requires AllUnbroken(lines)
    ensures 13 !in Joined(lines)
    decreases |lines|
  {
    if |lines| > 1 {
      JoinedHasNoReturn(lines[1..]);
    } else if lines != [] {
      assert Unbroken(lines[0]);
    }
  }

  lemma {:induction false} JoinedEndsUnbroken(lines: seq<Bytes>)
    requires AllUnbroken(lines) && lines != [] && lines[|lines| - 1] != []
    ensures var j := Joined(lines); j != [] && j[|j| - 1] != 10
  {
    JoinedIsNothing(lines);
    var last := lines[|lines| - 1];
    assert last[|last| - 1] in last;
    if |lines| > 1 { JoinedEnd(lines); }
  }

  /** A normal form holds no CR, ends in exactly one LF or is that one, and is its own normal form. */
  lemma NormalFormIsNormal(data: Bytes)
    ensures var n := Normalize(data);
      && 13 !in n && n[|n| - 1] == 10 && (|n| > 1 ==> n[|n| - 2] != 10)
      && Normalize(n) == n && SameLines(data, n)
  {
    var lines := DropEmptyEnd(LinesOf(data));
    NormalFormOfLines(data);
    DroppedAreLines(LinesOf(data));
    JoinedHasNoReturn(lines);
    if lines != [] { JoinedEndsUnbroken(lines); }
    NormalFormFallsApart(lines);
    DroppedTwice(LinesOf(data));
    assert SameLines(data, Normalize(data));
    NormalFormsAreLines(data, Normalize(data));
  }

  lemma DroppedTwice(lines: seq<Bytes>)
    ensures DropEmptyEnd(DropEmptyEnd(lines) + [[]]) == DropEmptyEnd(lines)
    ensures DropEmptyEnd([[], []]) == []
  {
    DroppedAreLines(lines);
    var d := DropEmptyEnd(lines);
    assert (d + [[]])[..|d|] == d;
    var one: seq<Bytes>, two: seq<Bytes> := [[]], [[], []];
    assert two[..1] == one && one[..0] == [];
  }
}
