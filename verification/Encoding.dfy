/**
 UTF-8 (RFC 3629, section 3): which bytes are text, how long a text is, and why
 listings in byte order are listings in text order.
 */
module Encoding {
  import opened Paths
  import opened Identity
  import opened Receipts

  /** The Unicode scalar values. */
  type Code = c: int | 0 <= c < 0xD800 || 0xE000 <= c < 0x110000

  /** The lead byte, and the low six bits of each byte that follows. */
  function Encode(c: Code): (r: Bytes)
    ensures |r| == if c < 0x80 then 1 else if c < 0x800 then 2 else if c < 0x10000 then 3 else 4
  {
    var low: Byte, middle: Byte, high: Byte := 128 + c % 64, 128 + c / 64 % 64, 128 + c / 4096 % 64;
    if c < 0x80 then
      var lead: Byte := c; [lead]
    else if c < 0x800 then
      var lead: Byte := 192 + c / 64; [lead, low]
    else if c < 0x10000 then
      var lead: Byte := 224 + c / 4096; [lead, middle, low]
    else
      var lead: Byte := 240 + c / 262144; [lead, high, middle, low]
  }

  function EncodeAll(cs: seq<Code>): Bytes {
    if cs == [] then [] else Encode(cs[0]) + EncodeAll(cs[1..])
  }

  function CodesOf(s: string): (r: seq<Code>)
    ensures |r| == |s| && forall i :: 0 <= i < |s| ==> r[i] == s[i] as int
  {
    seq(|s|, i requires 0 <= i < |s| => s[i] as int)
  }

  function Utf8(s: string): Bytes {
    EncodeAll(CodesOf(s))
  }

  // What is text

  lemma EncodedThenRest(c: Code, rest: Bytes)
    ensures IsUtf8(Encode(c) + rest) <==> IsUtf8(rest)
  {
    var data := Encode(c) + rest;
    if c < 0x80 {
      assert data[1..] == rest;
    } else if c < 0x800 {
      assert data[2..] == rest;
    } else if c < 0x10000 {
      assert data[3..] == rest;
    } else {
      assert data[4..] == rest;
    }
  }

  lemma {:induction false} EncodedIsUtf8(cs: seq<Code>)
    ensures IsUtf8(EncodeAll(cs))
    decreases |cs|
  {
    if cs != [] {
      EncodedIsUtf8(cs[1..]);
      EncodedThenRest(cs[0], EncodeAll(cs[1..]));
    }
  }

  lemma TwoByteCode(data: Bytes) returns (c: Code)
    requires |data| == 2 && 194 <= data[0] < 224 && Continuation(data[1])
    ensures data == Encode(c)
  {
    c := (data[0] as int - 192) * 64 + (data[1] as int - 128);
  }

  lemma ThreeByteCode(data: Bytes) returns (c: Code)
    requires |data| == 3 && 224 <= data[0] < 240 && Continuation(data[1]) && Continuation(data[2])
    requires (data[0] == 224 ==> 160 <= data[1]) && (data[0] == 237 ==> data[1] < 160)
    ensures data == Encode(c)
  {
    var lead, middle, low := data[0] as int - 224, data[1] as int - 128, data[2] as int - 128;
    c := lead * 4096 + middle * 64 + low;
    assert c / 64 == lead * 64 + middle && c / 4096 == lead;
  }

  lemma FourByteCode(data: Bytes) returns (c: Code)
    requires |data| == 4 && 240 <= data[0] < 245 && Continuation(data[1]) && Continuation(data[2]) && Continuation(data[3])
    requires (data[0] == 240 ==> 144 <= data[1]) && (data[0] == 244 ==> data[1] < 144)
    ensures data == Encode(c)
  {
    var lead, high, middle, low := data[0] as int - 240, data[1] as int - 128, data[2] as int - 128, data[3] as int - 128;
    c := lead * 262144 + high * 4096 + middle * 64 + low;
    assert c / 64 == lead * 4096 + high * 64 + middle && c / 4096 == lead * 64 + high && c / 262144 == lead;
  }

  /** The first scalar value of a text, and what follows it. */
  lemma FirstCode(data: Bytes) returns (c: Code, rest: Bytes)
    requires data != [] && IsUtf8(data)
    ensures data == Encode(c) + rest && IsUtf8(rest)
  {
    if data[0] < 128 {
      c, rest := data[0], data[1..];
    } else if data[0] < 224 {
      c := TwoByteCode(data[..2]);
      rest := data[2..];
    } else if data[0] < 240 {
      c := ThreeByteCode(data[..3]);
      rest := data[3..];
    } else {
      c := FourByteCode(data[..4]);
      rest := data[4..];
    }
  }

  lemma {:induction false} Utf8IsEncoded(data: Bytes) returns (cs: seq<Code>)
    requires IsUtf8(data)
    ensures EncodeAll(cs) == data
    decreases |data|
  {
    cs := [];
    if data != [] {
      var c, rest := FirstCode(data);
      var more := Utf8IsEncoded(rest);
      cs := [c] + more;
    }
  }

  /** Bytes are text exactly if they encode some scalar values. */
  lemma TextIsEncoded(data: Bytes)
    ensures IsUtf8(data) <==> exists cs :: EncodeAll(cs) == data
  {
    if IsUtf8(data) { var cs := Utf8IsEncoded(data); }
    if cs :| EncodeAll(cs) == data { EncodedIsUtf8(cs); }
  }

  /** The length limits count encoded bytes. */
  lemma {:induction false} Utf8LengthCounts(s: string)
    ensures Utf8Length(s) == |Utf8(s)|
    decreases |s|
  {
    if s != [] {
      Utf8LengthCounts(s[1..]);
      assert CodesOf(s)[1..] == CodesOf(s[1..]);
    }
  }

  /** A path may be journaled if it parses and has at most 1024 bytes and 64 components, each of at most 255 bytes. */
  lemma PortableInBytes(p: Path)
    ensures Portable(p) <==>
      Parses(p) && |Utf8(Render(p))| <= 1024 && |p| <= 64 && forall i :: 0 <= i < |p| ==> |Utf8(p[i])| <= 255
  {
    Utf8LengthCounts(Render(p));
    forall i | 0 <= i < |p| ensures Utf8Length(p[i]) == |Utf8(p[i])| { Utf8LengthCounts(p[i]); }
  }

  // Byte order

  predicate DiffersAt(a: Bytes, b: Bytes, k: int) {
    0 <= k < |a| && k < |b| && a[..k] == b[..k] && a[k] < b[k]
  }

  /** At the first difference the lesser byte goes first, and a proper prefix goes before what it begins. */
  ghost predicate BytesLess(a: Bytes, b: Bytes) {
    (|a| < |b| && b[..|a|] == a) || exists k :: DiffersAt(a, b, k)
  }

  lemma DifferentPlaces(a: Bytes, b: Bytes, k: int, j: int)
    requires DiffersAt(a, b, k) && 0 <= j < |a| && j < |b|
    ensures j < k ==> a[j] == b[j]
    ensures k < j ==> a[..j] != b[..j]
  {
    if j < k { assert a[..k][j] == b[..k][j]; }
    if k < j { assert a[..j][k] != b[..j][k]; }
  }

  lemma BytesLessOneWay(a: Bytes, b: Bytes)
    requires BytesLess(a, b)
    ensures !BytesLess(b, a) && a != b
  {
    if k :| DiffersAt(a, b, k) {
      forall j ensures !DiffersAt(b, a, j) {
        if 0 <= j < |a| && j < |b| { DifferentPlaces(a, b, k, j); }
      }
      assert a[k] != b[k] && (|b| <= |a| ==> a[..|b|][k] == a[k]);
    } else {
      forall j ensures !DiffersAt(b, a, j) { PrefixAgrees(a, b, j); }
    }
  }

  lemma PrefixAgrees(a: Bytes, b: Bytes, j: int)
    requires |a| < |b| && b[..|a|] == a
    ensures 0 <= j < |a| ==> a[j] == b[j]
  {
    if 0 <= j < |a| { assert b[..|a|][j] == b[j]; }
  }

  lemma DifferenceDecides(a: Bytes, b: Bytes, x: Bytes, y: Bytes, k: nat)
    requires DiffersAt(a, b, k)
    ensures DiffersAt(a + x, b + y, k)
  {
    assert (a + x)[..k] == a[..k] && (b + y)[..k] == b[..k];
  }

  lemma SameFront(front: Bytes, a: Bytes, b: Bytes)
    requires BytesLess(a, b)
    ensures BytesLess(front + a, front + b)
  {
    if k :| DiffersAt(a, b, k) {
      assert (front + a)[..|front| + k] == front + a[..k];
      assert (front + b)[..|front| + k] == front + b[..k];
      assert DiffersAt(front + a, front + b, |front| + k);
    } else {
      assert (front + b)[..|front + a|] == front + b[..|a|];
    }
  }

  lemma SixBits(c: int)
    ensures c == c / 64 * 64 + c % 64 && c / 64 / 64 == c / 4096 && c / 4096 / 64 == c / 262144
    ensures c / 64 == c / 4096 * 64 + c / 64 % 64 && c / 4096 == c / 262144 * 64 + c / 4096 % 64
  {
  }

  lemma TwoByteOrder(c: Code, d: Code) returns (k: int)
    requires 0x80 <= c < d < 0x800
    ensures DiffersAt(Encode(c), Encode(d), k)
  {
    k := if c / 64 != d / 64 then 0 else 1;
    assert Encode(c)[0] == 192 + c / 64 && Encode(d)[0] == 192 + d / 64;
  }

  lemma ThreeByteOrder(c: Code, d: Code) returns (k: int)
    requires 0x800 <= c < d < 0x10000
    ensures DiffersAt(Encode(c), Encode(d), k)
  {
    SixBits(c);
    SixBits(d);
    k := if c / 4096 != d / 4096 then 0 else if c / 64 != d / 64 then 1 else 2;
    var a, b := Encode(c), Encode(d);
    assert a == [224 + c / 4096, 128 + c / 64 % 64, 128 + c % 64] && b == [224 + d / 4096, 128 + d / 64 % 64, 128 + d % 64];
    assert a[k] < b[k];
  }

  lemma FourByteOrder(c: Code, d: Code) returns (k: int)
    requires 0x10000 <= c < d
    ensures DiffersAt(Encode(c), Encode(d), k)
  {
    SixBits(c);
    SixBits(d);
    k := if c / 262144 != d / 262144 then 0 else if c / 4096 != d / 4096 then 1 else if c / 64 != d / 64 then 2 else 3;
    var a, b := Encode(c), Encode(d);
    assert a == [240 + c / 262144, 128 + c / 4096 % 64, 128 + c / 64 % 64, 128 + c % 64];
    assert b == [240 + d / 262144, 128 + d / 4096 % 64, 128 + d / 64 % 64, 128 + d % 64];
    assert a[k] < b[k];
  }

  /** The first byte that differs is less in the encoding of the lesser value. */
  lemma EncodedOrder(c: Code, d: Code) returns (k: int)
    requires c < d
    ensures DiffersAt(Encode(c), Encode(d), k)
  {
    if |Encode(c)| != |Encode(d)| || d < 0x80 {
      k := 0;
    } else if d < 0x800 {
      k := TwoByteOrder(c, d);
    } else if d < 0x10000 {
      k := ThreeByteOrder(c, d);
    } else {
      k := FourByteOrder(c, d);
    }
  }

  lemma Unrolled(s: string)
    requires s != []
    ensures Utf8(s) == Encode(s[0] as int) + Utf8(s[1..])
  {
    assert CodesOf(s)[1..] == CodesOf(s[1..]);
  }

  lemma {:induction false} TextThenBytes(a: string, b: string)
    requires TextLess(a, b)
    ensures BytesLess(Utf8(a), Utf8(b))
    decreases |a|
  {
    Unrolled(b);
    if a != [] {
      Unrolled(a);
      if a[0] < b[0] {
        var k := EncodedOrder(a[0] as int, b[0] as int);
        DifferenceDecides(Encode(a[0] as int), Encode(b[0] as int), Utf8(a[1..]), Utf8(b[1..]), k);
      } else {
        TextThenBytes(a[1..], b[1..]);
        SameFront(Encode(a[0] as int), Utf8(a[1..]), Utf8(b[1..]));
      }
    }
  }

  /** Texts compare as their UTF-8 bytes do. */
  lemma TextOrderIsByteOrder(a: string, b: string)
    ensures TextLess(a, b) <==> BytesLess(Utf8(a), Utf8(b))
  {
    TextLessTotal(a, b);
    if TextLess(a, b) {
      TextThenBytes(a, b);
    } else if TextLess(b, a) {
      TextThenBytes(b, a);
      BytesLessOneWay(Utf8(b), Utf8(a));
    } else if BytesLess(Utf8(a), Utf8(b)) {
      BytesLessOneWay(Utf8(a), Utf8(b));
    }
  }

  /** Paths compare as the UTF-8 bytes of their texts do, and distinct texts have distinct bytes. */
  lemma PathOrderIsByteOrder(a: Path, b: Path)
    ensures PathLess(a, b) <==> BytesLess(Utf8(Render(a)), Utf8(Render(b)))
    ensures Utf8(Render(a)) == Utf8(Render(b)) <==> Render(a) == Render(b)
  {
    TextOrderIsByteOrder(Render(a), Render(b));
    TextOrderIsByteOrder(Render(b), Render(a));
    TextLessTotal(Render(a), Render(b));
    if Utf8(Render(a)) == Utf8(Render(b)) && BytesLess(Utf8(Render(a)), Utf8(Render(b))) {
      BytesLessOneWay(Utf8(Render(a)), Utf8(Render(b)));
    }
  }
}
