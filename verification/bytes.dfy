/** Byte strings, big-endian numbers and the bytewise key order. */
module Bytes {
  import opened Int64

  type byte = x: int | 0 <= x < 256

  // ----- big-endian numbers

  function Pow256(width: nat): (p: int)
    ensures p > 0
  {
    if width == 0 then 1 else 256 * Pow256(width - 1)
  }

  function BigEndian(v: nat, width: nat): (b: seq<byte>)
    ensures |b| == width
  {
    if width == 0 then [] else BigEndian(v / 256, width - 1) + [v % 256]
  }

  function FromBigEndian(b: seq<byte>): nat {
    if b == [] then 0 else 256 * FromBigEndian(b[..|b| - 1]) + b[|b| - 1]
  }

  lemma {:induction false} EncodeThenDecode(v: nat, width: nat)
    requires v < Pow256(width)
    ensures FromBigEndian(BigEndian(v, width)) == v
  {
    if width > 0 {
      EncodeThenDecode(v / 256, width - 1);
      assert BigEndian(v, width)[..width - 1] == BigEndian(v / 256, width - 1);
    }
  }

  lemma {:induction false} DecodeThenEncode(b: seq<byte>)
    ensures FromBigEndian(b) < Pow256(|b|)
    ensures BigEndian(FromBigEndian(b), |b|) == b
  {
    if b != [] {
      var init := b[..|b| - 1];
      DecodeThenEncode(init);
      assert FromBigEndian(b) / 256 == FromBigEndian(init);
      assert b == init + [b[|b| - 1]];
    }
  }

  lemma {:induction false} BigEndianInjective(v: nat, u: nat, width: nat)
    requires v < Pow256(width) && u < Pow256(width)
    requires BigEndian(v, width) == BigEndian(u, width)
    ensures v == u
  {
    EncodeThenDecode(v, width);
    EncodeThenDecode(u, width);
  }

  // ----- 64-bit and 32-bit fields

  lemma Widths()
    ensures Pow256(1) == 0x100 && Pow256(2) == 0x1_0000 && Pow256(4) == 0x1_0000_0000
    ensures Pow256(8) == TWO_64
  {
    assert Pow256(2) == 256 * Pow256(1);
    assert Pow256(3) == 256 * Pow256(2);
    assert Pow256(4) == 256 * Pow256(3);
    assert Pow256(5) == 256 * Pow256(4);
    assert Pow256(6) == 256 * Pow256(5);
    assert Pow256(7) == 256 * Pow256(6);
    assert Pow256(8) == 256 * Pow256(7);
  }

  /** `uint64(v)` of an int64. */
  function ToUint64(v: int): (u: nat)
    requires InRange(v)
    ensures u < TWO_64
  {
    if v < 0 then v + TWO_64 else v
  }

  /** `int64(u)` of a uint64. */
  function ToInt64(u: nat): (v: int)
    requires u < TWO_64
    ensures InRange(v)
  {
    if u > MAX_INT64 then u - TWO_64 else u
  }

  function EncodeInt64(v: int): (b: seq<byte>)
    requires InRange(v)
    ensures |b| == 8
  {
    BigEndian(ToUint64(v), 8)
  }

  function DecodeInt64(b: seq<byte>): (v: int)
    ensures InRange(v)
  {
    if |b| < 8 then 0 else
      Widths();
      DecodeThenEncode(b[..8]);
      ToInt64(FromBigEndian(b[..8]))
  }

  /** Decoding reads the first eight bytes and inverts encoding on every int64. */
  lemma {:induction false} Int64RoundTrip(v: int, tail: seq<byte>)
    requires InRange(v)
    ensures DecodeInt64(EncodeInt64(v) + tail) == v
  {
    var b := EncodeInt64(v);
    assert (b + tail)[..8] == b;
    Widths();
    EncodeThenDecode(ToUint64(v), 8);
  }

  lemma {:induction false} EncodeInt64Injective(v: int, u: int)
    requires InRange(v) && InRange(u) && EncodeInt64(v) == EncodeInt64(u)
    ensures v == u
  {
    Int64RoundTrip(v, []);
    Int64RoundTrip(u, []);
    assert EncodeInt64(v) + [] == EncodeInt64(u) + [];
  }

  // ----- the key order

  predicate LexLess(a: seq<byte>, b: seq<byte>) {
    b != [] && (a == [] || a[0] < b[0] || (a[0] == b[0] && LexLess(a[1..], b[1..])))
  }

  predicate LexLeq(a: seq<byte>, b: seq<byte>) {
    a == b || LexLess(a, b)
  }

  lemma {:induction false} LexTrichotomy(a: seq<byte>, b: seq<byte>)
    ensures LexLess(a, b) || a == b || LexLess(b, a)
    ensures !(LexLess(a, b) && LexLess(b, a))
    ensures a == b ==> !LexLess(a, b)
  {
    if a != [] && b != [] && a[0] == b[0] {
      LexTrichotomy(a[1..], b[1..]);
      assert a == [a[0]] + a[1..] && b == [b[0]] + b[1..];
    }
  }

  lemma {:induction false} LexTransitive(a: seq<byte>, b: seq<byte>, c: seq<byte>)
    requires LexLess(a, b) && LexLess(b, c)
    ensures LexLess(a, c)
  {
    if a != [] && a[0] == b[0] == c[0] {
      LexTransitive(a[1..], b[1..], c[1..]);
    }
  }

  lemma {:induction false} LexPrefix(p: seq<byte>, a: seq<byte>, b: seq<byte>)
    ensures LexLess(p + a, p + b) <==> LexLess(a, b)
  {
    if p == [] {
      assert p + a == a && p + b == b;
    } else {
      LexPrefix(p[1..], a, b);
      assert (p + a)[1..] == p[1..] + a && (p + b)[1..] == p[1..] + b;
    }
  }

  lemma {:induction false} LexLastDigit(a: seq<byte>, b: seq<byte>, x: byte, y: byte)
    requires |a| == |b|
    ensures LexLess(a + [x], b + [y]) <==> LexLess(a, b) || (a == b && x < y)
  {
    if a != [] {
      LexLastDigit(a[1..], b[1..], x, y);
      assert (a + [x])[1..] == a[1..] + [x] && (b + [y])[1..] == b[1..] + [y];
      assert a == [a[0]] + a[1..] && b == [b[0]] + b[1..];
    } else {
      assert [x][1..] == [y][1..];
      LexTrichotomy([x][1..], [y][1..]);
    }
  }

  /** Equal-width big-endian numbers sort bytewise exactly as they sort numerically. */
  lemma {:induction false} BigEndianOrder(v: nat, u: nat, width: nat)
    requires v < Pow256(width) && u < Pow256(width)
    ensures LexLess(BigEndian(v, width), BigEndian(u, width)) <==> v < u
  {
    if width > 0 {
      var a, b := BigEndian(v / 256, width - 1), BigEndian(u / 256, width - 1);
      BigEndianOrder(v / 256, u / 256, width - 1);
      LexLastDigit(a, b, v % 256, u % 256);
      if a == b { BigEndianInjective(v / 256, u / 256, width - 1); }
    }
  }

  /** Whatever lies between two strings with a common prefix starts with that prefix. */
  lemma {:induction false} BetweenSharesPrefix(p: seq<byte>, a: seq<byte>, b: seq<byte>, k: seq<byte>)
    requires LexLeq(p + a, k) && LexLess(k, p + b)
    ensures p <= k
  {
    if p != [] {
      assert (p + a)[0] == p[0] == (p + b)[0];
      assert (p + a)[1..] == p[1..] + a && (p + b)[1..] == p[1..] + b;
      assert k == [k[0]] + k[1..];
      BetweenSharesPrefix(p[1..], a, b, k[1..]);
    }
  }

  /** `compareKeys`: negative, zero or positive as a sorts before, with or after b. */
  method CompareKeys(a: seq<byte>, b: seq<byte>) returns (c: int)
    ensures c < 0 <==> LexLess(a, b)
    ensures c == 0 <==> a == b
    ensures c > 0 <==> LexLess(b, a)
    ensures -1 <= c <= 1
  {
    var i := 0;
    while i < |a| && i < |b|
      invariant i <= |a| && i <= |b| && a[..i] == b[..i]
    {
      assert a == a[..i] + a[i..] && b == a[..i] + b[i..];
      LexPrefix(a[..i], a[i..], b[i..]);
      LexPrefix(a[..i], b[i..], a[i..]);
      if a[i] < b[i] { return -1; }
      if a[i] > b[i] { return 1; }
      i := i + 1;
    }
    assert a == a[..i] + a[i..] && b == a[..i] + b[i..];
    LexPrefix(a[..i], a[i..], b[i..]);
    LexPrefix(a[..i], b[i..], a[i..]);
    if |a| < |b| { return -1; }
    if |a| > |b| { return 1; }
    return 0;
  }
}
