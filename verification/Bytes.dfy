/** Little-endian two's-complement integers of a fixed width, as binary.Write and binary.Read use them. */
module Bytes {
  import opened Seqs

  type byte = b: int | 0 <= b < 256

  function Pow256(width: nat): (p: int)
    ensures p > 0
  {
    if width == 0 then 1 else 256 * Pow256(width - 1)
  }

  /** The integers a signed field of `width` bytes can hold. */
  predicate Fits(width: nat, x: int) {
    width > 0 && -128 * Pow256(width - 1) <= x < 128 * Pow256(width - 1)
  }

  function Unsigned(width: nat, x: nat): (s: seq<byte>)
    ensures |s| == width
  {
    if width == 0 then [] else [x % 256] + Unsigned(width - 1, x / 256)
  }

  function FromUnsigned(s: seq<byte>): (x: int)
    ensures 0 <= x < Pow256(|s|)
  {
    if s == [] then 0 else s[0] + 256 * FromUnsigned(s[1..])
  }

  function Encode(width: nat, x: int): (s: seq<byte>)
    requires Fits(width, x)
    ensures |s| == width
  {
    Unsigned(width, if x < 0 then x + Pow256(width) else x)
  }

  function Decode(s: seq<byte>): int
    requires s != []
  {
    var x := FromUnsigned(s);
    if x < 128 * Pow256(|s| - 1) then x else x - Pow256(|s|)
  }

  lemma {:induction false} UnsignedRoundTrip(width: nat, x: nat)
    requires x < Pow256(width)
    ensures FromUnsigned(Unsigned(width, x)) == x
  {
    if width > 0 {
      UnsignedRoundTrip(width - 1, x / 256);
      assert Unsigned(width, x)[1..] == Unsigned(width - 1, x / 256);
    }
  }

  /** Reading back a written integer gives the integer, negative ones included. */
  lemma IntegerRoundTrip(width: nat, x: int)
    requires Fits(width, x)
    ensures Decode(Encode(width, x)) == x
  {
    UnsignedRoundTrip(width, if x < 0 then x + Pow256(width) else x);
  }

  /** A fixed-width integer read from the front of a stream, with the rest of the stream. */
  function ReadInt(width: nat, r: seq<byte>): (res: Option<(int, seq<byte>)>)
    requires width > 0
    ensures res.Some? <==> |r| >= width
    ensures res.Some? ==> res.value.1 == r[width..]
  {
    if |r| < width then None else Some((Decode(r[..width]), r[width..]))
  }

  lemma ReadWrittenInt(width: nat, x: int, rest: seq<byte>)
    requires Fits(width, x)
    ensures ReadInt(width, Encode(width, x) + rest) == Some((x, rest))
  {
    IntegerRoundTrip(width, x);
    assert (Encode(width, x) + rest)[..width] == Encode(width, x);
    assert (Encode(width, x) + rest)[width..] == rest;
  }

  // ---------- the bytes themselves ----------

  lemma DivideTwice(x: int, y: int, p: int)
    requires p > 0 && y == x / 256
    ensures y / p == x / (256 * p)
  {
    var q, r := y / p, y % p;
    var t := x % 256;
    assert x == 256 * y + t && y == p * q + r;
    assert x == 256 * (p * q + r) + t;
    assert 256 * (p * q) == (256 * p) * q;
    QuotientIs(x, 256 * p, q, 256 * r + t);
  }

  lemma QuotientIs(x: int, d: int, q: int, r: int)
    requires d > 0 && x == d * q + r && 0 <= r < d
    ensures x / d == q
  {
    var e := x / d - q;
    assert d * e == r - x % d;
    MultipleIsFar(d, e);
  }

  lemma MultipleIsFar(d: int, e: int)
    requires d > 0
    ensures e > 0 ==> d * e >= d
    ensures e < 0 ==> d * e <= -d
  {
  }

  lemma {:induction false} UnsignedAt(width: nat, x: nat, i: nat)
    requires i < width
    ensures Unsigned(width, x)[i] == x / Pow256(i) % 256
  {
    if i > 0 {
      UnsignedAt(width - 1, x / 256, i - 1);
      DivideTwice(x, x / 256, Pow256(i - 1));
    }
  }

  lemma {:induction false} PowSplits(width: nat, i: nat) returns (m: nat)
    requires i < width
    ensures Pow256(width) == Pow256(i) * (256 * m)
  {
    if i == width - 1 {
      m := 1;
    } else {
      var n := PowSplits(width - 1, i);
      m := 256 * n;
      assert Pow256(width) == 256 * (Pow256(i) * (256 * n)) == Pow256(i) * (256 * m);
    }
  }

  /** Byte i of an integer is its i-th digit to the base 256, the lowest first; a negative one has infinitely many ones in front. */
  lemma EncodeAt(width: nat, x: int, i: nat)
    requires Fits(width, x) && i < width
    ensures Encode(width, x)[i] == x / Pow256(i) % 256
  {
    if x < 0 {
      UnsignedAt(width, x + Pow256(width), i);
      var m := PowSplits(width, i);
      SameDigit(x, Pow256(i), m);
    } else {
      UnsignedAt(width, x, i);
    }
  }

  /** Higher digits do not matter. */
  lemma SameDigit(x: int, p: int, m: int)
    requires p > 0
    ensures (x + p * (256 * m)) / p % 256 == x / p % 256
  {
    AddMultiple(x, p, 256 * m);
    WholeTurns(x / p, m);
  }

  lemma AddMultiple(x: int, p: int, y: int)
    requires p > 0
    ensures (x + p * y) / p == x / p + y
  {
    var q := x / p;
    assert p * (q + y) == p * q + p * y;
    QuotientIs(x + p * y, p, q + y, x - p * q);
  }

  lemma WholeTurns(q: int, m: int)
    ensures (q + 256 * m) % 256 == q % 256
  {
  }

  lemma {:induction false} FromUnsignedRoundTrip(s: seq<byte>)
    ensures Unsigned(|s|, FromUnsigned(s)) == s
  {
    if s != [] {
      var high := FromUnsigned(s[1..]);
      FromUnsignedRoundTrip(s[1..]);
      QuotientIs(s[0] + 256 * high, 256, high, s[0]);
      assert s == [s[0]] + s[1..];
    }
  }

  /** Any bytes are the encoding of the integer that is read from them, and of no other one. */
  lemma ReadIsWritten(width: nat, r: seq<byte>)
    requires 0 < width <= |r|
    ensures var (x, rest) := ReadInt(width, r).value;
            Fits(width, x) && r == Encode(width, x) + rest
  {
    var s := r[..width];
    FromUnsignedRoundTrip(s);
    assert Encode(width, Decode(s)) == s;
    assert r == r[..width] + r[width..];
  }
}
