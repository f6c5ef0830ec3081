/** Bytes and the little-endian integers that the program and the SDK read and write. */
module Bytes {

  type byte = b: int | 0 <= b < 256

  const TWO32: int := 0x1_0000_0000
  const TWO63: int := 0x8000_0000_0000_0000
  const TWO64: int := 0x1_0000_0000_0000_0000

  type i64 = x: int | -TWO63 <= x < TWO63

  function Pow256(n: nat): (p: nat)
    ensures p > 0
  {
    if n == 0 then 1 else 256 * Pow256(n - 1)
  }

  lemma Pow256Values()
    ensures Pow256(4) == TWO32
    ensures Pow256(8) == TWO64
  {
    assert Pow256(2) == 0x1_0000;
    assert Pow256(4) == 0x1_0000 * Pow256(2);
    assert Pow256(6) == 0x1_0000 * Pow256(4);
    assert Pow256(8) == 0x1_0000 * Pow256(6);
  }

  /** The `n` low-order bytes of `v`, least significant first. */
  function ToLE(v: nat, n: nat): (bs: seq<byte>)
    ensures |bs| == n
    decreases n, v
  {
    if n == 0 then [] else [v % 256] + ToLE(v / 256, n - 1)
  }

  function FromLE(bs: seq<byte>): nat
  {
    if |bs| == 0 then 0 else bs[0] + 256 * FromLE(bs[1..])
  }

  lemma {:induction false} FromLEInvertsToLE(v: nat, n: nat)
    requires v < Pow256(n)
    ensures FromLE(ToLE(v, n)) == v
    decreases n
  {
    if n > 0 {
      FromLEInvertsToLE(v / 256, n - 1);
      assert ToLE(v, n)[1..] == ToLE(v / 256, n - 1);
    }
  }

  lemma {:induction false} ToLEInvertsFromLE(bs: seq<byte>)
    ensures FromLE(bs) < Pow256(|bs|)
    ensures ToLE(FromLE(bs), |bs|) == bs
  {
    if |bs| > 0 {
      ToLEInvertsFromLE(bs[1..]);
      assert FromLE(bs) / 256 == FromLE(bs[1..]);
      assert bs == [bs[0]] + bs[1..];
    }
  }

  /** The 64-bit pattern of a signed integer, as an unsigned number. */
  function Pattern64(x: i64): (u: nat)
    ensures u < TWO64
  {
    if x < 0 then x + TWO64 else x
  }

  function Signed64(u: nat): (x: i64)
    requires u < TWO64
  {
    if u < TWO63 then u else u - TWO64
  }

  function U32LE(v: nat): (bs: seq<byte>)
    ensures |bs| == 4
  {
    ToLE(v, 4)
  }

  function I64LE(x: i64): (bs: seq<byte>)
    ensures |bs| == 8
  {
    ToLE(Pattern64(x), 8)
  }

  function ReadU32(bs: seq<byte>): (v: nat)
    requires |bs| == 4
    ensures v < TWO32
  {
    ToLEInvertsFromLE(bs);
    Pow256Values();
    FromLE(bs)
  }

  function ReadU64(bs: seq<byte>): (v: nat)
    requires |bs| == 8
    ensures v < TWO64
  {
    ToLEInvertsFromLE(bs);
    Pow256Values();
    FromLE(bs)
  }

  function ReadI64(bs: seq<byte>): i64
    requires |bs| == 8
  {
    Signed64(ReadU64(bs))
  }

  /** Four bytes and the number below 2^32 they stand for determine each other. */
  lemma U32RoundTrip(v: nat, bs: seq<byte>)
    requires v < TWO32 && |bs| == 4
    ensures ReadU32(U32LE(v)) == v
    ensures U32LE(ReadU32(bs)) == bs
  {
    Pow256Values();
    FromLEInvertsToLE(v, 4);
    ToLEInvertsFromLE(bs);
  }

  /** Eight bytes and the signed number they stand for determine each other. */
  lemma I64RoundTrip(x: i64, bs: seq<byte>)
    requires |bs| == 8
    ensures ReadI64(I64LE(x)) == x
    ensures ReadU64(I64LE(x)) == Pattern64(x)
    ensures I64LE(ReadI64(bs)) == bs
  {
    Pow256Values();
    FromLEInvertsToLE(Pattern64(x), 8);
    ToLEInvertsFromLE(bs);
  }

  // ---------------------------------------------------------------- spelled out byte by byte

  /** Four bytes as a number, least significant byte first. */
  function Little32(a: byte, b: byte, c: byte, d: byte): nat
  {
    a + 0x100 * b + 0x1_0000 * c + 0x100_0000 * d
  }

  /** Eight bytes as a two's-complement number, least significant byte first. */
  function Little64(bs: seq<byte>): int
    requires |bs| == 8
  {
    Little32(bs[0], bs[1], bs[2], bs[3]) + TWO32 * Little32(bs[4], bs[5], bs[6], bs[7])
      - (if bs[7] >= 128 then TWO64 else 0)
  }

  lemma {:induction false} FromLESplit(bs: seq<byte>)
    requires |bs| >= 4
    ensures FromLE(bs) == Little32(bs[0], bs[1], bs[2], bs[3]) + TWO32 * FromLE(bs[4..])
  {
    assert bs[1..][1..] == bs[2..] && bs[2..][1..] == bs[3..] && bs[3..][1..] == bs[4..];
    assert FromLE(bs[3..]) == bs[3] + 256 * FromLE(bs[4..]);
    assert FromLE(bs[2..]) == bs[2] + 256 * FromLE(bs[3..]);
    assert FromLE(bs[1..]) == bs[1] + 256 * FromLE(bs[2..]);
  }

  /** The numbers read are those that the bytes spell, least significant first. */
  lemma ReadSpelled(four: seq<byte>, eight: seq<byte>)
    requires |four| == 4 && |eight| == 8
    ensures ReadU32(four) == Little32(four[0], four[1], four[2], four[3])
    ensures ReadI64(eight) == Little64(eight)
  {
    FromLESplit(four);
    FromLESplit(eight);
    FromLESplit(eight[4..]);
  }

  /** The bytes written spell the number, least significant first. */
  lemma U32Spelled(v: nat)
    requires v < TWO32
    ensures U32LE(v) == [v % 0x100, v / 0x100 % 0x100, v / 0x1_0000 % 0x100, v / 0x100_0000 % 0x100]
  {
    FourDigits(v, 4);
  }

  lemma FourDigits(v: nat, n: nat)
    requires n >= 4
    ensures ToLE(v, n) == [v % 0x100, v / 0x100 % 0x100, v / 0x1_0000 % 0x100, v / 0x100_0000 % 0x100]
      + ToLE(v / TWO32, n - 4)
  {
    var v1, v2, v3 := v / 0x100, v / 0x1_0000, v / 0x100_0000;
    assert v2 == v1 / 256 && v3 == v2 / 256 && v / TWO32 == v3 / 256;
    assert ToLE(v3, n - 3) == [v3 % 256] + ToLE(v3 / 256, n - 4);
    assert ToLE(v2, n - 2) == [v2 % 256] + ToLE(v3, n - 3);
    assert ToLE(v1, n - 1) == [v1 % 256] + ToLE(v2, n - 2);
  }

  /** Eight bytes written for a signed number spell that number. */
  lemma I64Spelled(x: i64)
    ensures Little64(I64LE(x)) == x
  {
    ReadSpelled(Zeros(4), I64LE(x));
    I64RoundTrip(x, Zeros(8));
  }

  lemma SmallMultiple(c: nat, e: nat)
    requires c * e < c
    ensures e == 0
  {
  }

  lemma QuotientOf(v: nat, c: nat, q: nat, r: nat)
    requires r < c && v == c * q + r
    ensures v / c == q
  {
    var d := v / c;
    assert v == c * d + v % c;
    if d >= q {
      assert c * (d - q) == c * d - c * q;
      SmallMultiple(c, d - q);
    } else {
      assert c * (q - d) == c * q - c * d;
      SmallMultiple(c, q - d);
    }
  }

  lemma DivideTwice(v: nat, p: nat)
    requires p > 0
    ensures v / (256 * p) == v / 256 / p
  {
    var q, r := v / 256 / p, v / 256 % p;
    assert v / 256 == p * q + r;
    assert v == 256 * (p * q + r) + v % 256;
    assert 256 * (p * q + r) == 256 * p * q + 256 * r;
    QuotientOf(v, 256 * p, q, 256 * r + v % 256);
  }

  /** Byte `k` of a stored number is its `k`-th digit to the base 256. */
  lemma {:induction false} ToLEDigit(v: nat, n: nat, k: nat)
    requires k < n
    ensures ToLE(v, n)[k] == v / Pow256(k) % 256
    decreases n
  {
    if k > 0 {
      ToLEDigit(v / 256, n - 1, k - 1);
      DivideTwice(v, Pow256(k - 1));
    }
  }

  lemma Associate(a: seq<byte>, b: seq<byte>, c: seq<byte>)
    ensures a + (b + c) == a + b + c
  {
  }

  lemma HeadAndRest<T>(s: seq<T>)
    requires s != []
    ensures [s[0]] + s[1..] == s
  {
  }

  function Zeros(n: nat): (bs: seq<byte>)
    ensures |bs| == n
    ensures forall i :: 0 <= i < n ==> bs[i] == 0
  {
    seq(n, _ => 0)
  }
}
