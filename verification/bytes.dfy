/** Machine integers and little-endian byte fields.
    The loader runs on a 32-bit x86 processor: every multi-byte field it
    reads or writes is little-endian, and C's unsigned arithmetic wraps. */
module Bytes {

  const TWO_8: int := 0x100
  const TWO_16: int := 0x1_0000
  const TWO_32: int := 0x1_0000_0000
  const TWO_64: int := 0x1_0000_0000_0000_0000

  type u8 = x: int | 0 <= x < TWO_8
  type u16 = x: int | 0 <= x < TWO_16
  type u32 = x: int | 0 <= x < TWO_32
  type u64 = x: int | 0 <= x < TWO_64

  /** 256^n: the number of values an n-byte field can hold. */
  function Pow256(n: nat): (r: nat)
    ensures r >= 1
  {
    if n == 0 then 1 else 256 * Pow256(n - 1)
  }

  /** Unsigned 64-bit addition as C performs it on UINT64 operands. */
  function Add64(a: u64, b: u64): (r: u64)
    ensures r == (a + b) % TWO_64
  {
    if a + b < TWO_64 then a + b else a + b - TWO_64
  }

  /** Unsigned 32-bit subtraction as C performs it on u32 operands. */
  function Sub32(a: u32, b: u32): (r: u32)
    ensures r == (a - b) % TWO_32
  {
    if a >= b then a - b else a - b + TWO_32
  }

  /** Unsigned 32-bit multiplication as C performs it on u32 operands. */
  function Mul32(a: u32, b: u32): u32
  {
    (a * b) % TWO_32
  }

  /** A u32 fits a 4-byte field unchanged. */
  lemma FitsU32(x: u32)
    ensures x % Pow256(4) == x
  {
    assert Pow256(4) == TWO_32;
  }

  /** The value of a little-endian byte field. */
  function Decode(b: seq<u8>): nat
  {
    if |b| == 0 then 0 else b[0] + 256 * Decode(b[1..])
  }

  /** An n-byte field holds less than 256^n. */
  lemma {:induction false} DecodeBound(b: seq<u8>)
    ensures Decode(b) < Pow256(|b|)
  {
    if |b| > 0 {
      DecodeBound(b[1..]);
    }
  }

  /** The n little-endian bytes that a store of `x` into an n-byte field
      writes; bits of `x` above the field width are dropped, as in a C
      assignment to a narrower unsigned field. */
  function Encode(x: nat, n: nat): (r: seq<u8>)
    ensures |r| == n
  {
    if n == 0 then [] else [x % 256] + Encode(x / 256, n - 1)
  }

  lemma {:induction false} MulAtLeast(m: nat, d: nat)
    requires d >= 1
    ensures m * d >= m
  {
    if d > 1 {
      MulAtLeast(m, d - 1);
      assert m * d == m * (d - 1) + m;
    }
  }

  /** The remainder of a division is the one value below the divisor that
      the dividend exceeds a multiple of the divisor by. */
  lemma ModUnique(x: int, m: nat, a: int, c: int)
    requires m > 0 && x == m * a + c && 0 <= c < m
    ensures x % m == c
  {
    var q := x / m;
    var r := x % m;
    assert m * q + r == m * a + c;
    if q > a {
      assert m * (q - a) == m * q - m * a;
      MulAtLeast(m, q - a);
    } else if q < a {
      assert m * (a - q) == m * a - m * q;
      MulAtLeast(m, a - q);
    }
  }

  /** The low byte and the higher bytes of `x` below 256 * p. */
  lemma ModSplit(x: nat, p: nat)
    requires p >= 1
    ensures x % (256 * p) == x % 256 + 256 * ((x / 256) % p)
  {
    var q := x / 256;
    var a := q / p;
    var b := q % p;
    assert x == 256 * q + x % 256;
    assert q == p * a + b;
    assert 256 * q == (256 * p) * a + 256 * b;
    ModUnique(x, 256 * p, a, 256 * b + x % 256);
  }

  /** A stored field reads back as the stored value cut to the field width,
      as a C assignment to a narrower unsigned field truncates it. */
  lemma {:induction false} DecodeEncodeMod(x: nat, n: nat)
    ensures Decode(Encode(x, n)) == x % Pow256(n)
  {
    if n > 0 {
      DecodeEncodeMod(x / 256, n - 1);
      var e := Encode(x, n);
      assert e[1..] == Encode(x / 256, n - 1);
      ModSplit(x, Pow256(n - 1));
    }
  }

  /** Storing the value that a field holds rewrites the same bytes. */
  lemma {:induction false} EncodeDecode(b: seq<u8>)
    ensures Encode(Decode(b), |b|) == b
  {
    if |b| > 0 {
      EncodeDecode(b[1..]);
      var x := Decode(b);
      assert x % 256 == b[0];
      assert x / 256 == Decode(b[1..]);
    }
  }

  /** Two fields of the same width hold the same value exactly when they
      hold the same bytes. */
  lemma DecodeInjective(a: seq<u8>, b: seq<u8>)
    requires |a| == |b|
    ensures Decode(a) == Decode(b) <==> a == b
  {
    EncodeDecode(a);
    EncodeDecode(b);
  }

  /** `s` with the bytes `b` stored from offset `off` on: a memcpy into a
      buffer, or a store into a packed field. */
  function Write(s: seq<u8>, off: nat, b: seq<u8>): (r: seq<u8>)
    requires off + |b| <= |s|
    ensures |r| == |s|
    ensures r[off..off + |b|] == b
    ensures forall j :: 0 <= j < |s| && !(off <= j < off + |b|) ==> r[j] == s[j]
  {
    seq(|s|, j requires 0 <= j < |s| => if off <= j < off + |b| then b[j - off] else s[j])
  }

  /** A buffer of n zero bytes, as left by memset(buf, 0, n). */
  function Zeroes(n: nat): (r: seq<u8>)
    ensures |r| == n && forall j :: 0 <= j < n ==> r[j] == 0
  {
    seq(n, _ => 0)
  }
}
