/**
 * Fixed-width unsigned integers and their big- and little-endian byte forms
 * (Rust's `to_be_bytes`, `from_be_bytes`, `to_le_bytes`, `from_le_bytes`).
 * Wider forms are built from narrower ones, so every round trip follows from
 * the 16-bit one.
 */
module Bytes {
  type byte = x: int | 0 <= x < 0x100
  type u16 = x: int | 0 <= x < 0x1_0000
  type u32 = x: int | 0 <= x < 0x1_0000_0000
  type u64 = x: int | 0 <= x < 0x1_0000_0000_0000_0000
  type bytes = seq<byte>

  function U16BE(x: u16): (r: bytes)
    ensures |r| == 2
  {
    [x / 0x100, x % 0x100]
  }

  function U32BE(x: u32): (r: bytes)
    ensures |r| == 4
  {
    U16BE(x / 0x1_0000) + U16BE(x % 0x1_0000)
  }

  function U64BE(x: u64): (r: bytes)
    ensures |r| == 8
  {
    U32BE(x / 0x1_0000_0000) + U32BE(x % 0x1_0000_0000)
  }

  function U16LE(x: u16): (r: bytes)
    ensures |r| == 2
  {
    [x % 0x100, x / 0x100]
  }

  function U32LE(x: u32): (r: bytes)
    ensures |r| == 4
  {
    U16LE(x % 0x1_0000) + U16LE(x / 0x1_0000)
  }

  /** A byte-string literal: each (ASCII) character as its byte. */
  function Ascii(s: string): (b: bytes)
    ensures |b| == |s| && forall i :: 0 <= i < |s| ==> b[i] == s[i] as int % 0x100
  {
    seq(|s|, i requires 0 <= i < |s| => s[i] as int % 0x100)
  }

  /** The big-endian u16 stored at b[i], b[i+1]. */
  function ReadU16BE(b: bytes, i: nat): u16
    requires i + 2 <= |b|
  {
    (b[i] as int) * 0x100 + b[i + 1]
  }

  function ReadU32BE(b: bytes, i: nat): u32
    requires i + 4 <= |b|
  {
    ReadU16BE(b, i) * 0x1_0000 + ReadU16BE(b, i + 2)
  }

  function ReadU64BE(b: bytes, i: nat): u64
    requires i + 8 <= |b|
  {
    ReadU32BE(b, i) * 0x1_0000_0000 + ReadU32BE(b, i + 4)
  }

  function ReadU16LE(b: bytes, i: nat): u16
    requires i + 2 <= |b|
  {
    b[i] + (b[i + 1] as int) * 0x100
  }

  function ReadU32LE(b: bytes, i: nat): u32
    requires i + 4 <= |b|
  {
    ReadU16LE(b, i) + ReadU16LE(b, i + 2) * 0x1_0000
  }

  /** Reading a field back at the offset it was written to gives the value written. */
  lemma U16BEAt(b: bytes, i: nat, x: u16)
    requires i + 2 <= |b| && b[i..i + 2] == U16BE(x)
    ensures ReadU16BE(b, i) == x
  {
    assert b[i] == U16BE(x)[0] && b[i + 1] == U16BE(x)[1];
  }

  lemma U32BEAt(b: bytes, i: nat, x: u32)
    requires i + 4 <= |b| && b[i..i + 4] == U32BE(x)
    ensures ReadU32BE(b, i) == x
  {
    assert b[i..i + 2] == U32BE(x)[..2] == U16BE(x / 0x1_0000);
    assert b[i + 2..i + 4] == U32BE(x)[2..] == U16BE(x % 0x1_0000);
    U16BEAt(b, i, x / 0x1_0000);
    U16BEAt(b, i + 2, x % 0x1_0000);
  }

  lemma U64BEAt(b: bytes, i: nat, x: u64)
    requires i + 8 <= |b| && b[i..i + 8] == U64BE(x)
    ensures ReadU64BE(b, i) == x
  {
    assert b[i..i + 4] == U64BE(x)[..4] == U32BE(x / 0x1_0000_0000);
    assert b[i + 4..i + 8] == U64BE(x)[4..] == U32BE(x % 0x1_0000_0000);
    U32BEAt(b, i, x / 0x1_0000_0000);
    U32BEAt(b, i + 4, x % 0x1_0000_0000);
  }

  lemma U16LEAt(b: bytes, i: nat, x: u16)
    requires i + 2 <= |b| && b[i..i + 2] == U16LE(x)
    ensures ReadU16LE(b, i) == x
  {
    assert b[i] == U16LE(x)[0] && b[i + 1] == U16LE(x)[1];
  }

  lemma U32LEAt(b: bytes, i: nat, x: u32)
    requires i + 4 <= |b| && b[i..i + 4] == U32LE(x)
    ensures ReadU32LE(b, i) == x
  {
    assert b[i..i + 2] == U32LE(x)[..2] == U16LE(x % 0x1_0000);
    assert b[i + 2..i + 4] == U32LE(x)[2..] == U16LE(x / 0x1_0000);
    U16LEAt(b, i, x % 0x1_0000);
    U16LEAt(b, i + 2, x / 0x1_0000);
  }

  /** Writing back what was read reproduces the bytes read. */
  lemma U16BERead(b: bytes, i: nat)
    requires i + 2 <= |b|
    ensures U16BE(ReadU16BE(b, i)) == b[i..i + 2]
  {
  }

  lemma U32BERead(b: bytes, i: nat)
    requires i + 4 <= |b|
    ensures U32BE(ReadU32BE(b, i)) == b[i..i + 4]
  {
    U16BERead(b, i);
    U16BERead(b, i + 2);
    var x := ReadU32BE(b, i);
    assert x / 0x1_0000 == ReadU16BE(b, i) && x % 0x1_0000 == ReadU16BE(b, i + 2);
  }

  lemma U64BERead(b: bytes, i: nat)
    requires i + 8 <= |b|
    ensures U64BE(ReadU64BE(b, i)) == b[i..i + 8]
  {
    U32BERead(b, i);
    U32BERead(b, i + 4);
    var x := ReadU64BE(b, i);
    assert x / 0x1_0000_0000 == ReadU32BE(b, i) && x % 0x1_0000_0000 == ReadU32BE(b, i + 4);
  }

  /** A list of u16 values written back to back, big-endian, as `extend_from_slice` in a loop does. */
  function U16sBE(xs: seq<u16>): (r: bytes)
    ensures |r| == 2 * |xs|
    ensures forall k :: 0 <= k < |xs| ==> ReadU16BE(r, 2 * k) == xs[k]
  {
    if xs == [] then []
    else
      var h, t := U16BE(xs[0]), U16sBE(xs[1..]);
      var r := h + t;
      assert r[0..2] == h;
      U16BEAt(r, 0, xs[0]);
      forall k | 1 <= k < |xs| ensures ReadU16BE(r, 2 * k) == xs[k] {
        assert r[2 * k..2 * k + 2] == t[2 * (k - 1)..2 * (k - 1) + 2];
        U16BERead(t, 2 * (k - 1));
        U16BEAt(r, 2 * k, xs[k]);
      }
      r
  }

  /** `n` big-endian u16 values read from offset `off`. */
  function ReadU16sBE(b: bytes, off: nat, n: nat): (r: seq<u16>)
    requires off + 2 * n <= |b|
    ensures |r| == n
  {
    seq(n, k requires 0 <= k < n => ReadU16BE(b, off + 2 * k))
  }

  /** A list of u32 values written back to back, little-endian (`flat_map(to_le_bytes)`). */
  function U32sLE(xs: seq<u32>): (r: bytes)
    ensures |r| == 4 * |xs|
    ensures forall k :: 0 <= k < |xs| ==> ReadU32LE(r, 4 * k) == xs[k]
  {
    if xs == [] then []
    else
      var h, t := U32LE(xs[0]), U32sLE(xs[1..]);
      var r := h + t;
      assert r[0..4] == h;
      U32LEAt(r, 0, xs[0]);
      forall k | 1 <= k < |xs| ensures ReadU32LE(r, 4 * k) == xs[k] {
        assert r[4 * k..4 * k + 4] == t[4 * (k - 1)..4 * (k - 1) + 4];
        assert ReadU32LE(r, 4 * k) == ReadU32LE(t, 4 * (k - 1));
      }
      r
  }

  /** `n` little-endian u32 values read from offset `off`. */
  function ReadU32sLE(b: bytes, off: nat, n: nat): (r: seq<u32>)
    requires off + 4 * n <= |b|
    ensures |r| == n
    ensures forall k :: 0 <= k < n ==> r[k] == ReadU32LE(b, off + 4 * k)
  {
    seq(n, k requires 0 <= k < n => ReadU32LE(b, off + 4 * k))
  }

  lemma U16LERead(b: bytes, i: nat)
    requires i + 2 <= |b|
    ensures U16LE(ReadU16LE(b, i)) == b[i..i + 2]
  {
  }

  lemma U32LERead(b: bytes, i: nat)
    requires i + 4 <= |b|
    ensures U32LE(ReadU32LE(b, i)) == b[i..i + 4]
  {
    U16LERead(b, i);
    U16LERead(b, i + 2);
    var x := ReadU32LE(b, i);
    assert x % 0x1_0000 == ReadU16LE(b, i) && x / 0x1_0000 == ReadU16LE(b, i + 2);
  }

  /** Reading a whole number of u32 values and writing them back gives the bytes read. */
  lemma {:induction false} U32sLERead(b: bytes)
    requires |b| % 4 == 0
    ensures U32sLE(ReadU32sLE(b, 0, |b| / 4)) == b
  {
    if b != [] {
      var xs := ReadU32sLE(b, 0, |b| / 4);
      var rest := b[4..];
      U32sLERead(rest);
      assert xs[1..] == ReadU32sLE(rest, 0, |rest| / 4);
      U32LERead(b, 0);
      assert b == b[0..4] + rest;
    }
  }

  /** A list of u32 values written back to back, big-endian. */
  function U32sBE(xs: seq<u32>): (r: bytes)
    ensures |r| == 4 * |xs|
    ensures forall k :: 0 <= k < |xs| ==> ReadU32BE(r, 4 * k) == xs[k]
  {
    if xs == [] then []
    else
      var h, t := U32BE(xs[0]), U32sBE(xs[1..]);
      var r := h + t;
      assert r[0..4] == h;
      U32BEAt(r, 0, xs[0]);
      forall k | 1 <= k < |xs| ensures ReadU32BE(r, 4 * k) == xs[k] {
        assert r[4 * k..4 * k + 4] == t[4 * (k - 1)..4 * (k - 1) + 4];
        U32BERead(t, 4 * (k - 1));
        U32BEAt(r, 4 * k, xs[k]);
      }
      r
  }

  /** The middle of a three-part concatenation is found again at the length of the first part. */
  lemma SliceMiddle<T>(a: seq<T>, m: seq<T>, c: seq<T>)
    ensures (a + m + c)[|a|..|a| + |m|] == m
  {
  }

  function Pow2(k: nat): (r: nat)
    ensures r >= 1
  {
    if k == 0 then 1 else 2 * Pow2(k - 1)
  }

  /** Bitwise exclusive or of two naturals, one binary digit at a time. */
  function Xor(a: nat, b: nat): nat
    decreases a + b
  {
    if a == 0 && b == 0 then 0 else 2 * Xor(a / 2, b / 2) + (if Odd(a) != Odd(b) then 1 else 0)
  }

  lemma Pow2Widths()
    ensures Pow2(8) == 0x100 && Pow2(16) == 0x1_0000 && Pow2(32) == 0x1_0000_0000
  {
    assert Pow2(4) == 16;
    assert Pow2(8) == 0x100;
    assert Pow2(12) == 0x1000;
    assert Pow2(16) == 0x1_0000;
    assert Pow2(20) == 0x10_0000;
    assert Pow2(24) == 0x100_0000;
    assert Pow2(28) == 0x1000_0000;
  }

  function Xor8(a: byte, b: byte): (r: byte)
  {
    Pow2Widths();
    XorBound(a, b, 8);
    Xor(a, b)
  }

  function Xor16(a: u16, b: u16): (r: u16)
  {
    Pow2Widths();
    XorBound(a, b, 16);
    Xor(a, b)
  }

  function Xor32(a: u32, b: u32): (r: u32)
  {
    Pow2Widths();
    XorBound(a, b, 32);
    Xor(a, b)
  }

  lemma {:induction false} XorBound(a: nat, b: nat, k: nat)
    requires a < Pow2(k) && b < Pow2(k)
    ensures Xor(a, b) < Pow2(k)
    decreases k
  {
    if k == 0 {
      assert a == 0 && b == 0;
    } else if a != 0 || b != 0 {
      XorBound(a / 2, b / 2, k - 1);
    }
  }

  lemma {:induction false} XorZero(a: nat)
    ensures Xor(a, 0) == a
    decreases a
  {
    if a != 0 {
      XorZero(a / 2);
    }
  }

  lemma {:induction false} XorSelf(a: nat)
    ensures Xor(a, a) == 0
    decreases a
  {
    if a != 0 {
      XorSelf(a / 2);
    }
  }

  lemma {:induction false} XorComm(a: nat, b: nat)
    ensures Xor(a, b) == Xor(b, a)
    decreases a + b
  {
    if a != 0 || b != 0 {
      XorComm(a / 2, b / 2);
    }
  }

  /** The low bit and the remaining bits of an exclusive or. */
  lemma XorSplit(a: nat, b: nat)
    ensures Xor(a, b) / 2 == Xor(a / 2, b / 2)
    ensures Odd(Xor(a, b)) == (Odd(a) != Odd(b))
  {
    if a != 0 || b != 0 {
      var h := Xor(a / 2, b / 2);
      var low := if Odd(a) != Odd(b) then 1 else 0;
      assert Xor(a, b) == 2 * h + low;
    }
  }

  predicate Odd(x: nat) { x % 2 == 1 }

  lemma EqByHalves(x: nat, y: nat)
    requires x / 2 == y / 2 && Odd(x) == Odd(y)
    ensures x == y
  {
  }

  lemma XorLowBitAssoc(a: nat, b: nat, c: nat)
    ensures Odd(Xor(Xor(a, b), c)) == Odd(Xor(a, Xor(b, c)))
  {
    XorSplit(a, b);
    XorSplit(b, c);
    XorSplit(Xor(a, b), c);
    XorSplit(a, Xor(b, c));
  }

  lemma {:induction false} XorAssoc(a: nat, b: nat, c: nat)
    ensures Xor(Xor(a, b), c) == Xor(a, Xor(b, c))
    decreases a + b + c
  {
    if a != 0 || b != 0 || c != 0 {
      var a2, b2, c2 := a / 2, b / 2, c / 2;
      XorAssoc(a2, b2, c2);
      var ab, bc := Xor(a, b), Xor(b, c);
      XorSplit(a, b);
      XorSplit(b, c);
      var l, r := Xor(ab, c), Xor(a, bc);
      XorSplit(ab, c);
      XorSplit(a, bc);
      assert l / 2 == r / 2;
      XorLowBitAssoc(a, b, c);
      EqByHalves(l, r);
    } else {
      assert Xor(a, b) == 0 && Xor(b, c) == 0;
    }
  }

  /** XOR with a fixed mask is its own inverse, which is what makes STUN's address obfuscation reversible. */
  lemma XorInvolutive(a: nat, m: nat)
    ensures Xor(Xor(a, m), m) == a
  {
    XorAssoc(a, m, m);
    XorSelf(m);
    XorZero(a);
  }
}
