/**
 * UTF-8 as Rust's `String` stores it: `as_bytes` is `Encode`, `len()` is `Len`, and
 * `String::from_utf8` is `Decode`, which accepts only well-formed, shortest-form
 * sequences of Unicode scalar values (Table 3-7 of the Unicode Standard, section 3.9).
 * Dafny's `char` is a Unicode scalar value, so a `string` here is a Rust `String`.
 */
module Utf8 {
  import opened Bytes
  import opened Wrappers

  /** Number of bytes UTF-8 uses for one scalar value. */
  function CharLen(c: char): (n: nat)
    ensures 1 <= n <= 4
  {
    var x := c as int;
    if x < 0x80 then 1 else if x < 0x800 then 2 else if x < 0x1_0000 then 3 else 4
  }

  /** Byte length of a string, Rust's `str::len`. */
  function Len(s: string): nat
  {
    if s == [] then 0 else CharLen(s[0]) + Len(s[1..])
  }

  function EncodeChar(c: char): (r: bytes)
    ensures |r| == CharLen(c)
  {
    var x := c as int;
    if x < 0x80 then [x]
    else if x < 0x800 then [0xC0 + x / 0x40, 0x80 + x % 0x40]
    else if x < 0x1_0000 then [0xE0 + x / 0x1000, 0x80 + (x / 0x40) % 0x40, 0x80 + x % 0x40]
    else [0xF0 + x / 0x4_0000, 0x80 + (x / 0x1000) % 0x40, 0x80 + (x / 0x40) % 0x40, 0x80 + x % 0x40]
  }

  function Encode(s: string): (r: bytes)
    ensures |r| == Len(s)
  {
    if s == [] then [] else EncodeChar(s[0]) + Encode(s[1..])
  }

  predicate Cont(x: int) { 0x80 <= x <= 0xBF }

  /** The first scalar value of `b` and how many bytes it took, or None if `b` does not start with one. */
  function DecodeChar(b: bytes): Option<(char, nat)>
    requires |b| > 0
  {
    var b0 := b[0] as int;
    var b1 := if |b| > 1 then b[1] as int else 0;
    var b2 := if |b| > 2 then b[2] as int else 0;
    var b3 := if |b| > 3 then b[3] as int else 0;
    if b0 < 0x80 then
      Some((b0 as char, 1))
    else if 0xC2 <= b0 <= 0xDF then
      if |b| >= 2 && Cont(b1) then Some((((b0 - 0xC0) * 0x40 + (b1 - 0x80)) as char, 2)) else None
    else if 0xE0 <= b0 <= 0xEF then
      var lo := if b0 == 0xE0 then 0xA0 else 0x80;
      var hi := if b0 == 0xED then 0x9F else 0xBF;
      if |b| >= 3 && lo <= b1 <= hi && Cont(b2) then
        Some((((b0 - 0xE0) * 0x1000 + (b1 - 0x80) * 0x40 + (b2 - 0x80)) as char, 3))
      else None
    else if 0xF0 <= b0 <= 0xF4 then
      var lo := if b0 == 0xF0 then 0x90 else 0x80;
      var hi := if b0 == 0xF4 then 0x8F else 0xBF;
      if |b| >= 4 && lo <= b1 <= hi && Cont(b2) && Cont(b3) then
        Some((((b0 - 0xF0) * 0x4_0000 + (b1 - 0x80) * 0x1000 + (b2 - 0x80) * 0x40 + (b3 - 0x80)) as char, 4))
      else None
    else
      None
  }

  /** `String::from_utf8`: the decoded string, or None for ill-formed input. */
  function Decode(b: bytes): Option<string>
    decreases |b|
  {
    if b == [] then Some([])
    else match DecodeChar(b)
      case None => None
      case Some((c, n)) =>
        if 1 <= n <= |b| then
          match Decode(b[n..])
          case None => None
          case Some(rest) => Some([c] + rest)
        else None
  }

  lemma DecodeEncodeChar2(x: int, rest: bytes)
    requires 0x80 <= x < 0x800
    ensures 0xC0 + x / 0x40 < 0x100 && 0x80 + x % 0x40 < 0x100
    ensures var b := [0xC0 + x / 0x40, 0x80 + x % 0x40] + rest;
      DecodeChar(b) == Some((x as char, 2))
  {
  }

  lemma DecodeEncodeChar3(x: int, rest: bytes)
    requires 0x800 <= x < 0x1_0000 && !(0xD800 <= x < 0xE000)
    ensures 0xE0 + x / 0x1000 < 0x100
    ensures var b := [0xE0 + x / 0x1000, 0x80 + (x / 0x40) % 0x40, 0x80 + x % 0x40] + rest;
      DecodeChar(b) == Some((x as char, 3))
  {
    var p, q, r := x / 0x1000, (x / 0x40) % 0x40, x % 0x40;
    assert p * 0x1000 + q * 0x40 + r == x;
    assert p == 0 ==> q >= 0x20;
    assert p == 0xD ==> q < 0x20;
  }

  lemma DecodeEncodeChar4(x: int, rest: bytes)
    requires 0x1_0000 <= x < 0x11_0000
    ensures 0xF0 + x / 0x4_0000 < 0x100
    ensures var b := [0xF0 + x / 0x4_0000, 0x80 + (x / 0x1000) % 0x40, 0x80 + (x / 0x40) % 0x40, 0x80 + x % 0x40] + rest;
      DecodeChar(b) == Some((x as char, 4))
  {
    var p, q, r, t := x / 0x4_0000, (x / 0x1000) % 0x40, (x / 0x40) % 0x40, x % 0x40;
    Digits4(x);
    var b := [0xF0 + p, 0x80 + q, 0x80 + r, 0x80 + t] + rest;
    assert b[0] == 0xF0 + p && b[1] == 0x80 + q && b[2] == 0x80 + r && b[3] == 0x80 + t;
  }

  /** The four base-64 digits of a supplementary code point, and the ranges of the first two. */
  lemma Digits4(x: int)
    requires 0x1_0000 <= x < 0x11_0000
    ensures var p, q := x / 0x4_0000, (x / 0x1000) % 0x40;
      p <= 4 && p * 0x4_0000 + q * 0x1000 + ((x / 0x40) % 0x40) * 0x40 + x % 0x40 == x
      && (p == 0 ==> q >= 0x10) && (p == 4 ==> q < 0x10)
  {
    var p, q, r, t := x / 0x4_0000, (x / 0x1000) % 0x40, (x / 0x40) % 0x40, x % 0x40;
    assert p * 0x4_0000 + q * 0x1000 + r * 0x40 + t == x;
    assert p == 0 ==> q >= 0x10;
    assert p == 4 ==> q < 0x10;
  }

  lemma DecodeEncodeChar(c: char, rest: bytes)
    ensures DecodeChar(EncodeChar(c) + rest) == Some((c, CharLen(c)))
  {
    var x := c as int;
    if x < 0x80 {
    } else if x < 0x800 {
      DecodeEncodeChar2(x, rest);
    } else if x < 0x1_0000 {
      DecodeEncodeChar3(x, rest);
    } else {
      DecodeEncodeChar4(x, rest);
    }
  }

  /** Every string survives a trip through its UTF-8 bytes. */
  lemma {:induction false} DecodeEncode(s: string)
    ensures Decode(Encode(s)) == Some(s)
  {
    if s != [] {
      var e, r := EncodeChar(s[0]), Encode(s[1..]);
      DecodeEncodeChar(s[0], r);
      assert (e + r)[|e|..] == r;
      DecodeEncode(s[1..]);
      assert [s[0]] + s[1..] == s;
    }
  }

  lemma {:induction false} LenAppend(s: string, t: string)
    ensures Len(s + t) == Len(s) + Len(t)
  {
    if s != [] {
      assert (s + t)[1..] == s[1..] + t;
      LenAppend(s[1..], t);
    } else {
      assert s + t == t;
    }
  }
}
