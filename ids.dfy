/**
 * Peer identifiers: a `uuid::Uuid` is a 128-bit value, and its `to_string` is the hyphenated
 * lower-case form, 8-4-4-4-12 hexadecimal digits of the value, most significant first.
 */
module Ids {
  /** 16 to the power n. */
  function Pow16(n: nat): (r: nat)
    ensures r >= 1
  {
    if n == 0 then 1 else 16 * Pow16(n - 1)
  }

  const UUID_LIMIT: nat := 0x1_0000_0000_0000_0000_0000_0000_0000_0000

  type Uuid = x: int | 0 <= x < UUID_LIMIT

  const HEX_DIGITS: string := "0123456789abcdef"

  predicate IsHexDigit(c: char)
  {
    c in HEX_DIGITS
  }

  /** The value a lower-case hexadecimal digit stands for. */
  function DigitValue(c: char): (v: nat)
    requires IsHexDigit(c)
    ensures v < 16 && HEX_DIGITS[v] == c
  {
    if '0' <= c <= '9' then c as int - '0' as int else c as int - 'a' as int + 10
  }

  /** `x` written with exactly `width` hexadecimal digits, leading zeros included. */
  function Hex(x: nat, width: nat): (s: string)
    requires x < Pow16(width)
    ensures |s| == width
    ensures forall i :: 0 <= i < |s| ==> IsHexDigit(s[i])
  {
    if width == 0 then [] else Hex(x / 16, width - 1) + [HEX_DIGITS[x % 16]]
  }

  /** The number a string of hexadecimal digits denotes. */
  function HexValue(s: string): nat
    requires forall i :: 0 <= i < |s| ==> IsHexDigit(s[i])
  {
    if s == [] then 0 else HexValue(s[..|s| - 1]) * 16 + DigitValue(s[|s| - 1])
  }

  /** Reading the digits back gives the number written. */
  lemma {:induction false} HexRoundTrip(x: nat, width: nat)
    requires x < Pow16(width)
    ensures HexValue(Hex(x, width)) == x
  {
    if width > 0 {
      var s := Hex(x, width);
      assert s[..|s| - 1] == Hex(x / 16, width - 1);
      HexRoundTrip(x / 16, width - 1);
      assert DigitValue(s[|s| - 1]) == x % 16;
    }
  }

  const P12: nat := 0x1_0000_0000_0000
  const P16: nat := 0x1_0000_0000_0000_0000
  const P20: nat := 0x1_0000_0000_0000_0000_0000
  const P24: nat := 0x1_0000_0000_0000_0000_0000_0000

  /** The five digit groups of an identifier: 32, 16, 16, 16 and 48 bits, most significant first. */
  datatype Groups = Groups(g0: nat, g1: nat, g2: nat, g3: nat, g4: nat)

  function GroupsOf(id: Uuid): (g: Groups)
    ensures g.g0 < Pow16(8) && g.g1 < Pow16(4) && g.g2 < Pow16(4) && g.g3 < Pow16(4) && g.g4 < Pow16(12)
    ensures id == g.g0 * P24 + g.g1 * P20 + g.g2 * P16 + g.g3 * P12 + g.g4
  {
    Pow16Values();
    var r0 := id % P24;
    var r1 := r0 % P20;
    var r2 := r1 % P16;
    Groups(id / P24, r0 / P20, r1 / P16, r2 / P12, r2 % P12)
  }

  /** `Uuid::to_string`: the five hyphen-separated groups of the 32 digits. */
  function UuidText(id: Uuid): (s: string)
    ensures |s| == 36
    ensures s[8] == '-' && s[13] == '-' && s[18] == '-' && s[23] == '-'
  {
    var g := GroupsOf(id);
    Hex(g.g0, 8) + "-" + Hex(g.g1, 4) + "-" + Hex(g.g2, 4) + "-" + Hex(g.g3, 4) + "-" + Hex(g.g4, 12)
  }

  /** The text gives the identifier back, so distinct peers are reported with distinct text. */
  lemma UuidTextInjective(a: Uuid, b: Uuid)
    requires UuidText(a) == UuidText(b)
    ensures a == b
  {
    TextDetermines(a);
    TextDetermines(b);
  }

  /** Each digit group reads back from its slice of the text. */
  lemma TextDetermines(id: Uuid)
    ensures var s := UuidText(id); var g := GroupsOf(id);
      (forall i :: 0 <= i < |s| && i !in {8, 13, 18, 23} ==> IsHexDigit(s[i]))
      && g.g0 == HexValue(s[0..8]) && g.g1 == HexValue(s[9..13]) && g.g2 == HexValue(s[14..18])
      && g.g3 == HexValue(s[19..23]) && g.g4 == HexValue(s[24..36])
  {
    var s := UuidText(id);
    var g := GroupsOf(id);
    TextSlices(id);
    HexRoundTrip(g.g0, 8);
    HexRoundTrip(g.g1, 4);
    HexRoundTrip(g.g2, 4);
    HexRoundTrip(g.g3, 4);
    HexRoundTrip(g.g4, 12);
  }

  lemma TextSlices(id: Uuid)
    ensures var s := UuidText(id); var g := GroupsOf(id);
      s[0..8] == Hex(g.g0, 8) && s[9..13] == Hex(g.g1, 4) && s[14..18] == Hex(g.g2, 4)
      && s[19..23] == Hex(g.g3, 4) && s[24..36] == Hex(g.g4, 12)
  {
  }

  lemma Pow16Values()
    ensures Pow16(4) == 0x1_0000 && Pow16(8) == 0x1_0000_0000 && Pow16(12) == P12
  {
    assert Pow16(4) == 0x1_0000;
    assert Pow16(8) == 0x1_0000_0000;
  }
}
