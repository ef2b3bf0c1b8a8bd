/**
 * github.com/google/uuid as the pooling core uses it: a UUID is 128 bits,
 * and String() renders it as 32 lower-case hex digits in 8-4-4-4-12 groups.
 * The core keys its maps and cache entries by that text, so the rendering
 * being injective is what makes key collisions impossible.
 */
module Uuids {
  newtype Uuid = x: int | 0 <= x < 0x1_0000_0000_0000_0000_0000_0000_0000_0000

  /** uuid.Nil */
  const Nil: Uuid := 0

  predicate IsHexDigit(c: char) {
    '0' <= c <= '9' || 'a' <= c <= 'f'
  }

  function HexDigitValue(c: char): (d: int)
    requires IsHexDigit(c)
    ensures 0 <= d < 16
  {
    if c <= '9' then c as int - '0' as int else c as int - 'a' as int + 10
  }

  function HexChar(d: int): (c: char)
    requires 0 <= d < 16
    ensures IsHexDigit(c) && HexDigitValue(c) == d
  {
    if d < 10 then ('0' as int + d) as char else ('a' as int + d - 10) as char
  }

  function Pow16(w: nat): (p: nat)
    ensures p >= 1
  {
    if w == 0 then 1 else 16 * Pow16(w - 1)
  }

  /** The `width` low-order hex digits of `n`, most significant first. */
  function HexDigits(n: nat, width: nat): (s: string)
    ensures |s| == width
    ensures forall i :: 0 <= i < |s| ==> IsHexDigit(s[i])
  {
    if width == 0 then "" else HexDigits(n / 16, width - 1) + [HexChar(n % 16)]
  }

  /** The number a string of hex digits denotes. */
  function HexValue(s: string): (n: nat)
    requires forall i :: 0 <= i < |s| ==> IsHexDigit(s[i])
  {
    if s == "" then 0 else HexValue(s[..|s| - 1]) * 16 + HexDigitValue(s[|s| - 1])
  }

  /** Reading back `width` hex digits gives the number, when it fits. */
  lemma {:induction false} HexRoundTrip(n: nat, width: nat)
    requires n < Pow16(width)
    ensures HexValue(HexDigits(n, width)) == n
  {
    if width > 0 {
      var s := HexDigits(n, width);
      assert s[..|s| - 1] == HexDigits(n / 16, width - 1);
      HexRoundTrip(n / 16, width - 1);
    }
  }

  /** Position of the string a hex digit of the rendering lands on: a dash precedes groups 2 to 5. */
  function TextPosition(j: int): int {
    j + (if j < 8 then 0 else if j < 12 then 1 else if j < 16 then 2 else if j < 20 then 3 else 4)
  }

  predicate IsDashPosition(i: int) {
    i == 8 || i == 13 || i == 18 || i == 23
  }

  /** The hex digit shown at position `i` of the rendering, when `i` is not a dash. */
  function DigitIndex(i: int): int {
    i - (if i < 8 then 0 else if i < 13 then 1 else if i < 18 then 2 else if i < 23 then 3 else 4)
  }

  /** uuid.UUID.String() */
  function UuidString(u: Uuid): (s: string)
    ensures |s| == 36
    ensures forall i :: 0 <= i < 36 && IsDashPosition(i) ==> s[i] == '-'
    ensures forall i :: 0 <= i < 36 && !IsDashPosition(i) ==> IsHexDigit(s[i])
  {
    var h := HexDigits(u as nat, 32);
    seq(36, i requires 0 <= i < 36 => if IsDashPosition(i) then '-' else h[DigitIndex(i)])
  }

  /** Every digit of the 32-digit form shows up in the text. */
  lemma DigitsShown(u: Uuid, j: int)
    requires 0 <= j < 32
    ensures 0 <= TextPosition(j) < 36 && UuidString(u)[TextPosition(j)] == HexDigits(u as nat, 32)[j]
  {
    assert !IsDashPosition(TextPosition(j)) && DigitIndex(TextPosition(j)) == j;
  }

  lemma {:induction false} Pow16Add(a: nat, b: nat)
    ensures Pow16(a + b) == Pow16(a) * Pow16(b)
    decreases a
  {
    if a > 0 {
      Pow16Add(a - 1, b);
    }
  }

  lemma Pow16Of32()
    ensures Pow16(32) == 0x1_0000_0000_0000_0000_0000_0000_0000_0000
  {
    assert Pow16(4) == 0x1_0000;
    Pow16Add(4, 4);
    Pow16Add(8, 8);
    Pow16Add(16, 16);
  }

  /** Distinct UUIDs have distinct texts. */
  lemma UuidStringInjective(u: Uuid, v: Uuid)
    requires UuidString(u) == UuidString(v)
    ensures u == v
  {
    var hu, hv := HexDigits(u as nat, 32), HexDigits(v as nat, 32);
    forall j | 0 <= j < 32 ensures hu[j] == hv[j] {
      DigitsShown(u, j);
      DigitsShown(v, j);
    }
    assert hu == hv;
    Pow16Of32();
    HexRoundTrip(u as nat, 32);
    HexRoundTrip(v as nat, 32);
  }
}
