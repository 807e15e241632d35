/** CRC-64 "Jones" (reflected) and CRC-16 "XMODEM": the table-driven loops are the
    division of the message by the polynomial, one bit at a time. */
module Crc {
  import opened CrcTables
  import Bitmap

  type Byte = bv8

  /** The polynomial 0xad93d23594c935a9, bits reversed. */
  const POLY64: bv64 := 0x95ac9329ac4bc9b5

  // ---- 64-bit words ----

  function Xor(x: bv64, y: bv64): bv64 {
    x ^ y
  }

  function Wide(b: Byte): bv64 {
    b as bv64
  }

  /** The word without its last byte, and that byte. */
  function High(x: bv64): bv64 {
    x >> 8
  }

  function Low(x: bv64): Byte {
    (x & 0xFF) as Byte
  }

  lemma XorCancels(x: bv64, y: bv64, b: bv64)
    requires Xor(x, b) == Xor(y, b)
    ensures x == y
  {
  }

  // ---- CRC-64: one bit, one byte ----

  function Shift(x: bv64): bv64 {
    if x & 1 == 1 then (x >> 1) ^ POLY64 else x >> 1
  }

  function Shift8(x: bv64): bv64 {
    Shift(Shift(Shift(Shift(Shift(Shift(Shift(Shift(x))))))))
  }

  /** All 256 entries of the table. */
  lemma Tab64IsShift8(b: Byte)
    ensures Tab64(b) == Shift8(Wide(b))
  {
    Bitmap.Nibble(b & 15);
    Bitmap.Nibble(b >> 4);
  }

  lemma ShiftIs(x: bv64)
    ensures x & 1 == 1 ==> Shift(x) == (x >> 1) ^ POLY64
    ensures x & 1 != 1 ==> Shift(x) == x >> 1
  {
  }

  lemma BitLinear(x: bv64, y: bv64)
    ensures (x ^ y) & 1 == 1 <==> (x & 1 == 1) != (y & 1 == 1)
    ensures (x ^ y) >> 1 == (x >> 1) ^ (y >> 1)
  {
  }

  lemma XorLaws(a: bv64, b: bv64, p: bv64)
    ensures (a ^ p) ^ b == (a ^ b) ^ p && (a ^ p) ^ (b ^ p) == a ^ b
  {
  }

  lemma BothOdd(x: bv64, y: bv64)
    requires x & 1 == 1 && y & 1 == 1
    ensures Shift(x ^ y) == Shift(x) ^ Shift(y)
  {
    hide Shift;
    ShiftIs(x); ShiftIs(y); ShiftIs(x ^ y);
    BitLinear(x, y);
    XorLaws(x >> 1, y >> 1, POLY64);
  }

  lemma OneOdd(x: bv64, y: bv64)
    requires x & 1 == 1 && y & 1 != 1
    ensures Shift(x ^ y) == Shift(x) ^ Shift(y) && Shift(y ^ x) == Shift(y) ^ Shift(x)
  {
    hide Shift;
    ShiftIs(x); ShiftIs(y); ShiftIs(x ^ y);
    BitLinear(x, y);
    XorLaws(x >> 1, y >> 1, POLY64);
    Commute(x, y);
    Commute(Shift(x), Shift(y));
  }

  lemma Commute(x: bv64, y: bv64)
    ensures x ^ y == y ^ x
  {
  }

  lemma NoneOdd(x: bv64, y: bv64)
    requires x & 1 != 1 && y & 1 != 1
    ensures Shift(x ^ y) == Shift(x) ^ Shift(y)
  {
    hide Shift;
    ShiftIs(x); ShiftIs(y); ShiftIs(x ^ y);
    BitLinear(x, y);
  }

  lemma ShiftLinear(x: bv64, y: bv64)
    ensures Shift(Xor(x, y)) == Xor(Shift(x), Shift(y))
  {
    hide Shift;
    if x & 1 == 1 && y & 1 == 1 {
      BothOdd(x, y);
    } else if x & 1 == 1 {
      OneOdd(x, y);
    } else if y & 1 == 1 {
      OneOdd(y, x);
    } else {
      NoneOdd(x, y);
    }
  }

  lemma Shift8Linear(x: bv64, y: bv64)
    ensures Shift8(Xor(x, y)) == Xor(Shift8(x), Shift8(y))
  {
    hide Shift, Xor;
    var x1, y1 := Shift(x), Shift(y);
    var x2, y2 := Shift(x1), Shift(y1);
    var x3, y3 := Shift(x2), Shift(y2);
    var x4, y4 := Shift(x3), Shift(y3);
    var x5, y5 := Shift(x4), Shift(y4);
    var x6, y6 := Shift(x5), Shift(y5);
    var x7, y7 := Shift(x6), Shift(y6);
    ShiftLinear(x, y);
    ShiftLinear(x1, y1);
    ShiftLinear(x2, y2);
    ShiftLinear(x3, y3);
    ShiftLinear(x4, y4);
    ShiftLinear(x5, y5);
    ShiftLinear(x6, y6);
    ShiftLinear(x7, y7);
  }

  /** Four zero bits just move the rest down. */
  lemma Shift4OfZeros(x: bv64)
    requires x & 0xF == 0
    ensures Shift(Shift(Shift(Shift(x)))) == x >> 4
  {
  }

  function Clear(x: bv64): bv64 {
    (x >> 8) << 8
  }

  lemma Shift8OfClear(x: bv64)
    ensures Shift8(Clear(x)) == High(x)
  {
    hide Shift;
    var y := Clear(x);
    Shift4OfZeros(y);
    Shift4OfZeros(y >> 4);
  }

  function Unshift(y: bv64): bv64 {
    if y & 0x8000_0000_0000_0000 != 0 then ((y ^ POLY64) << 1) | 1 else y << 1
  }

  /** One step can be undone, so it never merges two states. */
  lemma UnshiftInverts(x: bv64)
    ensures Unshift(Shift(x)) == x
  {
  }

  lemma ShiftInjective(x: bv64, y: bv64)
    requires Shift(x) == Shift(y)
    ensures x == y
  {
    hide Shift, Unshift;
    UnshiftInverts(x);
    UnshiftInverts(y);
  }

  lemma Shift8Injective(x: bv64, y: bv64)
    requires Shift8(x) == Shift8(y)
    ensures x == y
  {
    hide Shift;
    var x1, y1 := Shift(x), Shift(y);
    var x2, y2 := Shift(x1), Shift(y1);
    var x3, y3 := Shift(x2), Shift(y2);
    var x4, y4 := Shift(x3), Shift(y3);
    var x5, y5 := Shift(x4), Shift(y4);
    var x6, y6 := Shift(x5), Shift(y5);
    var x7, y7 := Shift(x6), Shift(y6);
    ShiftInjective(x7, y7);
    ShiftInjective(x6, y6);
    ShiftInjective(x5, y5);
    ShiftInjective(x4, y4);
    ShiftInjective(x3, y3);
    ShiftInjective(x2, y2);
    ShiftInjective(x1, y1);
    ShiftInjective(x, y);
  }

  // ---- CRC-64: messages ----

  /** One byte of the message: add it, then divide eight times. */
  function Step(crc: bv64, b: Byte): bv64 {
    Shift8(Xor(crc, Wide(b)))
  }

  function Crc64(crc: bv64, s: seq<Byte>): bv64 {
    if s == [] then crc else Step(Crc64(crc, s[..|s| - 1]), s[|s| - 1])
  }

  /** One turn of the source's loop. */
  function Lookup(crc: bv64, b: Byte): bv64 {
    Xor(Tab64(Low(crc) ^ b), High(crc))
  }

  lemma LowXor(crc: bv64, b: Byte)
    ensures Xor(Wide(Low(crc) ^ b), Clear(crc)) == Xor(crc, Wide(b))
  {
  }

  lemma LookupIsStep(crc: bv64, b: Byte)
    ensures Lookup(crc, b) == Step(crc, b)
  {
    hide Tab64, Shift8, Low, High, Clear, Xor, Wide;
    var i := Low(crc) ^ b;
    Tab64IsShift8(i);
    LowXor(crc, b);
    Shift8OfClear(crc);
    Shift8Linear(Wide(i), Clear(crc));
  }

  /** `crc64`. */
  method ComputeCrc64(crc: bv64, s: seq<Byte>) returns (r: bv64)
    ensures r == Crc64(crc, s)
  {
    hide Step, Lookup;
    r := crc;
    for j := 0 to |s|
      invariant r == Crc64(crc, s[..j])
    {
      LookupIsStep(r, s[j]);
      assert s[..j + 1][..j] == s[..j];
      r := Lookup(r, s[j]);
    }
    assert s[..|s|] == s;
  }

  lemma {:induction false} Crc64Concat(crc: bv64, s: seq<Byte>, t: seq<Byte>)
    ensures Crc64(crc, s + t) == Crc64(Crc64(crc, s), t)
    decreases |t|
  {
    hide Step;
    if t == [] {
      assert s + t == s;
    } else {
      assert (s + t)[..|s + t| - 1] == s + t[..|t| - 1];
      Crc64Concat(crc, s, t[..|t| - 1]);
    }
  }

  lemma StepInjective(c: bv64, d: bv64, b: Byte)
    requires Step(c, b) == Step(d, b)
    ensures c == d
  {
    hide Shift8, Xor, Wide;
    Shift8Injective(Xor(c, Wide(b)), Xor(d, Wide(b)));
    XorCancels(c, d, Wide(b));
  }

  /** The same bytes keep different states different. */
  lemma {:induction false} Crc64Injective(c: bv64, d: bv64, s: seq<Byte>)
    requires Crc64(c, s) == Crc64(d, s)
    ensures c == d
    decreases |s|
  {
    hide Step;
    if s != [] {
      var b, t := s[|s| - 1], s[..|s| - 1];
      StepInjective(Crc64(c, t), Crc64(d, t), b);
      Crc64Injective(c, d, t);
    }
  }

  // ---- CRC-16 ----

  const POLY16: bv16 := 0x1021

  function Shift16(x: bv16): bv16 {
    if x & 0x8000 != 0 then (x << 1) ^ POLY16 else x << 1
  }

  function Shift16x8(x: bv16): bv16 {
    Shift16(Shift16(Shift16(Shift16(Shift16(Shift16(Shift16(Shift16(x))))))))
  }

  function Xor16(x: bv16, y: bv16): bv16 {
    x ^ y
  }

  /** The byte at the top of the word. */
  function Top(b: Byte): bv16 {
    (b as bv16) << 8
  }

  lemma Tab16IsShift(b: Byte)
    ensures Tab16(b) == Shift16x8(Top(b))
  {
    Bitmap.Nibble(b & 15);
    Bitmap.Nibble(b >> 4);
  }

  lemma Shift16Is(x: bv16)
    ensures x & 0x8000 != 0 ==> Shift16(x) == (x << 1) ^ POLY16
    ensures x & 0x8000 == 0 ==> Shift16(x) == x << 1
  {
  }

  lemma Bit16Linear(x: bv16, y: bv16)
    ensures (x ^ y) & 0x8000 != 0 <==> (x & 0x8000 != 0) != (y & 0x8000 != 0)
    ensures (x ^ y) << 1 == (x << 1) ^ (y << 1)
  {
  }

  lemma Xor16Laws(a: bv16, b: bv16, p: bv16)
    ensures (a ^ p) ^ b == (a ^ b) ^ p && a ^ (b ^ p) == (a ^ b) ^ p && (a ^ p) ^ (b ^ p) == a ^ b
  {
  }

  lemma Shift16Linear(x: bv16, y: bv16)
    ensures Shift16(Xor16(x, y)) == Xor16(Shift16(x), Shift16(y))
  {
    hide Shift16;
    Shift16Is(x);
    Shift16Is(y);
    Shift16Is(x ^ y);
    Bit16Linear(x, y);
    Xor16Laws(x << 1, y << 1, POLY16);
  }

  lemma Shift16x8Linear(x: bv16, y: bv16)
    ensures Shift16x8(Xor16(x, y)) == Xor16(Shift16x8(x), Shift16x8(y))
  {
    hide Shift16, Xor16;
    var x1, y1 := Shift16(x), Shift16(y);
    var x2, y2 := Shift16(x1), Shift16(y1);
    var x3, y3 := Shift16(x2), Shift16(y2);
    var x4, y4 := Shift16(x3), Shift16(y3);
    var x5, y5 := Shift16(x4), Shift16(y4);
    var x6, y6 := Shift16(x5), Shift16(y5);
    var x7, y7 := Shift16(x6), Shift16(y6);
    Shift16Linear(x, y);
    Shift16Linear(x1, y1);
    Shift16Linear(x2, y2);
    Shift16Linear(x3, y3);
    Shift16Linear(x4, y4);
    Shift16Linear(x5, y5);
    Shift16Linear(x6, y6);
    Shift16Linear(x7, y7);
  }

  lemma Shift16OfLow(x: bv16)
    requires x & 0xFF00 == 0
    ensures Shift16x8(x) == x << 8
  {
  }

  /** One byte of the message, most significant bit first. */
  function Step16(crc: bv16, b: Byte): bv16 {
    Shift16x8(Xor16(crc, Top(b)))
  }

  function Crc16(s: seq<Byte>): bv16 {
    if s == [] then 0 else Step16(Crc16(s[..|s| - 1]), s[|s| - 1])
  }

  function Up(crc: bv16): bv16 {
    crc << 8
  }

  function TopByte(crc: bv16): Byte {
    (crc >> 8) as Byte
  }

  /** One turn of the source's loop. */
  function Lookup16(crc: bv16, b: Byte): bv16 {
    Xor16(Up(crc), Tab16(TopByte(crc) ^ b))
  }

  function LowPart(crc: bv16): bv16 {
    crc & 0xFF
  }

  lemma Recombine16(crc: bv16, b: Byte)
    ensures Xor16(LowPart(crc), Top(TopByte(crc) ^ b)) == Xor16(crc, Top(b))
    ensures LowPart(crc) & 0xFF00 == 0 && LowPart(crc) << 8 == Up(crc)
  {
  }

  lemma Lookup16IsStep(crc: bv16, b: Byte)
    ensures Lookup16(crc, b) == Step16(crc, b)
  {
    hide Tab16, Shift16x8, TopByte, Top, Xor16, Up, LowPart;
    var i := TopByte(crc) ^ b;
    Tab16IsShift(i);
    Recombine16(crc, b);
    Shift16OfLow(LowPart(crc));
    Shift16x8Linear(LowPart(crc), Top(i));
  }

  /** `crc16`. */
  method ComputeCrc16(s: seq<Byte>) returns (r: bv16)
    ensures r == Crc16(s)
  {
    hide Step16, Lookup16;
    r := 0;
    for j := 0 to |s|
      invariant r == Crc16(s[..j])
    {
      Lookup16IsStep(r, s[j]);
      assert s[..j + 1][..j] == s[..j];
      r := Lookup16(r, s[j]);
    }
    assert s[..|s|] == s;
  }
}
