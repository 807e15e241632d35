/** Counting set bits (`redisPopcount`): seven 32-bit words at a time, with byte sums
    that never carry into the next byte. */
module Popcount {
  import opened Bitmap

  function Row0(lo: bv8): nat {
    if lo == 0 then 0 else if lo == 1 then 1 else if lo == 2 then 1 else if lo == 3 then 2 else
    if lo == 4 then 1 else if lo == 5 then 2 else if lo == 6 then 2 else if lo == 7 then 3 else
    if lo == 8 then 1 else if lo == 9 then 2 else if lo == 10 then 2 else if lo == 11 then 3 else
    if lo == 12 then 2 else if lo == 13 then 3 else if lo == 14 then 3 else 4
  }

  function Row1(lo: bv8): nat {
    if lo == 0 then 1 else if lo == 1 then 2 else if lo == 2 then 2 else if lo == 3 then 3 else
    if lo == 4 then 2 else if lo == 5 then 3 else if lo == 6 then 3 else if lo == 7 then 4 else
    if lo == 8 then 2 else if lo == 9 then 3 else if lo == 10 then 3 else if lo == 11 then 4 else
    if lo == 12 then 3 else if lo == 13 then 4 else if lo == 14 then 4 else 5
  }

  function Row2(lo: bv8): nat {
    if lo == 0 then 1 else if lo == 1 then 2 else if lo == 2 then 2 else if lo == 3 then 3 else
    if lo == 4 then 2 else if lo == 5 then 3 else if lo == 6 then 3 else if lo == 7 then 4 else
    if lo == 8 then 2 else if lo == 9 then 3 else if lo == 10 then 3 else if lo == 11 then 4 else
    if lo == 12 then 3 else if lo == 13 then 4 else if lo == 14 then 4 else 5
  }

  function Row3(lo: bv8): nat {
    if lo == 0 then 2 else if lo == 1 then 3 else if lo == 2 then 3 else if lo == 3 then 4 else
    if lo == 4 then 3 else if lo == 5 then 4 else if lo == 6 then 4 else if lo == 7 then 5 else
    if lo == 8 then 3 else if lo == 9 then 4 else if lo == 10 then 4 else if lo == 11 then 5 else
    if lo == 12 then 4 else if lo == 13 then 5 else if lo == 14 then 5 else 6
  }

  function Row4(lo: bv8): nat {
    if lo == 0 then 1 else if lo == 1 then 2 else if lo == 2 then 2 else if lo == 3 then 3 else
    if lo == 4 then 2 else if lo == 5 then 3 else if lo == 6 then 3 else if lo == 7 then 4 else
    if lo == 8 then 2 else if lo == 9 then 3 else if lo == 10 then 3 else if lo == 11 then 4 else
    if lo == 12 then 3 else if lo == 13 then 4 else if lo == 14 then 4 else 5
  }

  function Row5(lo: bv8): nat {
    if lo == 0 then 2 else if lo == 1 then 3 else if lo == 2 then 3 else if lo == 3 then 4 else
    if lo == 4 then 3 else if lo == 5 then 4 else if lo == 6 then 4 else if lo == 7 then 5 else
    if lo == 8 then 3 else if lo == 9 then 4 else if lo == 10 then 4 else if lo == 11 then 5 else
    if lo == 12 then 4 else if lo == 13 then 5 else if lo == 14 then 5 else 6
  }

  function Row6(lo: bv8): nat {
    if lo == 0 then 2 else if lo == 1 then 3 else if lo == 2 then 3 else if lo == 3 then 4 else
    if lo == 4 then 3 else if lo == 5 then 4 else if lo == 6 then 4 else if lo == 7 then 5 else
    if lo == 8 then 3 else if lo == 9 then 4 else if lo == 10 then 4 else if lo == 11 then 5 else
    if lo == 12 then 4 else if lo == 13 then 5 else if lo == 14 then 5 else 6
  }

  function Row7(lo: bv8): nat {
    if lo == 0 then 3 else if lo == 1 then 4 else if lo == 2 then 4 else if lo == 3 then 5 else
    if lo == 4 then 4 else if lo == 5 then 5 else if lo == 6 then 5 else if lo == 7 then 6 else
    if lo == 8 then 4 else if lo == 9 then 5 else if lo == 10 then 5 else if lo == 11 then 6 else
    if lo == 12 then 5 else if lo == 13 then 6 else if lo == 14 then 6 else 7
  }

  function Row8(lo: bv8): nat {
    if lo == 0 then 1 else if lo == 1 then 2 else if lo == 2 then 2 else if lo == 3 then 3 else
    if lo == 4 then 2 else if lo == 5 then 3 else if lo == 6 then 3 else if lo == 7 then 4 else
    if lo == 8 then 2 else if lo == 9 then 3 else if lo == 10 then 3 else if lo == 11 then 4 else
    if lo == 12 then 3 else if lo == 13 then 4 else if lo == 14 then 4 else 5
  }

  function Row9(lo: bv8): nat {
    if lo == 0 then 2 else if lo == 1 then 3 else if lo == 2 then 3 else if lo == 3 then 4 else
    if lo == 4 then 3 else if lo == 5 then 4 else if lo == 6 then 4 else if lo == 7 then 5 else
    if lo == 8 then 3 else if lo == 9 then 4 else if lo == 10 then 4 else if lo == 11 then 5 else
    if lo == 12 then 4 else if lo == 13 then 5 else if lo == 14 then 5 else 6
  }

  function RowA(lo: bv8): nat {
    if lo == 0 then 2 else if lo == 1 then 3 else if lo == 2 then 3 else if lo == 3 then 4 else
    if lo == 4 then 3 else if lo == 5 then 4 else if lo == 6 then 4 else if lo == 7 then 5 else
    if lo == 8 then 3 else if lo == 9 then 4 else if lo == 10 then 4 else if lo == 11 then 5 else
    if lo == 12 then 4 else if lo == 13 then 5 else if lo == 14 then 5 else 6
  }

  function RowB(lo: bv8): nat {
    if lo == 0 then 3 else if lo == 1 then 4 else if lo == 2 then 4 else if lo == 3 then 5 else
    if lo == 4 then 4 else if lo == 5 then 5 else if lo == 6 then 5 else if lo == 7 then 6 else
    if lo == 8 then 4 else if lo == 9 then 5 else if lo == 10 then 5 else if lo == 11 then 6 else
    if lo == 12 then 5 else if lo == 13 then 6 else if lo == 14 then 6 else 7
  }

  function RowC(lo: bv8): nat {
    if lo == 0 then 2 else if lo == 1 then 3 else if lo == 2 then 3 else if lo == 3 then 4 else
    if lo == 4 then 3 else if lo == 5 then 4 else if lo == 6 then 4 else if lo == 7 then 5 else
    if lo == 8 then 3 else if lo == 9 then 4 else if lo == 10 then 4 else if lo == 11 then 5 else
    if lo == 12 then 4 else if lo == 13 then 5 else if lo == 14 then 5 else 6
  }

  function RowD(lo: bv8): nat {
    if lo == 0 then 3 else if lo == 1 then 4 else if lo == 2 then 4 else if lo == 3 then 5 else
    if lo == 4 then 4 else if lo == 5 then 5 else if lo == 6 then 5 else if lo == 7 then 6 else
    if lo == 8 then 4 else if lo == 9 then 5 else if lo == 10 then 5 else if lo == 11 then 6 else
    if lo == 12 then 5 else if lo == 13 then 6 else if lo == 14 then 6 else 7
  }

  function RowE(lo: bv8): nat {
    if lo == 0 then 3 else if lo == 1 then 4 else if lo == 2 then 4 else if lo == 3 then 5 else
    if lo == 4 then 4 else if lo == 5 then 5 else if lo == 6 then 5 else if lo == 7 then 6 else
    if lo == 8 then 4 else if lo == 9 then 5 else if lo == 10 then 5 else if lo == 11 then 6 else
    if lo == 12 then 5 else if lo == 13 then 6 else if lo == 14 then 6 else 7
  }

  function RowF(lo: bv8): nat {
    if lo == 0 then 4 else if lo == 1 then 5 else if lo == 2 then 5 else if lo == 3 then 6 else
    if lo == 4 then 5 else if lo == 5 then 6 else if lo == 6 then 6 else if lo == 7 then 7 else
    if lo == 8 then 5 else if lo == 9 then 6 else if lo == 10 then 6 else if lo == 11 then 7 else
    if lo == 12 then 6 else if lo == 13 then 7 else if lo == 14 then 7 else 8
  }

  /** `bitsinbyte`. */
  function BitsInByte(b: bv8): nat {
    var hi, lo := b >> 4, b & 0x0F;
    if hi == 0 then Row0(lo) else if hi == 1 then Row1(lo) else
    if hi == 2 then Row2(lo) else if hi == 3 then Row3(lo) else
    if hi == 4 then Row4(lo) else if hi == 5 then Row5(lo) else
    if hi == 6 then Row6(lo) else if hi == 7 then Row7(lo) else
    if hi == 8 then Row8(lo) else if hi == 9 then Row9(lo) else
    if hi == 10 then RowA(lo) else if hi == 11 then RowB(lo) else
    if hi == 12 then RowC(lo) else if hi == 13 then RowD(lo) else
    if hi == 14 then RowE(lo) else RowF(lo)
  }

  function One(b: bool): nat {
    if b then 1 else 0
  }

  /** The set bits of a byte. */
  function Ones(x: bv8): nat {
    One(Bit(x, 0)) + One(Bit(x, 1)) + One(Bit(x, 2)) + One(Bit(x, 3))
    + One(Bit(x, 4)) + One(Bit(x, 5)) + One(Bit(x, 6)) + One(Bit(x, 7))
  }

  /** The set bits of a string. */
  function CountOnes(s: seq<bv8>): nat {
    if s == [] then 0 else CountOnes(s[..|s| - 1]) + Ones(s[|s| - 1])
  }

  lemma OnesBound(x: bv8)
    ensures Ones(x) <= 8
  {
    hide Bit;
  }

  /** All 256 entries of the table. */
  lemma TableIsOnes(b: bv8)
    ensures BitsInByte(b) == Ones(b)
  {
    Nibble(b & 15);
    Nibble(b >> 4);
  }

  // ---- bytes as numbers ----

  function Num(x: bv8): nat {
    One(Bit(x, 0)) + 2 * One(Bit(x, 1)) + 4 * One(Bit(x, 2)) + 8 * One(Bit(x, 3))
    + 16 * One(Bit(x, 4)) + 32 * One(Bit(x, 5)) + 64 * One(Bit(x, 6)) + 128 * One(Bit(x, 7))
  }

  function Add8(x: bv8, y: bv8): bv8 {
    x + y
  }

  lemma Successor(x: bv8)
    requires x != 255
    ensures Num(Add8(x, 1)) == Num(x) + 1
  {
  }

  lemma NumFacts(x: bv8)
    ensures (x == 0 <==> Num(x) == 0) && (x == 255 <==> Num(x) == 255) && (x < 128 <==> Num(x) < 128) && Num(x) <= 255
  {
  }

  lemma Zero(x: bv8)
    ensures Add8(x, 0) == x
  {
  }

  /** The byte below a positive one. */
  lemma Predecessor(y: bv8) returns (z: bv8)
    requires y != 0
    ensures z != 255 && y == Add8(z, 1) && forall x :: Add8(x, y) == Add8(Add8(x, 1), z)
  {
    z := y - 1;
  }

  /** Adding bytes adds the numbers, as long as the sum fits. */
  lemma {:induction false} AddBytes(x: bv8, y: bv8)
    requires Num(x) + Num(y) <= 255
    ensures Num(Add8(x, y)) == Num(x) + Num(y)
    decreases Num(y)
  {
    hide Num, Add8;
    NumFacts(x);
    NumFacts(y);
    if y == 0 {
      Zero(x);
    } else {
      var z := Predecessor(y);
      Successor(x);
      Successor(z);
      AddBytes(Add8(x, 1), z);
    }
  }

  // ---- one word ----

  /** The word in memory, its bytes in order. */
  function Word(b0: bv8, b1: bv8, b2: bv8, b3: bv8): bv32 {
    (b0 as bv32) | ((b1 as bv32) << 8) | ((b2 as bv32) << 16) | ((b3 as bv32) << 24)
  }

  function Pairs(x: bv32): bv32 {
    x - ((x >> 1) & 0x55555555)
  }

  function Quads(x: bv32): bv32 {
    (x & 0x33333333) + ((x >> 2) & 0x33333333)
  }

  function Sums(x: bv32): bv32 {
    (x + (x >> 4)) & 0x0F0F0F0F
  }

  /** The same on one byte. */
  function Pairs8(x: bv8): bv8 {
    (x & 0x55) + ((x >> 1) & 0x55)
  }

  function Quads8(x: bv8): bv8 {
    (x & 0x33) + ((x >> 2) & 0x33)
  }

  function Sums8(x: bv8): bv8 {
    (x + (x >> 4)) & 0x0F
  }

  lemma PairsIs(x: bv32, odd: bv32)
    requires odd == (x >> 1) & 0x55555555
    ensures Pairs(x) == (x & 0x55555555) + odd
  {
  }

  lemma PairSums(b0: bv8, b1: bv8, b2: bv8, b3: bv8)
    ensures (Word(b0, b1, b2, b3) & 0x55555555) + ((Word(b0, b1, b2, b3) >> 1) & 0x55555555)
         == Word(Pairs8(b0), Pairs8(b1), Pairs8(b2), Pairs8(b3))
  {
  }

  lemma PairsLanes(b0: bv8, b1: bv8, b2: bv8, b3: bv8)
    ensures Pairs(Word(b0, b1, b2, b3)) == Word(Pairs8(b0), Pairs8(b1), Pairs8(b2), Pairs8(b3))
  {
    PairsIs(Word(b0, b1, b2, b3), (Word(b0, b1, b2, b3) >> 1) & 0x55555555);
    hide Pairs;
    PairSums(b0, b1, b2, b3);
  }

  lemma QuadsLanes(b0: bv8, b1: bv8, b2: bv8, b3: bv8)
    ensures Quads(Word(b0, b1, b2, b3)) == Word(Quads8(b0), Quads8(b1), Quads8(b2), Quads8(b3))
  {
  }

  lemma SumsLanes(b0: bv8, b1: bv8, b2: bv8, b3: bv8)
    requires b0 & 0x88 == 0 && b1 & 0x88 == 0 && b2 & 0x88 == 0 && b3 & 0x88 == 0
    ensures Sums(Word(b0, b1, b2, b3)) == Word(Sums8(b0), Sums8(b1), Sums8(b2), Sums8(b3))
  {
  }

  lemma QuadsSmall(b: bv8)
    ensures Quads8(Pairs8(b)) & 0x88 == 0
  {
  }

  function Pop8(b: bv8): bv8 {
    Sums8(Quads8(Pairs8(b)))
  }

  function Pop32(x: bv32): bv32 {
    Sums(Quads(Pairs(x)))
  }

  /** No byte of a word is counted into its neighbour. */
  lemma PopLanes(b0: bv8, b1: bv8, b2: bv8, b3: bv8)
    ensures Pop32(Word(b0, b1, b2, b3)) == Word(Pop8(b0), Pop8(b1), Pop8(b2), Pop8(b3))
  {
    hide Pairs, Quads, Sums, Pairs8, Quads8, Sums8, Word;
    PairsLanes(b0, b1, b2, b3);
    QuadsLanes(Pairs8(b0), Pairs8(b1), Pairs8(b2), Pairs8(b3));
    QuadsSmall(b0); QuadsSmall(b1); QuadsSmall(b2); QuadsSmall(b3);
    SumsLanes(Quads8(Pairs8(b0)), Quads8(Pairs8(b1)), Quads8(Pairs8(b2)), Quads8(Pairs8(b3)));
  }

  lemma Pop8IsOnes(b: bv8)
    ensures Num(Pop8(b)) == Ones(b)
  {
    Nibble(b & 15);
    Nibble(b >> 4);
  }

  // ---- seven words ----

  lemma AddWords(a0: bv8, a1: bv8, a2: bv8, a3: bv8, b0: bv8, b1: bv8, b2: bv8, b3: bv8)
    requires a0 < 128 && a1 < 128 && a2 < 128 && a3 < 128 && b0 < 128 && b1 < 128 && b2 < 128 && b3 < 128
    ensures Word(a0, a1, a2, a3) + Word(b0, b1, b2, b3) == Word(a0 + b0, a1 + b1, a2 + b2, a3 + b3)
  {
  }

  function Add32(x: bv32, y: bv32): bv32 {
    x + y
  }

  function Spread(w: bv32): bv32 {
    w * 0x01010101
  }

  lemma AddLanes(a0: bv8, a1: bv8, a2: bv8, a3: bv8, b0: bv8, b1: bv8, b2: bv8, b3: bv8)
    requires a0 < 128 && a1 < 128 && a2 < 128 && a3 < 128 && b0 < 128 && b1 < 128 && b2 < 128 && b3 < 128
    ensures Add32(Word(a0, a1, a2, a3), Word(b0, b1, b2, b3))
         == Word(Add8(a0, b0), Add8(a1, b1), Add8(a2, b2), Add8(a3, b3))
  {
    hide Word;
    AddWords(a0, a1, a2, a3, b0, b1, b2, b3);
  }

  lemma SpreadOf(x: bv32)
    ensures Spread(x) == x * 0x01010101
  {
  }

  lemma SpreadOfSum(x: bv32, y: bv32)
    ensures Spread(x + y) == (x + y) * 0x01010101
  {
  }

  lemma SpreadAdded(x: bv32, y: bv32)
    ensures Spread(x + y) == Add32(Spread(x), Spread(y))
  {
    hide Spread;
    SpreadOfSum(x, y);
    SpreadOf(x);
    SpreadOf(y);
  }

  lemma SpreadAdds(x: bv32, y: bv32)
    ensures Spread(Add32(x, y)) == Add32(Spread(x), Spread(y))
  {
    hide Spread;
    SpreadAdded(x, y);
  }

  lemma SpreadByte0(a: bv8)
    ensures Spread(Word(a, 0, 0, 0)) == Word(a, a, a, a)
  {
  }

  lemma SpreadByte1(a: bv8)
    ensures Spread(Word(0, a, 0, 0)) == Word(0, a, a, a)
  {
  }

  lemma SpreadByte2(a: bv8)
    ensures Spread(Word(0, 0, a, 0)) == Word(0, 0, a, a)
  {
  }

  lemma SpreadByte3(a: bv8)
    ensures Spread(Word(0, 0, 0, a)) == Word(0, 0, 0, a)
  {
  }

  /** The top byte of a word. */
  function Top(w: bv32): bv8 {
    (w >> 24) as bv8
  }

  lemma TopOfWord(a0: bv8, a1: bv8, a2: bv8, a3: bv8)
    ensures Top(Word(a0, a1, a2, a3)) == a3
  {
  }

  /** Four bytes side by side. */
  datatype Lanes = Lanes(b0: bv8, b1: bv8, b2: bv8, b3: bv8)
  {
    function Packed(): bv32 {
      Word(b0, b1, b2, b3)
    }

    function Total(): nat {
      Num(b0) + Num(b1) + Num(b2) + Num(b3)
    }

    predicate AtMost(n: nat) {
      Num(b0) <= n && Num(b1) <= n && Num(b2) <= n && Num(b3) <= n
    }

    function Plus(o: Lanes): Lanes {
      Lanes(Add8(b0, o.b0), Add8(b1, o.b1), Add8(b2, o.b2), Add8(b3, o.b3))
    }

    function Popped(): Lanes {
      Lanes(Pop8(b0), Pop8(b1), Pop8(b2), Pop8(b3))
    }

    function SetBits(): nat {
      Ones(b0) + Ones(b1) + Ones(b2) + Ones(b3)
    }
  }

  lemma PlusIsSum(l: Lanes, m: Lanes, n: nat, k: nat)
    requires l.AtMost(n) && m.AtMost(k) && n <= 112 && k <= 112
    ensures Add32(l.Packed(), m.Packed()) == l.Plus(m).Packed()
    ensures l.Plus(m).Total() == l.Total() + m.Total() && l.Plus(m).AtMost(n + k)
  {
    hide Num, Word, Add8, Add32;
    NumFacts(l.b0); NumFacts(l.b1); NumFacts(l.b2); NumFacts(l.b3);
    NumFacts(m.b0); NumFacts(m.b1); NumFacts(m.b2); NumFacts(m.b3);
    AddLanes(l.b0, l.b1, l.b2, l.b3, m.b0, m.b1, m.b2, m.b3);
    AddBytes(l.b0, m.b0);
    AddBytes(l.b1, m.b1);
    AddBytes(l.b2, m.b2);
    AddBytes(l.b3, m.b3);
  }

  lemma PoppedIsCount(l: Lanes)
    ensures Pop32(l.Packed()) == l.Popped().Packed() && l.Popped().Total() == l.SetBits() && l.Popped().AtMost(8)
  {
    hide Num, Word, Pop32, Pop8, Ones;
    PopLanes(l.b0, l.b1, l.b2, l.b3);
    Pop8IsOnes(l.b0); Pop8IsOnes(l.b1); Pop8IsOnes(l.b2); Pop8IsOnes(l.b3);
    OnesBound(l.b0); OnesBound(l.b1); OnesBound(l.b2); OnesBound(l.b3);
  }

  lemma SpreadPlus(l: Lanes, m: Lanes, l1: Lanes, m1: Lanes, n: nat, k: nat)
    requires l.AtMost(n) && m.AtMost(n) && l1.AtMost(k) && m1.AtMost(k) && n <= 112 && k <= 112
    requires Spread(l.Packed()) == l1.Packed() && Spread(m.Packed()) == m1.Packed()
    ensures Spread(l.Plus(m).Packed()) == l1.Plus(m1).Packed() && l1.Plus(m1).AtMost(k + k)
  {
    hide Lanes.Packed, Lanes.Total, Lanes.AtMost, Lanes.Plus, Spread, Add32;
    PlusIsSum(l, m, n, n);
    PlusIsSum(l1, m1, k, k);
    SpreadAdds(l.Packed(), m.Packed());
  }

  lemma AddZeros(a: bv8, b: bv8, c: bv8, d: bv8)
    ensures Lanes(a, 0, 0, 0).Plus(Lanes(0, b, 0, 0)) == Lanes(a, b, 0, 0)
    ensures Lanes(0, 0, c, 0).Plus(Lanes(0, 0, 0, d)) == Lanes(0, 0, c, d)
    ensures Lanes(a, b, 0, 0).Plus(Lanes(0, 0, c, d)) == Lanes(a, b, c, d)
  {
  }

  lemma SpreadLow(a: bv8, b: bv8)
    requires Num(a) <= 56 && Num(b) <= 56
    ensures var r := Lanes(a, a, a, a).Plus(Lanes(0, b, b, b));
            Spread(Lanes(a, b, 0, 0).Packed()) == r.Packed() && r.AtMost(112)
  {
    hide Num, Word, Spread, Add8, Add32, Lanes.Plus;
    NumFacts(0);
    SpreadByte0(a);
    SpreadByte1(b);
    AddZeros(a, b, 0, 0);
    SpreadPlus(Lanes(a, 0, 0, 0), Lanes(0, b, 0, 0), Lanes(a, a, a, a), Lanes(0, b, b, b), 56, 56);
  }

  lemma SpreadHigh(c: bv8, d: bv8)
    requires Num(c) <= 56 && Num(d) <= 56
    ensures var r := Lanes(0, 0, c, c).Plus(Lanes(0, 0, 0, d));
            Spread(Lanes(0, 0, c, d).Packed()) == r.Packed() && r.AtMost(112)
  {
    hide Num, Word, Spread, Add8, Add32, Lanes.Plus;
    NumFacts(0);
    SpreadByte2(c);
    SpreadByte3(d);
    AddZeros(0, 0, c, d);
    SpreadPlus(Lanes(0, 0, c, 0), Lanes(0, 0, 0, d), Lanes(0, 0, c, c), Lanes(0, 0, 0, d), 56, 56);
  }

  lemma TopOfSum(low: Lanes, high: Lanes)
    requires Num(low.b3) + Num(high.b3) <= 255
    ensures Num(Top(low.Plus(high).Packed())) == Num(low.b3) + Num(high.b3)
  {
    hide Num, Word, Top, Add8;
    var all := low.Plus(high);
    TopOfWord(all.b0, all.b1, all.b2, all.b3);
    AddBytes(low.b3, high.b3);
  }

  /** The multiplication gathers the four byte sums in the top byte. */
  lemma GatherBytes(l: Lanes)
    requires l.AtMost(56)
    ensures Num(Top(Spread(l.Packed()))) == l.Total()
  {
    hide Num, Word, Top, Spread, Add8, Add32, Lanes.Packed;
    NumFacts(0);
    var low := Lanes(l.b0, l.b0, l.b0, l.b0).Plus(Lanes(0, l.b1, l.b1, l.b1));
    var high := Lanes(0, 0, l.b2, l.b2).Plus(Lanes(0, 0, 0, l.b3));
    SpreadLow(l.b0, l.b1);
    SpreadHigh(l.b2, l.b3);
    AddZeros(l.b0, l.b1, l.b2, l.b3);
    SpreadPlus(Lanes(l.b0, l.b1, 0, 0), Lanes(0, 0, l.b2, l.b3), low, high, 56, 112);
    AddBytes(l.b0, l.b1);
    AddBytes(l.b2, l.b3);
    TopOfSum(low, high);
  }

  /** The sum of the popped words, and its bytes. */
  function SumOf(ws: seq<Lanes>): bv32 {
    if ws == [] then 0 else Add32(SumOf(ws[..|ws| - 1]), Pop32(ws[|ws| - 1].Packed()))
  }

  function LanesOf(ws: seq<Lanes>): Lanes {
    if ws == [] then Lanes(0, 0, 0, 0) else LanesOf(ws[..|ws| - 1]).Plus(ws[|ws| - 1].Popped())
  }

  function SetBitsOf(ws: seq<Lanes>): nat {
    if ws == [] then 0 else SetBitsOf(ws[..|ws| - 1]) + ws[|ws| - 1].SetBits()
  }

  lemma NoLanes()
    ensures Lanes(0, 0, 0, 0).Packed() == 0 && Lanes(0, 0, 0, 0).Total() == 0 && Lanes(0, 0, 0, 0).AtMost(0)
  {
    NumFacts(0);
  }

  lemma {:induction false} SumOfLanes(ws: seq<Lanes>)
    requires |ws| <= 7
    ensures SumOf(ws) == LanesOf(ws).Packed() && LanesOf(ws).Total() == SetBitsOf(ws) && LanesOf(ws).AtMost(8 * |ws|)
  {
    if ws == [] {
      NoLanes();
    } else {
      var n := |ws| - 1;
      SumOfLanes(ws[..n]);
      hide Lanes.Packed, Lanes.Total, Lanes.AtMost, Lanes.Plus, Lanes.Popped, Lanes.SetBits, Pop32, Add32;
      PoppedIsCount(ws[n]);
      PlusIsSum(LanesOf(ws[..n]), ws[n].Popped(), 8 * n, 8);
    }
  }

  /** Seven words: what the expression of the source adds to the count. */
  lemma SevenWords(ws: seq<Lanes>)
    requires |ws| == 7
    ensures Num(Top(Spread(SumOf(ws)))) == SetBitsOf(ws)
  {
    hide Lanes.Packed, Lanes.Total, Lanes.AtMost, SumOf, LanesOf, SetBitsOf, Num, Top, Spread;
    SumOfLanes(ws);
    GatherBytes(LanesOf(ws));
  }

  // ---- the loops ----

  lemma CountNext(s: seq<bv8>, i: nat)
    requires i < |s|
    ensures CountOnes(s[..i + 1]) == CountOnes(s[..i]) + Ones(s[i])
  {
    assert s[..i + 1][..i] == s[..i];
  }

  lemma CountFour(s: seq<bv8>, i: nat)
    requires i + 4 <= |s|
    ensures CountOnes(s[..i + 4]) == CountOnes(s[..i]) + Ones(s[i]) + Ones(s[i + 1]) + Ones(s[i + 2]) + Ones(s[i + 3])
  {
    hide CountOnes, Ones;
    CountNext(s, i);
    CountNext(s, i + 1);
    CountNext(s, i + 2);
    CountNext(s, i + 3);
  }

  /** One turn of the main loop: 28 bytes from i. */
  method CountSeven(s: seq<bv8>, i: nat) returns (bits: nat)
    requires i + 28 <= |s|
    ensures bits == CountOnes(s[..i + 28]) - CountOnes(s[..i])
  {
    hide CountOnes, Ones, Lanes.Packed, Pop32, Num, Top, SetBitsOf, SumOf, Add32, Spread;
    var sum: bv32 := 0;
    ghost var ws: seq<Lanes> := [];
    NoWords();
    for k := 0 to 7
      invariant |ws| == k && sum == SumOf(ws) && SetBitsOf(ws) == CountOnes(s[..i + 4 * k]) - CountOnes(s[..i])
    {
      var p := i + 4 * k;
      var w := Lanes(s[p], s[p + 1], s[p + 2], s[p + 3]);
      CountFour(s, p);
      NextWord(ws, w);
      ws := ws + [w];
      sum := Add32(sum, Pop32(w.Packed()));
    }
    SevenWords(ws);
    bits := Num(Top(Spread(sum)));
  }

  lemma NoWords()
    ensures SumOf([]) == 0 && SetBitsOf([]) == 0
  {
  }

  lemma NextWord(ws: seq<Lanes>, w: Lanes)
    ensures SumOf(ws + [w]) == Add32(SumOf(ws), Pop32(w.Packed())) && SetBitsOf(ws + [w]) == SetBitsOf(ws) + w.SetBits()
  {
    assert (ws + [w])[..|ws|] == ws;
    hide Lanes.Packed, Lanes.SetBits, Pop32, Add32;
  }

  /** `redisPopcount`; `address` is where the string lies in memory. */
  method PopCount(s: seq<bv8>, address: nat) returns (bits: nat)
    ensures bits == CountOnes(s)
  {
    hide CountOnes, Ones, BitsInByte;
    bits := 0;
    var i := 0;
    NoBytes(s);
    while (address + i) % 4 != 0 && i < |s|
      invariant i <= |s| && bits == CountOnes(s[..i])
      decreases |s| - i
    {
      TableIsOnes(s[i]);
      CountNext(s, i);
      bits := bits + BitsInByte(s[i]);
      i := i + 1;
    }
    while |s| - i >= 28
      invariant i <= |s| && bits == CountOnes(s[..i])
    {
      var more := CountSeven(s, i);
      bits := bits + more;
      i := i + 28;
    }
    while i < |s|
      invariant i <= |s| && bits == CountOnes(s[..i])
    {
      TableIsOnes(s[i]);
      CountNext(s, i);
      bits := bits + BitsInByte(s[i]);
      i := i + 1;
    }
    assert s[..|s|] == s;
  }

  lemma NoBytes(s: seq<bv8>)
    ensures CountOnes(s[..0]) == 0
  {
  }

  // ---- bit by bit ----

  lemma OneBit(s: seq<bv8>, i: nat, k: nat)
    requires i < |s| && k < 8
    ensures Count(s, 8 * i + k + 1) == Count(s, 8 * i + k) + One(Bit(s[i], k))
  {
    hide Bit;
    var p := 8 * i + k;
    assert p / 8 == i && p % 8 == k;
  }

  lemma EightBits(s: seq<bv8>, i: nat)
    requires i < |s|
    ensures Count(s, 8 * i + 8) == Count(s, 8 * i) + Ones(s[i])
  {
    hide Bit, One, Count;
    OneBit(s, i, 0); OneBit(s, i, 1); OneBit(s, i, 2); OneBit(s, i, 3);
    OneBit(s, i, 4); OneBit(s, i, 5); OneBit(s, i, 6); OneBit(s, i, 7);
  }

  lemma {:induction false} CountOnesBelow(s: seq<bv8>, i: nat)
    requires i <= |s|
    ensures CountOnes(s[..i]) == Count(s, 8 * i)
  {
    hide Ones;
    if i == 0 {
      NoBytes(s);
    } else {
      CountOnesBelow(s, i - 1);
      CountNext(s, i - 1);
      EightBits(s, i - 1);
    }
  }

  /** The count is the number of positions whose bit is set. */
  lemma CountOnesIsSize(s: seq<bv8>)
    ensures CountOnes(s) == |set p | 0 <= p < 8 * |s| && Test(s, p)|
  {
    hide Test, Ones;
    CountOnesBelow(s, |s|);
    assert s[..|s|] == s;
    CountIsSize(s, 8 * |s|);
  }
}
