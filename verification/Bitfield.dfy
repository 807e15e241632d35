/** Integers of 1 to 63 bits at any bit offset of a string (`bitops.c`).  Bit 0 is the
    most significant bit of the first byte. */
module Bitfield {
  import opened Basics
  import opened Bitmap

  // ---- powers of two ----

  /** Quotient and remainder are determined by where the number lies. */
  lemma DivMod(w: int, m: nat, q: int, r: int)
    requires m > 0 && w == q * m + r && 0 <= r < m
    ensures w / m == q && w % m == r
  {
    var q1, r1 := w / m, w % m;
    assert w == q1 * m + r1;
    if q1 < q {
      MulMono(q1 + 1, q, m);
    } else if q1 > q {
      MulMono(q + 1, q1, m);
    }
  }

  lemma ModSplit(w: int, m: nat)
    requires m > 0
    ensures w % (2 * m) == 2 * ((w / 2) % m) + w % 2 && w / (2 * m) == (w / 2) / m
  {
    var h := w / 2;
    assert w == 2 * h + w % 2;
    assert h == (h / m) * m + h % m;
    assert w == (h / m) * (2 * m) + (2 * (h % m) + w % 2);
    DivMod(w, 2 * m, h / m, 2 * (h % m) + w % 2);
  }

  /** Dividing by two, k times. */
  lemma {:induction false} HalfAgain(v: nat, k: nat)
    ensures (v / Pow2(k)) / 2 == v / Pow2(k + 1)
    decreases k
  {
    if k > 0 {
      HalfAgain(v / 2, k - 1);
      ModSplit(v, Pow2(k - 1));
      ModSplit(v, Pow2(k));
    }
  }

  /** Reducing modulo a larger power of two first changes nothing. */
  lemma {:induction false} ModMod(v: int, n: nat, k: nat)
    requires n <= k
    ensures (v % Pow2(k)) % Pow2(n) == v % Pow2(n)
    decreases n
  {
    if n > 0 {
      ModSplit(v, Pow2(k - 1));
      ModSplit(v, Pow2(n - 1));
      var w := v % Pow2(k);
      ModSplit(w, Pow2(n - 1));
      ModMod(v / 2, n - 1, k - 1);
      assert w == 2 * ((v / 2) % Pow2(k - 1)) + v % 2;
      assert w / 2 == (v / 2) % Pow2(k - 1) && w % 2 == v % 2;
    }
  }

  // ---- bits of a string ----

  predicate BitAt(s: seq<bv8>, p: nat)
    requires p < 8 * |s|
  {
    Bit(s[p / 8], 7 - p % 8)
  }

  function PutBit(s: seq<bv8>, p: nat, b: bool): (r: seq<bv8>)
    requires p < 8 * |s|
    ensures |r| == |s|
  {
    s[p / 8 := if b then With(s[p / 8], 7 - p % 8) else Without(s[p / 8], 7 - p % 8)]
  }

  lemma PutBitAt(s: seq<bv8>, p: nat, b: bool, q: nat)
    requires p < 8 * |s| && q < 8 * |s|
    ensures BitAt(PutBit(s, p, b), q) == if p == q then b else BitAt(s, q)
  {
    hide Bit, With, Without;
    ByteBits(s[p / 8], 7 - p % 8, 7 - q % 8);
  }

  /** The unsigned number in n bits from off. */
  function Field(s: seq<bv8>, off: nat, n: nat): (v: nat)
    requires off + n <= 8 * |s|
    ensures v < Pow2(n)
  {
    if n == 0 then 0 else 2 * Field(s, off, n - 1) + if BitAt(s, off + n - 1) then 1 else 0
  }

  /** Bit k of a number. */
  predicate NumberBit(v: nat, k: nat) {
    (v / Pow2(k)) % 2 == 1
  }

  /** Nothing but the field changed. */
  ghost predicate SameOutside(s: seq<bv8>, t: seq<bv8>, off: nat, n: nat) {
    && |s| == |t|
    && forall q :: 0 <= q < 8 * |s| && !(off <= q < off + n) ==> BitAt(s, q) == BitAt(t, q)
  }

  /** Bit j of the field is bit width - 1 - j of the number. */
  predicate Matches(s: seq<bv8>, off: nat, j: nat, v: nat, width: nat)
    requires off + j < 8 * |s| && j < width
  {
    BitAt(s, off + j) == NumberBit(v, width - 1 - j)
  }

  lemma NextDigit(v: nat, k: nat, n: nat)
    ensures 2 * ((v / Pow2(k + 1)) % Pow2(n)) + (if NumberBit(v, k) then 1 else 0) == (v / Pow2(k)) % Pow2(n + 1)
  {
    HalfAgain(v, k);
    ModSplit(v / Pow2(k), Pow2(n));
  }

  lemma {:induction false} FieldOfBits(s: seq<bv8>, off: nat, n: nat, v: nat, width: nat)
    requires off + n <= 8 * |s| && n <= width
    requires forall j :: 0 <= j < n ==> Matches(s, off, j, v, width)
    ensures Field(s, off, n) == (v / Pow2(width - n)) % Pow2(n)
    decreases n
  {
    hide BitAt, NumberBit, Pow2;
    if n == 0 {
      PowZero();
    } else {
      FieldOfBits(s, off, n - 1, v, width);
      NextDigit(v, width - n, n - 1);
      assert Matches(s, off, n - 1, v, width);
    }
  }

  lemma PowZero()
    ensures Pow2(0) == 1
  {
  }

  /** `setUnsignedBitfield`. */
  method SetUnsigned(p: array<bv8>, off: nat, bits: nat, value: nat)
    requires off + bits <= 8 * p.Length
    modifies p
    ensures Field(p[..], off, bits) == value % Pow2(bits) && SameOutside(old(p[..]), p[..], off, bits)
  {
    hide BitAt, PutBit, NumberBit, Field;
    ghost var s := p[..];
    for j := 0 to bits
      invariant SameOutside(s, p[..], off, bits)
      invariant forall i :: 0 <= i < j ==> Matches(p[..], off, i, value, bits)
    {
      var bit := NumberBit(value, bits - 1 - j);
      var q := off + j;
      ghost var before := p[..];
      StoreBit(p, q, bit);
      forall k | 0 <= k < 8 * p.Length
        ensures BitAt(p[..], k) == if k == q then bit else BitAt(before, k)
      {
        PutBitAt(before, q, bit, k);
      }
      forall i | 0 <= i < j
        ensures Matches(p[..], off, i, value, bits)
      {
        assert Matches(before, off, i, value, bits);
      }
    }
    FieldOfBits(p[..], off, bits, value, bits);
    PowZero();
  }

  /** One turn of the loop: the byte without the bit, then with it if it is set. */
  method StoreBit(p: array<bv8>, q: nat, bit: bool)
    requires q < 8 * p.Length
    modifies p
    ensures p[..] == PutBit(old(p[..]), q, bit)
  {
    hide Bit;
    var k := 7 - q % 8;
    var byte := Without(p[q / 8], k);
    assert bit ==> With(byte, k) == With(p[q / 8], k) by { WithAgain(p[q / 8], k); }
    if bit { byte := With(byte, k); }
    p[q / 8] := byte;
  }

  lemma WithAgain(x: bv8, k: nat)
    requires k < 8
    ensures With(Without(x, k), k) == With(x, k)
  {
    hide Mask;
  }

  /** `getUnsignedBitfield`. */
  method GetUnsigned(p: array<bv8>, off: nat, bits: nat) returns (value: nat)
    requires off + bits <= 8 * p.Length
    ensures value == Field(p[..], off, bits)
  {
    hide Bit;
    value := 0;
    for j := 0 to bits
      invariant value == Field(p[..], off, j)
    {
      var q := off + j;
      var bit := Bit(p[q / 8], 7 - q % 8);
      assert bit == BitAt(p[..], q);
      value := 2 * value + if bit then 1 else 0;
    }
  }
}
