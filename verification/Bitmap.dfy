/** Slot bitmaps: bit p of a byte string is bit p mod 8, counted from the least
    significant, of byte p div 8. */
module Bitmap {

  function Mask(k: nat): bv8
    requires k < 8
  {
    if k == 0 then 0x01 else if k == 1 then 0x02 else if k == 2 then 0x04 else if k == 3 then 0x08
    else if k == 4 then 0x10 else if k == 5 then 0x20 else if k == 6 then 0x40 else 0x80
  }

  predicate Bit(x: bv8, k: nat)
    requires k < 8
  {
    x & Mask(k) != 0
  }

  function With(x: bv8, k: nat): bv8
    requires k < 8
  {
    x | Mask(k)
  }

  function Without(x: bv8, k: nat): bv8
    requires k < 8
  {
    x & !Mask(k)
  }

  predicate Test(b: seq<bv8>, p: nat)
    requires p < 8 * |b|
  {
    Bit(b[p / 8], p % 8)
  }

  function Set(b: seq<bv8>, p: nat): (r: seq<bv8>)
    requires p < 8 * |b|
    ensures |r| == |b|
  {
    b[p / 8 := With(b[p / 8], p % 8)]
  }

  function Clear(b: seq<bv8>, p: nat): (r: seq<bv8>)
    requires p < 8 * |b|
    ensures |r| == |b|
  {
    b[p / 8 := Without(b[p / 8], p % 8)]
  }

  lemma MasksMeet(k: nat, l: nat)
    requires k < 8 && l < 8
    ensures Mask(k) != 0
    ensures Mask(k) & Mask(l) == if k == l then Mask(k) else 0
  {
  }

  lemma ByteBits(x: bv8, k: nat, l: nat)
    requires k < 8 && l < 8
    ensures Bit(With(x, k), l) <==> k == l || Bit(x, l)
    ensures Bit(Without(x, k), l) <==> k != l && Bit(x, l)
  {
    hide Mask;
    MasksMeet(k, l);
  }

  lemma TestSet(b: seq<bv8>, p: nat, q: nat)
    requires p < 8 * |b| && q < 8 * |b|
    ensures Test(Set(b, p), q) <==> p == q || Test(b, q)
    ensures Test(Clear(b, p), q) <==> p != q && Test(b, q)
  {
    hide Bit, With, Without;
    ByteBits(b[p / 8], p % 8, q % 8);
  }

  /** The set bits below n. */
  function Count(b: seq<bv8>, n: nat): nat
    requires n <= 8 * |b|
  {
    if n == 0 then 0 else Count(b, n - 1) + if Test(b, n - 1) then 1 else 0
  }

  lemma {:induction false} CountSame(b: seq<bv8>, c: seq<bv8>, n: nat)
    requires n <= 8 * |b| && n <= 8 * |c|
    requires forall q :: 0 <= q < n ==> Test(b, q) == Test(c, q)
    ensures Count(b, n) == Count(c, n)
  {
    hide Test;
    if n > 0 { CountSame(b, c, n - 1); }
  }

  lemma {:induction false} CountSet(b: seq<bv8>, p: nat, n: nat)
    requires p < n <= 8 * |b|
    ensures Count(Set(b, p), n) == Count(b, n) + if Test(b, p) then 0 else 1
    ensures Count(Clear(b, p), n) == Count(b, n) - if Test(b, p) then 1 else 0
  {
    hide Test, Set, Clear;
    TestSet(b, p, n - 1);
    if p < n - 1 {
      CountSet(b, p, n - 1);
    } else {
      forall q | 0 <= q < n - 1
        ensures Test(Set(b, p), q) == Test(b, q) && Test(Clear(b, p), q) == Test(b, q)
      {
        TestSet(b, p, q);
      }
      CountSame(Set(b, p), b, n - 1);
      CountSame(Clear(b, p), b, n - 1);
    }
  }

  lemma {:induction false} CountZero(b: seq<bv8>, n: nat)
    requires n <= 8 * |b|
    ensures Count(b, n) == 0 <==> forall q :: 0 <= q < n ==> !Test(b, q)
  {
    hide Test;
    if n > 0 { CountZero(b, n - 1); }
  }

  /** The slots a bitmap names. */
  function Bits(b: seq<bv8>): (r: set<int>)
    ensures forall p :: p in r <==> 0 <= p < 8 * |b| && Test(b, p)
  {
    set p | 0 <= p < 8 * |b| && Test(b, p)
  }

  lemma {:induction false} CountIsSize(b: seq<bv8>, n: nat)
    requires n <= 8 * |b|
    ensures Count(b, n) == |set p | 0 <= p < n && Test(b, p)|
  {
    hide Test;
    var s := set p | 0 <= p < n && Test(b, p);
    if n == 0 {
      assert s == {};
    } else {
      CountIsSize(b, n - 1);
      var t := set p | 0 <= p < n - 1 && Test(b, p);
      assert s == if Test(b, n - 1) then t + {n - 1} else t;
    }
  }

  lemma ByteOfBits(x: bv8, y: bv8)
    requires forall k: nat :: k < 8 ==> Bit(x, k) == Bit(y, k)
    ensures x == y
  {
    assert Bit(x, 0) == Bit(y, 0) && Bit(x, 1) == Bit(y, 1) && Bit(x, 2) == Bit(y, 2) && Bit(x, 3) == Bit(y, 3);
    assert Bit(x, 4) == Bit(y, 4) && Bit(x, 5) == Bit(y, 5) && Bit(x, 6) == Bit(y, 6) && Bit(x, 7) == Bit(y, 7);
  }

  /** Comparing bitmaps byte by byte is comparing the sets of slots. */
  lemma SameBits(b: seq<bv8>, c: seq<bv8>)
    requires |b| == |c|
    ensures b == c <==> Bits(b) == Bits(c)
  {
    hide Bit;
    if Bits(b) == Bits(c) {
      forall i | 0 <= i < |b|
        ensures b[i] == c[i]
      {
        forall k: nat | k < 8
          ensures Bit(b[i], k) == Bit(c[i], k)
        {
          var p := 8 * i + k;
          assert p / 8 == i && p % 8 == k;
          assert p in Bits(b) <==> p in Bits(c);
        }
        ByteOfBits(b[i], c[i]);
      }
    }
  }

  lemma Nibble(x: bv8)
    requires x < 16
    ensures x == 0 || x == 1 || x == 2 || x == 3 || x == 4 || x == 5 || x == 6 || x == 7
         || x == 8 || x == 9 || x == 10 || x == 11 || x == 12 || x == 13 || x == 14 || x == 15
  {
  }
}
