/** Finding the first set or clear bit (`redisBitpos`): by bytes up to an aligned
    address, by eight-byte words, then bit by bit in one big-endian word. */
module Bitpos {
  import opened Bitmap
  import opened Bitfield

  /** The bit at p of a string taken to be zero padded on the right. */
  predicate PaddedBit(s: seq<bv8>, p: nat) {
    p < 8 * |s| && BitAt(s, p)
  }

  function ByteAt(s: seq<bv8>, i: nat): bv8 {
    if i < |s| then s[i] else 0
  }

  lemma PaddedByte(s: seq<bv8>, i: nat, t: nat)
    requires t < 8
    ensures PaddedBit(s, 8 * i + t) <==> Bit(ByteAt(s, i), 7 - t)
  {
    var p := 8 * i + t;
    assert p / 8 == i && p % 8 == t;
    NoBit(7 - t);
    hide Bit;
  }

  lemma NoBit(k: nat)
    requires k < 8
    ensures !Bit(0, k) && Bit(0xFF, k)
  {
  }

  /** No bit below `hi` is the one sought. */
  ghost predicate Skips(s: seq<bv8>, sought: bool, hi: nat) {
    forall p :: 0 <= p < hi ==> PaddedBit(s, p) != sought
  }

  function SkipByte(sought: bool): bv8 {
    if sought then 0 else 0xFF
  }

  lemma SkipOne(s: seq<bv8>, sought: bool, i: nat)
    requires Skips(s, sought, 8 * i) && ByteAt(s, i) == SkipByte(sought)
    ensures Skips(s, sought, 8 * i + 8)
  {
    hide PaddedBit, Bit;
    forall p | 0 <= p < 8 * i + 8
      ensures PaddedBit(s, p) != sought
    {
      if p >= 8 * i {
        PaddedByte(s, i, p - 8 * i);
        NoBit(7 - (p - 8 * i));
      }
    }
  }

  // ---- words in memory ----

  /** Eight bytes read as one word of a little-endian machine. */
  function Native(b0: bv8, b1: bv8, b2: bv8, b3: bv8, b4: bv8, b5: bv8, b6: bv8, b7: bv8): bv64 {
    (b0 as bv64) | ((b1 as bv64) << 8) | ((b2 as bv64) << 16) | ((b3 as bv64) << 24)
    | ((b4 as bv64) << 32) | ((b5 as bv64) << 40) | ((b6 as bv64) << 48) | ((b7 as bv64) << 56)
  }

  function SkipWord(sought: bool): bv64 {
    if sought then 0 else 0xFFFFFFFFFFFFFFFF
  }

  lemma NativeSkips(b0: bv8, b1: bv8, b2: bv8, b3: bv8, b4: bv8, b5: bv8, b6: bv8, b7: bv8, sought: bool)
    ensures Native(b0, b1, b2, b3, b4, b5, b6, b7) == SkipWord(sought) <==>
            var b := SkipByte(sought);
            b0 == b && b1 == b && b2 == b && b3 == b && b4 == b && b5 == b && b6 == b && b7 == b
  {
    if sought {
      NativeZero(b0, b1, b2, b3, b4, b5, b6, b7);
    } else {
      NativeOnes(b0, b1, b2, b3, b4, b5, b6, b7);
    }
  }

  lemma NativeZero(b0: bv8, b1: bv8, b2: bv8, b3: bv8, b4: bv8, b5: bv8, b6: bv8, b7: bv8)
    ensures Native(b0, b1, b2, b3, b4, b5, b6, b7) == 0 <==>
            b0 == 0 && b1 == 0 && b2 == 0 && b3 == 0 && b4 == 0 && b5 == 0 && b6 == 0 && b7 == 0
  {
  }

  lemma NativeOnes(b0: bv8, b1: bv8, b2: bv8, b3: bv8, b4: bv8, b5: bv8, b6: bv8, b7: bv8)
    ensures Native(b0, b1, b2, b3, b4, b5, b6, b7) == 0xFFFFFFFFFFFFFFFF <==>
            b0 == 0xFF && b1 == 0xFF && b2 == 0xFF && b3 == 0xFF && b4 == 0xFF && b5 == 0xFF && b6 == 0xFF && b7 == 0xFF
  {
  }

  // ---- the last word ----

  function Push(w: bv64, b: bv8): bv64 {
    (w << 8) | (b as bv64)
  }

  function Load(s: seq<bv8>, from: nat, j: nat): bv64
    decreases j
  {
    if j == 0 then 0 else Push(Load(s, from, j - 1), ByteAt(s, from + j - 1))
  }

  function Big(b0: bv8, b1: bv8, b2: bv8, b3: bv8, b4: bv8, b5: bv8, b6: bv8, b7: bv8): bv64 {
    ((b0 as bv64) << 56) | ((b1 as bv64) << 48) | ((b2 as bv64) << 40) | ((b3 as bv64) << 32)
    | ((b4 as bv64) << 24) | ((b5 as bv64) << 16) | ((b6 as bv64) << 8) | (b7 as bv64)
  }

  lemma PushBig(b0: bv8, b1: bv8, b2: bv8, b3: bv8, b4: bv8, b5: bv8, b6: bv8, b7: bv8, b: bv8)
    ensures Push(Big(b0, b1, b2, b3, b4, b5, b6, b7), b) == Big(b1, b2, b3, b4, b5, b6, b7, b)
    ensures Big(0, 0, 0, 0, 0, 0, 0, 0) == 0
  {
  }

  lemma LoadIsBig(s: seq<bv8>, from: nat)
    ensures Load(s, from, 8) == Big(ByteAt(s, from), ByteAt(s, from + 1), ByteAt(s, from + 2), ByteAt(s, from + 3),
                                    ByteAt(s, from + 4), ByteAt(s, from + 5), ByteAt(s, from + 6), ByteAt(s, from + 7))
  {
    hide Push, Big, ByteAt;
    var b0, b1, b2, b3 := ByteAt(s, from), ByteAt(s, from + 1), ByteAt(s, from + 2), ByteAt(s, from + 3);
    var b4, b5, b6, b7 := ByteAt(s, from + 4), ByteAt(s, from + 5), ByteAt(s, from + 6), ByteAt(s, from + 7);
    PushBig(0, 0, 0, 0, 0, 0, 0, 0, b0);
    PushBig(0, 0, 0, 0, 0, 0, 0, b0, b1);
    PushBig(0, 0, 0, 0, 0, 0, b0, b1, b2);
    PushBig(0, 0, 0, 0, 0, b0, b1, b2, b3);
    PushBig(0, 0, 0, 0, b0, b1, b2, b3, b4);
    PushBig(0, 0, 0, b0, b1, b2, b3, b4, b5);
    PushBig(0, 0, b0, b1, b2, b3, b4, b5, b6);
    PushBig(0, b0, b1, b2, b3, b4, b5, b6, b7);
    assert Load(s, from, 1) == Big(0, 0, 0, 0, 0, 0, 0, b0);
    assert Load(s, from, 2) == Big(0, 0, 0, 0, 0, 0, b0, b1);
    assert Load(s, from, 3) == Big(0, 0, 0, 0, 0, b0, b1, b2);
    assert Load(s, from, 4) == Big(0, 0, 0, 0, b0, b1, b2, b3);
    assert Load(s, from, 5) == Big(0, 0, 0, b0, b1, b2, b3, b4);
    assert Load(s, from, 6) == Big(0, 0, b0, b1, b2, b3, b4, b5);
    assert Load(s, from, 7) == Big(0, b0, b1, b2, b3, b4, b5, b6);
  }

  /** The byte a word begins with, and the word moved up by one byte. */
  function Lead(w: bv64): bv8 {
    (w >> 56) as bv8
  }

  function Up(w: bv64): bv64 {
    w << 8
  }

  function UpN(w: bv64, i: nat): bv64
    decreases i
  {
    if i == 0 then w else UpN(Up(w), i - 1)
  }

  lemma UpBig(b0: bv8, b1: bv8, b2: bv8, b3: bv8, b4: bv8, b5: bv8, b6: bv8, b7: bv8)
    ensures Up(Big(b0, b1, b2, b3, b4, b5, b6, b7)) == Big(b1, b2, b3, b4, b5, b6, b7, 0)
    ensures Lead(Big(b0, b1, b2, b3, b4, b5, b6, b7)) == b0
  {
  }

  function Nth(i: nat, b0: bv8, b1: bv8, b2: bv8, b3: bv8, b4: bv8, b5: bv8, b6: bv8, b7: bv8): bv8 {
    if i == 0 then b0 else if i == 1 then b1 else if i == 2 then b2 else if i == 3 then b3
    else if i == 4 then b4 else if i == 5 then b5 else if i == 6 then b6 else if i == 7 then b7 else 0
  }

  lemma {:induction false} LeadOfUp(b0: bv8, b1: bv8, b2: bv8, b3: bv8, b4: bv8, b5: bv8, b6: bv8, b7: bv8, i: nat)
    requires i < 8
    ensures Lead(UpN(Big(b0, b1, b2, b3, b4, b5, b6, b7), i)) == Nth(i, b0, b1, b2, b3, b4, b5, b6, b7)
    decreases i
  {
    hide Lead, Up, Big;
    UpBig(b0, b1, b2, b3, b4, b5, b6, b7);
    if i > 0 { LeadOfUp(b1, b2, b3, b4, b5, b6, b7, 0, i - 1); }
  }

  lemma LeadOfLoad(s: seq<bv8>, from: nat, i: nat)
    requires i < 8
    ensures Lead(UpN(Load(s, from, 8), i)) == ByteAt(s, from + i)
  {
    hide Lead, UpN, Load, Big, ByteAt;
    LoadIsBig(s, from);
    LeadOfUp(ByteAt(s, from), ByteAt(s, from + 1), ByteAt(s, from + 2), ByteAt(s, from + 3),
             ByteAt(s, from + 4), ByteAt(s, from + 5), ByteAt(s, from + 6), ByteAt(s, from + 7), i);
  }

  // ---- the single bit that scans the word ----

  function Half(x: bv64): bv64 {
    x >> 1
  }

  function One(k: nat): bv64 {
    if k == 0 then 0x8000000000000000 else Half(One(k - 1))
  }

  function And(x: bv64, y: bv64): bv64 {
    x & y
  }

  function Down(x: bv64): bv64 {
    x >> 8
  }

  lemma EightHalves(x: bv64)
    ensures Half(Half(Half(Half(Half(Half(Half(Half(x)))))))) == Down(x)
  {
  }

  lemma OneDown(k: nat)
    ensures One(k + 8) == Down(One(k))
  {
    hide Half, Down;
    EightHalves(One(k));
    assert One(k + 2) == Half(Half(One(k)));
    assert One(k + 4) == Half(Half(One(k + 2)));
    assert One(k + 6) == Half(Half(One(k + 4)));
  }

  lemma Meet(x: bv64, w: bv64)
    ensures And(Down(x), w) == 0 <==> And(x, Up(w)) == 0
  {
  }

  lemma LeadBit(w: bv64, t: nat)
    requires t < 8
    ensures And(One(t), w) != 0 <==> Bit(Lead(w), 7 - t)
  {
    FirstOnes();
    hide One;
  }

  lemma FirstOnes()
    ensures One(0) == 0x8000000000000000 && One(1) == 0x4000000000000000 && One(2) == 0x2000000000000000
    ensures One(3) == 0x1000000000000000 && One(4) == 0x0800000000000000 && One(5) == 0x0400000000000000
    ensures One(6) == 0x0200000000000000 && One(7) == 0x0100000000000000
  {
  }

  lemma {:induction false} WordBit(w: bv64, i: nat, t: nat)
    requires t < 8
    ensures And(One(8 * i + t), w) != 0 <==> Bit(Lead(UpN(w, i)), 7 - t)
    decreases i
  {
    hide One, And, Bit, Lead, Up, Down;
    if i == 0 {
      LeadBit(w, t);
    } else {
      var k := 8 * (i - 1) + t;
      OneDown(k);
      Meet(One(k), w);
      WordBit(Up(w), i - 1, t);
    }
  }

  /** Bit k of the loaded word is bit k of the string from byte `from` on. */
  lemma LoadedBit(s: seq<bv8>, from: nat, k: nat)
    requires k < 64
    ensures And(One(k), Load(s, from, 8)) != 0 <==> PaddedBit(s, 8 * from + k)
  {
    hide One, And, Bit, Lead, UpN, Load, ByteAt, PaddedBit;
    var i, t := k / 8, k % 8;
    WordBit(Load(s, from, 8), i, t);
    LeadOfLoad(s, from, i);
    PaddedByte(s, from + i, t);
  }

  // ---- the search ----

  lemma OneNonzero(k: nat)
    requires k < 64
    ensures One(k) != 0
  {
    hide One, Bit, Lead, UpN;
    var w: bv64 := 0xFFFFFFFFFFFFFFFF;
    var i, t := k / 8, k % 8;
    WordBit(w, i, t);
    AllOnes(One(k));
    LeadOfOnes(i);
    NoBit(7 - t);
  }

  lemma AllOnes(x: bv64)
    ensures And(x, 0xFFFFFFFFFFFFFFFF) == x
  {
  }

  lemma LeadOfOnes(i: nat)
    requires i < 8
    ensures Lead(UpN(0xFFFFFFFFFFFFFFFF, i)) == 0xFF
  {
    hide Lead, UpN, Big;
    var b: bv8 := 0xFF;
    assert Big(b, b, b, b, b, b, b, b) == 0xFFFFFFFFFFFFFFFF by { OnesAreBig(); }
    LeadOfUp(b, b, b, b, b, b, b, b, i);
  }

  lemma OnesAreBig()
    ensures Big(0xFF, 0xFF, 0xFF, 0xFF, 0xFF, 0xFF, 0xFF, 0xFF) == 0xFFFFFFFFFFFFFFFF
  {
  }

  /** A byte that is not skipped holds the bit sought. */
  lemma ByteHits(s: seq<bv8>, sought: bool, i: nat) returns (t: nat)
    requires ByteAt(s, i) != SkipByte(sought)
    ensures t < 8 && PaddedBit(s, 8 * i + t) == sought
  {
    hide PaddedBit, ByteAt;
    var b := ByteAt(s, i);
    if forall k: nat :: k < 8 ==> Bit(b, k) != sought {
      forall k: nat | k < 8 ensures Bit(b, k) == Bit(SkipByte(sought), k) { NoBit(k); }
      ByteOfBits(b, SkipByte(sought));
    }
    var k: nat :| k < 8 && Bit(b, k) == sought;
    t := 7 - k;
    PaddedByte(s, i, t);
  }

  /** The last loop: a match lies at `hit` in the loaded word. */
  method ScanWord(s: seq<bv8>, from: nat, word: bv64, sought: bool, ghost hit: nat) returns (pos: nat)
    requires word == Load(s, from, 8) && Skips(s, sought, 8 * from)
    requires hit < 64 && PaddedBit(s, 8 * from + hit) == sought
    ensures PaddedBit(s, pos) == sought && Skips(s, sought, pos)
  {
    hide One, And, PaddedBit, Load, Half;
    var one := Half(0xFFFFFFFFFFFFFFFF);
    one := !one;
    FirstOne();
    ghost var k := 0;
    pos := 8 * from;
    while one != 0
      invariant k <= hit && pos == 8 * from + k && one == One(k) && Skips(s, sought, pos)
      decreases 64 - k
    {
      LoadedBit(s, from, k);
      if (And(one, word) != 0) == sought { return; }
      NextOne(k);
      pos := pos + 1;
      one := Half(one);
      k := k + 1;
    }
    OneNonzero(k);
    assert false;
  }

  lemma FirstOne()
    ensures !Half(0xFFFFFFFFFFFFFFFF) == One(0)
  {
  }

  lemma NextOne(k: nat)
    ensures One(k + 1) == Half(One(k))
  {
    hide Half;
  }

  lemma PushParts(w: bv64, b: bv8)
    ensures Push(w, 0) == Up(w) && Push(w, b) == Up(w) | (b as bv64)
  {
  }

  /** Loading the word: bytes past the end count as zero. */
  method LoadWord(s: seq<bv8>, from: nat) returns (word: bv64)
    requires from <= |s|
    ensures word == Load(s, from, 8)
  {
    hide Push, Up;
    word := 0;
    var c := from;
    for j := 0 to 8
      invariant word == Load(s, from, j) && c == if from + j < |s| then from + j else |s|
    {
      PushParts(word, ByteAt(s, from + j));
      word := Up(word);
      if c < |s| {
        word := word | (s[c] as bv64);
        c := c + 1;
      }
    }
  }

  /** A word that is not zero has a byte that is not. */
  lemma NonzeroByte(s: seq<bv8>, from: nat) returns (m: nat)
    requires Load(s, from, 8) != 0
    ensures from <= m < from + 8 && ByteAt(s, m) != 0
  {
    hide Load, Big, ByteAt;
    LoadIsBig(s, from);
    PushBig(0, 0, 0, 0, 0, 0, 0, 0, 0);
    m := if ByteAt(s, from) != 0 then from else if ByteAt(s, from + 1) != 0 then from + 1
         else if ByteAt(s, from + 2) != 0 then from + 2 else if ByteAt(s, from + 3) != 0 then from + 3
         else if ByteAt(s, from + 4) != 0 then from + 4 else if ByteAt(s, from + 5) != 0 then from + 5
         else if ByteAt(s, from + 6) != 0 then from + 6 else from + 7;
  }

  lemma ZeroWord(s: seq<bv8>, from: nat)
    requires Load(s, from, 8) == 0 && Skips(s, true, 8 * from)
    ensures Skips(s, true, 8 * from + 64)
  {
    hide One, And, PaddedBit, Load;
    forall p | 0 <= p < 8 * from + 64
      ensures !PaddedBit(s, p)
    {
      if p >= 8 * from {
        LoadedBit(s, from, p - 8 * from);
        MeetZero(One(p - 8 * from));
      }
    }
  }

  lemma MeetZero(x: bv64)
    ensures And(x, 0) == 0
  {
  }

  lemma SkipEight(s: seq<bv8>, sought: bool, i: nat)
    requires Skips(s, sought, 8 * i) && forall j :: i <= j < i + 8 ==> ByteAt(s, j) == SkipByte(sought)
    ensures Skips(s, sought, 8 * (i + 8))
  {
    hide Skips, ByteAt;
    SkipOne(s, sought, i);
    SkipOne(s, sought, i + 1);
    SkipOne(s, sought, i + 2);
    SkipOne(s, sought, i + 3);
    SkipOne(s, sought, i + 4);
    SkipOne(s, sought, i + 5);
    SkipOne(s, sought, i + 6);
    SkipOne(s, sought, i + 7);
  }

  /** The first two loops: byte by byte to an aligned address, then word by word.  What is
      left either begins with eight bytes that hold the bit sought or is shorter than a word. */
  method SkipAhead(s: seq<bv8>, address: nat, sought: bool) returns (i: nat, ghost m: nat)
    ensures i <= |s| && Skips(s, sought, 8 * i)
    ensures |s| < i + 8 || (i <= m < i + 8 && ByteAt(s, m) != SkipByte(sought))
  {
    hide Skips, Native, SkipWord, SkipByte;
    i, m := 0, 0;
    var found := false;
    NothingSkipped(s, sought);
    while (address + i) % 8 != 0 && i < |s|
      invariant i <= |s| && Skips(s, sought, 8 * i)
      decreases |s| - i
    {
      if s[i] != SkipByte(sought) {
        found := true;
        m := i;
        break;
      }
      SkipOne(s, sought, i);
      i := i + 1;
    }
    if !found {
      while |s| - i >= 8
        invariant i <= |s| && Skips(s, sought, 8 * i)
      {
        NativeSkips(s[i], s[i + 1], s[i + 2], s[i + 3], s[i + 4], s[i + 5], s[i + 6], s[i + 7], sought);
        if Native(s[i], s[i + 1], s[i + 2], s[i + 3], s[i + 4], s[i + 5], s[i + 6], s[i + 7]) != SkipWord(sought) {
          m :| i <= m < i + 8 && s[m] != SkipByte(sought);
          break;
        }
        SkipEight(s, sought, i);
        i := i + 8;
      }
    }
  }

  lemma NothingSkipped(s: seq<bv8>, sought: bool)
    ensures Skips(s, sought, 0)
  {
  }

  /** `redisBitpos`; `address` is where the string lies in memory. */
  method FindBit(s: seq<bv8>, address: nat, sought: bool) returns (pos: int)
    ensures pos == -1 <==> sought && forall p :: 0 <= p < 8 * |s| ==> !BitAt(s, p)
    ensures pos != -1 ==> 0 <= pos <= 8 * |s| && (pos < 8 * |s| && BitAt(s, pos)) == sought
    ensures forall p :: 0 <= p < pos && p < 8 * |s| ==> BitAt(s, p) != sought
  {
    hide Load, BitAt;
    var i, m := SkipAhead(s, address, sought);
    var word := LoadWord(s, i);
    if sought && word == 0 {
      ZeroWord(s, i);
      if |s| >= i + 8 {
        var t := ByteHits(s, sought, m);
        assert false;
      }
      assert forall p :: 0 <= p < 8 * |s| ==> PaddedBit(s, p) == BitAt(s, p);
      return -1;
    }
    ghost var hit: nat;
    if |s| >= i + 8 {
      var t := ByteHits(s, sought, m);
      hit := 8 * (m - i) + t;
    } else if sought {
      var n := NonzeroByte(s, i);
      var t := ByteHits(s, sought, n);
      hit := 8 * (n - i) + t;
    } else {
      hit := 8 * (|s| - i);
    }
    pos := ScanWord(s, i, word, sought, hit);
    assert !PaddedBit(s, 8 * |s|);
    assert forall p :: 0 <= p < 8 * |s| ==> PaddedBit(s, p) == BitAt(s, p);
  }
}
