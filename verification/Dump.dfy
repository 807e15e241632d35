/** DUMP payloads: a footer of two version bytes and a CRC-64, both little endian.
    Nothing that stays within eight consecutive bytes gets past the check. */
module Dump {
  import opened Crc

  const RDB_VERSION: bv16 := 8

  // ---- eight bytes at once ----

  /** The first k bytes of a word, the lowest first. */
  function Bytes(w: bv64, k: nat): (r: seq<Byte>)
    ensures |r| == k
    decreases k
  {
    if k == 0 then [] else [Low(w)] + Bytes(High(w), k - 1)
  }

  function HighN(w: bv64, k: nat): bv64
    decreases k
  {
    if k == 0 then w else HighN(High(w), k - 1)
  }

  function Iterate(x: bv64, k: nat): bv64
    decreases k
  {
    if k == 0 then x else Iterate(Shift8(x), k - 1)
  }

  lemma FoldOne(c: bv64, w: bv64)
    ensures Shift8(Xor(c, w)) == Xor(Step(c, Low(w)), High(w))
  {
    hide Shift8, Low, High, Clear, Xor, Wide;
    Recombine(c, w);
    Shift8Linear(Xor(c, Wide(Low(w))), Clear(w));
    Shift8OfClear(w);
  }

  lemma Recombine(c: bv64, w: bv64)
    ensures Xor(Xor(c, Wide(Low(w))), Clear(w)) == Xor(c, w)
  {
  }

  /** Feeding the bytes of a word is adding the word and dividing k bytes' worth. */
  lemma {:induction false} FeedWord(c: bv64, w: bv64, k: nat)
    ensures Xor(Crc64(c, Bytes(w, k)), HighN(w, k)) == Iterate(Xor(c, w), k)
    decreases k
  {
    hide Step, Shift8, Xor, Low, High;
    if k > 0 {
      FoldOne(c, w);
      FeedWord(Step(c, Low(w)), High(w), k - 1);
      Crc64Concat(c, [Low(w)], Bytes(High(w), k - 1));
      assert Crc64(c, [Low(w)]) == Step(c, Low(w)) by { assert [Low(w)][..0] == []; }
    }
  }

  lemma XorZero(x: bv64)
    ensures Xor(x, 0) == x && Xor(x, x) == 0
  {
  }

  lemma FeedEight(c: bv64, w: bv64)
    ensures Crc64(c, Bytes(w, 8)) == Iterate(Xor(c, w), 8)
  {
    hide Crc64, Xor, High, Low, Shift8;
    FeedWord(c, w, 8);
    HighNEight(w);
    XorZero(Crc64(c, Bytes(w, 8)));
  }

  lemma {:induction false} HighNStep(w: bv64, k: nat)
    ensures HighN(w, k + 1) == High(HighN(w, k))
    decreases k
  {
    hide High;
    if k > 0 { HighNStep(High(w), k - 1); }
  }

  /** The same shifts, written out. */
  function Shr(w: bv64, i: nat): bv64
    requires i < 8
  {
    if i == 0 then w else if i == 1 then w >> 8 else if i == 2 then w >> 16 else if i == 3 then w >> 24
    else if i == 4 then w >> 32 else if i == 5 then w >> 40 else if i == 6 then w >> 48 else w >> 56
  }

  lemma ShrSteps(w: bv64)
    ensures High(Shr(w, 0)) == Shr(w, 1) && High(Shr(w, 1)) == Shr(w, 2) && High(Shr(w, 2)) == Shr(w, 3)
    ensures High(Shr(w, 3)) == Shr(w, 4) && High(Shr(w, 4)) == Shr(w, 5) && High(Shr(w, 5)) == Shr(w, 6)
    ensures High(Shr(w, 6)) == Shr(w, 7) && High(Shr(w, 7)) == 0
  {
    hide High, Shr;
    HighIs(w);
    ShrIs(w);
  }

  lemma ShrIs(w: bv64)
    ensures Shr(w, 0) == w && Shr(w, 1) == w >> 8 && Shr(w, 2) == w >> 16 && Shr(w, 3) == w >> 24
    ensures Shr(w, 4) == w >> 32 && Shr(w, 5) == w >> 40 && Shr(w, 6) == w >> 48 && Shr(w, 7) == w >> 56
  {
  }

  lemma HighIs(w: bv64)
    ensures High(w) == w >> 8 && High(w >> 8) == w >> 16 && High(w >> 16) == w >> 24 && High(w >> 24) == w >> 32
    ensures High(w >> 32) == w >> 40 && High(w >> 40) == w >> 48 && High(w >> 48) == w >> 56 && High(w >> 56) == 0
  {
  }

  lemma ShrStep(w: bv64, i: nat)
    requires i < 8
    ensures High(Shr(w, i)) == if i < 7 then Shr(w, i + 1) else 0
  {
    hide High, Shr;
    ShrSteps(w);
    assert i == 0 || i == 1 || i == 2 || i == 3 || i == 4 || i == 5 || i == 6 || i == 7;
  }

  lemma {:induction false} HighNIs(w: bv64, i: nat)
    requires i < 8
    ensures HighN(w, i) == Shr(w, i)
  {
    if i > 0 {
      HighNIs(w, i - 1);
      HighNStep(w, i - 1);
      ShrStep(w, i - 1);
    }
  }

  lemma HighNEight(w: bv64)
    ensures HighN(w, 8) == 0
  {
    hide High, Shr;
    HighNIs(w, 7);
    HighNStep(w, 7);
    ShrStep(w, 7);
  }

  lemma {:induction false} BytesAt(w: bv64, k: nat, i: nat)
    requires i < k
    ensures Bytes(w, k)[i] == Low(HighN(w, i))
    decreases k
  {
    hide High, Low;
    if i > 0 { BytesAt(High(w), k - 1, i - 1); }
  }

  lemma {:induction false} IterateInjective(x: bv64, y: bv64, k: nat)
    requires Iterate(x, k) == Iterate(y, k)
    ensures x == y
    decreases k
  {
    hide Shift8;
    if k > 0 {
      IterateInjective(Shift8(x), Shift8(y), k - 1);
      Shift8Injective(x, y);
    }
  }

  /** The word eight bytes make. */
  function Join(b0: Byte, b1: Byte, b2: Byte, b3: Byte, b4: Byte, b5: Byte, b6: Byte, b7: Byte): bv64 {
    Wide(b0) | (Wide(b1) << 8) | (Wide(b2) << 16) | (Wide(b3) << 24)
    | (Wide(b4) << 32) | (Wide(b5) << 40) | (Wide(b6) << 48) | (Wide(b7) << 56)
  }

  function Word(s: seq<Byte>): bv64
    requires |s| == 8
  {
    Join(s[0], s[1], s[2], s[3], s[4], s[5], s[6], s[7])
  }

  lemma SplitJoin(b0: Byte, b1: Byte, b2: Byte, b3: Byte, b4: Byte, b5: Byte, b6: Byte, b7: Byte)
    ensures var w := Join(b0, b1, b2, b3, b4, b5, b6, b7);
      && Low(Shr(w, 0)) == b0 && Low(Shr(w, 1)) == b1 && Low(Shr(w, 2)) == b2 && Low(Shr(w, 3)) == b3
      && Low(Shr(w, 4)) == b4 && Low(Shr(w, 5)) == b5 && Low(Shr(w, 6)) == b6 && Low(Shr(w, 7)) == b7
  {
  }

  lemma JoinSplit(w: bv64)
    ensures Join(Low(Shr(w, 0)), Low(Shr(w, 1)), Low(Shr(w, 2)), Low(Shr(w, 3)),
                 Low(Shr(w, 4)), Low(Shr(w, 5)), Low(Shr(w, 6)), Low(Shr(w, 7))) == w
  {
  }

  /** Byte i of a word. */
  lemma ByteIs(w: bv64, i: nat)
    requires i < 8
    ensures Bytes(w, 8)[i] == Low(Shr(w, i))
  {
    hide Low, Shr, HighN, Bytes;
    BytesAt(w, 8, i);
    HighNIs(w, i);
  }

  lemma BytesAre(w: bv64)
    ensures var s := Bytes(w, 8);
      && s[0] == Low(Shr(w, 0)) && s[1] == Low(Shr(w, 1)) && s[2] == Low(Shr(w, 2)) && s[3] == Low(Shr(w, 3))
      && s[4] == Low(Shr(w, 4)) && s[5] == Low(Shr(w, 5)) && s[6] == Low(Shr(w, 6)) && s[7] == Low(Shr(w, 7))
  {
    hide Low, Shr, Bytes;
    ByteIs(w, 0); ByteIs(w, 1); ByteIs(w, 2); ByteIs(w, 3);
    ByteIs(w, 4); ByteIs(w, 5); ByteIs(w, 6); ByteIs(w, 7);
  }

  lemma Unpack(s: seq<Byte>)
    requires |s| == 8
    ensures Bytes(Word(s), 8) == s
  {
    hide Low, Shr, Bytes, Join;
    SplitJoin(s[0], s[1], s[2], s[3], s[4], s[5], s[6], s[7]);
    BytesAre(Word(s));
  }

  lemma Repack(w: bv64)
    ensures Word(Bytes(w, 8)) == w
  {
    hide Low, Shr, Bytes, Join;
    JoinSplit(w);
    BytesAre(w);
  }

  /** Bytes and words correspond, so comparing the one is comparing the other. */
  lemma SameWord(w: bv64, s: seq<Byte>)
    requires |s| == 8
    ensures Bytes(w, 8) == s <==> w == Word(s)
  {
    hide Word, Bytes;
    Repack(w);
    Unpack(s);
  }

  lemma FeedWindow(c: bv64, s: seq<Byte>)
    requires |s| == 8
    ensures Crc64(c, s) == Iterate(Xor(c, Word(s)), 8)
  {
    hide Word, Crc64, Iterate, Xor, Bytes;
    SameWord(Word(s), s);
    FeedEight(c, Word(s));
  }

  // ---- payloads ----

  function Version(p: seq<Byte>): bv16
    requires |p| >= 10
  {
    var footer := p[|p| - 10..];
    ((footer[1] as bv16) << 8) | (footer[0] as bv16)
  }

  /** `verifyDumpPayload`. */
  predicate Verify(p: seq<Byte>) {
    |p| >= 10 && Version(p) <= RDB_VERSION && Bytes(Crc64(0, p[..|p| - 8]), 8) == p[|p| - 8..]
  }

  /** `createDumpPayload`, given the serialised object. */
  function Create(payload: seq<Byte>): seq<Byte> {
    var body := payload + [(RDB_VERSION & 0xFF) as Byte, ((RDB_VERSION >> 8) & 0xFF) as Byte];
    body + Bytes(Crc64(0, body), 8)
  }

  lemma CreateVerifies(payload: seq<Byte>)
    ensures Verify(Create(payload))
  {
    hide Crc64, Bytes;
    var body := payload + [8, 0];
    var p := Create(payload);
    assert p == body + Bytes(Crc64(0, body), 8);
    assert p[..|p| - 8] == body && p[|p| - 8..] == Bytes(Crc64(0, body), 8);
    assert p[|p| - 10..][0] == 8 && p[|p| - 10..][1] == 0;
  }

  /** The checksum is right exactly when the whole payload, checksum included, divides. */
  lemma {:induction false} DividesIff(p: seq<Byte>)
    requires |p| >= 8
    ensures Bytes(Crc64(0, p[..|p| - 8]), 8) == p[|p| - 8..] <==> Crc64(0, p) == 0
  {
    hide Word, Crc64, Iterate, Xor, Bytes;
    var s, t := p[..|p| - 8], p[|p| - 8..];
    assert p == s + t;
    var c := Crc64(0, s);
    SameWord(c, t);
    Crc64Concat(0, s, t);
    FeedWindow(c, t);
    IterateZero(8);
    if Iterate(Xor(c, Word(t)), 8) == 0 {
      IterateInjective(Xor(c, Word(t)), 0, 8);
    }
    XorIsZero(c, Word(t));
  }

  lemma {:induction false} IterateZero(k: nat)
    ensures Iterate(0, k) == 0
  {
    if k > 0 {
      ZeroShifts();
      hide Shift8;
      IterateZero(k - 1);
    }
  }

  lemma ZeroShifts()
    ensures Shift8(0) == 0
  {
  }

  lemma XorIsZero(x: bv64, y: bv64)
    ensures Xor(x, y) == 0 <==> x == y
  {
  }

  /** p and q differ, and only within the eight bytes from i. */
  predicate DiffersAt(p: seq<Byte>, q: seq<Byte>, i: nat) {
    && |p| == |q| && i + 8 <= |p| && p != q
    && p[..i] == q[..i] && p[i + 8..] == q[i + 8..]
  }

  lemma WindowDiffers(p: seq<Byte>, q: seq<Byte>, i: nat)
    requires DiffersAt(p, q, i)
    ensures p[i..i + 8] != q[i..i + 8]
  {
    assert p == p[..i] + p[i..i + 8] + p[i + 8..];
    assert q == q[..i] + q[i..i + 8] + q[i + 8..];
  }

  /** Different windows after the same state give different states. */
  lemma WindowSeparates(c: bv64, s: seq<Byte>, t: seq<Byte>)
    requires |s| == 8 && |t| == 8 && Crc64(c, s) == Crc64(c, t)
    ensures s == t
  {
    hide Word, Crc64, Iterate, Xor, Bytes;
    FeedWindow(c, s);
    FeedWindow(c, t);
    IterateInjective(Xor(c, Word(s)), Xor(c, Word(t)), 8);
    XorSame(c, Word(s), Word(t));
    SameWord(Word(s), s);
    SameWord(Word(t), t);
  }

  lemma XorSame(c: bv64, x: bv64, y: bv64)
    requires Xor(c, x) == Xor(c, y)
    ensures x == y
  {
  }

  lemma Crc64Separates(p: seq<Byte>, q: seq<Byte>, i: nat)
    requires DiffersAt(p, q, i)
    ensures Crc64(0, p) != Crc64(0, q)
  {
    hide Crc64;
    WindowDiffers(p, q, i);
    var a, b := p[..i + 8], q[..i + 8];
    assert p == a + p[i + 8..] && q == b + q[i + 8..];
    assert a == p[..i] + p[i..i + 8] && b == q[..i] + q[i..i + 8];
    Crc64Concat(0, a, p[i + 8..]);
    Crc64Concat(0, b, q[i + 8..]);
    Crc64Concat(0, p[..i], p[i..i + 8]);
    Crc64Concat(0, q[..i], q[i..i + 8]);
    if Crc64(0, p) == Crc64(0, q) {
      Crc64Injective(Crc64(0, a), Crc64(0, b), p[i + 8..]);
      WindowSeparates(Crc64(0, p[..i]), p[i..i + 8], q[i..i + 8]);
    }
  }

  /** DUMP integrity: a payload that passes is rejected once anything within eight
      consecutive bytes of it changes. */
  lemma BurstRejected(p: seq<Byte>, q: seq<Byte>, i: nat)
    requires Verify(p) && DiffersAt(p, q, i)
    ensures !Verify(q)
  {
    hide Crc64, Bytes;
    Crc64Separates(p, q, i);
    DividesIff(p);
    DividesIff(q);
  }

  /** In particular, when exactly one byte changes. */
  lemma OneByteRejected(p: seq<Byte>, q: seq<Byte>, j: nat)
    requires Verify(p) && |p| == |q| && j < |p| && p[j] != q[j]
    requires forall k :: 0 <= k < |p| && k != j ==> p[k] == q[k]
    ensures !Verify(q)
  {
    hide Crc64, Bytes, Version;
    var i := if j + 8 <= |p| then j else |p| - 8;
    BurstRejected(p, q, i);
  }

  /** The method the commands call. */
  method VerifyPayload(p: seq<Byte>) returns (ok: bool)
    ensures ok == Verify(p)
  {
    hide Crc64, Bytes;
    if |p| < 10 { return false; }
    if Version(p) > RDB_VERSION { return false; }
    var crc := ComputeCrc64(0, p[..|p| - 8]);
    ok := Bytes(crc, 8) == p[|p| - 8..];
  }
}
