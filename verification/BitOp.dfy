/** BITOP: a bitwise operation over any number of strings, 32 bytes at a time while every
    source lasts, then byte by byte. */
module BitOp {
  import opened Bitmap
  import opened Bitfield
  import opened Bitpos

  datatype Op = OpAnd | OpOr | OpXor | OpNot

  datatype Value = Missing | Text(s: seq<bv8>) | Other

  datatype Outcome = Arity | WrongType | Deleted | Stored(s: seq<bv8>)

  // ---- what is computed ----

  function Mix(op: Op, x: bv8, y: bv8): bv8 {
    match op
    case OpAnd => x & y
    case OpOr => x | y
    case OpXor => x ^ y
    case OpNot => x
  }

  function First(op: Op, x: bv8): bv8 {
    if op == OpNot then !x else x
  }

  /** The operator folded over byte j of the first n sources, each zero padded. */
  function Fold(op: Op, src: seq<seq<bv8>>, j: nat, n: nat): bv8
    requires 1 <= n <= |src|
    decreases n
  {
    if n == 1 then First(op, ByteAt(src[0], j)) else Mix(op, Fold(op, src, j, n - 1), ByteAt(src[n - 1], j))
  }

  function Longest(src: seq<seq<bv8>>): (m: nat)
    ensures forall s :: s in src ==> |s| <= m
  {
    if src == [] then 0 else
      var m := Longest(src[..|src| - 1]);
      var s := src[|src| - 1];
      assert forall t :: t in src ==> t in src[..|src| - 1] || t == s;
      if |s| > m then |s| else m
  }

  function Combined(op: Op, src: seq<seq<bv8>>): (r: seq<bv8>)
    requires src != []
    ensures |r| == Longest(src)
  {
    seq(Longest(src), j requires 0 <= j => Fold(op, src, j, |src|))
  }

  // ---- bit by bit ----

  /** How many of the first n sources have bit p. */
  function Holders(src: seq<seq<bv8>>, p: nat, n: nat): (h: nat)
    requires n <= |src|
    ensures h <= n
    decreases n
  {
    if n == 0 then 0 else Holders(src, p, n - 1) + if PaddedBit(src[n - 1], p) then 1 else 0
  }

  predicate Holds(op: Op, h: nat, n: nat) {
    match op
    case OpAnd => h == n
    case OpOr => h > 0
    case OpXor => h % 2 == 1
    case OpNot => h == 0
  }

  predicate Single(m: bv8) {
    m == 0x01 || m == 0x02 || m == 0x04 || m == 0x08 || m == 0x10 || m == 0x20 || m == 0x40 || m == 0x80
  }

  lemma MaskSingle(k: nat)
    requires k < 8
    ensures Single(Mask(k))
  {
  }

  lemma AndMask(x: bv8, y: bv8, m: bv8)
    requires Single(m)
    ensures (x & y) & m != 0 <==> x & m != 0 && y & m != 0
  {
  }

  lemma OrMask(x: bv8, y: bv8, m: bv8)
    ensures (x | y) & m != 0 <==> x & m != 0 || y & m != 0
  {
  }

  lemma XorMask(x: bv8, y: bv8, m: bv8)
    requires Single(m)
    ensures (x ^ y) & m != 0 <==> (x & m != 0) != (y & m != 0)
  {
  }

  lemma NotMask(x: bv8, m: bv8)
    requires Single(m)
    ensures !x & m != 0 <==> x & m == 0
  {
  }

  predicate MixBool(op: Op, x: bool, y: bool) {
    match op
    case OpAnd => x && y
    case OpOr => x || y
    case OpXor => x != y
    case OpNot => x
  }

  lemma AndBit(x: bv8, y: bv8, k: nat)
    requires k < 8
    ensures Bit(x & y, k) == (Bit(x, k) && Bit(y, k))
  {
    hide Mask, Single;
    MaskSingle(k);
    AndMask(x, y, Mask(k));
  }

  lemma OrBit(x: bv8, y: bv8, k: nat)
    requires k < 8
    ensures Bit(x | y, k) == (Bit(x, k) || Bit(y, k))
  {
    hide Mask;
    OrMask(x, y, Mask(k));
  }

  lemma XorBit(x: bv8, y: bv8, k: nat)
    requires k < 8
    ensures Bit(x ^ y, k) == (Bit(x, k) != Bit(y, k))
  {
    hide Mask, Single;
    MaskSingle(k);
    XorMask(x, y, Mask(k));
  }

  lemma MixBit(op: Op, x: bv8, y: bv8, k: nat)
    requires k < 8
    ensures Bit(Mix(op, x, y), k) == MixBool(op, Bit(x, k), Bit(y, k))
  {
    hide Bit;
    match op
    case OpAnd => AndBit(x, y, k);
    case OpOr => OrBit(x, y, k);
    case OpXor => XorBit(x, y, k);
    case OpNot =>
  }

  lemma FirstBit(op: Op, x: bv8, k: nat)
    requires k < 8
    ensures Bit(First(op, x), k) == (Bit(x, k) != (op == OpNot))
  {
    hide Mask, Single;
    MaskSingle(k);
    NotMask(x, Mask(k));
  }

  /** Bit p of the result depends on how many sources have bit p, and on nothing else. */
  lemma {:induction false} FoldBit(op: Op, src: seq<seq<bv8>>, i: nat, t: nat, n: nat)
    requires 1 <= n <= |src| && t < 8 && (op == OpNot ==> n == 1)
    ensures Bit(Fold(op, src, i, n), 7 - t) <==> Holds(op, Holders(src, 8 * i + t, n), n)
    decreases n
  {
    hide Bit, PaddedBit, ByteAt, Mix, First;
    var p := 8 * i + t;
    PaddedByte(src[n - 1], i, t);
    if n == 1 {
      FirstBit(op, ByteAt(src[0], i), 7 - t);
      assert Holders(src, p, 0) == 0;
    } else {
      FoldBit(op, src, i, t, n - 1);
      MixBit(op, Fold(op, src, i, n - 1), ByteAt(src[n - 1], i), 7 - t);
    }
  }

  lemma CombinedBit(op: Op, src: seq<seq<bv8>>, p: nat)
    requires src != [] && p < 8 * Longest(src) && (op == OpNot ==> |src| == 1)
    ensures BitAt(Combined(op, src), p) <==> Holds(op, Holders(src, p, |src|), |src|)
  {
    hide Bit, Fold, Holds, Holders;
    FoldBit(op, src, p / 8, p % 8, |src|);
  }

  lemma {:induction false} HoldersAll(src: seq<seq<bv8>>, p: nat, n: nat)
    requires n <= |src|
    ensures Holders(src, p, n) == n <==> forall i :: 0 <= i < n ==> PaddedBit(src[i], p)
    ensures Holders(src, p, n) == 0 <==> forall i :: 0 <= i < n ==> !PaddedBit(src[i], p)
    decreases n
  {
    hide PaddedBit;
    if n > 0 { HoldersAll(src, p, n - 1); }
  }

  /** What each operator means for bit p of the stored string. */
  lemma CombinedMeans(op: Op, src: seq<seq<bv8>>, p: nat)
    requires src != [] && p < 8 * Longest(src) && (op == OpNot ==> |src| == 1)
    ensures op == OpAnd ==> (BitAt(Combined(op, src), p) <==> forall i :: 0 <= i < |src| ==> PaddedBit(src[i], p))
    ensures op == OpOr ==> (BitAt(Combined(op, src), p) <==> exists i :: 0 <= i < |src| && PaddedBit(src[i], p))
    ensures op == OpXor ==> (BitAt(Combined(op, src), p) <==> Holders(src, p, |src|) % 2 == 1)
    ensures op == OpNot ==> (BitAt(Combined(op, src), p) <==> !PaddedBit(src[0], p))
  {
    hide Combined, PaddedBit, Holders, Longest;
    CombinedBit(op, src, p);
    HoldersAll(src, p, |src|);
  }

  // ---- eight bytes at once ----

  function Byte(w: bv64, i: nat): bv8
    requires i < 8
  {
    if i == 0 then (w & 0xFF) as bv8 else if i == 1 then ((w >> 8) & 0xFF) as bv8
    else if i == 2 then ((w >> 16) & 0xFF) as bv8 else if i == 3 then ((w >> 24) & 0xFF) as bv8
    else if i == 4 then ((w >> 32) & 0xFF) as bv8 else if i == 5 then ((w >> 40) & 0xFF) as bv8
    else if i == 6 then ((w >> 48) & 0xFF) as bv8 else ((w >> 56) & 0xFF) as bv8
  }

  function MixWord(op: Op, x: bv64, y: bv64): bv64 {
    match op
    case OpAnd => x & y
    case OpOr => x | y
    case OpXor => x ^ y
    case OpNot => !x
  }

  function MixAt(op: Op, x: bv8, y: bv8): bv8 {
    if op == OpNot then !x else Mix(op, x, y)
  }

  lemma AndWord(x: bv64, y: bv64)
    ensures Byte(x & y, 0) == Byte(x, 0) & Byte(y, 0)
    ensures Byte(x & y, 1) == Byte(x, 1) & Byte(y, 1)
    ensures Byte(x & y, 2) == Byte(x, 2) & Byte(y, 2)
    ensures Byte(x & y, 3) == Byte(x, 3) & Byte(y, 3)
    ensures Byte(x & y, 4) == Byte(x, 4) & Byte(y, 4)
    ensures Byte(x & y, 5) == Byte(x, 5) & Byte(y, 5)
    ensures Byte(x & y, 6) == Byte(x, 6) & Byte(y, 6)
    ensures Byte(x & y, 7) == Byte(x, 7) & Byte(y, 7)
  {
  }

  lemma AndBytes(x: bv64, y: bv64)
    ensures Byte(MixWord(OpAnd, x, y), 0) == MixAt(OpAnd, Byte(x, 0), Byte(y, 0))
    ensures Byte(MixWord(OpAnd, x, y), 1) == MixAt(OpAnd, Byte(x, 1), Byte(y, 1))
    ensures Byte(MixWord(OpAnd, x, y), 2) == MixAt(OpAnd, Byte(x, 2), Byte(y, 2))
    ensures Byte(MixWord(OpAnd, x, y), 3) == MixAt(OpAnd, Byte(x, 3), Byte(y, 3))
    ensures Byte(MixWord(OpAnd, x, y), 4) == MixAt(OpAnd, Byte(x, 4), Byte(y, 4))
    ensures Byte(MixWord(OpAnd, x, y), 5) == MixAt(OpAnd, Byte(x, 5), Byte(y, 5))
    ensures Byte(MixWord(OpAnd, x, y), 6) == MixAt(OpAnd, Byte(x, 6), Byte(y, 6))
    ensures Byte(MixWord(OpAnd, x, y), 7) == MixAt(OpAnd, Byte(x, 7), Byte(y, 7))
  {
    hide Byte;
    AndWord(x, y);
  }

  lemma OrWord(x: bv64, y: bv64)
    ensures Byte(x | y, 0) == Byte(x, 0) | Byte(y, 0)
    ensures Byte(x | y, 1) == Byte(x, 1) | Byte(y, 1)
    ensures Byte(x | y, 2) == Byte(x, 2) | Byte(y, 2)
    ensures Byte(x | y, 3) == Byte(x, 3) | Byte(y, 3)
    ensures Byte(x | y, 4) == Byte(x, 4) | Byte(y, 4)
    ensures Byte(x | y, 5) == Byte(x, 5) | Byte(y, 5)
    ensures Byte(x | y, 6) == Byte(x, 6) | Byte(y, 6)
    ensures Byte(x | y, 7) == Byte(x, 7) | Byte(y, 7)
  {
  }

  lemma OrBytes(x: bv64, y: bv64)
    ensures Byte(MixWord(OpOr, x, y), 0) == MixAt(OpOr, Byte(x, 0), Byte(y, 0))
    ensures Byte(MixWord(OpOr, x, y), 1) == MixAt(OpOr, Byte(x, 1), Byte(y, 1))
    ensures Byte(MixWord(OpOr, x, y), 2) == MixAt(OpOr, Byte(x, 2), Byte(y, 2))
    ensures Byte(MixWord(OpOr, x, y), 3) == MixAt(OpOr, Byte(x, 3), Byte(y, 3))
    ensures Byte(MixWord(OpOr, x, y), 4) == MixAt(OpOr, Byte(x, 4), Byte(y, 4))
    ensures Byte(MixWord(OpOr, x, y), 5) == MixAt(OpOr, Byte(x, 5), Byte(y, 5))
    ensures Byte(MixWord(OpOr, x, y), 6) == MixAt(OpOr, Byte(x, 6), Byte(y, 6))
    ensures Byte(MixWord(OpOr, x, y), 7) == MixAt(OpOr, Byte(x, 7), Byte(y, 7))
  {
    hide Byte;
    OrWord(x, y);
  }

  lemma XorWord(x: bv64, y: bv64)
    ensures Byte(x ^ y, 0) == Byte(x, 0) ^ Byte(y, 0)
    ensures Byte(x ^ y, 1) == Byte(x, 1) ^ Byte(y, 1)
    ensures Byte(x ^ y, 2) == Byte(x, 2) ^ Byte(y, 2)
    ensures Byte(x ^ y, 3) == Byte(x, 3) ^ Byte(y, 3)
    ensures Byte(x ^ y, 4) == Byte(x, 4) ^ Byte(y, 4)
    ensures Byte(x ^ y, 5) == Byte(x, 5) ^ Byte(y, 5)
    ensures Byte(x ^ y, 6) == Byte(x, 6) ^ Byte(y, 6)
    ensures Byte(x ^ y, 7) == Byte(x, 7) ^ Byte(y, 7)
  {
  }

  lemma XorBytes(x: bv64, y: bv64)
    ensures Byte(MixWord(OpXor, x, y), 0) == MixAt(OpXor, Byte(x, 0), Byte(y, 0))
    ensures Byte(MixWord(OpXor, x, y), 1) == MixAt(OpXor, Byte(x, 1), Byte(y, 1))
    ensures Byte(MixWord(OpXor, x, y), 2) == MixAt(OpXor, Byte(x, 2), Byte(y, 2))
    ensures Byte(MixWord(OpXor, x, y), 3) == MixAt(OpXor, Byte(x, 3), Byte(y, 3))
    ensures Byte(MixWord(OpXor, x, y), 4) == MixAt(OpXor, Byte(x, 4), Byte(y, 4))
    ensures Byte(MixWord(OpXor, x, y), 5) == MixAt(OpXor, Byte(x, 5), Byte(y, 5))
    ensures Byte(MixWord(OpXor, x, y), 6) == MixAt(OpXor, Byte(x, 6), Byte(y, 6))
    ensures Byte(MixWord(OpXor, x, y), 7) == MixAt(OpXor, Byte(x, 7), Byte(y, 7))
  {
    hide Byte;
    XorWord(x, y);
  }

  lemma NotWord(x: bv64)
    ensures Byte(!x, 0) == !Byte(x, 0)
    ensures Byte(!x, 1) == !Byte(x, 1)
    ensures Byte(!x, 2) == !Byte(x, 2)
    ensures Byte(!x, 3) == !Byte(x, 3)
    ensures Byte(!x, 4) == !Byte(x, 4)
    ensures Byte(!x, 5) == !Byte(x, 5)
    ensures Byte(!x, 6) == !Byte(x, 6)
    ensures Byte(!x, 7) == !Byte(x, 7)
  {
  }

  lemma NotBytes(x: bv64, y: bv64)
    ensures Byte(MixWord(OpNot, x, y), 0) == MixAt(OpNot, Byte(x, 0), Byte(y, 0))
    ensures Byte(MixWord(OpNot, x, y), 1) == MixAt(OpNot, Byte(x, 1), Byte(y, 1))
    ensures Byte(MixWord(OpNot, x, y), 2) == MixAt(OpNot, Byte(x, 2), Byte(y, 2))
    ensures Byte(MixWord(OpNot, x, y), 3) == MixAt(OpNot, Byte(x, 3), Byte(y, 3))
    ensures Byte(MixWord(OpNot, x, y), 4) == MixAt(OpNot, Byte(x, 4), Byte(y, 4))
    ensures Byte(MixWord(OpNot, x, y), 5) == MixAt(OpNot, Byte(x, 5), Byte(y, 5))
    ensures Byte(MixWord(OpNot, x, y), 6) == MixAt(OpNot, Byte(x, 6), Byte(y, 6))
    ensures Byte(MixWord(OpNot, x, y), 7) == MixAt(OpNot, Byte(x, 7), Byte(y, 7))
  {
    hide Byte;
    NotWord(x);
  }

  lemma ByteOfMix(op: Op, x: bv64, y: bv64, i: nat)
    requires i < 8
    ensures Byte(MixWord(op, x, y), i) == MixAt(op, Byte(x, i), Byte(y, i))
  {
    hide Byte, MixWord, MixAt;
    assert i == 0 || i == 1 || i == 2 || i == 3 || i == 4 || i == 5 || i == 6 || i == 7;
    match op
    case OpAnd => AndBytes(x, y);
    case OpOr => OrBytes(x, y);
    case OpXor => XorBytes(x, y);
    case OpNot => NotBytes(x, y);
  }

  lemma ByteOfNative(b0: bv8, b1: bv8, b2: bv8, b3: bv8, b4: bv8, b5: bv8, b6: bv8, b7: bv8)
    ensures var w := Native(b0, b1, b2, b3, b4, b5, b6, b7);
            Byte(w, 0) == b0 && Byte(w, 1) == b1 && Byte(w, 2) == b2 && Byte(w, 3) == b3
            && Byte(w, 4) == b4 && Byte(w, 5) == b5 && Byte(w, 6) == b6 && Byte(w, 7) == b7
  {
  }

  function WordAt(s: seq<bv8>, at: nat): bv64
    requires at + 8 <= |s|
  {
    Native(s[at], s[at + 1], s[at + 2], s[at + 3], s[at + 4], s[at + 5], s[at + 6], s[at + 7])
  }

  lemma ByteOfWordAt(s: seq<bv8>, at: nat, i: nat)
    requires at + 8 <= |s| && i < 8
    ensures Byte(WordAt(s, at), i) == s[at + i]
  {
    hide Byte, Native;
    ByteOfNative(s[at], s[at + 1], s[at + 2], s[at + 3], s[at + 4], s[at + 5], s[at + 6], s[at + 7]);
    assert i == 0 || i == 1 || i == 2 || i == 3 || i == 4 || i == 5 || i == 6 || i == 7;
  }

  /** One word of the result, in place. */
  method MixOne(op: Op, res: array<bv8>, at: nat, s: seq<bv8>)
    requires at + 8 <= res.Length && at + 8 <= |s|
    modifies res
    ensures forall k :: 0 <= k < res.Length ==>
      res[k] == if at <= k < at + 8 then MixAt(op, old(res[k]), s[k]) else old(res[k])
  {
    hide Byte, WordAt, MixWord, MixAt;
    ghost var before := res[..];
    var x := WordAt(res[..], at);
    var y := WordAt(s, at);
    var w := MixWord(op, x, y);
    for i := 0 to 8
      invariant forall k :: 0 <= k < res.Length ==>
        res[k] == if at <= k < at + i then MixAt(op, before[k], s[k]) else before[k]
    {
      ByteOfMix(op, x, y, i);
      ByteOfWordAt(before, at, i);
      ByteOfWordAt(s, at, i);
      res[at + i] := Byte(w, i);
    }
  }

  /** Four words. */
  method MixBlock(op: Op, res: array<bv8>, at: nat, s: seq<bv8>)
    requires at + 32 <= res.Length && at + 32 <= |s|
    modifies res
    ensures forall k :: 0 <= k < res.Length ==>
      res[k] == if at <= k < at + 32 then MixAt(op, old(res[k]), s[k]) else old(res[k])
  {
    hide MixAt;
    MixOne(op, res, at, s);
    MixOne(op, res, at + 8, s);
    MixOne(op, res, at + 16, s);
    MixOne(op, res, at + 24, s);
  }

  lemma NextFold(op: Op, src: seq<seq<bv8>>, j: nat, n: nat)
    requires 1 <= n < |src| && j < |src[n]| && op != OpNot
    ensures Fold(op, src, j, n + 1) == MixAt(op, Fold(op, src, j, n), src[n][j])
  {
    hide Mix;
  }

  /** One turn of the unrolled loops: 32 bytes of every source. */
  method MixAll(op: Op, src: seq<seq<bv8>>, res: array<bv8>, j: nat)
    requires src != [] && (op == OpNot ==> |src| == 1) && j + 32 <= res.Length
    requires forall i :: 0 <= i < |src| ==> j + 32 <= |src[i]|
    requires forall k :: j <= k < j + 32 ==> res[k] == src[0][k]
    modifies res
    ensures forall k :: j <= k < j + 32 ==> res[k] == Fold(op, src, k, |src|)
    ensures forall k :: 0 <= k < res.Length && !(j <= k < j + 32) ==> res[k] == old(res[k])
  {
    hide Mix, MixAt;
    forall k | j <= k < j + 32
      ensures Fold(op, src, k, 1) == First(op, src[0][k])
      ensures MixAt(OpNot, src[0][k], src[0][k]) == First(OpNot, src[0][k])
    {
      FirstFold(op, src, k);
    }
    hide Fold, First;
    if op == OpNot {
      MixBlock(op, res, j, src[0]);
    } else {
      FirstIsSame(op);
      for i := 1 to |src|
        invariant forall k :: j <= k < j + 32 ==> res[k] == Fold(op, src, k, i)
        invariant forall k :: 0 <= k < res.Length && !(j <= k < j + 32) ==> res[k] == old(res[k])
      {
        forall k | j <= k < j + 32
          ensures Fold(op, src, k, i + 1) == MixAt(op, Fold(op, src, k, i), src[i][k])
        {
          NextFold(op, src, k, i);
        }
        MixBlock(op, res, j, src[i]);
      }
    }
  }

  lemma FirstFold(op: Op, src: seq<seq<bv8>>, k: nat)
    requires src != [] && k < |src[0]|
    ensures Fold(op, src, k, 1) == First(op, src[0][k])
    ensures MixAt(OpNot, src[0][k], src[0][k]) == First(OpNot, src[0][k])
  {
  }

  lemma FirstIsSame(op: Op)
    requires op != OpNot
    ensures forall x :: First(op, x) == x
  {
  }

  /** The fast path; it covers the first j bytes. */
  method FastPath(op: Op, src: seq<seq<bv8>>, res: array<bv8>, minlen: nat) returns (j: nat)
    requires src != [] && (op == OpNot ==> |src| == 1) && minlen <= res.Length
    requires forall i :: 0 <= i < |src| ==> minlen <= |src[i]|
    modifies res
    ensures j <= minlen && forall k :: 0 <= k < j ==> res[k] == Fold(op, src, k, |src|)
  {
    hide Fold;
    forall k | 0 <= k < minlen { res[k] := src[0][k]; }
    j := 0;
    var left := minlen;
    while left >= 32
      invariant j + left == minlen
      invariant forall k :: 0 <= k < j ==> res[k] == Fold(op, src, k, |src|)
      invariant forall k :: j <= k < minlen ==> res[k] == src[0][k]
    {
      MixAll(op, src, res, j);
      j := j + 32;
      left := left - 32;
    }
  }

  /** One byte of the tail. */
  method FoldOne(op: Op, src: seq<seq<bv8>>, j: nat) returns (output: bv8)
    requires src != []
    ensures output == Fold(op, src, j, |src|)
  {
    hide Mix;
    output := if |src[0]| <= j then 0 else src[0][j];
    if op == OpNot { output := !output; }
    for i := 1 to |src|
      invariant output == Fold(op, src, j, i)
    {
      var byte: bv8 := if |src[i]| <= j then 0 else src[i][j];
      output := Mix(op, output, byte);
    }
  }

  // ---- the command ----

  function TextOf(v: Value): seq<bv8>
    requires !v.Other?
  {
    if v.Missing? then [] else v.s
  }

  function Texts(keys: seq<Value>): (r: seq<seq<bv8>>)
    requires Other !in keys
    ensures |r| == |keys|
  {
    seq(|keys|, i requires 0 <= i < |keys| => TextOf(keys[i]))
  }

  predicate Shortest(src: seq<seq<bv8>>, m: nat) {
    src != [] ==> (exists i :: 0 <= i < |src| && |src[i]| == m) && forall i :: 0 <= i < |src| ==> m <= |src[i]|
  }

  lemma LongestNext(src: seq<seq<bv8>>, s: seq<bv8>)
    ensures Longest(src + [s]) == if |s| > Longest(src) then |s| else Longest(src)
  {
    assert (src + [s])[..|src|] == src;
  }

  lemma ShortestNext(src: seq<seq<bv8>>, m: nat, s: seq<bv8>)
    requires Shortest(src, m)
    ensures Shortest(src + [s], if src == [] || |s| < m then |s| else m)
  {
    var both := src + [s];
    assert both[|src|] == s;
    if src != [] {
      var i :| 0 <= i < |src| && |src[i]| == m;
      assert both[i] == src[i];
    }
  }

  /** The lookup loop: sources, longest and shortest length. */
  method LookUp(keys: seq<Value>) returns (ok: bool, src: seq<seq<bv8>>, maxlen: nat, minlen: nat)
    ensures ok <==> Other !in keys
    ensures ok ==> src == Texts(keys) && maxlen == Longest(src) && Shortest(src, minlen)
  {
    hide Longest, Shortest;
    ok, src, maxlen, minlen := true, [], 0, 0;
    NoSources();
    for j := 0 to |keys|
      invariant |src| == j && forall i :: 0 <= i < j ==> !keys[i].Other? && src[i] == TextOf(keys[i])
      invariant maxlen == Longest(src) && Shortest(src, minlen)
    {
      var v := keys[j];
      if v.Other? {
        ok := false;
        return;
      }
      LongestNext(src, TextOf(v));
      ShortestNext(src, minlen, TextOf(v));
      src := src + [TextOf(v)];
      if v.Missing? {
        minlen := 0;
      } else {
        if |v.s| > maxlen { maxlen := |v.s|; }
        if j == 0 || |v.s| < minlen { minlen := |v.s|; }
      }
    }
  }

  lemma NoSources()
    ensures Longest([]) == 0 && Shortest([], 0)
  {
  }

  /** BITOP. */
  method BitOperation(op: Op, keys: seq<Value>) returns (o: Outcome)
    requires keys != []
    ensures o == if op == OpNot && |keys| != 1 then Arity else if Other in keys then WrongType
                 else if Longest(Texts(keys)) == 0 then Deleted else Stored(Combined(op, Texts(keys)))
  {
    hide Longest, Fold;
    if op == OpNot && |keys| != 1 { return Arity; }
    var ok, src, maxlen, minlen := LookUp(keys);
    if !ok { return WrongType; }
    if maxlen == 0 { return Deleted; }
    var res := new bv8[maxlen](_ => 0);
    var j := 0;
    if minlen >= 32 && |src| <= 16 {
      ShortestIsShort(src, minlen);
      j := FastPath(op, src, res, minlen);
    }
    while j < maxlen
      invariant j <= maxlen && forall k :: 0 <= k < j ==> res[k] == Fold(op, src, k, |src|)
    {
      res[j] := FoldOne(op, src, j);
      j := j + 1;
    }
    assert res[..] == Combined(op, src);
    return Stored(res[..]);
  }

  lemma ShortestIsShort(src: seq<seq<bv8>>, m: nat)
    requires src != [] && Shortest(src, m)
    ensures m <= Longest(src) && forall i :: 0 <= i < |src| ==> m <= |src[i]|
  {
    assert src[0] in src;
  }
}
