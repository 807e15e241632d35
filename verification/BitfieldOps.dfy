/** BITFIELD GET, SET and INCRBY with their overflow policies, for widths 1 to 63. */
module BitfieldOps {
  import opened Basics
  import opened Bitmap
  import opened Bitfield

  datatype Overflow = Wrap | Sat | Fail

  /** What the bits of a field mean. */
  function Signed(u: nat, bits: nat): int
    requires bits > 0
  {
    if u >= Pow2(bits - 1) then u - Pow2(bits) else u
  }

  function Value(s: seq<bv8>, off: nat, bits: nat, signed: bool): int
    requires off + bits <= 8 * |s| && bits > 0
  {
    if signed then Signed(Field(s, off, bits), bits) else Field(s, off, bits)
  }

  function Max(bits: nat, signed: bool): int
    requires bits > 0
  {
    if signed then Pow2(bits - 1) - 1 else Pow2(bits) - 1
  }

  function Min(bits: nat, signed: bool): int
    requires bits > 0
  {
    if signed then 0 - Pow2(bits - 1) else 0
  }

  predicate Fits(v: int, bits: nat, signed: bool)
    requires bits > 0
  {
    Min(bits, signed) <= v <= Max(bits, signed)
  }

  /** The number of that width that is the same modulo 2^bits. */
  function Wrapped(v: int, bits: nat, signed: bool): int
    requires bits > 0
  {
    if signed then Signed(v % Pow2(bits), bits) else v % Pow2(bits)
  }

  /** What a policy makes of the exact result; None is the failure reply. */
  function Result(v: int, bits: nat, signed: bool, ow: Overflow): Option<int>
    requires bits > 0
  {
    if Fits(v, bits, signed) then Some(v)
    else match ow
      case Wrap => Some(Wrapped(v, bits, signed))
      case Sat => Some(if v > Max(bits, signed) then Max(bits, signed) else Min(bits, signed))
      case Fail => None
  }

  /** Reduced modulo 2 h, then moved into the signed range. */
  lemma WrapRange(v: int, h: nat)
    requires h > 0
    ensures var r := v % (2 * h);
      && r % (2 * h) == r && (r - 2 * h) % (2 * h) == r
      && (0 <= v < 2 * h ==> r == v) && (0 - h <= v < 0 ==> r == v + 2 * h)
  {
    var m := 2 * h;
    var r := v % m;
    DivMod(r, m, 0, r);
    DivMod(r - m, m, -1, r);
    if 0 <= v < m {
      DivMod(v, m, 0, v);
    } else if 0 - h <= v < 0 {
      DivMod(v, m, -1, v + m);
    }
  }

  /** The wrapped number fits and is the same modulo 2^bits; one that fits stays. */
  lemma WrappedIsCongruent(v: int, bits: nat, signed: bool)
    requires bits > 0
    ensures Fits(Wrapped(v, bits, signed), bits, signed)
    ensures Wrapped(v, bits, signed) % Pow2(bits) == v % Pow2(bits)
    ensures Fits(v, bits, signed) ==> Wrapped(v, bits, signed) == v
  {
    assert Pow2(bits) == 2 * Pow2(bits - 1);
    hide Pow2;
    WrapRange(v, Pow2(bits - 1));
  }

  lemma ResultFits(v: int, bits: nat, signed: bool, ow: Overflow)
    requires bits > 0
    ensures Result(v, bits, signed, ow).Some? ==> Fits(Result(v, bits, signed, ow).value, bits, signed)
  {
    WrappedIsCongruent(v, bits, signed);
    hide Wrapped, Pow2;
  }

  // ---- the overflow checks of the source ----

  const TWO64: nat := 0x1_0000_0000_0000_0000

  lemma Pow64()
    ensures Pow2(64) == TWO64
  {
    assert Pow2(8) == 256 by { assert Pow2(4) == 16; assert Pow2(6) == 64; }
    assert Pow2(16) == 0x1_0000 by { assert Pow2(12) == 4096; assert Pow2(14) == 16384; }
    assert Pow2(24) == 0x100_0000 by { assert Pow2(20) == 0x10_0000; assert Pow2(22) == 0x40_0000; }
    assert Pow2(32) == 0x1_0000_0000 by { assert Pow2(28) == 0x1000_0000; assert Pow2(30) == 0x4000_0000; }
    assert Pow2(40) == 0x100_0000_0000 by { assert Pow2(36) == 0x10_0000_0000; assert Pow2(38) == 0x40_0000_0000; }
    assert Pow2(48) == 0x1_0000_0000_0000 by {
      assert Pow2(44) == 0x1000_0000_0000;
      assert Pow2(46) == 0x4000_0000_0000;
    }
    assert Pow2(56) == 0x100_0000_0000_0000 by {
      assert Pow2(52) == 0x10_0000_0000_0000;
      assert Pow2(54) == 0x40_0000_0000_0000;
    }
    assert Pow2(60) == 0x1000_0000_0000_0000 by { assert Pow2(58) == 0x400_0000_0000_0000; }
    assert Pow2(62) == 0x4000_0000_0000_0000;
  }

  const TWO63: nat := 0x8000_0000_0000_0000

  predicate IsInt64(x: int) {
    0 - TWO63 <= x < TWO63
  }

  /** What an `int64_t` holds after x is assigned to it: x reduced to 64 bits. */
  function Int64(x: int): (r: int)
    ensures IsInt64(r)
  {
    (x + TWO63) % TWO64 - TWO63
  }

  lemma Int64Is(x: int)
    ensures IsInt64(x) ==> Int64(x) == x
    ensures TWO63 <= x < TWO64 ==> Int64(x) == x - TWO64
  {
  }

  lemma {:induction false} PowMono(a: nat, b: nat)
    requires a <= b
    ensures Pow2(a) <= Pow2(b)
  {
    if a < b { PowMono(a, b - 1); }
  }

  /** Half the range of a field of fewer than 64 bits. */
  lemma HalfBound(bits: nat)
    requires 0 < bits < 64
    ensures Pow2(bits) == 2 * Pow2(bits - 1) && 1 <= Pow2(bits - 1) <= 0x4000_0000_0000_0000
  {
    Pow64();
    assert Pow2(64) == 4 * Pow2(62);
    PowMono(bits - 1, 62);
  }

  /** `checkUnsignedBitfieldOverflow`: the code and the limit it may set. */
  function CheckUnsigned(value: nat, incr: int, bits: nat, ow: Overflow): (int, Option<int>)
    requires bits > 0
  {
    var max := Pow2(bits) - 1;
    var maxincr, minincr := Int64(max - value), Int64(0 - value);
    var wrap := ((value + incr) % TWO64) % Pow2(bits);
    if value > max || (incr > 0 && incr > maxincr) then
      match ow
      case Wrap => (1, Some(wrap))
      case Sat => (1, Some(max))
      case Fail => (1, None)
    else if incr < 0 && incr < minincr then
      match ow
      case Wrap => (1, Some(wrap))
      case Sat => (-1, Some(0))
      case Fail => (-1, None)
    else (0, None)
  }

  /** The sum as an unsigned 64-bit number, its sign bit at the field's width spread upwards. */
  function SignedWrap(value: int, incr: int, bits: nat): int
    requires bits > 0
  {
    var c := (value + incr) % TWO64;
    var low := c % Pow2(bits);
    if (c / Pow2(bits - 1)) % 2 == 1 then low - Pow2(bits) else low
  }

  /** `checkSignedBitfieldOverflow`, for fewer than 64 bits. */
  function CheckSigned(value: int, incr: int, bits: nat, ow: Overflow): (int, Option<int>)
    requires bits > 0
  {
    var max := Pow2(bits - 1) - 1;
    var min := -max - 1;
    var maxincr, minincr := Int64(max - value), Int64(min - value);
    if value > max || incr > maxincr || (value >= 0 && incr > 0 && incr > maxincr) then
      match ow
      case Wrap => (1, Some(SignedWrap(value, incr, bits)))
      case Sat => (1, Some(max))
      case Fail => (1, None)
    else if value < min || incr < minincr || (value < 0 && incr < 0 && incr < minincr) then
      match ow
      case Wrap => (1, Some(SignedWrap(value, incr, bits)))
      case Sat => (-1, Some(min))
      case Fail => (-1, None)
    else (0, None)
  }

  /** The bit below the field's width is set exactly in its upper half. */
  lemma TopBit(c: nat, bits: nat)
    requires bits > 0
    ensures (c / Pow2(bits - 1)) % 2 == 1 <==> c % Pow2(bits) >= Pow2(bits - 1)
  {
    var h := Pow2(bits - 1);
    assert Pow2(bits) == 2 * h;
    hide Pow2;
    var q, r := c / h, c % h;
    assert c == q * h + r;
    assert q == 2 * (q / 2) + q % 2;
    assert c == (q / 2) * (2 * h) + ((q % 2) * h + r);
    if q % 2 == 1 { DivMod(c, 2 * h, q / 2, h + r); } else { DivMod(c, 2 * h, q / 2, r); }
  }

  lemma SignedWrapIsWrapped(value: int, incr: int, bits: nat)
    requires 0 < bits <= 64
    ensures SignedWrap(value, incr, bits) == Wrapped(value + incr, bits, true)
  {
    Pow64();
    ModMod(value + incr, bits, 64);
    TopBit((value + incr) % TWO64, bits);
    hide Pow2;
  }

  /** The checks compute the policy's result: a zero code means that the sum fits, any
      other that the limit is the result. */
  lemma CheckIsResult(value: int, incr: int, bits: nat, signed: bool, ow: Overflow)
    requires 0 < bits < 64 && Fits(value, bits, signed)
    ensures var (code, limit) :=
            if signed then CheckSigned(value, incr, bits, ow) else CheckUnsigned(value, incr, bits, ow);
      && (code == 0 <==> Fits(value + incr, bits, signed))
      && (code != 0 ==> limit == Result(value + incr, bits, signed, ow))
  {
    HalfBound(bits);
    hide Pow2, Int64, Wrapped, SignedWrap;
    if signed {
      SignedCheck(value, incr, bits, ow);
    } else {
      UnsignedCheck(value, incr, bits, ow);
    }
  }

  lemma SignedCheck(value: int, incr: int, bits: nat, ow: Overflow)
    requires 0 < bits < 64 && Fits(value, bits, true)
    ensures var (code, limit) := CheckSigned(value, incr, bits, ow);
      && (code == 0 <==> Fits(value + incr, bits, true))
      && (code != 0 ==> limit == Result(value + incr, bits, true, ow))
  {
    hide SignedWrap, Wrapped, Pow2, Int64;
    HalfBound(bits);
    Int64Is(Max(bits, true) - value);
    Int64Is(Min(bits, true) - value);
    SignedWrapIsWrapped(value, incr, bits);
  }

  lemma UnsignedCheck(value: nat, incr: int, bits: nat, ow: Overflow)
    requires 0 < bits < 64 && Fits(value, bits, false)
    ensures var (code, limit) := CheckUnsigned(value, incr, bits, ow);
      && (code == 0 <==> Fits(value + incr, bits, false))
      && (code != 0 ==> limit == Result(value + incr, bits, false, ow))
  {
    hide Pow2, Int64;
    HalfBound(bits);
    Int64Is(Pow2(bits) - 1 - value);
    Int64Is(0 - value);
    Pow64();
    ModMod(value + incr, bits, 64);
  }

  // ---- the commands ----

  /** `getSignedBitfield` and `getUnsignedBitfield`. */
  method Get(p: array<bv8>, off: nat, bits: nat, signed: bool) returns (v: int)
    requires 0 < bits < 64 && off + bits <= 8 * p.Length
    ensures v == Value(p[..], off, bits, signed)
  {
    hide Field;
    v := GetUnsigned(p, off, bits);
    if signed && v >= Pow2(bits - 1) { v := v - Pow2(bits); }
  }

  /** `setSignedBitfield` and `setUnsignedBitfield`. */
  method Set(p: array<bv8>, off: nat, bits: nat, signed: bool, v: int)
    requires 0 < bits < 64 && off + bits <= 8 * p.Length && Fits(v, bits, signed)
    modifies p
    ensures Value(p[..], off, bits, signed) == v && SameOutside(old(p[..]), p[..], off, bits)
  {
    hide Field, Bitmap.Set;
    SetUnsigned(p, off, bits, v % TWO64);
    Pow64();
    ModMod(v, bits, 64);
    WrappedIsCongruent(v, bits, signed);
  }

  lemma FieldFits(s: seq<bv8>, off: nat, bits: nat, signed: bool)
    requires 0 < bits && off + bits <= 8 * |s|
    ensures Fits(Value(s, off, bits, signed), bits, signed) && (!signed ==> Value(s, off, bits, signed) >= 0)
  {
    assert Pow2(bits) == 2 * Pow2(bits - 1);
  }

  lemma Untouched(s: seq<bv8>, off: nat, bits: nat)
    ensures SameOutside(s, s, off, bits)
  {
  }

  /** INCRBY: the field becomes the result the policy names, nothing else changes, and
      a failure changes nothing. */
  method IncrBy(p: array<bv8>, off: nat, bits: nat, signed: bool, incr: int, ow: Overflow) returns (reply: Option<int>)
    requires 0 < bits < 64 && off + bits <= 8 * p.Length
    modifies p
    ensures reply == Result(old(Value(p[..], off, bits, signed)) + incr, bits, signed, ow)
    ensures reply.Some? ==> Value(p[..], off, bits, signed) == reply.value
    ensures reply.None? ==> p[..] == old(p[..])
    ensures SameOutside(old(p[..]), p[..], off, bits)
  {
    hide Value, CheckSigned, CheckUnsigned, Result, Fits;
    var was := Get(p, off, bits, signed);
    FieldFits(p[..], off, bits, signed);
    CheckIsResult(was, incr, bits, signed, ow);
    ResultFits(was + incr, bits, signed, ow);
    FitsIsResult(was + incr, bits, signed, ow);
    FailsIff(was + incr, bits, signed, ow);
    Untouched(p[..], off, bits);
    var (code, limit) := if signed then CheckSigned(was, incr, bits, ow) else CheckUnsigned(was, incr, bits, ow);
    var v := was + incr;
    if code != 0 {
      if ow == Fail { return None; }
      v := limit.value;
    }
    Set(p, off, bits, signed, v);
    return Some(v);
  }

  lemma FitsIsResult(v: int, bits: nat, signed: bool, ow: Overflow)
    requires bits > 0
    ensures Fits(v, bits, signed) ==> Result(v, bits, signed, ow) == Some(v)
  {
  }

  lemma FailsIff(v: int, bits: nat, signed: bool, ow: Overflow)
    requires bits > 0
    ensures Result(v, bits, signed, ow).None? <==> !Fits(v, bits, signed) && ow == Fail
  {
  }

  /** The number SET stores from its signed 64-bit argument. */
  function Argument(v: int, signed: bool): (r: int)
    ensures !signed ==> r >= 0
  {
    if signed then v else v % TWO64
  }

  /** Does `max - value` fit its `int64_t` wherever the policy depends on it? */
  predicate NoOverflow(v: int, bits: nat, signed: bool, ow: Overflow)
    requires bits > 0
  {
    signed && ow == Sat ==> v >= Pow2(bits - 1) - TWO63
  }

  /** What SET makes of its argument.  Where `max - value` overflows it turns negative,
      and the number is taken to be too large. */
  function SetResult(v: int, bits: nat, signed: bool, ow: Overflow): Option<int>
    requires bits > 0
  {
    if NoOverflow(v, bits, signed, ow) then Result(Argument(v, signed), bits, signed, ow) else Some(Max(bits, signed))
  }

  /** The number SET stores: its argument, or the limit the check sets. */
  function Checked(v: int, bits: nat, signed: bool, ow: Overflow): Option<int>
    requires bits > 0
  {
    var a := Argument(v, signed);
    var (code, limit) := if signed then CheckSigned(a, 0, bits, ow) else CheckUnsigned(a, 0, bits, ow);
    if code == 0 then Some(a) else limit
  }

  /** The check, called with no increment, computes what SET stores. */
  lemma CheckOfSet(v: int, bits: nat, signed: bool, ow: Overflow)
    requires 0 < bits < 64 && IsInt64(v)
    ensures var a := Argument(v, signed);
      var (code, limit) := if signed then CheckSigned(a, 0, bits, ow) else CheckUnsigned(a, 0, bits, ow);
      && (code == 0 <==> Fits(a, bits, signed))
      && (code == 0 ==> SetResult(v, bits, signed, ow) == Some(a))
      && (code != 0 ==> limit == SetResult(v, bits, signed, ow))
  {
    HalfBound(bits);
    if signed {
      SignedWrapIsWrapped(v, 0, bits);
      Int64Is(Pow2(bits - 1) - 1 - v);
      Int64Is(0 - Pow2(bits - 1) - v);
      hide SignedWrap, Wrapped, Pow2, Int64;
    } else {
      Pow64();
      ModMod(v % TWO64, bits, 64);
      hide Pow2, Int64;
    }
  }

  /** SET follows its policy exactly where nothing overflows. */
  lemma SetIsExactIff(v: int, bits: nat, signed: bool, ow: Overflow)
    requires 0 < bits < 64 && IsInt64(v)
    ensures Checked(v, bits, signed, ow) == Result(Argument(v, signed), bits, signed, ow)
       <==> !(signed && ow == Sat && v < Pow2(bits - 1) - TWO63)
  {
    CheckOfSet(v, bits, signed, ow);
    FitsIsResult(Argument(v, signed), bits, signed, ow);
    HalfBound(bits);
    hide Pow2, Wrapped, CheckSigned, CheckUnsigned;
  }

  /** The least 64-bit number, saturated to eight bits, is stored as the greatest. */
  lemma SaturatesUpwards()
    ensures Checked(0 - TWO63, 8, true, Sat) == Some(127)
    ensures Result(0 - TWO63, 8, true, Sat) == Some(-128)
  {
    assert Pow2(7) == 128 by { assert Pow2(3) == 8; assert Pow2(5) == 32; }
    CheckOfSet(0 - TWO63, 8, true, Sat);
    hide Pow2, CheckSigned, CheckUnsigned;
  }

  lemma SetResultFits(v: int, bits: nat, signed: bool, ow: Overflow)
    requires bits > 0
    ensures var r := SetResult(v, bits, signed, ow);
      && (r.Some? ==> Fits(r.value, bits, signed))
      && (r.None? <==> !Fits(Argument(v, signed), bits, signed) && ow == Fail)
  {
    ResultFits(Argument(v, signed), bits, signed, ow);
    FailsIff(Argument(v, signed), bits, signed, ow);
  }

  /** SET: the reply is the value before. */
  method SetField(p: array<bv8>, off: nat, bits: nat, signed: bool, v: int, ow: Overflow) returns (reply: Option<int>)
    requires 0 < bits < 64 && off + bits <= 8 * p.Length && IsInt64(v)
    modifies p
    ensures var r := SetResult(v, bits, signed, ow);
      && (r.Some? ==> reply == Some(old(Value(p[..], off, bits, signed))) && Value(p[..], off, bits, signed) == r.value)
      && (r.None? ==> reply == None && p[..] == old(p[..]))
    ensures SameOutside(old(p[..]), p[..], off, bits)
  {
    hide Value, CheckSigned, CheckUnsigned, SetResult, Fits, Argument;
    var was := Get(p, off, bits, signed);
    var stored := Argument(v, signed);
    CheckOfSet(v, bits, signed, ow);
    SetResultFits(v, bits, signed, ow);
    Untouched(p[..], off, bits);
    var (code, limit) := if signed then CheckSigned(stored, 0, bits, ow) else CheckUnsigned(stored, 0, bits, ow);
    if code != 0 {
      if ow == Fail { return None; }
      stored := limit.value;
    }
    Set(p, off, bits, signed, stored);
    return Some(was);
  }

  // ---- GET beyond the end ----

  /** The string with zeroes behind it. */
  function Padded(s: seq<bv8>, n: nat): seq<bv8> {
    s + seq(n, _ => 0)
  }

  lemma {:induction false} SameField(s: seq<bv8>, off: nat, t: seq<bv8>, off': nat, n: nat)
    requires off + n <= 8 * |s| && off' + n <= 8 * |t|
    requires forall j :: 0 <= j < n ==> SameBit(s, off, t, off', j)
    ensures Field(s, off, n) == Field(t, off', n)
  {
    hide BitAt;
    if n > 0 {
      SameField(s, off, t, off', n - 1);
      assert SameBit(s, off, t, off', n - 1);
    }
  }

  predicate SameBit(s: seq<bv8>, off: nat, t: seq<bv8>, off': nat, j: nat)
    requires off + j < 8 * |s| && off' + j < 8 * |t|
  {
    BitAt(s, off + j) == BitAt(t, off' + j)
  }

  method CopyNine(src: seq<bv8>, byte: nat) returns (buf: array<bv8>)
    ensures fresh(buf) && buf.Length == 9
    ensures forall k :: 0 <= k < 9 ==> buf[k] == if byte + k < |src| then src[byte + k] else 0
  {
    buf := new bv8[9](_ => 0);
    var i := 0;
    while i < 9 && byte + i < |src|
      invariant 0 <= i <= 9 && (i > 0 ==> byte + i <= |src|)
      invariant forall k :: 0 <= k < 9 ==> buf[k] == if k < i then src[byte + k] else 0
    {
      buf[i] := src[byte + i];
      i := i + 1;
    }
  }

  /** GET copies nine bytes, zero-padded, and reads the field from the copy. */
  method GetPadded(src: seq<bv8>, off: nat, bits: nat, signed: bool) returns (v: int)
    requires 0 < bits < 64
    ensures off + bits <= 8 * |Padded(src, off / 8 + 9)| && v == Value(Padded(src, off / 8 + 9), off, bits, signed)
  {
    hide Field, Bit;
    var byte := off / 8;
    var buf := CopyNine(src, byte);
    CopyBits(Padded(src, byte + 9), buf[..], off, bits);
    v := Get(buf, off - byte * 8, bits, signed);
  }

  lemma CopyBits(p: seq<bv8>, buf: seq<bv8>, off: nat, bits: nat)
    requires bits < 64 && |buf| == 9 && off / 8 + 9 <= |p| && forall k :: 0 <= k < 9 ==> buf[k] == p[off / 8 + k]
    ensures off + bits <= 8 * |p| && off - off / 8 * 8 + bits <= 72
    ensures Field(p, off, bits) == Field(buf, off - off / 8 * 8, bits)
  {
    hide Bit;
    var o := off - off / 8 * 8;
    forall j | 0 <= j < bits
      ensures SameBit(p, off, buf, o, j)
    {
      assert (off + j) / 8 == off / 8 + (o + j) / 8 && (off + j) % 8 == (o + j) % 8;
    }
    SameField(p, off, buf, o, bits);
  }
}
