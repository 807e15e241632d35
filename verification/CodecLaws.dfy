/** Bytes and texts on the wire and on disk, told by example and by rule: the documented
    check values of both CRCs, which payloads pass, which part of a key is hashed, and the
    texts of keys and vectors. */
module CodecLaws {
  import opened Basics
  import opened Decimal
  import opened Crc
  import opened Tokens
  import Dump
  import opened KeyCodec
  import VectorCodec
  import Bitmap
  import Bitfield

  // ---- check values ----

  function CheckText(): seq<Byte> {
    [0x31, 0x32, 0x33, 0x34, 0x35, 0x36, 0x37, 0x38, 0x39]
  }

  /** Byte by byte. */
  lemma Steps64()
    ensures Step(0, 0x31) == 0xfdc17184a9f739fa
    ensures Step(0xfdc17184a9f739fa, 0x32) == 0xe10364513a98ed96
    ensures Step(0xe10364513a98ed96, 0x33) == 0xd5bcfb814479b1ac
    ensures Step(0xd5bcfb814479b1ac, 0x34) == 0x43593c5dcda521f0
    ensures Step(0x43593c5dcda521f0, 0x35) == 0xf0758513239c7e0d
    ensures Step(0xf0758513239c7e0d, 0x36) == 0xa3a90925b2ab4903
    ensures Step(0xa3a90925b2ab4903, 0x37) == 0x47824d362431ad45
    ensures Step(0x47824d362431ad45, 0x38) == 0x49ec20b315e86dc2
    ensures Step(0x49ec20b315e86dc2, 0x39) == 0xe9c6d914c4b8d9ca
  {
  }

  lemma Steps16()
    ensures Step16(0, 0x31) == 0x2672
    ensures Step16(0x2672, 0x32) == 0x20b5
    ensures Step16(0x20b5, 0x33) == 0x9752
    ensures Step16(0x9752, 0x34) == 0xd789
    ensures Step16(0xd789, 0x35) == 0x546c
    ensures Step16(0x546c, 0x36) == 0x20e4
    ensures Step16(0x20e4, 0x37) == 0x86d6
    ensures Step16(0x86d6, 0x38) == 0x9015
    ensures Step16(0x9015, 0x39) == 0x31c3
  {
  }

  lemma Next64(s: seq<Byte>, c: bv64, b: Byte)
    requires Crc64(0, s) == c
    ensures Crc64(0, s + [b]) == Step(c, b)
  {
    hide Step;
    assert (s + [b])[..|s|] == s;
  }

  lemma Next16(s: seq<Byte>, c: bv16, b: Byte)
    requires Crc16(s) == c
    ensures Crc16(s + [b]) == Step16(c, b)
  {
    hide Step16;
    assert (s + [b])[..|s|] == s;
  }

  lemma NoBytes()
    ensures Crc64(0, []) == 0 && Crc16([]) == 0
  {
  }

  lemma Prefixes(i: nat)
    requires i < 9
    ensures var t := CheckText(); t[..i] + [t[i]] == t[..i + 1] && t[..0] == [] && t[..9] == t
  {
  }

  /** The value `crc64.c` documents for "123456789". */
  lemma CheckValue64()
    ensures Crc64(0, CheckText()) == 0xe9c6d914c4b8d9ca
  {
    hide Step, Crc64;
    var t := CheckText();
    Steps64();
    NoBytes();
    Prefixes(0);
    Next64(t[..0], 0, t[0]);
    Prefixes(1);
    Next64(t[..1], 0xfdc17184a9f739fa, t[1]);
    Prefixes(2);
    Next64(t[..2], 0xe10364513a98ed96, t[2]);
    Prefixes(3);
    Next64(t[..3], 0xd5bcfb814479b1ac, t[3]);
    Prefixes(4);
    Next64(t[..4], 0x43593c5dcda521f0, t[4]);
    Prefixes(5);
    Next64(t[..5], 0xf0758513239c7e0d, t[5]);
    Prefixes(6);
    Next64(t[..6], 0xa3a90925b2ab4903, t[6]);
    Prefixes(7);
    Next64(t[..7], 0x47824d362431ad45, t[7]);
    Prefixes(8);
    Next64(t[..8], 0x49ec20b315e86dc2, t[8]);
  }

  /** The value `crc16.c` documents for it. */
  lemma CheckValue16()
    ensures Crc16(CheckText()) == 0x31c3
  {
    hide Step16, Crc16;
    var t := CheckText();
    Steps16();
    NoBytes();
    Prefixes(0);
    Next16(t[..0], 0, t[0]);
    Prefixes(1);
    Next16(t[..1], 0x2672, t[1]);
    Prefixes(2);
    Next16(t[..2], 0x20b5, t[2]);
    Prefixes(3);
    Next16(t[..3], 0x9752, t[3]);
    Prefixes(4);
    Next16(t[..4], 0xd789, t[4]);
    Prefixes(5);
    Next16(t[..5], 0x546c, t[5]);
    Prefixes(6);
    Next16(t[..6], 0x20e4, t[6]);
    Prefixes(7);
    Next16(t[..7], 0x86d6, t[7]);
    Prefixes(8);
    Next16(t[..8], 0x9015, t[8]);
  }

  // ---- payloads ----

  /** The version in the two bytes in front of the checksum, the low byte first. */
  function VersionNumber(p: seq<Byte>): nat
    requires |p| >= 10
  {
    p[|p| - 10] as nat + 256 * (p[|p| - 9] as nat)
  }

  lemma VersionIs(lo: Byte, hi: Byte)
    ensures ((hi as bv16) << 8) | (lo as bv16) <= 8 <==> hi == 0 && lo <= 8
  {
  }

  lemma SmallVersion(lo: Byte, hi: Byte)
    ensures lo as nat + 256 * (hi as nat) <= 8 <==> hi == 0 && lo <= 8
  {
    if hi != 0 { assert hi as nat >= 1; }
    assert lo <= 8 <==> lo as nat <= 8;
  }

  /** A payload passes exactly when it has room for its footer, its version is not newer
      than 8, and the whole of it divides. */
  lemma PassesIff(p: seq<Byte>)
    ensures Dump.Verify(p) <==> |p| >= 10 && VersionNumber(p) <= 8 && Crc64(0, p) == 0
  {
    hide Crc64, Dump.Bytes;
    if |p| >= 10 {
      Dump.DividesIff(p);
      var lo, hi := p[|p| - 10], p[|p| - 9];
      assert p[|p| - 10..][0] == lo && p[|p| - 10..][1] == hi;
      VersionIs(lo, hi);
      SmallVersion(lo, hi);
    }
  }

  // ---- hash slots ----

  /** The text between the first brace and the first closing one behind it is hashed. */
  lemma BracesAreHashed(a: string, tag: string, rest: string)
    requires '{' !in a && '}' !in tag && tag != ""
    ensures Hashed(a + "{" + tag + "}" + rest) == tag
  {
    var key := a + ['{'] + (tag + "}" + rest);
    assert a + "{" + tag + "}" + rest == key;
    PositionAfter(a, '{', tag + "}" + rest, 0);
    var front := a + "{" + tag;
    assert key == front + ['}'] + rest && front[|a| + 1..] == tag;
    PositionAfter(front, '}', rest, |a| + 1);
    assert key[|a| + 1..|a| + 1 + |tag|] == tag;
  }

  /** Without a brace, without one that closes it, or with nothing between, the whole key is. */
  lemma OthersAreHashedWhole(key: string)
    ensures '{' !in key ==> Hashed(key) == key
    ensures forall a, b :: key == a + "{" + b && '{' !in a && '}' !in b ==> Hashed(key) == key
    ensures forall a, b :: key == a + "{}" + b && '{' !in a ==> Hashed(key) == key
  {
    forall a, b | key == a + "{" + b && '{' !in a && '}' !in b ensures Hashed(key) == key {
      assert key == a + ['{'] + b;
      PositionAfter(a, '{', b, 0);
      assert forall k :: |a| < k < |key| ==> key[k] == b[k - |a| - 1];
    }
    forall a, b | key == a + "{}" + b && '{' !in a ensures Hashed(key) == key {
      assert key == a + ['{'] + ("}" + b);
      PositionAfter(a, '{', "}" + b, 0);
      assert key[|a| + 1] == '}';
    }
  }

  lemma MaskIsMod(x: bv16)
    ensures x & 0x3FFF == x % 0x4000
  {
  }

  /** The slot is the CRC modulo the number of slots. */
  lemma SlotIsMod(tag: string)
    ensures Slot(tag) == (Crc16(ToBytes(tag)) % 16384) as nat
  {
    hide Crc16;
    MaskIsMod(Crc16(ToBytes(tag)));
  }

  /** The check text is in slot 12739. */
  lemma CheckSlot()
    ensures Slot("123456789") == 12739
  {
    hide Crc16;
    assert ToBytes("123456789") == CheckText() by { CheckBytes(); }
    CheckValue16();
    assert (0x31c3 as bv16) & 0x3FFF == 12739;
  }

  lemma CheckBytes()
    ensures ToBytes("123456789") == CheckText()
  {
  }

  // ---- texts ----

  /** The keys of table 3, partition "1:2", row group 4, and what RocksDB calls vector 5 of
      column 6. */
  lemma KeyTexts()
    ensures DataKey(3, "1:2", 4) == "D:{3:1:2}:G:4" && MetaKey(3, "1:2") == "M:{3:1:2}"
    ensures RocksKey(3, "1:2", 4, 5, 6) == "D:{3:1:2}:G:4" + ":F:5:6"
  {
    assert Dec(3) == "3" && Dec(4) == "4" && Dec(5) == "5" && Dec(6) == "6";
    hide Dec;
  }

  /** Behind a leading "I:" or "i:" one more field is skipped. */
  lemma PrefixIsSkipped(table: nat, part: string, group: nat, kind: char)
    requires Plain(part) && |DataKey(table, part, group)| + 3 < TMPBUF_SIZE && (kind == 'I' || kind == 'i')
    ensures Parse([kind] + ":" + DataKey(table, part, group)) == Some(KeyInfo(table, part, group))
  {
    hide Strtok, Atoi;
    var key := DataKey(table, part, group);
    var rest := "{" + Dec(table) + ":" + part + "}:G:" + Dec(group);
    DecHasNo(table, NUL);
    DecHasNo(group, NUL);
    ParseInverts(table, part, group);
    assert key == "D" + [':'] + rest;
    StrtokAfter([kind], ':', key, ":");
    StrtokAfter("D", ':', rest, ":");
    assert [kind] + ":" + key == [kind] + [':'] + key;
  }

  /** What RocksDB is given for a vector of two values. */
  lemma VectorText()
    ensures VectorCodec.Serialize(["a", "b"]) == "V:{T:1:N:2}:D:[" + "a:b" + "]"
  {
    assert Dec(2) == "2";
    assert ["a", "b"][1..] == ["b"];
    hide Dec;
  }

  /** Slots count from the low end of a byte, bits of a string from the high end. */
  lemma BitOrders()
    ensures Bitmap.Test([0x01, 0x80], 0) && Bitmap.Test([0x01, 0x80], 15) && !Bitmap.Test([0x01, 0x80], 7)
    ensures Bitfield.BitAt([0x80, 0x01], 0) && Bitfield.BitAt([0x80, 0x01], 15) && !Bitfield.BitAt([0x80, 0x01], 7)
    ensures Bitfield.Field([0x12, 0x34], 4, 4) == 2 && Bitfield.Field([0x12, 0x34], 6, 3) == 4
  {
    var s: seq<bv8> := [0x12, 0x34];
    assert !Bitfield.BitAt(s, 4) && !Bitfield.BitAt(s, 5) && Bitfield.BitAt(s, 6) && !Bitfield.BitAt(s, 7);
    assert Bitfield.Field(s, 4, 2) == 0 && Bitfield.Field(s, 6, 1) == 1;
    assert !Bitfield.BitAt(s, 8);
  }
}
