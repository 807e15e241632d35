/** ADDB keys.  A data key names a table, a partition and a row group, a RocksDB key
    also a column vector and a column; all keys of a partition carry the same hash tag. */
module KeyCodec {
  import opened Basics
  import opened Decimal
  import opened Crc
  import opened Tokens

  // ---- printing ----

  function Tag(table: nat, part: string): string {
    Dec(table) + ":" + part
  }

  function DataKey(table: nat, part: string, group: nat): string {
    "D:{" + Tag(table, part) + "}:G:" + Dec(group)
  }

  function MetaKey(table: nat, part: string): string {
    "M:{" + Tag(table, part) + "}"
  }

  function RocksKey(table: nat, part: string, group: nat, vector: nat, column: nat): string {
    DataKey(table, part, group) + ":F:" + Dec(vector) + ":" + Dec(column)
  }

  // ---- parsing ----

  datatype KeyInfo = KeyInfo(table: int, part: string, group: int)

  /** `parsingDataKeyInfo`; None stands for the NULL it returns or the assertion it fails. */
  function Parse(key: string): Option<KeyInfo> {
    if NUL in key || |key| + 1 >= TMPBUF_SIZE then None
    else
      var a := Strtok(key, ":");
      if a.None? then None
      else
        var skipped := if a.value.token == "I" || a.value.token == "i" then Strtok(a.value.rest, ":") else a;
        var b := Strtok(if skipped.Some? then skipped.value.rest else "", ":");
        if b.None? then None
        else
          var c := Strtok(b.value.rest, "}");
          if c.None? then None
          else
            var d := Strtok(c.value.rest, "G:");
            Some(KeyInfo(Atoi(b.value.token[1..]), c.value.token, if d.Some? then Atoi(d.value.token) else 0))
  }

  /** `toMetaKey`: the metadata key and the row group of a data key. */
  function ToMetaKey(key: string): Option<(string, int)> {
    var info := Parse(key);
    if info.None? || info.value.table < 0 then None
    else Some((MetaKey(info.value.table, info.value.part), info.value.group))
  }

  /** What the parser can take apart again. */
  predicate Plain(part: string) {
    part != "" && '}' !in part && NUL !in part
  }

  lemma TableToken(table: nat, rest: string)
    ensures Strtok("{" + Dec(table) + ":" + rest, ":") == Some(Split("{" + Dec(table), rest))
  {
    DecHasNo(table, ':');
    StrtokAfter("{" + Dec(table), ':', rest, ":");
  }

  /** The row group: the delimiters in front of it are skipped. */
  lemma GroupToken(group: nat)
    ensures Strtok(":G:" + Dec(group), "G:") == Some(Split(Dec(group), ""))
  {
    var s, n := ":G:" + Dec(group), Dec(group);
    DecHasNo(group, 'G');
    DecHasNo(group, ':');
    assert s[1..] == "G:" + n && s[1..][1..] == ":" + n && s[1..][1..][1..] == n;
    assert Span(n, "G:") == 0;
    assert Span(":" + n, "G:") == 1;
    assert Span("G:" + n, "G:") == 2;
    assert Span(s, "G:") == 3;
    assert s[3..] == n;
    StrtokLast(n, "G:");
    NoSpan(n, "G:");
    assert n[0..] == n;
  }

  /** Parsing a generated data key recovers its fields. */
  lemma ParseInverts(table: nat, part: string, group: nat)
    requires Plain(part) && |DataKey(table, part, group)| + 1 < TMPBUF_SIZE
    ensures Parse(DataKey(table, part, group)) == Some(KeyInfo(table, part, group))
  {
    hide Strtok, Atoi;
    var key := DataKey(table, part, group);
    var afterTable := part + "}:G:" + Dec(group);
    DecHasNo(table, NUL);
    DecHasNo(group, NUL);
    assert key == "D" + ":" + ("{" + Dec(table) + ":" + afterTable);
    StrtokAfter("D", ':', "{" + Dec(table) + ":" + afterTable, ":");
    TableToken(table, afterTable);
    assert ("{" + Dec(table))[1..] == Dec(table) + "";
    AtoiOfDec(table, "");
    assert afterTable == part + "}" + (":G:" + Dec(group));
    StrtokAfter(part, '}', ":G:" + Dec(group), "}");
    GroupToken(group);
    AtoiOfDec(group, "");
    assert Dec(group) + "" == Dec(group);
  }

  lemma TokenHasNo(s: string, d: char)
    ensures var r := Strtok(s, [d]); r.Some? ==> d !in r.value.token && r.value.token != ""
  {
  }

  /** Parsing a generated data key recovers its fields exactly when the partition is
      plain and the key fits the parser's buffer. */
  lemma ParseIsExactIff(table: nat, part: string, group: nat)
    ensures Parse(DataKey(table, part, group)) == Some(KeyInfo(table, part, group))
       <==> Plain(part) && |DataKey(table, part, group)| + 1 < TMPBUF_SIZE
  {
    var key := DataKey(table, part, group);
    if Plain(part) && |key| + 1 < TMPBUF_SIZE {
      ParseInverts(table, part, group);
    } else if NUL in part {
      assert key == ("D:{" + Dec(table) + ":") + part + ("}:G:" + Dec(group));
    } else {
      PartHasNoBrace(key);
    }
  }

  lemma PartHasNoBrace(key: string)
    ensures Parse(key).Some? ==> Parse(key).value.part != "" && '}' !in Parse(key).value.part
  {
    forall s ensures var r := Strtok(s, "}"); r.Some? ==> '}' !in r.value.token && r.value.token != "" {
      TokenHasNo(s, '}');
    }
    hide Strtok, Atoi;
  }

  lemma ToMetaKeyOfDataKey(table: nat, part: string, group: nat)
    requires Plain(part) && |DataKey(table, part, group)| + 1 < TMPBUF_SIZE
    ensures ToMetaKey(DataKey(table, part, group)) == Some((MetaKey(table, part), group))
  {
    ParseInverts(table, part, group);
  }

  /** No key parses to an empty partition, so for that one the parser cannot invert. */
  lemma EmptyPartitionIsLost(key: string)
    ensures Parse(key).Some? ==> Parse(key).value.part != ""
  {
    hide Strtok, Atoi;
  }

  // ---- injectivity ----

  /** Two texts, each ended by the same character that is in neither, are read apart. */
  lemma {:induction false} SplitAt(a: string, b: string, s: string, t: string, d: char)
    requires d !in a && d !in b && a + [d] + s == b + [d] + t
    ensures a == b && s == t
  {
    var x := a + [d] + s;
    UntilAfter(a, [d] + s, [d]);
    UntilAfter(b, [d] + t, [d]);
    assert x == a + ([d] + s) && x == b + ([d] + t);
    assert x[..|a|] == a && x[..|b|] == b;
    assert x[|a| + 1..] == s && x[|b| + 1..] == t;
  }

  lemma TagInjective(table: nat, part: string, table': nat, part': string)
    requires Tag(table, part) == Tag(table', part')
    ensures table == table' && part == part'
  {
    DecHasNo(table, ':');
    DecHasNo(table', ':');
    SplitAt(Dec(table), Dec(table'), part, part', ':');
    DecInjective(table, table');
  }

  lemma Cancel(p: string, a: string, b: string)
    requires p + a == p + b
    ensures a == b
  {
    assert (p + a)[|p|..] == a && (p + b)[|p|..] == b;
  }

  /** A RocksDB key behind its tag. */
  function Behind(group: nat, vector: nat, column: nat): string {
    ":G:" + (Dec(group) + (":F:" + (Dec(vector) + (":" + Dec(column)))))
  }

  lemma RocksKeyIs(table: nat, part: string, group: nat, vector: nat, column: nat)
    ensures RocksKey(table, part, group, vector, column)
         == "D:{" + (Tag(table, part) + "}" + Behind(group, vector, column))
  {
    hide Tag, Dec;
  }

  lemma BehindInjective(group: nat, vector: nat, column: nat, group': nat, vector': nat, column': nat)
    requires Behind(group, vector, column) == Behind(group', vector', column')
    ensures group == group' && vector == vector' && column == column'
  {
    hide Dec;
    var b, b' := ":" + Dec(column), ":" + Dec(column');
    var a, a' := ":F:" + (Dec(vector) + b), ":F:" + (Dec(vector') + b');
    Cancel(":G:", Dec(group) + a, Dec(group') + a');
    DecPrefix(group, group', a, a');
    Cancel(":F:", Dec(vector) + b, Dec(vector') + b');
    DecPrefix(vector, vector', b, b');
    Cancel(":", Dec(column), Dec(column'));
    DecInjective(column, column');
  }

  /** RocksDB keys are equal only for the same table, partition, group, vector and column. */
  lemma RocksKeyInjective(table: nat, part: string, group: nat, vector: nat, column: nat,
                          table': nat, part': string, group': nat, vector': nat, column': nat)
    requires '}' !in part && '}' !in part'
    requires RocksKey(table, part, group, vector, column) == RocksKey(table', part', group', vector', column')
    ensures (table, part, group, vector, column) == (table', part', group', vector', column')
  {
    NoBrace(table, part);
    NoBrace(table', part');
    hide RocksKey, Behind, Tag;
    RocksKeyIs(table, part, group, vector, column);
    RocksKeyIs(table', part', group', vector', column');
    var rest, rest' := Behind(group, vector, column), Behind(group', vector', column');
    Cancel("D:{", Tag(table, part) + "}" + rest, Tag(table', part') + "}" + rest');
    SplitAt(Tag(table, part), Tag(table', part'), rest, rest', '}');
    TagInjective(table, part, table', part');
    BehindInjective(group, vector, column, group', vector', column');
  }

  lemma NoBrace(table: nat, part: string)
    requires '}' !in part
    ensures '}' !in Tag(table, part)
  {
    DecHasNo(table, '}');
  }

  // ---- hash slots ----

  function Position(s: string, c: char, from: nat): (i: nat)
    requires from <= |s|
    ensures from <= i <= |s| && (forall k :: from <= k < i ==> s[k] != c) && (i < |s| ==> s[i] == c)
    decreases |s| - from
  {
    if from == |s| || s[from] == c then from else Position(s, c, from + 1)
  }

  /** What of a key is hashed: what is between its first brace and the next closing one,
      if that is something, else all of it. */
  function Hashed(key: string): string {
    var s := Position(key, '{', 0);
    if s == |key| then key
    else
      var e := Position(key, '}', s + 1);
      if e == |key| || e == s + 1 then key else key[s + 1..e]
  }

  function ToBytes(s: string): seq<Byte> {
    seq(|s|, i requires 0 <= i < |s| => (s[i] as int % 256) as Byte)
  }

  function Slot(tag: string): (r: nat)
    ensures r < 16384
  {
    var h := Crc16(ToBytes(tag)) & 0x3FFF;
    MaskBound(Crc16(ToBytes(tag)));
    h as nat
  }

  lemma MaskBound(x: bv16)
    ensures (x & 0x3FFF) as nat < 16384
  {
    assert x & 0x3FFF <= 0x3FFF;
  }

  /** `keyHashSlot`. */
  method KeyHashSlot(key: string) returns (slot: nat)
    ensures slot == Slot(Hashed(key)) && slot < 16384
  {
    var tag := HashTag(key);
    var crc := ComputeCrc16(ToBytes(tag));
    MaskBound(crc);
    slot := (crc & 0x3FFF) as nat;
  }

  /** The two search loops of `keyHashSlot`. */
  method HashTag(key: string) returns (tag: string)
    ensures tag == Hashed(key)
  {
    var s := 0;
    while s < |key| && key[s] != '{'
      invariant s <= |key| && Position(key, '{', 0) == Position(key, '{', s)
    {
      s := s + 1;
    }
    tag := key;
    if s < |key| {
      var e := s + 1;
      while e < |key| && key[e] != '}'
        invariant s + 1 <= e <= |key| && Position(key, '}', s + 1) == Position(key, '}', e)
      {
        e := e + 1;
      }
      if e < |key| && e != s + 1 { tag := key[s + 1..e]; }
    }
  }

  lemma {:induction false} PositionAfter(a: string, c: char, b: string, from: nat)
    requires from <= |a| && c !in a[from..]
    ensures Position(a + [c] + b, c, from) == |a|
    decreases |a| - from
  {
    if from < |a| {
      assert a[from..][0] == a[from] && a[from..][1..] == a[from + 1..];
      PositionAfter(a, c, b, from + 1);
    }
  }

  /** The tag of any key that starts with a letter, a colon and the braces. */
  lemma HashedIsTag(kind: char, table: nat, part: string, rest: string)
    requires '}' !in part && kind != '{'
    ensures Hashed([kind] + ":{" + Tag(table, part) + "}" + rest) == Tag(table, part)
  {
    var tag := Tag(table, part);
    var head := [kind] + ":";
    var key := head + ['{'] + (tag + "}" + rest);
    assert [kind] + ":{" + tag + "}" + rest == key;
    PositionAfter(head, '{', tag + "}" + rest, 0);
    DecHasNo(table, '}');
    var front := head + "{" + tag;
    assert key == front + ['}'] + rest;
    assert front[3..] == tag;
    PositionAfter(front, '}', rest, 3);
    assert key[3..3 + |tag|] == tag;
  }

  /** The data key, its metadata key and all its RocksDB keys are in one slot. */
  lemma SameSlot(table: nat, part: string, group: nat, vector: nat, column: nat)
    requires '}' !in part
    ensures Hashed(DataKey(table, part, group)) == Hashed(MetaKey(table, part))
    ensures Hashed(RocksKey(table, part, group, vector, column)) == Hashed(MetaKey(table, part))
    ensures Slot(Hashed(DataKey(table, part, group))) == Slot(Hashed(RocksKey(table, part, group, vector, column)))
         == Slot(Hashed(MetaKey(table, part))) < 16384
  {
    hide Hashed, Slot, Tag;
    var tail := ":G:" + Dec(group);
    HashedIsTag('D', table, part, tail);
    assert DataKey(table, part, group) == ['D'] + ":{" + Tag(table, part) + "}" + tail;
    HashedIsTag('M', table, part, "");
    assert MetaKey(table, part) == ['M'] + ":{" + Tag(table, part) + "}" + "";
    var more := tail + ":F:" + Dec(vector) + ":" + Dec(column);
    HashedIsTag('D', table, part, more);
    assert RocksKey(table, part, group, vector, column) == ['D'] + ":{" + Tag(table, part) + "}" + more;
  }
}
