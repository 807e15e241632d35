/** Over every run of writes and tiering steps, a scan returns what was written.
    `Segs` is the history the proof keeps: the values of every row group, in order. */
module TieringSafety {
  import opened Columns
  import opened VectorCodec
  import Ring
  import opened Tiering

  type Segs = map<Part, seq<seq<string>>>

  predicate NoDup<T(==)>(s: seq<T>) {
    forall i, j :: 0 <= i < j < |s| ==> s[i] != s[j]
  }

  predicate KeyIn(segs: Segs, k: Key) {
    k.part in segs && 1 <= k.group <= |segs[k.part]|
  }

  function Seg(segs: Segs, k: Key): seq<string>
    requires KeyIn(segs, k)
  {
    segs[k.part][k.group - 1]
  }

  function Width(cfg: Config, k: Key): nat {
    if k.part in cfg.widths then cfg.widths[k.part] else 1
  }

  /** The metadata counts the rows of every group. */
  ghost predicate PartOk(m: Meta, ss: seq<seq<string>>, C: nat) {
    && |ss| == m.groups && m.groups >= 1
    && (forall g :: g in m.rows ==> g <= m.groups)
    && (forall g :: 1 <= g <= |ss| ==> RowsOk(m, ss, C, g))
  }

  predicate RowsOk(m: Meta, ss: seq<seq<string>>, C: nat, g: nat)
    requires 1 <= g <= |ss|
  {
    |ss[g - 1]| == m.Rows(g) * C
  }

  ghost predicate MetaOk(meta: map<Part, Meta>, cfg: Config, segs: Segs) {
    && cfg.Valid() && segs.Keys == meta.Keys
    && forall p :: p in segs ==> p in cfg.widths && PartOk(meta[p], segs[p], cfg.widths[p])
  }

  /** A group in memory holds its values as column vectors. */
  ghost predicate GroupOk(g: Group, cfg: Config, segs: Segs, k: Key) {
    && cfg.Valid() && KeyIn(segs, k) && Seg(segs, k) != [] && Width(cfg, k) > 0
    && Stores(g.vectors, Seg(segs, k), Width(cfg, k), cfg.S)
  }

  ghost predicate DictOk(dict: map<Key, Group>, cfg: Config, segs: Segs) {
    forall k :: k in dict ==> GroupOk(dict[k], cfg, segs, k)
  }

  /** RocksDB holds a group. */
  ghost predicate KeptAt(rocks: map<(Key, (nat, nat)), string>, cfg: Config, segs: Segs, k: Key) {
    && cfg.Valid() && KeyIn(segs, k) && Width(cfg, k) > 0
    && forall f :: VecOf(Seg(segs, k), Width(cfg, k), cfg.S, f) != [] ==>
         (k, f) in rocks && rocks[(k, f)] == Stored(VecOf(Seg(segs, k), Width(cfg, k), cfg.S, f))
  }

  ghost predicate RocksOk(db: Db, cfg: Config, segs: Segs) {
    && (forall k :: KeyIn(segs, k) && InRocks(db, k) ==> KeptAt(db.rocks, cfg, segs, k))
    && (forall i :: 0 <= i < |db.marking| ==> KeptAt(db.rocks, cfg, segs, db.marking[i]))
  }

  predicate IsAt(dict: map<Key, Group>, k: Key, l: Location) {
    k in dict && dict[k].location == l
  }

  /** A queued group is in memory, in one queue only, by its location.  A ring that grows
      may have dropped others. */
  ghost predicate QueueOk(db: Db) {
    && NoDup(db.evict.items) && NoDup(db.free.items)
    && (forall i :: 0 <= i < |db.evict.items| ==> IsAt(db.dict, db.evict.items[i], RedisOnly))
    && (forall i :: 0 <= i < |db.free.items| ==>
          db.free.items[i] in db.dict && !IsAt(db.dict, db.free.items[i], RedisOnly))
  }

  function Flat<T>(s: seq<seq<T>>): seq<T> {
    if s == [] then [] else s[0] + Flat(s[1..])
  }

  function Pending(db: Db): seq<Key> {
    db.marking + Flat(db.jobs)
  }

  /** What the background thread still has to mark is being flushed. */
  ghost predicate PendingOk(db: Db) {
    && NoDup(Pending(db))
    && forall i :: 0 <= i < |Pending(db)| ==> IsAt(db.dict, Pending(db)[i], Flush)
  }

  ghost predicate Inv(db: Db, cfg: Config, segs: Segs) {
    && MetaOk(db.meta, cfg, segs) && DictOk(db.dict, cfg, segs) && RocksOk(db, cfg, segs)
    && QueueOk(db) && PendingOk(db)
  }

  // ---- FPWRITE ----

  function PutValues(segs: Segs, p: Part, g: nat, values: seq<string>): Segs
    requires g >= 1
  {
    var ss := if p in segs then segs[p] else [];
    segs[p := if g <= |ss| then ss[g - 1 := ss[g - 1] + values] else ss + [values]]
  }

  /** What the choice of a row group guarantees: the group is the last, or a new one;
      it is in memory and being written, or has no rows yet. */
  lemma ChooseFacts(db: Db, cfg: Config, segs: Segs, p: Part)
    requires Inv(db, cfg, segs) && p in cfg.widths
    ensures var at := Choose(db, cfg.groupSize, p);
      var ss := if p in segs then segs[p] else [];
      && (at.group == |ss| || at.group == |ss| + 1)
      && (at.group == |ss| ==> |ss[at.group - 1]| == at.rows * cfg.widths[p])
      && (at.group == |ss| + 1 ==> at.rows == 0 && Key(p, at.group) !in db.dict)
      && (Key(p, at.group) in db.dict ==> IsAt(db.dict, Key(p, at.group), RedisOnly) && !at.enroll)
      && (Key(p, at.group) !in db.dict ==> at.rows == 0)
  {
    hide RocksOk, QueueOk, PendingOk;
    var at := Choose(db, cfg.groupSize, p);
    var key := Key(p, at.group);
    assert key in db.dict ==> GroupOk(db.dict[key], cfg, segs, key);
    if p in segs {
      assert PartOk(db.meta[p], segs[p], cfg.widths[p]);
      assert RowsOk(db.meta[p], segs[p], cfg.widths[p], |segs[p]|);
    }
  }

  lemma AppendPart(m: Meta, ss: seq<seq<string>>, C: nat, n: nat, values: seq<string>)
    requires PartOk(m, ss, C) && |values| == n * C
    ensures var g := m.groups; PartOk(m.AddRows(g, n), ss[g - 1 := ss[g - 1] + values], C)
  {
    var g := m.groups;
    assert (m.Rows(g) + n) * C == m.Rows(g) * C + n * C;
    var r, ss1 := m.AddRows(g, n), ss[g - 1 := ss[g - 1] + values];
    forall h | 1 <= h <= |ss|
      ensures RowsOk(r, ss1, C, h)
    {
      assert RowsOk(m, ss, C, h);
    }
  }

  lemma SamePart(m: Meta, ss: seq<seq<string>>, C: nat)
    requires PartOk(m, ss, C)
    ensures PartOk(m.AddRows(m.groups, 0), ss, C)
  {
    var r := m.AddRows(m.groups, 0);
    forall h | 1 <= h <= |ss|
      ensures RowsOk(r, ss, C, h)
    {
      assert RowsOk(m, ss, C, h);
    }
  }

  lemma NewGroupPart(m: Meta, ss: seq<seq<string>>, C: nat, n: nat, values: seq<string>)
    requires PartOk(m, ss, C) && |values| == n * C
    ensures var g := m.groups + 1; PartOk(m.(groups := g).AddRows(g, n), ss + [values], C)
  {
    var r := m.(groups := m.groups + 1).AddRows(m.groups + 1, n);
    forall h | 1 <= h <= |ss| + 1
      ensures RowsOk(r, ss + [values], C, h)
    {
      assert h <= |ss| ==> RowsOk(m, ss, C, h);
    }
  }

  lemma FirstGroupPart(m: Meta, C: nat, n: nat, values: seq<string>)
    requires m.groups == 1 && m.rows.Keys <= {1} && m.Rows(1) == 0 && |values| == n * C
    ensures PartOk(m.AddRows(1, n), [values], C)
  {
  }

  lemma ChoosePart(db: Db, cfg: Config, segs: Segs, p: Part, n: nat, values: seq<string>)
    requires Inv(db, cfg, segs) && p in cfg.widths && |values| == n * cfg.widths[p]
    ensures var at := Choose(db, cfg.groupSize, p);
      PartOk(at.meta.AddRows(at.group, n), PutValues(segs, p, at.group, values)[p], cfg.widths[p])
  {
    ChooseFacts(db, cfg, segs, p);
    var at := Choose(db, cfg.groupSize, p);
    var C := cfg.widths[p];
    if p !in segs {
      assert DictOk(db.dict, cfg, segs) && Key(p, 1) !in db.dict;
      hide DictOk, PartOk, RocksOk, QueueOk, PendingOk;
      FirstGroupPart(at.meta, C, n, values);
      assert PutValues(segs, p, at.group, values)[p] == [values];
    } else {
      var m, ss := db.meta[p], segs[p];
      assert PartOk(m, ss, C);
      hide DictOk, RocksOk, QueueOk, PendingOk;
      var m2 := if m.Rows(m.groups) == 0 then m.AddRows(m.groups, 0) else m;
      SamePart(m, ss, C);
      hide PartOk;
      if at.group == |ss| { AppendPart(m2, ss, C, n, values); } else { NewGroupPart(m2, ss, C, n, values); }
    }
  }

  lemma ChooseMeta(db: Db, cfg: Config, segs: Segs, p: Part, n: nat, values: seq<string>)
    requires Inv(db, cfg, segs) && p in cfg.widths && |values| == n * cfg.widths[p]
    ensures var at := Choose(db, cfg.groupSize, p);
      MetaOk(db.meta[p := at.meta.AddRows(at.group, n)], cfg, PutValues(segs, p, at.group, values))
  {
    ChoosePart(db, cfg, segs, p, n, values);
    hide PartOk, DictOk, RocksOk, QueueOk, PendingOk, Choose;
  }

  /** Nothing of another group changes. */
  lemma OtherSeg(segs: Segs, p: Part, g: nat, values: seq<string>, k: Key)
    requires g >= 1 && k != Key(p, g) && (p in segs ==> g <= |segs[p]| + 1) && (p !in segs ==> g == 1)
    ensures var r := PutValues(segs, p, g, values);
      (KeyIn(r, k) <==> KeyIn(segs, k)) && (KeyIn(segs, k) ==> Seg(r, k) == Seg(segs, k))
  {
  }

  /** The group written: what it had, then the values. */
  lemma ThisSeg(segs: Segs, p: Part, g: nat, values: seq<string>)
    requires g >= 1 && (p in segs ==> g <= |segs[p]| + 1) && (p !in segs ==> g == 1)
    ensures var k, r := Key(p, g), PutValues(segs, p, g, values);
      KeyIn(r, k) && Seg(r, k) == (if KeyIn(segs, k) then Seg(segs, k) else []) + values
  {
  }

  lemma OtherGroup(g: Group, cfg: Config, segs: Segs, segs': Segs, k: Key)
    requires GroupOk(g, cfg, segs, k) && KeyIn(segs', k) && Seg(segs', k) == Seg(segs, k)
    ensures GroupOk(g, cfg, segs', k)
  {
  }

  lemma OtherKept(rocks: map<(Key, (nat, nat)), string>, cfg: Config, segs: Segs, segs': Segs, k: Key)
    requires KeptAt(rocks, cfg, segs, k) && KeyIn(segs', k) && Seg(segs', k) == Seg(segs, k)
    ensures KeptAt(rocks, cfg, segs', k)
  {
  }

  lemma NothingKept(rocks: map<(Key, (nat, nat)), string>, cfg: Config, segs: Segs, k: Key)
    requires cfg.Valid() && KeyIn(segs, k) && Width(cfg, k) > 0 && Seg(segs, k) == []
    ensures KeptAt(rocks, cfg, segs, k)
  {
  }

  /** The group after its values are inserted. */
  function Filled(db: Db, cfg: Config, key: Key, rows: nat, C: nat, values: seq<string>): Group
    requires cfg.S > 0 && C > 0
  {
    var was := if key in db.dict then db.dict[key] else Group(map[], RedisOnly);
    was.(vectors := InsertFrom(was.vectors, rows * C, values, |values|, C, cfg.S))
  }

  lemma FilledOk(db: Db, cfg: Config, segs: Segs, p: Part, values: seq<string>)
    requires Inv(db, cfg, segs) && p in cfg.widths && values != []
    ensures var at, C := Choose(db, cfg.groupSize, p), cfg.widths[p];
      && cfg.Valid() && C > 0
      && GroupOk(Filled(db, cfg, Key(p, at.group), at.rows, C, values), cfg,
                 PutValues(segs, p, at.group, values), Key(p, at.group))
  {
    ChooseFacts(db, cfg, segs, p);
    var at, C := Choose(db, cfg.groupSize, p), cfg.widths[p];
    var key := Key(p, at.group);
    ThisSeg(segs, p, at.group, values);
    assert key in db.dict ==> GroupOk(db.dict[key], cfg, segs, key);
    hide MetaOk, DictOk, RocksOk, QueueOk, PendingOk, Choose, InsertFrom, VecOf, PutValues;
    var was := if key in db.dict then db.dict[key] else Group(map[], RedisOnly);
    var flat := if KeyIn(segs, key) then Seg(segs, key) else [];
    assert Stores(was.vectors, flat, C, cfg.S) by { StoresNothing(C, cfg.S); }
    InsertFromStores(was.vectors, flat, values, |values|, C, cfg.S);
    assert values[..|values|] == values;
  }

  lemma StoresNothing(C: nat, S: nat)
    requires C > 0 && S > 0
    ensures Stores(map[], [], C, S)
  {
  }

  lemma WriteDict(db: Db, cfg: Config, segs: Segs, p: Part, values: seq<string>)
    requires Inv(db, cfg, segs) && p in cfg.widths
    ensures cfg.Valid() && cfg.widths[p] > 0
    ensures var at, C := Choose(db, cfg.groupSize, p), cfg.widths[p];
      var key := Key(p, at.group);
      var dict := if values == [] then db.dict else db.dict[key := Filled(db, cfg, key, at.rows, C, values)];
      DictOk(dict, cfg, PutValues(segs, p, at.group, values))
  {
    ChooseFacts(db, cfg, segs, p);
    if values != [] { FilledOk(db, cfg, segs, p, values); }
    assert cfg.Valid() && cfg.widths[p] > 0;
    hide MetaOk, RocksOk, QueueOk, PendingOk, Choose, Filled, GroupOk;
    var at := Choose(db, cfg.groupSize, p);
    var key := Key(p, at.group);
    var segs' := PutValues(segs, p, at.group, values);
    forall k | k in db.dict && (k != key || values == [])
      ensures GroupOk(db.dict[k], cfg, segs', k)
    {
      assert GroupOk(db.dict[k], cfg, segs, k);
      GroupIn(db.dict[k], cfg, segs, k);
      if k != key {
        OtherSeg(segs, p, at.group, values, k);
      } else {
        ThisSeg(segs, p, at.group, values);
        assert Seg(segs, k) + [] == Seg(segs, k);
      }
      hide PutValues;
      OtherGroup(db.dict[k], cfg, segs, segs', k);
    }
  }

  lemma GroupIn(g: Group, cfg: Config, segs: Segs, k: Key)
    requires GroupOk(g, cfg, segs, k)
    ensures KeyIn(segs, k)
  {
  }

  lemma KeptIn(rocks: map<(Key, (nat, nat)), string>, cfg: Config, segs: Segs, k: Key)
    requires KeptAt(rocks, cfg, segs, k)
    ensures KeyIn(segs, k)
  {
  }

  /** A group that RocksDB must hold after the write is another one, or has no rows. */
  lemma WriteKept(db: Db, cfg: Config, segs: Segs, p: Part, values: seq<string>, k: Key)
    requires Inv(db, cfg, segs) && p in cfg.widths && (values != [] ==> k != Key(p, Choose(db, cfg.groupSize, p).group))
    requires KeyIn(PutValues(segs, p, Choose(db, cfg.groupSize, p).group, values), k) && InRocks(db, k)
    ensures KeptAt(db.rocks, cfg, PutValues(segs, p, Choose(db, cfg.groupSize, p).group, values), k)
  {
    ChooseFacts(db, cfg, segs, p);
    assert cfg.Valid() && cfg.widths[p] > 0;
    hide MetaOk, DictOk, QueueOk, PendingOk, Choose;
    var at := Choose(db, cfg.groupSize, p);
    var segs' := PutValues(segs, p, at.group, values);
    if k != Key(p, at.group) {
      OtherSeg(segs, p, at.group, values, k);
      assert KeptAt(db.rocks, cfg, segs, k);
      OtherKept(db.rocks, cfg, segs, segs', k);
    } else {
      ThisSeg(segs, p, at.group, values);
      assert k !in db.dict;
      assert KeyIn(segs, k) ==> |Seg(segs, k)| == at.rows * cfg.widths[p] == 0;
      NothingKept(db.rocks, cfg, segs', k);
    }
  }

  lemma WriteMarking(db: Db, cfg: Config, segs: Segs, p: Part, values: seq<string>, i: nat)
    requires Inv(db, cfg, segs) && p in cfg.widths && i < |db.marking|
    ensures KeptAt(db.rocks, cfg, PutValues(segs, p, Choose(db, cfg.groupSize, p).group, values), db.marking[i])
  {
    ChooseFacts(db, cfg, segs, p);
    var at, k := Choose(db, cfg.groupSize, p), db.marking[i];
    assert IsAt(db.dict, Pending(db)[i], Flush);
    assert KeptAt(db.rocks, cfg, segs, k);
    hide MetaOk, DictOk, QueueOk, PendingOk, RocksOk, Choose;
    KeptIn(db.rocks, cfg, segs, k);
    OtherSeg(segs, p, at.group, values, k);
    OtherKept(db.rocks, cfg, segs, PutValues(segs, p, at.group, values), k);
  }

  /** The queues when one group is added to memory. */
  lemma EnrollQueue(db: Db, key: Key, g: Group)
    requires QueueOk(db) && key !in db.dict && g.location == RedisOnly
    ensures QueueOk(db.(dict := db.dict[key := g], evict := Ring.Push(db.evict, key)))
  {
    var n :| 0 <= n <= |db.evict.items| && Ring.Push(db.evict, key).items == db.evict.items[..n] + [key];
    hide Ring.Push;
    var r := db.(dict := db.dict[key := g], evict := Ring.Push(db.evict, key));
    forall i | 0 <= i < |r.evict.items| ensures IsAt(r.dict, r.evict.items[i], RedisOnly) {
      if i < n { assert IsAt(db.dict, db.evict.items[i], RedisOnly); }
    }
    assert key !in db.evict.items && key !in db.free.items;
    assert forall k :: k in db.dict ==> IsAt(r.dict, k, RedisOnly) == IsAt(db.dict, k, RedisOnly);
  }

  lemma SameQueue(db: Db, key: Key, g: Group)
    requires QueueOk(db) && key in db.dict && g.location == db.dict[key].location
    ensures QueueOk(db.(dict := db.dict[key := g]))
  {
    var r := db.(dict := db.dict[key := g]);
    assert forall k, l :: IsAt(r.dict, k, l) == IsAt(db.dict, k, l);
  }

  lemma WritePending(db: Db, key: Key, g: Group)
    requires PendingOk(db) && !IsAt(db.dict, key, Flush)
    ensures PendingOk(db.(dict := db.dict[key := g]))
  {
    hide Flat;
  }

  lemma WriteRocks(db: Db, cfg: Config, segs: Segs, p: Part, values: seq<string>, g: Group)
    requires Inv(db, cfg, segs) && p in cfg.widths && g.location == RedisOnly
    ensures var key := Key(p, Choose(db, cfg.groupSize, p).group);
      var dict := if values == [] then db.dict else db.dict[key := g];
      RocksOk(db.(dict := dict), cfg, PutValues(segs, p, key.group, values))
  {
    var key := Key(p, Choose(db, cfg.groupSize, p).group);
    var r := db.(dict := if values == [] then db.dict else db.dict[key := g]);
    var segs' := PutValues(segs, p, key.group, values);
    forall k | KeyIn(segs', k) && InRocks(r, k)
      ensures KeptAt(db.rocks, cfg, segs', k)
    {
      assert InRocks(db, k) && (values != [] ==> k != key);
      hide Inv, Choose, PutValues, InRocks, KeptAt;
      WriteKept(db, cfg, segs, p, values, k);
    }
    forall i | 0 <= i < |db.marking|
      ensures KeptAt(db.rocks, cfg, segs', db.marking[i])
    {
      hide Inv, Choose, PutValues, KeptAt;
      WriteMarking(db, cfg, segs, p, values, i);
    }
  }

  /** What FPWRITE does to everything but the metadata. */
  lemma WriteQueues(db: Db, cfg: Config, segs: Segs, p: Part, g: Group)
    requires Inv(db, cfg, segs) && p in cfg.widths && g.location == RedisOnly
    ensures var key := Key(p, Choose(db, cfg.groupSize, p).group);
      var r := db.(dict := db.dict[key := g], evict := if key in db.dict then db.evict else Ring.Push(db.evict, key));
      QueueOk(r) && PendingOk(r)
  {
    ChooseFacts(db, cfg, segs, p);
    var key := Key(p, Choose(db, cfg.groupSize, p).group);
    hide MetaOk, DictOk, RocksOk, QueueOk, PendingOk, Choose;
    if key in db.dict { SameQueue(db, key, g); } else { EnrollQueue(db, key, g); }
    WritePending(db, key, g);
    PendingFrame(db.(dict := db.dict[key := g]), Ring.Push(db.evict, key));
  }

  lemma PendingFrame(db: Db, evict: Ring.Line<Key>)
    requires PendingOk(db)
    ensures PendingOk(db.(evict := evict))
  {
    hide Flat;
    assert Pending(db.(evict := evict)) == Pending(db);
  }

  lemma Parts(db: Db, cfg: Config, segs: Segs)
    ensures Inv(db, cfg, segs) ==
      (MetaOk(db.meta, cfg, segs) && DictOk(db.dict, cfg, segs) && RocksOk(db, cfg, segs)
       && QueueOk(db) && PendingOk(db))
  {
  }

  lemma RocksFrame(db: Db, r: Db, cfg: Config, segs: Segs)
    requires RocksOk(db, cfg, segs) && r.dict == db.dict && r.rocks == db.rocks && r.marking == db.marking
    ensures RocksOk(r, cfg, segs)
  {
    hide KeptAt;
    assert forall k :: InRocks(r, k) == InRocks(db, k);
  }

  lemma QueueFrame(db: Db, r: Db)
    requires QueueOk(db) && PendingOk(db) && r == db.(meta := r.meta)
    ensures QueueOk(r) && PendingOk(r)
  {
    hide Flat;
    assert Pending(r) == Pending(db);
  }

  lemma FilledHere(db: Db, cfg: Config, segs: Segs, p: Part, values: seq<string>)
    requires Inv(db, cfg, segs) && p in cfg.widths
    ensures cfg.Valid() && cfg.widths[p] > 0
    ensures var at := Choose(db, cfg.groupSize, p);
      Filled(db, cfg, Key(p, at.group), at.rows, cfg.widths[p], values).location == RedisOnly
  {
    ChooseFacts(db, cfg, segs, p);
    hide DictOk, RocksOk, QueueOk, PendingOk, Choose;
  }

  /** When FPWRITE goes through, and when its assertion on the queue fails. */
  lemma CrashIff(db: Db, cfg: Config, segs: Segs, p: Part, raw: seq<string>)
    requires Inv(db, cfg, segs) && p in cfg.widths
    ensures cfg.Valid() && cfg.widths[p] > 0
    ensures Write(db, cfg, p, cfg.widths[p], raw).Crash? <==>
      raw == [] && p in db.meta && db.meta[p].Rows(db.meta[p].groups) >= cfg.groupSize
  {
    ChooseFacts(db, cfg, segs, p);
    hide DictOk, RocksOk, QueueOk, PendingOk, InsertFrom;
    assert |NormaliseAll(raw)| == |raw|;
    if p in segs { assert PartOk(db.meta[p], segs[p], cfg.widths[p]); }
  }

  /** The state after a write that goes through. */
  lemma WriteResult(db: Db, cfg: Config, segs: Segs, p: Part, raw: seq<string>)
    requires Inv(db, cfg, segs) && p in cfg.widths
    ensures cfg.Valid() && cfg.widths[p] > 0
    ensures var C, at := cfg.widths[p], Choose(db, cfg.groupSize, p);
      var key, values, r := Key(p, at.group), NormaliseAll(raw), Write(db, cfg, p, C, raw);
      r.Ok? ==>
        && |values| == Quo(|values|, C) * C
        && r.db == db.(
             meta := db.meta[p := at.meta.AddRows(at.group, Quo(|values|, C))],
             dict := if values == [] then db.dict else db.dict[key := Filled(db, cfg, key, at.rows, C, values)],
             evict := if values == [] || key in db.dict then db.evict else Ring.Push(db.evict, key))
  {
    FilledHere(db, cfg, segs, p, []);
    ChooseFacts(db, cfg, segs, p);
    NormaliseLength(raw);
    Split(|raw|, cfg.widths[p]);
    hide Inv, Choose, InsertFrom, Quo, Rem, NormaliseAll;
  }

  lemma NormaliseLength(raw: seq<string>)
    ensures |NormaliseAll(raw)| == |raw|
  {
  }

  lemma WriteInv(db: Db, cfg: Config, segs: Segs, p: Part, raw: seq<string>)
    requires Inv(db, cfg, segs) && p in cfg.widths
    ensures cfg.Valid() && cfg.widths[p] > 0
    ensures var r := Write(db, cfg, p, cfg.widths[p], raw);
      r.Ok? ==> Inv(r.db, cfg, PutValues(segs, p, Choose(db, cfg.groupSize, p).group, NormaliseAll(raw)))
  {
    hide Inv, MetaOk, DictOk, RocksOk, QueueOk, PendingOk, Choose, PutValues, NormaliseAll, Write, Filled;
    var values := NormaliseAll(raw);
    FilledHere(db, cfg, segs, p, values);
    WriteResult(db, cfg, segs, p, raw);
    var C := cfg.widths[p];
    var r := Write(db, cfg, p, C, raw);
    if r.Ok? {
      var at := Choose(db, cfg.groupSize, p);
      var key := Key(p, at.group);
      var g := Filled(db, cfg, key, at.rows, C, values);
      var segs' := PutValues(segs, p, at.group, values);
      ChooseMeta(db, cfg, segs, p, Quo(|values|, C), values);
      WriteDict(db, cfg, segs, p, values);
      WriteRocks(db, cfg, segs, p, values, g);
      Parts(db, cfg, segs);
      Parts(r.db, cfg, segs');
      if values != [] {
        WriteQueues(db, cfg, segs, p, g);
        QueueFrame(db.(dict := r.db.dict, evict := r.db.evict), r.db);
        RocksFrame(db.(dict := r.db.dict), r.db, cfg, segs');
      } else {
        QueueFrame(db, r.db);
        RocksFrame(db, r.db, cfg, segs');
      }
    }
  }
}
