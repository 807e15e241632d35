/** The store, updated in place by the commands, the eviction loop and the background
    thread.  Each method does what the function of module Tiering says. */
module TieredStore {
  import opened Basics
  import opened Columns
  import VectorCodec
  import RocksScan
  import Ring
  import opened Tiering
  import opened TieringSafety
  import TieringRuns
  import TieringScan

  datatype Outcome = Done | BadArity | Aborted

  /** What is written for one group. */
  function EntriesOf(key: Key, vectors: map<(nat, nat), seq<string>>): map<(Key, (nat, nat)), string> {
    map f | f in vectors :: (key, f) := VectorCodec.Stored(vectors[f])
  }

  class Store {
    var meta: map<Part, Meta>
    var dict: map<Key, Group>
    var rocks: map<(Key, (nat, nat)), string>
    var evict: Ring.Line<Key>
    var free: Ring.Line<Key>
    var jobs: seq<seq<Key>>
    var marking: seq<Key>

    ghost function State(): Db
      reads this
    {
      Db(meta, dict, rocks, evict, free, jobs, marking)
    }

    constructor ()
      ensures State() == TieringScan.Empty()
    {
      meta, dict, rocks := map[], map[], map[];
      evict, free := Ring.Cells(Ring.ARRAY_QUEUE_SIZE, 0, []), Ring.Cells(Ring.FREE_QUEUE_SIZE, 0, []);
      jobs, marking := [], [];
    }

    method RowsOf(p: Part, g: nat) returns (n: nat)
      ensures n == MetaOf(State(), p).Rows(g)
    {
      if p !in meta { return 0; }
      n := if g in meta[p].rows then meta[p].rows[g] else 0;
    }

    method AddRows(p: Part, g: nat, n: nat)
      requires p in meta
      modifies this`meta
      ensures meta == old(meta)[p := old(meta[p]).AddRows(g, n)]
    {
      var rows := RowsOf(p, g);
      meta := meta[p := meta[p].(rows := meta[p].rows[g := rows + n])];
    }

    /** `IncRowgroupIdAndModifyInfo`. */
    method NextGroup(p: Part) returns (g: nat)
      modifies this`meta
      ensures var m := MetaOf(old(State()), p); g == m.groups + 1 && meta == old(meta)[p := m.(groups := g)]
    {
      var m := if p in meta then meta[p] else Meta(0, map[]);
      g := m.groups + 1;
      meta := meta[p := m.(groups := g)];
    }

    /** The head of FPWRITE: pick the row group. */
    method ChooseGroup(p: Part, groupSize: nat) returns (g: nat, n: nat, enroll: bool)
      modifies this`meta
      ensures var at := Choose(old(State()), groupSize, p);
        g == at.group && n == at.rows && enroll == at.enroll && meta == old(meta)[p := at.meta]
    {
      if p in meta && meta[p].groups > 0 { g := meta[p].groups; } else { g := NextGroup(p); }
      n := RowsOf(p, g);
      if n == 0 { AddRows(p, g, 0); }
      if n >= groupSize {
        g := NextGroup(p);
        return g, 0, true;
      }
      if Key(p, g) in dict {
        if dict[Key(p, g)].location != RedisOnly {
          g := NextGroup(p);
          return g, 0, false;
        }
      } else if n != 0 {
        g := NextGroup(p);
        return g, 0, false;
      }
      return g, n, false;
    }

    /** Insert the values, creating the group if need be. */
    method Fill(key: Key, n: nat, values: seq<string>, C: nat, S: nat) returns (isNew: bool)
      requires C > 0 && S > 0 && values != []
      modifies this`dict
      ensures isNew == (key !in old(dict))
      ensures var was := if isNew then Group(map[], RedisOnly) else old(dict)[key];
        dict == old(dict)[key := was.(vectors := InsertFrom(was.vectors, n * C, values, |values|, C, S))]
    {
      isNew := key !in dict;
      if isNew { dict := dict[key := Group(map[], RedisOnly)]; }
      var vectors := InsertAll(dict[key].vectors, n, values, C, S);
      dict := dict[key := dict[key].(vectors := vectors)];
    }

    method FpWrite(p: Part, C: nat, raw: seq<string>, groupSize: nat, S: nat) returns (outcome: Outcome)
      requires C > 0 && S > 0
      modifies this`meta, this`dict, this`evict
      ensures var r := Write(old(State()), Config(groupSize, S, map[]), p, C, raw);
        && (outcome == BadArity <==> r.Error?) && (outcome == Aborted <==> r.Crash?)
        && (r.Ok? ==> State() == r.db) && (r.Error? ==> State() == old(State()))
    {
      hide Choose, InsertFrom, NormaliseAll, Quo, Rem, Ring.Push;
      if Rem(|raw|, C) != 0 { return BadArity; }
      var g, n, enroll := ChooseGroup(p, groupSize);
      var key := Key(p, g);
      var values := NormaliseAll(raw);
      var isNew := false;
      if values != [] { isNew := Fill(key, n, values, C, S); }
      AddRows(p, g, Quo(|values|, C));
      if enroll || isNew {
        if key !in dict { return Aborted; }
        evict := Ring.Push(evict, key);
      }
      return Done;
    }

    /** `chooseBestKeyFromQueue_`. */
    method PopOne() returns (k: Key)
      requires Queued(State()) && evict.items != []
      modifies this`dict, this`evict, this`free
      ensures State() == Pop(old(State())) && k == old(evict).items[0]
    {
      k := evict.items[0];
      evict, free := Ring.Shift(evict), Ring.Push(free, k);
      dict := dict[k := dict[k].(location := Flush)];
    }

    static lemma PopMore(db: Db, n: nat)
      requires Queued(db) && n < |db.evict.items|
      ensures PopMany(db, n + 1) == Pop(PopMany(db, n))
    {
      hide Pop;
    }

    static lemma BatchStep(db: Db, count: int)
      requires Queued(db) && db.evict.items != [] && count > 0
      ensures var k := db.evict.items[0];
        Batch(db, count) == 1 + Batch(Pop(db), count - MetaOf(db, k.part).Rows(k.group))
    {
      hide MetaOf, Meta.Rows;
      var k := db.evict.items[0];
      BatchFrame(db.(evict := Ring.Shift(db.evict)), Pop(db), count - MetaOf(db, k.part).Rows(k.group));
    }

    /** `_batchTiering`: the assertion on the location of what is dequeued never fails. */
    method BatchTiering(size: int, ghost cfg: Config, ghost segs: Segs)
      requires Inv(State(), cfg, segs)
      modifies this`dict, this`evict, this`free, this`jobs
      ensures Queued(old(State())) && State() == Tier(old(State()), size)
    {
      hide Inv, Batch, Pop, PopMany, Ring.Push, Ring.Shift;
      ghost var start := State();
      TieringRuns.TierInv(start, cfg, segs, size);
      var keys, count := [], size;
      ghost var n := 0;
      PopNone(start);
      while evict.items != [] && count > 0
        invariant Queued(start) && n <= |start.evict.items|
        invariant State() == PopMany(start, n) && keys == start.evict.items[..n]
        invariant Batch(start, size) == n + Batch(State(), count)
        decreases |evict.items|
      {
        TieringRuns.PopManyInv(start, cfg, segs, n);
        AtFront(State(), cfg, segs);
        assert dict[evict.items[0]].location == RedisOnly;
        PopMore(start, n);
        BatchStep(State(), count);
        var k := PopOne();
        keys := keys + [k];
        var rows := RowsOf(k.part, k.group);
        count := count - rows;
        n := n + 1;
      }
      BatchDone(State(), count);
      TieringRuns.PopManyKeeps(start, n);
      jobs := jobs + [keys];
    }

    static lemma PopNone(db: Db)
      requires Queued(db)
      ensures PopMany(db, 0) == db
    {
    }

    static lemma BatchDone(db: Db, count: int)
      requires db.evict.items == [] || count <= 0
      ensures Batch(db, count) == 0
    {
    }

    static lemma AtFront(db: Db, cfg: Config, segs: Segs)
      requires Inv(db, cfg, segs) && db.evict.items != []
      ensures IsAt(db.dict, db.evict.items[0], RedisOnly)
    {
      hide MetaOk, DictOk, RocksOk, PendingOk;
    }

    /** How much a batch takes depends on the queue and the metadata only. */
    static lemma {:induction false} BatchFrame(a: Db, b: Db, count: int)
      requires a.evict == b.evict && a.meta == b.meta
      ensures Batch(a, count) == Batch(b, count)
      decreases |a.evict.items|
    {
      if a.evict.items != [] && count > 0 {
        var k := a.evict.items[0];
        BatchFrame(a.(evict := Ring.Shift(a.evict)), b.(evict := Ring.Shift(b.evict)),
                   count - MetaOf(a, k.part).Rows(k.group));
      }
    }

    /** One RocksDB entry per vector of a group. */
    static method AddEntries(batch: map<(Key, (nat, nat)), string>, key: Key, vectors: map<(nat, nat), seq<string>>)
      returns (r: map<(Key, (nat, nat)), string>)
      ensures r == batch + EntriesOf(key, vectors)
    {
      hide EntriesOf, VectorCodec.Stored;
      r := batch;
      var todo := vectors.Keys;
      EntriesNone(batch, key, vectors);
      while todo != {}
        invariant todo <= vectors.Keys && r == batch + EntriesOf(key, vectors - todo)
        decreases |todo|
      {
        var f :| f in todo;
        EntriesMore(batch, key, vectors, todo, f);
        r := r[(key, f) := VectorCodec.Stored(vectors[f])];
        todo := todo - {f};
      }
      assert vectors - {} == vectors;
    }

    static lemma EntriesNone(batch: map<(Key, (nat, nat)), string>, key: Key, vectors: map<(nat, nat), seq<string>>)
      ensures batch + EntriesOf(key, vectors - vectors.Keys) == batch
    {
    }

    static lemma EntriesMore(batch: map<(Key, (nat, nat)), string>, key: Key, vectors: map<(nat, nat), seq<string>>,
                             todo: set<(nat, nat)>, f: (nat, nat))
      requires f in todo && f in vectors
      ensures (batch + EntriesOf(key, vectors - todo))[(key, f) := VectorCodec.Stored(vectors[f])]
           == batch + EntriesOf(key, vectors - (todo - {f}))
    {
      hide VectorCodec.Stored;
      var a, b := EntriesOf(key, vectors - todo), EntriesOf(key, vectors - (todo - {f}));
      assert (key, f) in b;
      assert b == a[(key, f) := VectorCodec.Stored(vectors[f])];
    }

    static lemma BatchMore(db: Db, keys: seq<Key>, i: nat)
      requires i < |keys| && keys[i] in db.dict
      ensures BatchOf(db, keys[..i + 1]) == BatchOf(db, keys[..i]) + EntriesOf(keys[i], db.dict[keys[i]].vectors)
    {
      hide VectorCodec.Stored;
      assert forall k :: k in keys[..i + 1] <==> k in keys[..i] || k == keys[i];
      var a, b := BatchOf(db, keys[..i + 1]), BatchOf(db, keys[..i]) + EntriesOf(keys[i], db.dict[keys[i]].vectors);
      assert forall x :: x in a <==> x in b;
    }

    /** `prepareBatchWriteToRocksDB`, up to the write. */
    method PersistBatch()
      requires jobs != [] && forall i :: 0 <= i < |jobs[0]| ==> jobs[0][i] in dict
      modifies this`rocks, this`jobs, this`marking
      ensures State() == Persist(old(State()))
    {
      hide BatchOf, EntriesOf;
      ghost var db := State();
      var keys := jobs[0];
      var batch: map<(Key, (nat, nat)), string> := map[];
      BatchNone(db);
      for i := 0 to |keys|
        invariant State() == db && batch == BatchOf(db, keys[..i])
      {
        BatchMore(db, keys, i);
        batch := AddEntries(batch, keys[i], dict[keys[i]].vectors);
      }
      assert keys[..|keys|] == keys;
      rocks := rocks + batch;
      jobs, marking := jobs[1..], keys;
    }

    static lemma BatchNone(db: Db)
      ensures BatchOf(db, []) == map[]
    {
    }

    method MarkOne(ghost cfg: Config, ghost segs: Segs)
      requires Inv(State(), cfg, segs) && marking != []
      modifies this`dict, this`marking
      ensures old(marking)[0] in old(dict) && State() == Mark(old(State()))
    {
      TieringRuns.MarkInv(State(), cfg, segs);
      hide Inv;
      var k := marking[0];
      dict := dict[k := dict[k].(location := Persisted)];
      marking := marking[1..];
    }

    /** `dequeueForClear` and the deletion; `cleared` says whether the entry was ready. */
    method ClearOne(ghost cfg: Config, ghost segs: Segs) returns (cleared: bool)
      requires Inv(State(), cfg, segs) && free.items != []
      modifies this`dict, this`free
      ensures old(free).items[0] in old(dict) && State() == Clear(old(State()))
      ensures cleared == (old(dict)[old(free).items[0]].location == Persisted)
    {
      TieringRuns.ClearInv(State(), cfg, segs);
      hide Inv;
      var k := free.items[0];
      assert dict[k].location != RedisOnly;
      if dict[k].location != Persisted { return false; }
      free := Ring.Shift(free);
      dict := dict - {k};
      return true;
    }

    /** The entries of one group. */
    static function EntriesAt(rocks: map<(Key, (nat, nat)), string>, k: Key): map<(nat, nat), string> {
      map x | x in rocks && x.0 == k :: x.1 := rocks[x]
    }

    static lemma PartKept(rocks: map<(Key, (nat, nat)), string>, cfg: Config, segs: Segs, k: Key)
      requires KeptAt(rocks, cfg, segs, k)
      ensures RocksScan.Kept(EntriesAt(rocks, k), Seg(segs, k), Width(cfg, k), cfg.S)
    {
      hide VecOf, VectorCodec.Stored;
      assert forall f :: (k, f) in rocks ==> f in EntriesAt(rocks, k) && EntriesAt(rocks, k)[f] == rocks[(k, f)];
    }

    method ScanStored(k: Key, n: nat, C: nat, S: nat, cols: seq<nat>, ghost cfg: Config, ghost segs: Segs)
      returns (replies: seq<Option<string>>)
      requires KeptAt(rocks, cfg, segs, k) && InRocks(State(), k) && C == Width(cfg, k) && S == cfg.S
      requires Within(cols, C) && |Seg(segs, k)| == n * C
      ensures replies == ScanGroup(State(), k, S, cols, n)
    {
      hide VecOf, VectorCodec.Stored, EntriesAt, ScanGroup, RocksScan.ReadRows;
      PartKept(rocks, cfg, segs, k);
      TieringScan.StoredGroup(State(), cfg, segs, k, cols, n, n);
      replies := RocksScan.CachedScan(EntriesAt(rocks, k), n, C, S, cols, Seg(segs, k));
    }

    method ScanMemory(k: Key, n: nat, C: nat, S: nat, cols: seq<nat>, ghost cfg: Config, ghost segs: Segs)
      returns (replies: seq<Option<string>>)
      requires k in dict && GroupOk(dict[k], cfg, segs, k) && !InRocks(State(), k) && C == Width(cfg, k) && S == cfg.S
      requires Within(cols, C) && |Seg(segs, k)| == n * C
      ensures replies == ScanGroup(State(), k, S, cols, n)
    {
      hide VecOf, ScanGroup, Select;
      TieringScan.MemoryGroup(State(), cfg, segs, k, cols, n, n);
      var values, _ := CachedScan(dict[k].vectors, n, C, S, cols, Seg(segs, k));
      replies := RocksScan.Somes(values);
    }

    /** One group of a scan, from memory or from RocksDB. */
    method ScanOne(k: Key, n: nat, C: nat, S: nat, cols: seq<nat>, ghost cfg: Config, ghost segs: Segs)
      returns (replies: seq<Option<string>>)
      requires Inv(State(), cfg, segs) && KeyIn(segs, k) && C == Width(cfg, k) && S == cfg.S && Within(cols, C)
      requires n == MetaOf(State(), k.part).Rows(k.group)
      ensures S > 0 && replies == ScanGroup(State(), k, S, cols, n)
    {
      hide MetaOk, QueueOk, PendingOk, GroupOk, KeptAt, ScanGroup, Within;
      TieringScan.GroupScan(State(), cfg, segs, k, cols, n);
      if k !in dict || dict[k].location == Persisted {
        replies := ScanStored(k, n, C, S, cols, cfg, segs);
      } else {
        replies := ScanMemory(k, n, C, S, cols, cfg, segs);
      }
    }

    /** FPSCAN. */
    method FpScan(p: Part, C: nat, S: nat, cols: seq<nat>, ghost cfg: Config, ghost segs: Segs)
      returns (replies: seq<Option<string>>)
      requires Inv(State(), cfg, segs) && p in cfg.widths && C == cfg.widths[p] && S == cfg.S && Within(cols, C)
      ensures S > 0 && replies == Scan(State(), p, S, cols)
    {
      TieringScan.WidthOk(State(), cfg, segs, p);
      TieringScan.GroupCount(State(), cfg, segs, p);
      replies := [];
      var total := if p in meta then meta[p].groups else 0;
      for i := 0 to total
        invariant replies == ScanGroups(State(), p, S, cols, i)
      {
        hide Inv, ScanGroup;
        var n := RowsOf(p, i + 1);
        var group := ScanOne(Key(p, i + 1), n, C, S, cols, cfg, segs);
        replies := replies + group;
      }
    }
  }
}
