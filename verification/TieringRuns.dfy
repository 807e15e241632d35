/** Eviction, background and clearing steps keep the invariant; scans over whole runs. */
module TieringRuns {
  import opened Columns
  import opened VectorCodec
  import Ring
  import opened Tiering
  import opened TieringSafety

  /** Moving a group between locations that both keep it in memory. */
  function Moved(dict: map<Key, Group>, k: Key, l: Location): map<Key, Group>
    requires k in dict
  {
    dict[k := dict[k].(location := l)]
  }

  lemma MovedDict(dict: map<Key, Group>, cfg: Config, segs: Segs, k: Key, l: Location)
    requires DictOk(dict, cfg, segs) && k in dict
    ensures DictOk(Moved(dict, k, l), cfg, segs)
  {
    hide Stores;
    var r := Moved(dict, k, l);
    forall j | j in r
      ensures GroupOk(r[j], cfg, segs, j)
    {
      assert GroupOk(dict[j], cfg, segs, j);
    }
  }

  lemma DroppedDict(dict: map<Key, Group>, cfg: Config, segs: Segs, k: Key)
    requires DictOk(dict, cfg, segs)
    ensures DictOk(dict - {k}, cfg, segs)
  {
    hide GroupOk;
  }

  // ---- choosing for eviction ----

  lemma QueuedOf(db: Db)
    requires QueueOk(db)
    ensures Queued(db)
  {
  }

  lemma PopQueue(db: Db)
    requires QueueOk(db) && Queued(db) && db.evict.items != []
    ensures QueueOk(Pop(db))
  {
    var k := db.evict.items[0];
    var n :| 0 <= n <= |db.free.items| && Ring.Push(db.free, k).items == db.free.items[..n] + [k];
    hide Ring.Push, Ring.Shift;
    assert IsAt(db.dict, k, RedisOnly);
    assert k !in db.free.items;
  }

  lemma PopPending(db: Db)
    requires PendingOk(db) && QueueOk(db) && Queued(db) && db.evict.items != []
    ensures PendingOk(Pop(db)) && Pending(Pop(db)) == Pending(db)
  {
    hide Flat;
    var k := db.evict.items[0];
    assert IsAt(db.dict, k, RedisOnly);
    assert Pending(Pop(db)) == Pending(db);
  }

  lemma PopRocks(db: Db, cfg: Config, segs: Segs)
    requires RocksOk(db, cfg, segs) && QueueOk(db) && Queued(db) && db.evict.items != []
    ensures RocksOk(Pop(db), cfg, segs)
  {
    hide KeptAt;
    assert IsAt(db.dict, db.evict.items[0], RedisOnly);
    assert forall j :: InRocks(Pop(db), j) == InRocks(db, j);
  }

  lemma PopInv(db: Db, cfg: Config, segs: Segs)
    requires Inv(db, cfg, segs) && Queued(db) && db.evict.items != []
    ensures Inv(Pop(db), cfg, segs) && Pending(Pop(db)) == Pending(db)
  {
    hide MetaOk, DictOk, RocksOk, QueueOk, PendingOk, Pending;
    MovedDict(db.dict, cfg, segs, db.evict.items[0], Flush);
    PopRocks(db, cfg, segs);
    PopQueue(db);
    PopPending(db);
  }

  lemma {:induction false} PopManyInv(db: Db, cfg: Config, segs: Segs, n: nat)
    requires Inv(db, cfg, segs) && Queued(db) && n <= |db.evict.items|
    ensures Inv(PopMany(db, n), cfg, segs) && Pending(PopMany(db, n)) == Pending(db)
  {
    hide Inv, Pending, Pop;
    if n > 0 {
      PopManyInv(db, cfg, segs, n - 1);
      PopInv(PopMany(db, n - 1), cfg, segs);
    }
  }

  /** The groups taken are being flushed. */
  lemma {:induction false} PopManyFlushes(db: Db, n: nat, i: nat)
    requires Queued(db) && NoDup(db.evict.items) && i < n <= |db.evict.items|
    ensures IsAt(PopMany(db, n).dict, db.evict.items[i], Flush)
  {
    if i < n - 1 {
      PopManyFlushes(db, n - 1, i);
      assert PopMany(db, n - 1).evict.items[0] == db.evict.items[n - 1];
    }
  }

  lemma {:induction false} FlatSnoc<T>(s: seq<seq<T>>, x: seq<T>)
    ensures Flat(s + [x]) == Flat(s) + x
  {
    if s == [] {
      assert s + [x] == [x];
    } else {
      assert (s + [x])[1..] == s[1..] + [x];
      FlatSnoc(s[1..], x);
    }
  }

  lemma AddJob(db: Db, keys: seq<Key>)
    requires PendingOk(db) && NoDup(keys)
    requires forall i :: 0 <= i < |keys| ==> IsAt(db.dict, keys[i], Flush) && keys[i] !in Pending(db)
    ensures PendingOk(db.(jobs := db.jobs + [keys]))
  {
    FlatSnoc(db.jobs, keys);
    hide Flat;
    var r := db.(jobs := db.jobs + [keys]);
    assert Pending(r) == Pending(db) + keys;
  }

  lemma Disjoint(db: Db, i: nat)
    requires QueueOk(db) && PendingOk(db) && i < |db.evict.items|
    ensures db.evict.items[i] !in Pending(db)
  {
    hide Pending;
    assert IsAt(db.dict, db.evict.items[i], RedisOnly);
  }

  lemma JobFrame(db: Db, cfg: Config, segs: Segs, jobs: seq<seq<Key>>)
    requires RocksOk(db, cfg, segs) && QueueOk(db)
    ensures RocksOk(db.(jobs := jobs), cfg, segs) && QueueOk(db.(jobs := jobs))
  {
    hide KeptAt;
    assert forall j :: InRocks(db.(jobs := jobs), j) == InRocks(db, j);
  }

  lemma TierInv(db: Db, cfg: Config, segs: Segs, count: int)
    requires Inv(db, cfg, segs)
    ensures Queued(db) && Inv(Tier(db, count), cfg, segs)
  {
    hide MetaOk, DictOk, RocksOk, PendingOk, Pending, Batch;
    QueuedOf(db);
    var n := Batch(db, count);
    var r, keys := PopMany(db, n), db.evict.items[..n];
    PopManyInv(db, cfg, segs, n);
    PopManyKeeps(db, n);
    forall i | 0 <= i < |keys|
      ensures IsAt(r.dict, keys[i], Flush) && keys[i] !in Pending(r)
    {
      PopManyFlushes(db, n, i);
      Disjoint(db, i);
    }
    assert NoDup(keys);
    hide QueueOk;
    AddJob(r, keys);
    JobFrame(r, cfg, segs, r.jobs + [keys]);
  }

  lemma {:induction false} PopManyKeeps(db: Db, n: nat)
    requires Queued(db) && n <= |db.evict.items|
    ensures PopMany(db, n).jobs == db.jobs
  {
    if n > 0 { PopManyKeeps(db, n - 1); }
  }

  // ---- the background thread ----

  /** RocksDB holds what a batch wrote. */
  lemma BatchKept(db: Db, cfg: Config, segs: Segs, keys: seq<Key>, k: Key)
    requires DictOk(db.dict, cfg, segs) && k in keys && k in db.dict
    ensures KeptAt(db.rocks + BatchOf(db, keys), cfg, segs, k)
  {
    assert GroupOk(db.dict[k], cfg, segs, k);
    hide VecOf, Stored, DictOk;
    var rocks, C := db.rocks + BatchOf(db, keys), Width(cfg, k);
    forall f | VecOf(Seg(segs, k), C, cfg.S, f) != []
      ensures (k, f) in rocks && rocks[(k, f)] == Stored(VecOf(Seg(segs, k), C, cfg.S, f))
    {
      assert f in db.dict[k].vectors;
      assert (k, f) in BatchOf(db, keys);
    }
  }

  lemma OthersKept(db: Db, cfg: Config, segs: Segs, keys: seq<Key>, k: Key)
    requires KeptAt(db.rocks, cfg, segs, k) && k !in keys
    ensures KeptAt(db.rocks + BatchOf(db, keys), cfg, segs, k)
  {
    hide VecOf, Stored;
    assert forall f :: (k, f) !in BatchOf(db, keys);
  }

  lemma PersistPending(db: Db)
    requires db.jobs != [] && db.marking == [] && PendingOk(db)
    ensures PendingOk(Persist(db))
    ensures forall i :: 0 <= i < |db.jobs[0]| ==> IsAt(db.dict, db.jobs[0][i], Flush)
  {
    hide BatchOf;
    assert Pending(Persist(db)) == Pending(db);
    assert Pending(db) == db.jobs[0] + Flat(db.jobs[1..]);
    forall i | 0 <= i < |db.jobs[0]|
      ensures IsAt(db.dict, db.jobs[0][i], Flush)
    {
      assert Pending(db)[i] == db.jobs[0][i];
    }
    hide Flat;
  }

  lemma PersistRocks(db: Db, cfg: Config, segs: Segs)
    requires db.jobs != [] && RocksOk(db, cfg, segs) && DictOk(db.dict, cfg, segs)
    requires forall i :: 0 <= i < |db.jobs[0]| ==> IsAt(db.dict, db.jobs[0][i], Flush)
    ensures RocksOk(Persist(db), cfg, segs)
  {
    hide DictOk, KeptAt, BatchOf;
    var r, keys := Persist(db), db.jobs[0];
    forall k | KeyIn(segs, k) && InRocks(r, k)
      ensures KeptAt(r.rocks, cfg, segs, k)
    {
      assert InRocks(db, k);
      assert k !in keys;
      OthersKept(db, cfg, segs, keys, k);
    }
    forall i | 0 <= i < |r.marking|
      ensures KeptAt(r.rocks, cfg, segs, r.marking[i])
    {
      assert IsAt(db.dict, keys[i], Flush);
      BatchKept(db, cfg, segs, keys, keys[i]);
    }
  }

  lemma PersistInv(db: Db, cfg: Config, segs: Segs)
    requires Inv(db, cfg, segs) && db.jobs != [] && db.marking == []
    ensures Inv(Persist(db), cfg, segs)
  {
    hide MetaOk, DictOk, RocksOk, PendingOk, BatchOf;
    PersistPending(db);
    PersistRocks(db, cfg, segs);
  }

  lemma MarkQueue(db: Db)
    requires QueueOk(db) && db.marking != [] && IsAt(db.dict, db.marking[0], Flush)
    ensures QueueOk(Mark(db))
  {
    var r := Mark(db);
    assert forall k :: IsAt(r.dict, k, RedisOnly) == IsAt(db.dict, k, RedisOnly);
  }

  lemma MarkPending(db: Db)
    requires PendingOk(db) && db.marking != [] && IsAt(db.dict, db.marking[0], Flush)
    ensures PendingOk(Mark(db))
  {
    hide Flat;
    assert Pending(Mark(db)) == Pending(db)[1..];
    assert Pending(db)[0] == db.marking[0];
    forall i | 0 <= i < |Pending(db)| - 1
      ensures IsAt(Mark(db).dict, Pending(db)[1..][i], Flush)
    {
      assert IsAt(db.dict, Pending(db)[i + 1], Flush);
    }
  }

  lemma MarkRocks(db: Db, cfg: Config, segs: Segs)
    requires RocksOk(db, cfg, segs) && db.marking != [] && db.marking[0] in db.dict
    ensures RocksOk(Mark(db), cfg, segs)
  {
    hide KeptAt;
    var r, m := Mark(db), db.marking[0];
    assert KeptAt(db.rocks, cfg, segs, m);
    assert forall k :: k != m ==> InRocks(r, k) == InRocks(db, k);
  }

  lemma MarkInv(db: Db, cfg: Config, segs: Segs)
    requires Inv(db, cfg, segs) && db.marking != []
    ensures db.marking[0] in db.dict && Inv(Mark(db), cfg, segs)
  {
    assert IsAt(db.dict, Pending(db)[0], Flush);
    hide MetaOk, DictOk, RocksOk, QueueOk, PendingOk, Flat;
    MovedDict(db.dict, cfg, segs, db.marking[0], Persisted);
    MarkQueue(db);
    MarkPending(db);
    MarkRocks(db, cfg, segs);
  }

  // ---- clearing ----

  lemma ClearQueue(db: Db)
    requires QueueOk(db) && db.free.items != [] && IsAt(db.dict, db.free.items[0], Persisted)
    ensures QueueOk(Clear(db))
  {
    var r := Clear(db);
    forall i | 0 <= i < |db.evict.items|
      ensures IsAt(r.dict, db.evict.items[i], RedisOnly)
    {
      assert IsAt(db.dict, db.evict.items[i], RedisOnly);
    }
  }

  lemma ClearPending(db: Db)
    requires PendingOk(db) && db.free.items != [] && IsAt(db.dict, db.free.items[0], Persisted)
    ensures PendingOk(Clear(db))
  {
    hide Flat;
    assert Pending(Clear(db)) == Pending(db);
  }

  lemma ClearRocks(db: Db, cfg: Config, segs: Segs)
    requires RocksOk(db, cfg, segs) && db.free.items != [] && IsAt(db.dict, db.free.items[0], Persisted)
    ensures RocksOk(Clear(db), cfg, segs)
  {
    hide KeptAt;
    assert forall k :: InRocks(Clear(db), k) == InRocks(db, k);
  }

  /** The assertions of `dequeueForClear` hold: the oldest entry is in the dictionary
      and was chosen for eviction. */
  lemma ClearInv(db: Db, cfg: Config, segs: Segs)
    requires Inv(db, cfg, segs) && db.free.items != []
    ensures db.free.items[0] in db.dict && db.dict[db.free.items[0]].location != RedisOnly && Inv(Clear(db), cfg, segs)
  {
    assert !IsAt(db.dict, db.free.items[0], RedisOnly) && db.free.items[0] in db.dict;
    hide MetaOk, DictOk, RocksOk, QueueOk, PendingOk;
    if IsAt(db.dict, db.free.items[0], Persisted) {
      DroppedDict(db.dict, cfg, segs, db.free.items[0]);
      ClearQueue(db);
      ClearPending(db);
      ClearRocks(db, cfg, segs);
    }
  }
}
