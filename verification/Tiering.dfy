/** The column store and its tiering.  A row group is written while it is in memory
    only, then chosen for eviction, written to RocksDB in the background, marked, and
    cleared; readers never notice. */
module Tiering {
  import opened Basics
  import opened Columns
  import opened VectorCodec
  import Ring

  datatype Part = Part(table: nat, name: string)

  datatype Key = Key(part: Part, group: nat)

  datatype Location = RedisOnly | Flush | Persisted

  datatype Group = Group(vectors: map<(nat, nat), seq<string>>, location: Location)

  /** What the metadata dictionary holds of one partition. */
  datatype Meta = Meta(groups: nat, rows: map<nat, nat>)
  {
    function Rows(g: nat): nat {
      if g in rows then rows[g] else 0
    }

    function AddRows(g: nat, n: nat): Meta {
      this.(rows := rows[g := Rows(g) + n])
    }
  }

  /** `jobs` are the batches queued for the background thread, `marking` what is left
      to mark of the batch it has written. */
  datatype Db = Db(
    meta: map<Part, Meta>,
    dict: map<Key, Group>,
    rocks: map<(Key, (nat, nat)), string>,
    evict: Ring.Line<Key>,
    free: Ring.Line<Key>,
    jobs: seq<seq<Key>>,
    marking: seq<Key>)

  /** `rowgroup_size` and `columnvector_size`, and the number of columns every client
      uses for a partition. */
  datatype Config = Config(groupSize: nat, S: nat, widths: map<Part, nat>)
  {
    predicate Valid() {
      groupSize > 0 && S > 0 && forall p :: p in widths ==> widths[p] > 0
    }
  }

  // ---- FPWRITE ----

  /** "null" is kept, blank values become empty. */
  function Normalise(v: string): string {
    if CString(v) == "null" then "null"
    else if v == "" || v[0] == NUL || v[0] == ' ' then ""
    else v
  }

  function NormaliseAll(values: seq<string>): seq<string> {
    seq(|values|, i requires 0 <= i < |values| => Normalise(values[i]))
  }

  function MetaOf(db: Db, p: Part): Meta {
    if p in db.meta then db.meta[p] else Meta(0, map[])
  }

  /** Where the rows go: the metadata after the choice, the group, the rows it has,
      and whether the command already decided to enroll the group. */
  datatype Place = Place(meta: Meta, group: nat, rows: nat, enroll: bool)

  function Choose(db: Db, groupSize: nat, p: Part): (r: Place)
    ensures r.group == r.meta.groups && r.group >= 1
  {
    var m0 := MetaOf(db, p);
    var m1 := if m0.groups == 0 then m0.(groups := 1) else m0;
    var g, n := m1.groups, m1.Rows(m1.groups);
    var m2 := if n == 0 then m1.AddRows(g, 0) else m1;
    var next := m2.(groups := g + 1);
    if n >= groupSize then Place(next, g + 1, 0, true)
    else if Key(p, g) in db.dict then
      if db.dict[Key(p, g)].location != RedisOnly then Place(next, g + 1, 0, false) else Place(m2, g, n, false)
    else if n != 0 then Place(next, g + 1, 0, false)
    else Place(m2, g, n, false)
  }

  datatype Result = Ok(db: Db) | Error | Crash

  function Write(db: Db, cfg: Config, p: Part, C: nat, raw: seq<string>): Result
    requires cfg.S > 0 && C > 0
  {
    if Rem(|raw|, C) != 0 then Error
    else
      var values := NormaliseAll(raw);
      var at := Choose(db, cfg.groupSize, p);
      var key := Key(p, at.group);
      var isNew := key !in db.dict && values != [];
      var dict :=
        if values == [] then db.dict
        else
          var was := if key in db.dict then db.dict[key] else Group(map[], RedisOnly);
          db.dict[key := was.(vectors := InsertFrom(was.vectors, at.rows * C, values, |values|, C, cfg.S))];
      var db1 := db.(dict := dict, meta := db.meta[p := at.meta.AddRows(at.group, Quo(|values|, C))]);
      if !at.enroll && !isNew then Ok(db1)
      else if key in dict then Ok(db1.(evict := Ring.Push(db.evict, key)))
      else Crash
  }

  // ---- eviction ----

  predicate Queued(db: Db) {
    && (forall i :: 0 <= i < |db.evict.items| ==> db.evict.items[i] in db.dict)
    && (forall i :: 0 <= i < |db.free.items| ==> db.free.items[i] in db.dict)
  }

  /** `chooseBestKeyFromQueue_`. */
  function Pop(db: Db): (r: Db)
    requires Queued(db) && db.evict.items != []
    ensures Queued(r) && r.evict == Ring.Shift(db.evict) && r.meta == db.meta && r.dict.Keys == db.dict.Keys
  {
    var k := db.evict.items[0];
    db.(evict := Ring.Shift(db.evict), dict := db.dict[k := db.dict[k].(location := Flush)],
        free := Ring.Push(db.free, k))
  }

  /** How many groups `_batchTiering` takes until `count` rows are covered. */
  function Batch(db: Db, count: int): (n: nat)
    ensures n <= |db.evict.items|
    decreases |db.evict.items|
  {
    if db.evict.items == [] || count <= 0 then 0
    else
      var k := db.evict.items[0];
      1 + Batch(db.(evict := Ring.Shift(db.evict)), count - MetaOf(db, k.part).Rows(k.group))
  }

  function PopMany(db: Db, n: nat): (r: Db)
    requires Queued(db) && n <= |db.evict.items|
    ensures Queued(r) && r.meta == db.meta && r.dict.Keys == db.dict.Keys && r.evict.items == db.evict.items[n..]
  {
    if n == 0 then db else Pop(PopMany(db, n - 1))
  }

  function Tier(db: Db, count: int): (r: Db)
    requires Queued(db)
    ensures Queued(r)
  {
    var n := Batch(db, count);
    PopMany(db, n).(jobs := db.jobs + [db.evict.items[..n]])
  }

  // ---- the background thread ----

  function BatchOf(db: Db, keys: seq<Key>): map<(Key, (nat, nat)), string> {
    var entries := set k, f | k in keys && k in db.dict && f in db.dict[k].vectors :: (k, f);
    map x | x in entries && x.0 in db.dict && x.1 in db.dict[x.0].vectors :: Stored(db.dict[x.0].vectors[x.1])
  }

  function Persist(db: Db): Db
    requires db.jobs != []
  {
    db.(rocks := db.rocks + BatchOf(db, db.jobs[0]), jobs := db.jobs[1..], marking := db.jobs[0])
  }

  function Mark(db: Db): Db
    requires db.marking != [] && db.marking[0] in db.dict
  {
    var k := db.marking[0];
    db.(dict := db.dict[k := db.dict[k].(location := Persisted)], marking := db.marking[1..])
  }

  /** One turn of the clearing loop. */
  function Clear(db: Db): Db
    requires db.free.items != [] && db.free.items[0] in db.dict
  {
    var k := db.free.items[0];
    if db.dict[k].location != Persisted then db
    else db.(dict := db.dict - {k}, free := Ring.Shift(db.free))
  }

  // ---- FPSCAN ----

  /** Is the group read from RocksDB? */
  predicate InRocks(db: Db, k: Key) {
    k !in db.dict || db.dict[k].location == Persisted
  }

  function MemoryCell(vectors: map<(nat, nat), seq<string>>, S: nat, r: nat, col: nat): Option<string>
    requires S > 0
  {
    var f := (Quo(r, S) + 1, col);
    if f in vectors && Rem(r, S) < |vectors[f]| then Some(vectors[f][Rem(r, S)]) else None
  }

  function RocksCell(db: Db, k: Key, S: nat, r: nat, col: nat): Option<string>
    requires S > 0
  {
    var x := (k, (Quo(r, S) + 1, col));
    if x in db.rocks then Read(db.rocks[x], Rem(r, S)) else None
  }

  function Cell(db: Db, k: Key, S: nat, r: nat, col: nat): Option<string>
    requires S > 0
  {
    if InRocks(db, k) then RocksCell(db, k, S, r, col)
    else MemoryCell(db.dict[k].vectors, S, r, col)
  }

  function ScanRow(db: Db, k: Key, S: nat, cols: seq<nat>, r: nat): seq<Option<string>>
    requires S > 0
  {
    seq(|cols|, i requires 0 <= i < |cols| => Cell(db, k, S, r, cols[i]))
  }

  function ScanGroup(db: Db, k: Key, S: nat, cols: seq<nat>, n: nat): seq<Option<string>>
    requires S > 0
  {
    if n == 0 then [] else ScanGroup(db, k, S, cols, n - 1) + ScanRow(db, k, S, cols, n - 1)
  }

  /** The replies for the first g groups of a partition. */
  function ScanGroups(db: Db, p: Part, S: nat, cols: seq<nat>, g: nat): seq<Option<string>>
    requires S > 0
  {
    if g == 0 then []
    else ScanGroups(db, p, S, cols, g - 1) + ScanGroup(db, Key(p, g), S, cols, MetaOf(db, p).Rows(g))
  }

  function Scan(db: Db, p: Part, S: nat, cols: seq<nat>): seq<Option<string>>
    requires S > 0
  {
    ScanGroups(db, p, S, cols, MetaOf(db, p).groups)
  }

  /** `populateScanParameter`: the data count, from the metadata alone. */
  function DataCount(m: Meta, columns: nat, g: nat): nat {
    if g == 0 then 0 else DataCount(m, columns, g - 1) + columns * m.Rows(g)
  }

  // ---- steps and runs ----

  datatype Step =
    | FpWrite(part: Part, columns: nat, values: seq<string>)
    | BatchTiering(count: int)
    | BackgroundWrite
    | BackgroundMark
    | ClearOne

  /** A client uses the partition's number of columns; the background thread works on
      one batch at a time; only a non-empty queue is cleared. */
  predicate Enabled(db: Db, cfg: Config, step: Step) {
    match step
    case FpWrite(p, C, values) => p in cfg.widths && C == cfg.widths[p]
    case BatchTiering(_) => true
    case BackgroundWrite => db.jobs != [] && db.marking == []
    case BackgroundMark => db.marking != []
    case ClearOne => db.free.items != []
  }
}
