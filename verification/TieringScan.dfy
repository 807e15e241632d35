/** Tiering is invisible to readers: after any run, FPSCAN returns what FPWRITE was given. */
module TieringScan {
  import opened Basics
  import opened Columns
  import opened VectorCodec
  import opened RocksScan
  import Ring
  import opened Tiering
  import opened TieringSafety
  import opened TieringRuns

  // ---- one group ----

  lemma {:induction false} StoredGroup(db: Db, cfg: Config, segs: Segs, k: Key, cols: seq<nat>, n: nat, m: nat)
    requires KeptAt(db.rocks, cfg, segs, k) && InRocks(db, k) && Within(cols, Width(cfg, k))
    requires |Seg(segs, k)| == m * Width(cfg, k) && n <= m
    ensures ScanGroup(db, k, cfg.S, cols, n) == ReadRows(Seg(segs, k), Width(cfg, k), cfg.S, cols, n)
  {
    hide VecOf, Stored, Read, Quo, Rem;
    if n > 0 {
      StoredGroup(db, cfg, segs, k, cols, n - 1, m);
      var flat, C := Seg(segs, k), Width(cfg, k);
      forall i | 0 <= i < |cols|
        ensures Cell(db, k, cfg.S, n - 1, cols[i]) == ReadCell(flat, C, cfg.S, n - 1, cols[i])
      {
        CellOf(flat, C, cfg.S, m, n - 1, cols[i]);
      }
      assert ScanRow(db, k, cfg.S, cols, n - 1) == ReadRow(flat, C, cfg.S, cols, n - 1);
    }
  }

  lemma {:induction false} MemoryGroup(db: Db, cfg: Config, segs: Segs, k: Key, cols: seq<nat>, n: nat, m: nat)
    requires k in db.dict && GroupOk(db.dict[k], cfg, segs, k) && !InRocks(db, k) && Within(cols, Width(cfg, k))
    requires |Seg(segs, k)| == m * Width(cfg, k) && n <= m
    ensures ScanGroup(db, k, cfg.S, cols, n) == Somes(Select(Seg(segs, k), Width(cfg, k), cols, n))
  {
    hide VecOf, Quo, Rem, At;
    if n > 0 {
      MemoryGroup(db, cfg, segs, k, cols, n - 1, m);
      var flat, C := Seg(segs, k), Width(cfg, k);
      forall i | 0 <= i < |cols|
        ensures Cell(db, k, cfg.S, n - 1, cols[i]) == Some(At(flat, C, n - 1, cols[i]))
      {
        CellOf(flat, C, cfg.S, m, n - 1, cols[i]);
      }
      assert ScanRow(db, k, cfg.S, cols, n - 1) == Somes(Pick(flat, C, cols, n - 1));
    }
  }

  /** Can the group be read back from where it is? */
  ghost predicate Readable(db: Db, cfg: Config, segs: Segs, k: Key, cols: seq<nat>)
    requires cfg.Valid() && KeyIn(segs, k) && Width(cfg, k) > 0
  {
    InRocks(db, k) ==> PlainColumns(Seg(segs, k), Width(cfg, k), cfg.S, cols)
  }

  lemma GroupScan(db: Db, cfg: Config, segs: Segs, k: Key, cols: seq<nat>, n: nat)
    requires Inv(db, cfg, segs) && KeyIn(segs, k)
    requires Within(cols, Width(cfg, k)) && n == MetaOf(db, k.part).Rows(k.group)
    ensures cfg.Valid() && Width(cfg, k) > 0 && |Seg(segs, k)| == n * Width(cfg, k)
    ensures var flat, C := Seg(segs, k), Width(cfg, k);
      && |ScanGroup(db, k, cfg.S, cols, n)| == |Select(flat, C, cols, n)|
      && (ScanGroup(db, k, cfg.S, cols, n) == Somes(Select(flat, C, cols, n)) <==> Readable(db, cfg, segs, k, cols))
  {
    assert PartOk(db.meta[k.part], segs[k.part], Width(cfg, k));
    assert RowsOk(db.meta[k.part], segs[k.part], Width(cfg, k), k.group);
    var flat, C := Seg(segs, k), Width(cfg, k);
    if InRocks(db, k) {
      assert KeptAt(db.rocks, cfg, segs, k);
      hide Inv, PlainColumns, ScanGroup, ReadRows, Select, KeptAt;
      StoredGroup(db, cfg, segs, k, cols, n, n);
      RowsLength(flat, C, cfg.S, cols, n);
      ScanIsExactIff(flat, C, cfg.S, cols, n);
    } else {
      assert GroupOk(db.dict[k], cfg, segs, k);
      hide Inv, PlainColumns, ScanGroup, ReadRows, Select, GroupOk;
      MemoryGroup(db, cfg, segs, k, cols, n, n);
    }
  }

  // ---- a partition ----

  function TotalRows(m: Meta, g: nat): nat {
    if g == 0 then 0 else TotalRows(m, g - 1) + m.Rows(g)
  }

  /** The values of the first g groups. */
  function Upto(segs: Segs, p: Part, g: nat): seq<string>
    requires p in segs && g <= |segs[p]|
  {
    if g == 0 then [] else Upto(segs, p, g - 1) + segs[p][g - 1]
  }

  ghost predicate AllReadable(db: Db, cfg: Config, segs: Segs, p: Part, cols: seq<nat>, g: nat)
    requires cfg.Valid() && p in segs && g <= |segs[p]| && p in cfg.widths
  {
    forall h :: 1 <= h <= g ==> Readable(db, cfg, segs, Key(p, h), cols)
  }

  lemma SomesConcat(a: seq<string>, b: seq<string>)
    ensures Somes(a + b) == Somes(a) + Somes(b)
  {
  }

  lemma Halves<T>(a: seq<T>, b: seq<T>, c: seq<T>, d: seq<T>)
    requires |a| == |c|
    ensures a + b == c + d <==> a == c && b == d
  {
    if a + b == c + d {
      assert a == (a + b)[..|a|] && c == (c + d)[..|c|];
      assert b == (a + b)[|a|..] && d == (c + d)[|c|..];
    }
  }

  lemma Combine(x: seq<Option<string>>, y: seq<Option<string>>, u: seq<string>, w: seq<string>, a: bool, b: bool)
    requires |x| == |u| && |y| == |w| && (x == Somes(u) <==> a) && (y == Somes(w) <==> b)
    ensures |x + y| == |u + w| && (x + y == Somes(u + w) <==> a && b)
  {
    SomesConcat(u, w);
    Halves(x, y, Somes(u), Somes(w));
  }

  lemma OneMoreReadable(db: Db, cfg: Config, segs: Segs, p: Part, cols: seq<nat>, g: nat)
    requires cfg.Valid() && p in segs && 0 < g <= |segs[p]| && p in cfg.widths
    ensures AllReadable(db, cfg, segs, p, cols, g) <==>
      (AllReadable(db, cfg, segs, p, cols, g - 1) && Readable(db, cfg, segs, Key(p, g), cols))
  {
    hide Readable;
  }

  lemma WidthOk(db: Db, cfg: Config, segs: Segs, p: Part)
    requires Inv(db, cfg, segs) && p in cfg.widths
    ensures cfg.Valid() && cfg.widths[p] > 0
  {
  }

  lemma Distribute(t: nat, n: nat, C: nat)
    ensures (t + n) * C == t * C + n * C
  {
  }

  lemma {:induction false} GroupsScan(db: Db, cfg: Config, segs: Segs, p: Part, cols: seq<nat>, g: nat)
    requires Inv(db, cfg, segs) && p in segs && p in cfg.widths && Within(cols, cfg.widths[p]) && g <= |segs[p]|
    ensures cfg.Valid() && cfg.widths[p] > 0 && |Upto(segs, p, g)| == TotalRows(MetaOf(db, p), g) * cfg.widths[p]
    ensures var replies := ScanGroups(db, p, cfg.S, cols, g);
      var expected := Select(Upto(segs, p, g), cfg.widths[p], cols, TotalRows(MetaOf(db, p), g));
      && |replies| == |expected|
      && (replies == Somes(expected) <==> AllReadable(db, cfg, segs, p, cols, g))
  {
    hide Inv, Readable, ScanGroup, Somes, Within, AllReadable, MetaOf, Meta.Rows;
    WidthOk(db, cfg, segs, p);
    var C, m := cfg.widths[p], MetaOf(db, p);
    if g == 0 {
      NothingToScan(db, cfg, segs, p, cols);
    } else {
      var k, n, t := Key(p, g), m.Rows(g), TotalRows(m, g - 1);
      GroupsScan(db, cfg, segs, p, cols, g - 1);
      GroupScan(db, cfg, segs, k, cols, n);
      Distribute(t, n, C);
      SelectConcat(Upto(segs, p, g - 1), segs[p][g - 1], C, cols, t, n);
      OneMoreReadable(db, cfg, segs, p, cols, g);
      hide Select;
      Combine(ScanGroups(db, p, cfg.S, cols, g - 1), ScanGroup(db, k, cfg.S, cols, n),
              Select(Upto(segs, p, g - 1), C, cols, t), Select(segs[p][g - 1], C, cols, n),
              AllReadable(db, cfg, segs, p, cols, g - 1), Readable(db, cfg, segs, k, cols));
    }
  }

  lemma NothingToScan(db: Db, cfg: Config, segs: Segs, p: Part, cols: seq<nat>)
    requires cfg.Valid() && p in segs && p in cfg.widths
    ensures ScanGroups(db, p, cfg.S, cols, 0) == Somes([]) && AllReadable(db, cfg, segs, p, cols, 0)
  {
  }

  // ---- runs ----

  function Exec(db: Db, cfg: Config, step: Step): Db
    requires cfg.Valid() && Enabled(db, cfg, step)
  {
    if !Ready(db, cfg, step) then db
    else
      match step
      case FpWrite(p, C, values) =>
        var r := Write(db, cfg, p, C, values);
        if r.Ok? then r.db else db
      case BatchTiering(count) => Tier(db, count)
      case BackgroundWrite => Persist(db)
      case BackgroundMark => Mark(db)
      case ClearOne => Clear(db)
  }

  /** The assertions and the pointers the code relies on; `StepInv` shows that they always hold. */
  predicate Ready(db: Db, cfg: Config, step: Step)
    requires Enabled(db, cfg, step)
  {
    match step
    case FpWrite(_, _, _) => true
    case BatchTiering(_) => Queued(db)
    case BackgroundWrite => true
    case BackgroundMark => db.marking[0] in db.dict
    case ClearOne => db.free.items[0] in db.dict && db.dict[db.free.items[0]].location != RedisOnly
  }

  /** What a step adds to the rows of a partition. */
  function Added(cfg: Config, step: Step, p: Part): seq<string>
    requires cfg.Valid()
  {
    if step.FpWrite? && step.part == p && p in cfg.widths && Rem(|step.values|, cfg.widths[p]) == 0
    then NormaliseAll(step.values) else []
  }

  function Track(db: Db, cfg: Config, segs: Segs, step: Step): Segs
    requires cfg.Valid() && Enabled(db, cfg, step)
  {
    if step.FpWrite? && Write(db, cfg, step.part, step.columns, step.values).Ok? then
      PutValues(segs, step.part, Choose(db, cfg.groupSize, step.part).group, NormaliseAll(step.values))
    else segs
  }

  /** Does the step end in a failed assertion? */
  predicate Crashes(db: Db, cfg: Config, step: Step)
    requires cfg.Valid() && Enabled(db, cfg, step)
  {
    step.FpWrite? && Write(db, cfg, step.part, step.columns, step.values).Crash?
  }

  lemma StepInv(db: Db, cfg: Config, segs: Segs, step: Step)
    requires cfg.Valid() && Inv(db, cfg, segs) && Enabled(db, cfg, step) && !Crashes(db, cfg, step)
    ensures Ready(db, cfg, step) && Inv(Exec(db, cfg, step), cfg, Track(db, cfg, segs, step))
  {
    hide Inv, Write, Tier, Persist, Mark, Clear, PutValues, Choose, NormaliseAll;
    match step {
      case FpWrite(p, C, values) => WriteInv(db, cfg, segs, p, values);
      case BatchTiering(count) => TierInv(db, cfg, segs, count);
      case BackgroundWrite => PersistInv(db, cfg, segs);
      case BackgroundMark => MarkInv(db, cfg, segs);
      case ClearOne => ClearInv(db, cfg, segs);
    }
  }

  predicate Run(db: Db, cfg: Config, steps: seq<Step>)
    requires cfg.Valid()
    decreases |steps|
  {
    steps == [] ||
    (Enabled(db, cfg, steps[0]) && !Crashes(db, cfg, steps[0]) && Run(Exec(db, cfg, steps[0]), cfg, steps[1..]))
  }

  function After(db: Db, cfg: Config, steps: seq<Step>): Db
    requires cfg.Valid() && Run(db, cfg, steps)
    decreases |steps|
  {
    if steps == [] then db else After(Exec(db, cfg, steps[0]), cfg, steps[1..])
  }

  function TrackAll(db: Db, cfg: Config, segs: Segs, steps: seq<Step>): Segs
    requires cfg.Valid() && Run(db, cfg, steps)
    decreases |steps|
  {
    if steps == [] then segs else TrackAll(Exec(db, cfg, steps[0]), cfg, Track(db, cfg, segs, steps[0]), steps[1..])
  }

  /** All the values written to a partition, normalised, in the order of the commands. */
  function Written(cfg: Config, steps: seq<Step>, p: Part): seq<string>
    requires cfg.Valid()
  {
    if steps == [] then [] else Added(cfg, steps[0], p) + Written(cfg, steps[1..], p)
  }

  lemma {:induction false} RunInv(db: Db, cfg: Config, segs: Segs, steps: seq<Step>)
    requires cfg.Valid() && Inv(db, cfg, segs) && Run(db, cfg, steps)
    ensures Inv(After(db, cfg, steps), cfg, TrackAll(db, cfg, segs, steps))
    decreases |steps|
  {
    hide Inv, Exec, Track, Crashes, Enabled;
    if steps != [] {
      StepInv(db, cfg, segs, steps[0]);
      RunInv(Exec(db, cfg, steps[0]), cfg, Track(db, cfg, segs, steps[0]), steps[1..]);
    }
  }

  /** The rows of a partition, as the history has them. */
  function Whole(segs: Segs, p: Part): seq<string> {
    if p in segs then Upto(segs, p, |segs[p]|) else []
  }

  lemma {:induction false} UptoSame(segs: Segs, segs': Segs, p: Part, g: nat)
    requires p in segs && p in segs' && g <= |segs[p]| && g <= |segs'[p]|
    requires forall h :: 0 <= h < g ==> segs[p][h] == segs'[p][h]
    ensures Upto(segs, p, g) == Upto(segs', p, g)
  {
    if g > 0 { UptoSame(segs, segs', p, g - 1); }
  }

  lemma PutWhole(segs: Segs, p: Part, g: nat, values: seq<string>, q: Part)
    requires g >= 1 && var ss := if p in segs then segs[p] else []; g == |ss| || g == |ss| + 1
    ensures Whole(PutValues(segs, p, g, values), q) == Whole(segs, q) + if q == p then values else []
  {
    var r := PutValues(segs, p, g, values);
    if q != p {
      if q in segs { UptoSame(segs, r, q, |segs[q]|); }
    } else if p !in segs {
      assert r[p] == [values];
    } else {
      UptoSame(segs, r, p, g - 1);
      if g == |segs[p]| {
        assert Upto(r, p, g) == Upto(segs, p, g - 1) + (segs[p][g - 1] + values);
        assert Upto(segs, p, g) == Upto(segs, p, g - 1) + segs[p][g - 1];
      } else {
        assert Upto(r, p, g) == Upto(r, p, g - 1) + values;
      }
    }
  }

  lemma TrackWhole(db: Db, cfg: Config, segs: Segs, step: Step, p: Part)
    requires cfg.Valid() && Inv(db, cfg, segs) && Enabled(db, cfg, step) && !Crashes(db, cfg, step)
    ensures Whole(Track(db, cfg, segs, step), p) == Whole(segs, p) + Added(cfg, step, p)
  {
    hide Inv, Choose, PutValues, NormaliseAll, Whole, Rem, Quo, InsertFrom;
    if step.FpWrite? {
      ChooseFacts(db, cfg, segs, step.part);
      PutWhole(segs, step.part, Choose(db, cfg.groupSize, step.part).group, NormaliseAll(step.values), p);
    }
  }

  lemma {:induction false} RunWhole(db: Db, cfg: Config, segs: Segs, steps: seq<Step>, p: Part)
    requires cfg.Valid() && Inv(db, cfg, segs) && Run(db, cfg, steps)
    ensures Whole(TrackAll(db, cfg, segs, steps), p) == Whole(segs, p) + Written(cfg, steps, p)
    decreases |steps|
  {
    hide Inv, Exec, Track, Crashes, Enabled, Whole, Added;
    if steps != [] {
      StepInv(db, cfg, segs, steps[0]);
      TrackWhole(db, cfg, segs, steps[0], p);
      RunWhole(Exec(db, cfg, steps[0]), cfg, Track(db, cfg, segs, steps[0]), steps[1..], p);
    }
  }

  function Empty(): Db {
    Db(map[], map[], map[], Ring.Cells(Ring.ARRAY_QUEUE_SIZE, 0, []), Ring.Cells(Ring.FREE_QUEUE_SIZE, 0, []), [], [])
  }

  lemma EmptyInv(cfg: Config)
    requires cfg.Valid()
    ensures Inv(Empty(), cfg, map[])
  {
  }

  /** `After` a run from an empty store, and the history of that run. */
  function Final(cfg: Config, steps: seq<Step>): Db
    requires cfg.Valid() && Run(Empty(), cfg, steps)
  {
    After(Empty(), cfg, steps)
  }

  function History(cfg: Config, steps: seq<Step>): Segs
    requires cfg.Valid() && Run(Empty(), cfg, steps)
  {
    TrackAll(Empty(), cfg, map[], steps)
  }

  lemma FinalFacts(cfg: Config, steps: seq<Step>, p: Part)
    requires cfg.Valid() && Run(Empty(), cfg, steps)
    ensures Inv(Final(cfg, steps), cfg, History(cfg, steps))
    ensures Whole(History(cfg, steps), p) == Written(cfg, steps, p)
  {
    hide Inv, Exec, Track, After, TrackAll;
    EmptyInv(cfg);
    RunInv(Empty(), cfg, map[], steps);
    RunWhole(Empty(), cfg, map[], steps, p);
  }

  /** What FPSCAN should return: the requested columns of all rows, in write order. */
  function Expected(cfg: Config, steps: seq<Step>, p: Part, cols: seq<nat>): seq<string>
    requires cfg.Valid() && p in cfg.widths
  {
    var rows := Written(cfg, steps, p);
    Select(rows, cfg.widths[p], cols, Quo(|rows|, cfg.widths[p]))
  }

  /** Groups that went to RocksDB can be read back. */
  ghost predicate ReadableRun(cfg: Config, steps: seq<Step>, p: Part, cols: seq<nat>)
    requires cfg.Valid() && Run(Empty(), cfg, steps) && p in cfg.widths
  {
    var segs := History(cfg, steps);
    p in segs ==> AllReadable(Final(cfg, steps), cfg, segs, p, cols, |segs[p]|)
  }

  lemma GroupCount(db: Db, cfg: Config, segs: Segs, p: Part)
    requires Inv(db, cfg, segs)
    ensures p in segs <==> p in db.meta
    ensures p in segs ==> MetaOf(db, p).groups == |segs[p]|
    ensures p !in segs ==> MetaOf(db, p).groups == 0
  {
    if p in segs { assert p in cfg.widths && PartOk(db.meta[p], segs[p], cfg.widths[p]); }
  }

  /** Over every run: the scan has as many replies as the metadata says, and it is
      the rows written exactly when the groups in RocksDB can be read back. */
  lemma TieringInvisibleIff(cfg: Config, steps: seq<Step>, p: Part, cols: seq<nat>)
    requires cfg.Valid() && Run(Empty(), cfg, steps) && p in cfg.widths && Within(cols, cfg.widths[p])
    ensures Scan(Final(cfg, steps), p, cfg.S, cols) == Somes(Expected(cfg, steps, p, cols))
       <==> ReadableRun(cfg, steps, p, cols)
    ensures |Scan(Final(cfg, steps), p, cfg.S, cols)| == |Expected(cfg, steps, p, cols)|
    ensures var m := MetaOf(Final(cfg, steps), p); |Expected(cfg, steps, p, cols)| == DataCount(m, |cols|, m.groups)
  {
    hide DataCount, Run, After, Final, Expected, ReadableRun, Somes, MetaOf, Within, ScanGroups;
    ScanIsExactIffReadable(cfg, steps, p, cols);
    ReplyCount(Final(cfg, steps), p, cfg.S, cols, MetaOf(Final(cfg, steps), p).groups);
  }

  lemma ScanIsExactIffReadable(cfg: Config, steps: seq<Step>, p: Part, cols: seq<nat>)
    requires cfg.Valid() && Run(Empty(), cfg, steps) && p in cfg.widths && Within(cols, cfg.widths[p])
    ensures Scan(Final(cfg, steps), p, cfg.S, cols) == Somes(Expected(cfg, steps, p, cols))
       <==> ReadableRun(cfg, steps, p, cols)
    ensures |Scan(Final(cfg, steps), p, cfg.S, cols)| == |Expected(cfg, steps, p, cols)|
  {
    hide Inv, After, TrackAll, Written, Select, Somes, Within, AllReadable, MetaOf, Run, ScanGroups;
    var db, segs, C := Final(cfg, steps), History(cfg, steps), cfg.widths[p];
    FinalFacts(cfg, steps, p);
    GroupCount(db, cfg, segs, p);
    if p in segs {
      GroupsScan(db, cfg, segs, p, cols, |segs[p]|);
      DivMod(TotalRows(MetaOf(db, p), |segs[p]|), C, 0);
    } else {
      NoGroups(db, p, cfg.S, cols);
      DivMod(0, C, 0);
      SelectNothing(C, cols);
    }
  }

  lemma NoGroups(db: Db, p: Part, S: nat, cols: seq<nat>)
    requires S > 0
    ensures ScanGroups(db, p, S, cols, 0) == [] && Somes([]) == []
  {
  }

  lemma SelectNothing(C: nat, cols: seq<nat>)
    ensures Select([], C, cols, 0) == []
  {
  }

  // ---- consequences ----

  predicate Safe(v: string) {
    NUL !in v && ':' !in v && ']' !in v
  }

  lemma {:induction false} VectorElements(flat: seq<string>, C: nat, S: nat, f: (nat, nat), i: nat)
    requires C > 0 && S > 0 && i < |VecOf(flat, C, S, f)|
    ensures VecOf(flat, C, S, f)[i] in flat
  {
    hide Field;
    var t := |flat| - 1;
    if i < |VecOf(flat[..t], C, S, f)| {
      VectorElements(flat[..t], C, S, f, i);
      assert forall v :: v in flat[..t] ==> v in flat;
    }
  }

  lemma SafeVectors(flat: seq<string>, C: nat, S: nat, cols: seq<nat>)
    requires C > 0 && S > 0 && forall v :: v in flat ==> Safe(v)
    ensures PlainColumns(flat, C, S, cols)
  {
    forall cv, k | 1 <= cv && 0 <= k < |cols|
      ensures Plain(VecOf(flat, C, S, (cv, cols[k])))
    {
      hide VecOf;
      var v := VecOf(flat, C, S, (cv, cols[k]));
      forall i | 0 <= i < |v| ensures Safe(v[i]) {
        VectorElements(flat, C, S, (cv, cols[k]), i);
      }
    }
  }

  lemma {:induction false} SegWithin(segs: Segs, p: Part, g: nat, h: nat, v: string)
    requires p in segs && 1 <= h <= g <= |segs[p]| && v in segs[p][h - 1]
    ensures v in Upto(segs, p, g)
  {
    if h < g { SegWithin(segs, p, g - 1, h, v); }
  }

  /** Tiering is invisible to readers, when no value has a character the codec gives
      a meaning to. */
  lemma TieringInvisible(cfg: Config, steps: seq<Step>, p: Part, cols: seq<nat>)
    requires cfg.Valid() && Run(Empty(), cfg, steps) && p in cfg.widths && Within(cols, cfg.widths[p])
    requires forall v :: v in Written(cfg, steps, p) ==> Safe(v)
    ensures Scan(Final(cfg, steps), p, cfg.S, cols) == Somes(Expected(cfg, steps, p, cols))
  {
    hide Inv, Final, History, Run, Scan, Expected, Safe, Within, PlainColumns;
    TieringInvisibleIff(cfg, steps, p, cols);
    FinalFacts(cfg, steps, p);
    var segs := History(cfg, steps);
    if p in segs {
      forall h | 1 <= h <= |segs[p]|
        ensures Readable(Final(cfg, steps), cfg, segs, Key(p, h), cols)
      {
        forall v | v in segs[p][h - 1] ensures Safe(v) { SegWithin(segs, p, |segs[p]|, h, v); }
        SafeVectors(segs[p][h - 1], cfg.widths[p], cfg.S, cols);
      }
    }
  }

  lemma {:induction false} GroupLength(db: Db, k: Key, S: nat, cols: seq<nat>, n: nat)
    requires S > 0
    ensures |ScanGroup(db, k, S, cols, n)| == |cols| * n
  {
    if n > 0 { GroupLength(db, k, S, cols, n - 1); }
  }

  /** The reply is as long as the metadata promises. */
  lemma {:induction false} ReplyCount(db: Db, p: Part, S: nat, cols: seq<nat>, g: nat)
    requires S > 0
    ensures |ScanGroups(db, p, S, cols, g)| == DataCount(MetaOf(db, p), |cols|, g)
  {
    hide ScanGroup;
    if g > 0 {
      ReplyCount(db, p, S, cols, g - 1);
      GroupLength(db, Key(p, g), S, cols, MetaOf(db, p).Rows(g));
    }
  }

  /** A group chosen for eviction is never written again: while it stays in memory its
      vectors stay as they are. */
  lemma EvictedStays(db: Db, cfg: Config, segs: Segs, step: Step, k: Key)
    requires cfg.Valid() && Inv(db, cfg, segs) && Enabled(db, cfg, step) && !Crashes(db, cfg, step)
    requires k in db.dict && db.dict[k].location != RedisOnly
    ensures var r := Exec(db, cfg, step);
      k in r.dict ==> r.dict[k].vectors == db.dict[k].vectors && r.dict[k].location != RedisOnly
  {
    hide Inv, Choose, Write, Filled, PopMany, Batch, BatchOf, NormaliseAll, Quo, Rem;
    StepInv(db, cfg, segs, step);
    match step {
      case FpWrite(p, C, values) =>
        ChooseFacts(db, cfg, segs, p);
        WriteResult(db, cfg, segs, p, values);
      case BatchTiering(count) => PopManyVectors(db, Batch(db, count), k);
      case _ =>
    }
  }

  lemma {:induction false} PopManyVectors(db: Db, n: nat, k: Key)
    requires Queued(db) && n <= |db.evict.items| && k in db.dict
    ensures var r := PopMany(db, n).dict; k in r && r[k].vectors == db.dict[k].vectors
    ensures db.dict[k].location != RedisOnly ==> PopMany(db, n).dict[k].location != RedisOnly
  {
    if n > 0 { PopManyVectors(db, n - 1, k); }
  }

  /** One row fills the only group; a write of nothing then aborts. */
  lemma EmptyWriteAborts(p: Part)
    ensures var cfg := Config(1, 1, map[p := 1]);
            var steps := [FpWrite(p, 1, ["a"])];
            cfg.Valid() && Run(Empty(), cfg, steps) && Crashes(After(Empty(), cfg, steps), cfg, FpWrite(p, 1, []))
  {
    var cfg := Config(1, 1, map[p := 1]);
    var step := FpWrite(p, 1, ["a"]);
    var steps := [step];
    EmptyInv(cfg);
    WriteResult(Empty(), cfg, map[], p, ["a"]);
    CrashIff(Empty(), cfg, map[], p, ["a"]);
    assert !Crashes(Empty(), cfg, step);
    assert steps[1..] == [];
    assert Run(Empty(), cfg, steps);
    RunInv(Empty(), cfg, map[], steps);
    CrashIff(After(Empty(), cfg, steps), cfg, TrackAll(Empty(), cfg, map[], steps), p, []);
  }

  // ---- a run that readers notice ----

  predicate Leads(db: Db, cfg: Config, step: Step, r: Db) {
    cfg.Valid() && Enabled(db, cfg, step) && !Crashes(db, cfg, step) && r == Exec(db, cfg, step)
  }

  lemma RunBefore(db: Db, cfg: Config, segs: Segs, step: Step, r: Db, rest: seq<Step>)
    requires Leads(db, cfg, step, r) && Run(r, cfg, rest)
    ensures Run(db, cfg, [step] + rest) && After(db, cfg, [step] + rest) == After(r, cfg, rest)
    ensures TrackAll(db, cfg, segs, [step] + rest) == TrackAll(r, cfg, Track(db, cfg, segs, step), rest)
  {
    hide Exec, Enabled, Crashes, Track;
    assert ([step] + rest)[1..] == rest;
  }

  /** The only row group goes through all the stages and leaves the memory. */
  function Stages(): seq<Step> {
    [BatchTiering(1)] + ([BackgroundWrite] + ([BackgroundMark] + ([ClearOne] + [])))
  }

  predicate Waits(db: Db, k: Key) {
    && db.evict.items == [k] && k in db.dict && db.free == Ring.Cells(Ring.FREE_QUEUE_SIZE, 0, [])
    && db.jobs == [] && db.marking == []
  }

  lemma StageTier(db: Db, cfg: Config, k: Key) returns (r: Db)
    requires cfg.Valid() && Waits(db, k)
    ensures Leads(db, cfg, BatchTiering(1), r)
    ensures k in r.dict && r.dict[k].location == Flush && r.free.items == [k] && r.jobs == [[k]] && r.marking == []
  {
    r := Exec(db, cfg, BatchTiering(1));
    var n := Batch(db, 1);
    assert n == 1;
    assert PopMany(db, 1) == Pop(PopMany(db, 0));
    assert db.evict.items[..1] == [k];
    assert [] + [k] == [k];
  }

  lemma StageRest(db: Db, cfg: Config, k: Key) returns (r1: Db, r2: Db, r3: Db)
    requires cfg.Valid() && k in db.dict && db.dict[k].location == Flush
    requires db.free.items == [k] && db.jobs == [[k]] && db.marking == []
    ensures Leads(db, cfg, BackgroundWrite, r1) && Leads(r1, cfg, BackgroundMark, r2) && Leads(r2, cfg, ClearOne, r3)
    ensures k !in r3.dict
  {
    hide BatchOf;
    r1 := Exec(db, cfg, BackgroundWrite);
    r2 := Exec(r1, cfg, BackgroundMark);
    r3 := Exec(r2, cfg, ClearOne);
  }

  lemma StagesClear(db: Db, cfg: Config, segs: Segs, k: Key)
    requires cfg.Valid() && Waits(db, k)
    ensures Run(db, cfg, Stages()) && k !in After(db, cfg, Stages()).dict && TrackAll(db, cfg, segs, Stages()) == segs
  {
    var r0 := StageTier(db, cfg, k);
    var r1, r2, r3 := StageRest(r0, cfg, k);
    hide Waits, Leads, Run, After, TrackAll;
    NoSteps(r3, cfg, segs);
    RunBefore(r2, cfg, segs, ClearOne, r3, []);
    RunBefore(r1, cfg, segs, BackgroundMark, r2, [ClearOne] + []);
    RunBefore(r0, cfg, segs, BackgroundWrite, r1, [BackgroundMark] + ([ClearOne] + []));
    RunBefore(db, cfg, segs, BatchTiering(1), r0, [BackgroundWrite] + ([BackgroundMark] + ([ClearOne] + [])));
  }

  lemma NoSteps(db: Db, cfg: Config, segs: Segs)
    requires cfg.Valid()
    ensures Run(db, cfg, []) && After(db, cfg, []) == db && TrackAll(db, cfg, segs, []) == segs
  {
  }

  /** Two rows of one column, the first with a colon in it. */
  function Times(): seq<string> {
    ["10:30", "x"]
  }

  function TimesConfig(p: Part): Config {
    Config(2, 2, map[p := 1])
  }

  function TimesRun(p: Part): seq<Step> {
    [FpWrite(p, 1, Times())] + Stages()
  }

  lemma TimesWritten(p: Part) returns (r: Db)
    ensures var cfg, step := TimesConfig(p), FpWrite(p, 1, Times());
      && Leads(Empty(), cfg, step, r) && Waits(r, Key(p, 1))
      && Track(Empty(), cfg, map[], step) == map[p := [Times()]]
  {
    var cfg := TimesConfig(p);
    EmptyInv(cfg);
    WriteResult(Empty(), cfg, map[], p, Times());
    CrashIff(Empty(), cfg, map[], p, Times());
    assert NormaliseAll(Times()) == Times();
    assert [] + [Times()] == [Times()];
    hide Inv, InsertFrom, Filled;
    assert PutValues(map[], p, 1, Times()) == map[p := [Times()]];
    r := Exec(Empty(), cfg, FpWrite(p, 1, Times()));
  }

  lemma TimesVector()
    ensures VecOf(Times(), 1, 2, (1, 1)) == Times() && !Plain(Times())
  {
    assert Times()[..1] == ["10:30"] && Times()[..1][..0] == [];
    assert VecOf(Times()[..1], 1, 2, (1, 1)) == ["10:30"];
    assert Times()[0][2] == ':';
  }

  lemma AddsNothing(cfg: Config, step: Step, rest: seq<Step>, p: Part)
    requires cfg.Valid() && !step.FpWrite?
    ensures Written(cfg, [step] + rest, p) == Written(cfg, rest, p)
  {
    assert ([step] + rest)[1..] == rest;
  }

  lemma StagesWrite(cfg: Config, p: Part)
    requires cfg.Valid()
    ensures Written(cfg, Stages(), p) == []
  {
    AddsNothing(cfg, ClearOne, [], p);
    AddsNothing(cfg, BackgroundMark, [ClearOne] + [], p);
    AddsNothing(cfg, BackgroundWrite, [BackgroundMark] + ([ClearOne] + []), p);
    AddsNothing(cfg, BatchTiering(1), [BackgroundWrite] + ([BackgroundMark] + ([ClearOne] + [])), p);
  }

  lemma TimesExpected(p: Part)
    ensures Written(TimesConfig(p), TimesRun(p), p) == Times()
    ensures Expected(TimesConfig(p), TimesRun(p), p, [1]) == Times()
  {
    StagesWrite(TimesConfig(p), p);
    hide Stages;
    assert NormaliseAll(Times()) == Times();
    assert TimesRun(p)[1..] == Stages();
    assert Select(Times(), 1, [1], 1) == ["10:30"];
  }

  lemma TimesUnreadable(db: Db, p: Part)
    requires Key(p, 1) !in db.dict
    ensures !Readable(db, TimesConfig(p), map[p := [Times()]], Key(p, 1), [1])
  {
    TimesVector();
    hide VecOf, Plain, Times;
    assert Seg(map[p := [Times()]], Key(p, 1)) == Times() && [1][0] == 1;
  }

  lemma TimesHistory(p: Part)
    ensures var cfg, steps := TimesConfig(p), TimesRun(p);
      && cfg.Valid() && Run(Empty(), cfg, steps) && Key(p, 1) !in Final(cfg, steps).dict
      && History(cfg, steps) == map[p := [Times()]]
  {
    var cfg, step := TimesConfig(p), FpWrite(p, 1, Times());
    var r := TimesWritten(p);
    StagesClear(r, cfg, map[p := [Times()]], Key(p, 1));
    hide Stages, Leads, Waits, Run, After, TrackAll, Times, Track, Empty;
    RunBefore(Empty(), cfg, map[], step, r, Stages());
  }

  /** Write, tier, persist, mark and clear; the scan then returns something else than what
      was written. */
  lemma ColonIsNoticed(p: Part)
    ensures var cfg, steps := TimesConfig(p), TimesRun(p);
      && cfg.Valid() && Run(Empty(), cfg, steps)
      && Written(cfg, steps, p) == Times()
      && Scan(Final(cfg, steps), p, cfg.S, [1]) != Somes(Times())
  {
    var cfg, steps := TimesConfig(p), TimesRun(p);
    TimesHistory(p);
    TimesExpected(p);
    TimesUnreadable(Final(cfg, steps), p);
    hide TimesRun, Run, Final, History, Expected, Scan, Written, Somes, Readable, Times;
    TieringInvisibleIff(cfg, steps, p, [1]);
  }
}
