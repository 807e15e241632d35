/** What a client sees of the store, told from the arguments it sent: reply by reply, what
    FPSCAN returns of what FPWRITE was given; which row group a write opens, and how much
    a batch of evictions takes. */
module TieringLaws {
  import opened Basics
  import opened Columns
  import opened RocksScan
  import Ring
  import opened Tiering
  import opened TieringSafety
  import opened TieringScan

  // ---- values ----

  /** How a value is shown: blank ones as nothing, "null" without what follows a NUL behind
      it, all others as they are. */
  function Shown(v: string): string {
    if v == "" || v[0] == ' ' || v[0] == NUL then ""
    else if |v| > 4 && v[..4] == "null" && v[4] == NUL then "null"
    else v
  }

  lemma CStringPrefix(v: string, s: string)
    requires NUL !in s && |s| <= |v| && v[..|s|] == s && (|s| == |v| || v[|s|] == NUL)
    ensures CString(v) == s
  {
    var r := CString(v);
    assert forall i :: 0 <= i < |s| ==> v[i] == s[i];
    assert forall i :: 0 <= i < |r| ==> v[i] == r[i];
  }

  lemma NormaliseShows(v: string)
    ensures Normalise(v) == Shown(v)
  {
    var r := CString(v);
    if |v| > 4 && v[..4] == "null" && v[4] == NUL { CStringPrefix(v, "null"); }
    if v == "null" { CStringPrefix(v, "null"); }
    assert |r| == |v| ==> v == r;
  }

  /** A value without NUL is shown as it is, unless it is empty or starts with a space. */
  lemma ShownPlain(v: string)
    requires NUL !in v
    ensures Shown(v) == if v != "" && v[0] != ' ' then v else ""
  {
  }

  // ---- scans ----

  /** The arguments of all writes accepted for a partition, in order. */
  function Sent(cfg: Config, steps: seq<Step>, p: Part): seq<string>
    requires cfg.Valid()
  {
    if steps == [] then []
    else
      var step := steps[0];
      var accepted := step.FpWrite? && step.part == p && p in cfg.widths && |step.values| % cfg.widths[p] == 0;
      (if accepted then step.values else []) + Sent(cfg, steps[1..], p)
  }

  lemma {:induction false} WrittenShows(cfg: Config, steps: seq<Step>, p: Part, i: nat)
    requires cfg.Valid()
    ensures |Written(cfg, steps, p)| == |Sent(cfg, steps, p)|
    ensures i < |Sent(cfg, steps, p)| ==> Written(cfg, steps, p)[i] == Shown(Sent(cfg, steps, p)[i])
  {
    hide Normalise, Shown;
    if steps != [] {
      var step := steps[0];
      var n := |Added(cfg, step, p)|;
      WrittenShows(cfg, steps[1..], p, if i < n then 0 else i - n);
      if i < n { NormaliseShows(step.values[i]); }
    }
  }

  lemma {:induction false} SelectLength(flat: seq<string>, C: nat, cols: seq<nat>, n: nat)
    ensures |Select(flat, C, cols, n)| == n * |cols|
  {
    if n > 0 { SelectLength(flat, C, cols, n - 1); }
  }

  /** Where the value of a row and a column stands in a selection. */
  lemma {:induction false} SelectAt(flat: seq<string>, C: nat, cols: seq<nat>, n: nat, r: nat, k: nat)
    requires r < n && k < |cols|
    ensures r * |cols| + k < |Select(flat, C, cols, n)|
    ensures Select(flat, C, cols, n)[r * |cols| + k] == At(flat, C, r, cols[k])
  {
    SelectLength(flat, C, cols, n - 1);
    MulMono(r, n - 1, |cols|);
    if r < n - 1 {
      MulMono(r + 1, n - 1, |cols|);
      SelectAt(flat, C, cols, n - 1, r, k);
    }
  }

  lemma RowInside(r: nat, n: nat, C: nat, c: nat)
    requires r < n && 1 <= c <= C
    ensures 0 <= r * C + c - 1 < n * C
  {
    MulMono(r + 1, n, C);
  }

  /** After every run whose evicted groups can be read back: reply k of row r is the value
      sent for that row and column, as it is shown. */
  lemma SentIsScanned(cfg: Config, steps: seq<Step>, p: Part, cols: seq<nat>, r: nat, k: nat)
    requires cfg.Valid() && Run(Empty(), cfg, steps) && p in cfg.widths && Within(cols, cfg.widths[p])
    requires ReadableRun(cfg, steps, p, cols)
    ensures var sent, C, replies := Sent(cfg, steps, p), cfg.widths[p], Scan(Final(cfg, steps), p, cfg.S, cols);
      && |sent| == |sent| / C * C && |replies| == |sent| / C * |cols|
      && (r < |sent| / C && k < |cols| ==>
            && 0 <= r * C + cols[k] - 1 < |sent| && r * |cols| + k < |replies|
            && replies[r * |cols| + k] == Some(Shown(sent[r * C + cols[k] - 1])))
  {
    hide Run, Final, ReadableRun, Scan, Sent, Written, Shown, Select, Inv;
    var C, n := cfg.widths[p], |Sent(cfg, steps, p)| / cfg.widths[p];
    TieringInvisibleIff(cfg, steps, p, cols);
    WrittenShows(cfg, steps, p, 0);
    WholeRows(cfg, steps, p);
    var rows := Written(cfg, steps, p);
    SelectLength(rows, C, cols, n);
    if r < n && k < |cols| {
      SelectAt(rows, C, cols, n, r, k);
      RowInside(r, n, C, cols[k]);
      WrittenShows(cfg, steps, p, r * C + cols[k] - 1);
    }
  }

  lemma MultipleSum(a: nat, b: nat, C: nat)
    requires C > 0 && a % C == 0 && b == b / C * C
    ensures a + b == (a + b) / C * C
  {
    var q := a / C;
    assert a == q * C;
    assert (q + b / C) * C == q * C + b / C * C;
    DivMod(q + b / C, C, 0);
  }

  /** Writes come in whole rows. */
  lemma {:induction false} WholeRows(cfg: Config, steps: seq<Step>, p: Part)
    requires cfg.Valid() && p in cfg.widths
    ensures var C := cfg.widths[p]; C > 0 && |Sent(cfg, steps, p)| == |Sent(cfg, steps, p)| / C * C
  {
    if steps != [] {
      WholeRows(cfg, steps[1..], p);
      var accepted := steps[0].FpWrite? && steps[0].part == p && |steps[0].values| % cfg.widths[p] == 0;
      MultipleSum(if accepted then |steps[0].values| else 0, |Sent(cfg, steps[1..], p)|, cfg.widths[p]);
    }
  }

  lemma ShownSafe(v: string)
    requires Safe(v)
    ensures Safe(Shown(v))
  {
  }

  /** In particular, values without NUL, colon and bracket are replied as they were sent;
      empty ones and those that start with a space as nothing. */
  lemma PlainIsScanned(cfg: Config, steps: seq<Step>, p: Part, cols: seq<nat>, r: nat, k: nat)
    requires cfg.Valid() && Run(Empty(), cfg, steps) && p in cfg.widths && Within(cols, cfg.widths[p])
    requires forall v :: v in Sent(cfg, steps, p) ==> Safe(v)
    ensures var sent, C, replies := Sent(cfg, steps, p), cfg.widths[p], Scan(Final(cfg, steps), p, cfg.S, cols);
      r < |sent| / C && k < |cols| ==>
        && 0 <= r * C + cols[k] - 1 < |sent| && r * |cols| + k < |replies|
        && var v := sent[r * C + cols[k] - 1];
           replies[r * |cols| + k] == Some(if v != "" && v[0] != ' ' then v else "")
  {
    hide Run, Final, Scan, Sent, Written, Shown, Expected, ReadableRun, Within, Somes;
    var sent, C := Sent(cfg, steps, p), cfg.widths[p];
    SafeWritten(cfg, steps, p);
    TieringInvisible(cfg, steps, p, cols);
    assert ReadableRun(cfg, steps, p, cols) by { TieringInvisibleIff(cfg, steps, p, cols); }
    SentIsScanned(cfg, steps, p, cols, r, k);
    if r < |sent| / C && k < |cols| {
      var v := sent[r * C + cols[k] - 1];
      assert v in sent && Safe(v);
      ShownPlain(v);
    }
  }

  lemma SafeWritten(cfg: Config, steps: seq<Step>, p: Part)
    requires cfg.Valid() && forall v :: v in Sent(cfg, steps, p) ==> Safe(v)
    ensures forall v :: v in Written(cfg, steps, p) ==> Safe(v)
  {
    hide Sent, Written, Shown, Safe;
    var sent, written := Sent(cfg, steps, p), Written(cfg, steps, p);
    WrittenShows(cfg, steps, p, 0);
    forall i | 0 <= i < |written| ensures Safe(written[i]) {
      WrittenShows(cfg, steps, p, i);
      assert sent[i] in sent;
      ShownSafe(sent[i]);
    }
  }

  // ---- row groups ----

  /** A write opens a new row group exactly when the last one is full, being evicted or
      evicted; it never grows a group that has `groupSize` rows. */
  lemma OpensIff(db: Db, cfg: Config, segs: Segs, p: Part)
    requires Inv(db, cfg, segs) && p in cfg.widths && p in segs
    ensures var last, at := Key(p, |segs[p]|), Choose(db, cfg.groupSize, p);
      var n := MetaOf(db, p).Rows(|segs[p]|);
      && (at.group == |segs[p]| + 1 <==>
            n >= cfg.groupSize || (n > 0 && last !in db.dict) || (last in db.dict && !IsAt(db.dict, last, RedisOnly)))
      && (at.group == |segs[p]| ==> n < cfg.groupSize)
  {
    GroupCount(db, cfg, segs, p);
    hide DictOk, RocksOk, QueueOk, PendingOk;
  }

  /** A row group enters the eviction queue, at its end, exactly when it is created. */
  lemma EnrollsIff(db: Db, cfg: Config, segs: Segs, p: Part, raw: seq<string>)
    requires Inv(db, cfg, segs) && p in cfg.widths && raw != []
    ensures cfg.Valid() && cfg.widths[p] > 0
    ensures var r, key := Write(db, cfg, p, cfg.widths[p], raw), Key(p, Choose(db, cfg.groupSize, p).group);
      r.Ok? ==>
        && key in r.db.dict
        && (if key in db.dict then r.db.evict == db.evict
            else r.db.evict.items != [] && r.db.evict.items[|r.db.evict.items| - 1] == key)
  {
    WriteResult(db, cfg, segs, p, raw);
    NormaliseLength(raw);
    hide Inv, Choose, Filled, Write, NormaliseAll;
  }

  // ---- evictions ----

  /** The rows of the first n row groups in line. */
  function RowsInLine(db: Db, keys: seq<Key>, n: nat): nat
    requires n <= |keys|
  {
    if n == 0 then 0 else RowsInLine(db, keys, n - 1) + MetaOf(db, keys[n - 1].part).Rows(keys[n - 1].group)
  }

  lemma {:induction false} RowsFirst(db: Db, keys: seq<Key>, n: nat)
    requires 0 < n <= |keys|
    ensures RowsInLine(db, keys, n) == MetaOf(db, keys[0].part).Rows(keys[0].group) + RowsInLine(db, keys[1..], n - 1)
  {
    hide MetaOf;
    if n > 1 { RowsFirst(db, keys, n - 1); }
  }

  /** A batch takes the fewest groups, oldest first, that hold `count` rows, or all. */
  lemma {:induction false} BatchIsLeast(db: Db, count: int)
    ensures var keys, n := db.evict.items, Batch(db, count);
      && n <= |keys| && (n < |keys| ==> RowsInLine(db, keys, n) >= count)
      && (n > 0 ==> RowsInLine(db, keys, n - 1) < count)
    decreases |db.evict.items|
  {
    hide MetaOf, Ring.Shift;
    var keys := db.evict.items;
    if keys != [] && count > 0 {
      var db1 := db.(evict := Ring.Shift(db.evict));
      var rest := count - MetaOf(db, keys[0].part).Rows(keys[0].group);
      BatchIsLeast(db1, rest);
      var n := Batch(db, count);
      SameRows(db, db1, keys[1..], n - 1);
      RowsFirst(db, keys, n);
      if n > 1 {
        SameRows(db, db1, keys[1..], n - 2);
        RowsFirst(db, keys, n - 1);
      }
    }
  }

  lemma {:induction false} SameRows(db: Db, db1: Db, keys: seq<Key>, n: nat)
    requires n <= |keys| && db1.meta == db.meta
    ensures RowsInLine(db1, keys, n) == RowsInLine(db, keys, n)
  {
    if n > 0 { SameRows(db, db1, keys, n - 1); }
  }
}
