/** Scanning a row group whose vectors were written to RocksDB: one streaming
    iterator per requested column, moved on row by row. */
module RocksScan {
  import opened Basics
  import opened Columns
  import opened VectorCodec

  /** RocksDB has every vector of the group. */
  ghost predicate Kept(stored: map<(nat, nat), string>, flat: seq<string>, C: nat, S: nat)
    requires C > 0 && S > 0
  {
    forall f :: VecOf(flat, C, S, f) != [] ==> f in stored && stored[f] == Stored(VecOf(flat, C, S, f))
  }

  function ReadCell(flat: seq<string>, C: nat, S: nat, r: nat, col: nat): Option<string>
    requires C > 0 && S > 0
  {
    Read(Stored(VecOf(flat, C, S, (Quo(r, S) + 1, col))), Rem(r, S))
  }

  function ReadRow(flat: seq<string>, C: nat, S: nat, cols: seq<nat>, r: nat): seq<Option<string>>
    requires C > 0 && S > 0
  {
    seq(|cols|, k requires 0 <= k < |cols| => ReadCell(flat, C, S, r, cols[k]))
  }

  /** What the scan returns; None is a read past the end of a stored vector. */
  function ReadRows(flat: seq<string>, C: nat, S: nat, cols: seq<nat>, n: nat): (r: seq<Option<string>>)
    requires C > 0 && S > 0
  {
    if n == 0 then [] else ReadRows(flat, C, S, cols, n - 1) + ReadRow(flat, C, S, cols, n - 1)
  }

  lemma BeginIs(values: seq<string>)
    ensures Begin(Stored(values)) == Some(Start(values))
  {
    hide Stored, Header, Begin;
    StoredHeader(values);
    var rest :| Stored(values) == Header(|values|) + rest;
    BeginOfStored(|values|, rest);
  }

  /** The iterator cached for column k once rows up to j were read. */
  ghost predicate Placed(ids: seq<int>, iters: seq<Iter>, flat: seq<string>, C: nat, S: nat, cols: seq<nat>,
                         k: nat, j: nat)
    requires C > 0 && S > 0 && k < |ids| == |iters| == |cols|
  {
    && ids[k] == Quo(j, S) + 1
    && iters[k] == Advance(Start(VecOf(flat, C, S, (Quo(j, S) + 1, cols[k]))), Rem(j, S) + 1)
  }

  ghost predicate Caches(ids: seq<int>, iters: seq<Iter>, flat: seq<string>, C: nat, S: nat, cols: seq<nat>,
                         j: nat, done: nat)
    requires C > 0 && S > 0
  {
    && |ids| == |iters| == |cols| && done <= |cols|
    && (forall k :: 0 <= k < done ==> Placed(ids, iters, flat, C, S, cols, k, j))
    && (forall k :: done <= k < |cols| ==> Waiting(ids, iters, flat, C, S, cols, k, j))
  }

  ghost predicate Waiting(ids: seq<int>, iters: seq<Iter>, flat: seq<string>, C: nat, S: nat, cols: seq<nat>,
                          k: nat, j: nat)
    requires C > 0 && S > 0 && k < |ids| == |iters| == |cols|
  {
    if j == 0 then ids[k] == -1 else Placed(ids, iters, flat, C, S, cols, k, j - 1)
  }

  /** What the iterator has to be before row j is read from it. */
  lemma Reposition(ids: seq<int>, iters: seq<Iter>, flat: seq<string>, C: nat, S: nat, cols: seq<nat>, j: nat, k: nat)
    requires C > 0 && S > 0 && k < |cols| && Caches(ids, iters, flat, C, S, cols, j, k)
    ensures ids[k] == Quo(j, S) + 1 ==>
      iters[k] == Advance(Start(VecOf(flat, C, S, (Quo(j, S) + 1, cols[k]))), Rem(j, S))
    ensures ids[k] != Quo(j, S) + 1 ==> Rem(j, S) == 0
  {
    hide Quo, Rem, Advance, Start, VecOf;
    assert Waiting(ids, iters, flat, C, S, cols, k, j);
    if j == 0 {
      DivMod(0, S, 0);
    } else {
      DivStep(j - 1, S);
    }
  }

  lemma ReadIsGet(values: seq<string>, k: nat)
    ensures Read(Stored(values), k) == Get(Advance(Start(values), k))
    ensures Advance(Start(values), 0) == Start(values)
    ensures Next(Advance(Start(values), k)) == Advance(Start(values), k + 1)
  {
    hide Read, Get, Start;
    ReadIs(values, k);
    AdvanceStep(Start(values), k);
  }

  /** `_cachedScanOnRocksDB_iterator`. */
  method CachedScan(stored: map<(nat, nat), string>, n: nat, C: nat, S: nat, cols: seq<nat>, ghost flat: seq<string>)
    returns (replies: seq<Option<string>>)
    requires C > 0 && S > 0 && Kept(stored, flat, C, S) && |flat| == n * C && Within(cols, C)
    ensures replies == ReadRows(flat, C, S, cols, n)
  {
    hide Quo, Rem, Advance, Start, VecOf, Stored, Begin, Get, Next, Placed, Caches, ReadCell;
    var iters := new Iter[|cols|](_ => Iter("", 0, 0, 0));
    var ids := new int[|cols|](_ => -1);
    replies := [];
    Unplaced(ids[..], iters[..], flat, C, S, cols);
    for j := 0 to n
      invariant replies == ReadRows(flat, C, S, cols, j)
      invariant Caches(ids[..], iters[..], flat, C, S, cols, j, 0)
    {
      ghost var before := replies;
      for k := 0 to |cols|
        invariant replies == before + ReadRow(flat, C, S, cols, j)[..k]
        invariant Caches(ids[..], iters[..], flat, C, S, cols, j, k)
      {
        var cell, it := ReadNext(stored, n, C, S, cols, j, k, ids[k], iters[k], ids[..], iters[..], flat);
        ghost var oldIds, oldIters := ids[..], iters[..];
        ids[k], iters[k] := Quo(j, S) + 1, it;
        assert ids[..] == oldIds[k := Quo(j, S) + 1] && iters[..] == oldIters[k := it];
        PlaceOne(oldIds, oldIters, flat, C, S, cols, j, k, it);
        replies := replies + [cell];
      }
      assert ReadRow(flat, C, S, cols, j)[..|cols|] == ReadRow(flat, C, S, cols, j);
      NextRow(ids[..], iters[..], flat, C, S, cols, j);
    }
  }

  /** One value: fetch the vector when the cached one is another, read, move on. */
  method ReadNext(stored: map<(nat, nat), string>, n: nat, C: nat, S: nat, cols: seq<nat>, j: nat, k: nat,
                  cachedId: int,
                  cached: Iter, ghost ids: seq<int>, ghost iters: seq<Iter>, ghost flat: seq<string>)
    returns (cell: Option<string>, it: Iter)
    requires C > 0 && S > 0 && Kept(stored, flat, C, S) && |flat| == n * C && Within(cols, C) && j < n && k < |cols|
    requires Caches(ids, iters, flat, C, S, cols, j, k) && cachedId == ids[k] && cached == iters[k]
    ensures cell == ReadCell(flat, C, S, j, cols[k])
    ensures it == Advance(Start(VecOf(flat, C, S, (Quo(j, S) + 1, cols[k]))), Rem(j, S) + 1)
  {
    var f := (Quo(j, S) + 1, cols[k]);
    ghost var values := VecOf(flat, C, S, f);
    CellOf(flat, C, S, n, j, cols[k]);
    Reposition(ids, iters, flat, C, S, cols, j, k);
    ReadIsGet(values, Rem(j, S));
    hide Quo, Rem, Advance, Start, VecOf, Stored, Begin, Get, Next, Placed, Caches;
    it := cached;
    if f.0 != cachedId {
      BeginIs(values);
      it := Begin(stored[f]).value;
    }
    cell := Get(it);
    it := Next(it);
  }

  lemma Unplaced(ids: seq<int>, iters: seq<Iter>, flat: seq<string>, C: nat, S: nat, cols: seq<nat>)
    requires C > 0 && S > 0 && |ids| == |iters| == |cols| && forall k :: 0 <= k < |cols| ==> ids[k] == -1
    ensures Caches(ids, iters, flat, C, S, cols, 0, 0)
  {
  }

  lemma PlaceOne(ids: seq<int>, iters: seq<Iter>, flat: seq<string>, C: nat, S: nat, cols: seq<nat>, j: nat,
                 k: nat, it: Iter)
    requires C > 0 && S > 0 && k < |cols| && Caches(ids, iters, flat, C, S, cols, j, k)
    requires it == Advance(Start(VecOf(flat, C, S, (Quo(j, S) + 1, cols[k]))), Rem(j, S) + 1)
    ensures |ids| == |iters| == |cols|
    ensures Caches(ids[k := Quo(j, S) + 1], iters[k := it], flat, C, S, cols, j, k + 1)
  {
    hide Quo, Rem, Advance, Start, VecOf;
    var ids1, iters1 := ids[k := Quo(j, S) + 1], iters[k := it];
    forall i | 0 <= i < k + 1
      ensures Placed(ids1, iters1, flat, C, S, cols, i, j)
    {
      assert i < k ==> Placed(ids, iters, flat, C, S, cols, i, j);
    }
    forall i | k + 1 <= i < |cols|
      ensures Waiting(ids1, iters1, flat, C, S, cols, i, j)
    {
      assert Waiting(ids, iters, flat, C, S, cols, i, j);
    }
  }

  lemma NextRow(ids: seq<int>, iters: seq<Iter>, flat: seq<string>, C: nat, S: nat, cols: seq<nat>, j: nat)
    requires C > 0 && S > 0 && Caches(ids, iters, flat, C, S, cols, j, |cols|)
    ensures Caches(ids, iters, flat, C, S, cols, j + 1, 0)
  {
    hide Placed;
    var next := j + 1;
    forall k | 0 <= k < |cols|
      ensures Waiting(ids, iters, flat, C, S, cols, k, next)
    {
      assert Placed(ids, iters, flat, C, S, cols, k, j);
    }
  }

  // ---- when nothing is lost ----

  /** Every vector of a requested column survives the codec. */
  ghost predicate PlainColumns(flat: seq<string>, C: nat, S: nat, cols: seq<nat>)
    requires C > 0 && S > 0
  {
    forall cv, k :: 1 <= cv && 0 <= k < |cols| ==> Plain(VecOf(flat, C, S, (cv, cols[k])))
  }

  function Somes(s: seq<string>): seq<Option<string>> {
    seq(|s|, i requires 0 <= i < |s| => Some(s[i]))
  }

  lemma {:induction false} ReadRowsPlain(flat: seq<string>, C: nat, S: nat, cols: seq<nat>, n: nat, m: nat)
    requires S > 0 && C > 0 && Within(cols, C) && |flat| == m * C && n <= m && PlainColumns(flat, C, S, cols)
    ensures ReadRows(flat, C, S, cols, n) == Somes(Select(flat, C, cols, n))
  {
    hide VecOf, Stored, Read, Plain, Quo, Rem;
    if n > 0 {
      ReadRowsPlain(flat, C, S, cols, n - 1, m);
      forall k | 0 <= k < |cols|
        ensures ReadCell(flat, C, S, n - 1, cols[k]) == Some(At(flat, C, n - 1, cols[k]))
      {
        CellOf(flat, C, S, m, n - 1, cols[k]);
        ReadPlain(VecOf(flat, C, S, (Quo(n - 1, S) + 1, cols[k])), Rem(n - 1, S));
      }
      assert ReadRow(flat, C, S, cols, n - 1) == Somes(Pick(flat, C, cols, n - 1));
    }
  }

  /** Element i of vector cv of a column is the value of row (cv - 1) * S + i. */
  lemma RowOfElement(flat: seq<string>, C: nat, S: nat, m: nat, cv: nat, col: nat, i: nat)
    requires S > 0 && 1 <= col <= C && cv >= 1 && |flat| == m * C && i < |VecOf(flat, C, S, (cv, col))|
    ensures var r := (cv - 1) * S + i; r < m && Quo(r, S) + 1 == cv && Rem(r, S) == i
  {
    hide VecOf, Quo, Rem;
    VecLength(flat, C, S, cv, col);
    HeldIs(|flat|, C, col);
    DivMod(m, C, 0);
    DivMod(cv - 1, S, i);
  }

  lemma {:induction false} SameRows(flat: seq<string>, C: nat, S: nat, cols: seq<nat>, n: nat, r: nat, k: nat)
    requires C > 0 && S > 0 && ReadRows(flat, C, S, cols, n) == Somes(Select(flat, C, cols, n)) && r < n && k < |cols|
    ensures ReadCell(flat, C, S, r, cols[k]) == Some(At(flat, C, r, cols[k]))
  {
    hide ReadCell, At;
    RowsLength(flat, C, S, cols, n - 1);
    var a, b := ReadRows(flat, C, S, cols, n - 1), Somes(Select(flat, C, cols, n - 1));
    var c, d := ReadRow(flat, C, S, cols, n - 1), Somes(Pick(flat, C, cols, n - 1));
    assert Somes(Select(flat, C, cols, n)) == b + d;
    assert (a + c)[..|a|] == (b + d)[..|b|];
    assert (a + c)[|a|..] == (b + d)[|b|..];
    assert a == b && c == d;
    if r < n - 1 {
      SameRows(flat, C, S, cols, n - 1, r, k);
    } else {
      assert c[k] == d[k];
    }
  }

  lemma {:induction false} RowsLength(flat: seq<string>, C: nat, S: nat, cols: seq<nat>, n: nat)
    requires C > 0 && S > 0
    ensures |ReadRows(flat, C, S, cols, n)| == |Select(flat, C, cols, n)|
  {
    if n > 0 { RowsLength(flat, C, S, cols, n - 1); }
  }

  /** A scan of a stored group is right exactly when the requested columns are plain. */
  lemma ScanIsExactIff(flat: seq<string>, C: nat, S: nat, cols: seq<nat>, n: nat)
    requires C > 0 && S > 0 && Within(cols, C) && |flat| == n * C
    ensures ReadRows(flat, C, S, cols, n) == Somes(Select(flat, C, cols, n)) <==> PlainColumns(flat, C, S, cols)
  {
    hide VecOf, Stored, Read, Plain, ReadRows, Select, At, Quo, Rem;
    if PlainColumns(flat, C, S, cols) {
      ReadRowsPlain(flat, C, S, cols, n, n);
    }
    if ReadRows(flat, C, S, cols, n) == Somes(Select(flat, C, cols, n)) {
      forall cv, k | 1 <= cv && 0 <= k < |cols|
        ensures Plain(VecOf(flat, C, S, (cv, cols[k])))
      {
        var v := VecOf(flat, C, S, (cv, cols[k]));
        forall i | 0 <= i < |v|
          ensures Read(Stored(v), i) == Some(v[i])
        {
          RowOfElement(flat, C, S, n, cv, cols[k], i);
          SameRows(flat, C, S, cols, n, (cv - 1) * S + i, k);
          CellOf(flat, C, S, n, (cv - 1) * S + i, cols[k]);
        }
        CodecIsExactIff(v);
      }
    }
  }
}
