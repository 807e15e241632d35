/** A row group, kept as column vectors.  The values of a group are the sequence
    `flat`, row by row; value t lies in row t div C, column t mod C + 1; row r of a
    column is element r mod S of vector r div S + 1. */
module Columns {
  import opened Basics

  function Quo(t: nat, C: nat): nat
    requires C > 0
  {
    t / C
  }

  function Rem(t: nat, C: nat): (r: nat)
    requires C > 0
    ensures r < C
  {
    t % C
  }

  /** Which vector takes value t: `(columnvector_idx, column_idx)`. */
  function Field(t: nat, C: nat, S: nat): (nat, nat)
    requires C > 0 && S > 0
  {
    (Quo(Quo(t, C), S) + 1, Rem(t, C) + 1)
  }

  /** What a vector holds once all of `flat` is inserted. */
  function VecOf(flat: seq<string>, C: nat, S: nat, f: (nat, nat)): seq<string>
    requires C > 0 && S > 0
  {
    if flat == [] then []
    else
      var t := |flat| - 1;
      var before := VecOf(flat[..t], C, S, f);
      if Field(t, C, S) == f then before + [flat[t]] else before
  }

  lemma Unique(q: nat, m: nat, r: nat, c: nat, C: nat)
    requires q * C + m == r * C + c && m < C && c < C
    ensures q == r && m == c
  {
    if q < r {
      MulMono(q + 1, r, C);
    } else if q > r {
      MulMono(r + 1, q, C);
    }
  }

  lemma Split(t: nat, C: nat)
    requires C > 0
    ensures t == Quo(t, C) * C + Rem(t, C)
  {
  }

  lemma DivMod(r: nat, C: nat, c: nat)
    requires c < C
    ensures Quo(r * C + c, C) == r && Rem(r * C + c, C) == c
  {
    hide Quo, Rem;
    var t := r * C + c;
    Split(t, C);
    Unique(Quo(t, C), Rem(t, C), r, c, C);
  }

  lemma DivStep(t: nat, C: nat)
    requires C > 0
    ensures Rem(t, C) + 1 < C ==> Quo(t + 1, C) == Quo(t, C) && Rem(t + 1, C) == Rem(t, C) + 1
    ensures Rem(t, C) + 1 == C ==> Quo(t + 1, C) == Quo(t, C) + 1 && Rem(t + 1, C) == 0
  {
    hide Quo, Rem;
    var q, c := Quo(t, C), Rem(t, C);
    Split(t, C);
    if c + 1 < C {
      DivMod(q, C, c + 1);
    } else {
      assert t + 1 == (q + 1) * C + 0;
      DivMod(q + 1, C, 0);
    }
  }

  /** How many of the first n values belong to a column. */
  function Held(n: nat, C: nat, col: nat): nat
    requires C > 0
  {
    if n == 0 then 0 else Held(n - 1, C, col) + if Rem(n - 1, C) + 1 == col then 1 else 0
  }

  lemma {:induction false} HeldIs(n: nat, C: nat, col: nat)
    requires 1 <= col <= C
    ensures Held(n, C, col) == Quo(n, C) + if Rem(n, C) >= col then 1 else 0
  {
    if n == 0 { DivMod(0, C, 0); }
    hide Quo, Rem;
    if n > 0 {
      HeldIs(n - 1, C, col);
      DivStep(n - 1, C);
    }
  }

  function Clamp(x: int, S: nat): nat {
    if x < 0 then 0 else if x > S then S else x
  }

  /** Vector cv of a column covers S rows, from (cv - 1) * S. */
  lemma Block(r: nat, S: nat, cv: nat)
    requires S > 0 && cv >= 1
    ensures Quo(r, S) + 1 == cv ==> r - (cv - 1) * S == Rem(r, S)
    ensures Quo(r, S) + 1 < cv ==> r + 1 <= (cv - 1) * S
    ensures Quo(r, S) + 1 > cv ==> r >= (cv - 1) * S + S
  {
    hide Quo, Rem;
    var q := Quo(r, S);
    Split(r, S);
    if q + 1 < cv {
      MulMono(q + 1, cv - 1, S);
    } else if q + 1 > cv {
      MulMono(cv, q, S);
    }
  }

  lemma ClampStep(r: nat, S: nat, cv: nat)
    requires S > 0 && cv >= 1
    ensures Quo(r, S) + 1 == cv ==>
      Clamp(r - (cv - 1) * S, S) == Rem(r, S) && Clamp(r + 1 - (cv - 1) * S, S) == Rem(r, S) + 1
    ensures Quo(r, S) + 1 != cv ==> Clamp(r + 1 - (cv - 1) * S, S) == Clamp(r - (cv - 1) * S, S)
  {
    hide Quo, Rem;
    Block(r, S, cv);
  }

  lemma {:induction false} VecLength(flat: seq<string>, C: nat, S: nat, cv: nat, col: nat)
    requires S > 0 && cv >= 1 && 1 <= col <= C
    ensures |VecOf(flat, C, S, (cv, col))| == Clamp(Held(|flat|, C, col) - (cv - 1) * S, S)
  {
    hide Quo, Rem;
    if flat == [] {
      assert (cv - 1) * S >= 0;
    } else {
      var t := |flat| - 1;
      VecLength(flat[..t], C, S, cv, col);
      if Rem(t, C) + 1 == col {
        HeldIs(t, C, col);
        ClampStep(Quo(t, C), S, cv);
      }
    }
  }

  /** The value of row r, column col, is where a scan looks for it. */
  lemma {:induction false} VecAt(flat: seq<string>, C: nat, S: nat, r: nat, col: nat)
    requires S > 0 && 1 <= col <= C && r * C + col - 1 < |flat|
    ensures var v := VecOf(flat, C, S, (Quo(r, S) + 1, col));
      Rem(r, S) < |v| && v[Rem(r, S)] == flat[r * C + col - 1]
  {
    hide Quo, Rem;
    var t := |flat| - 1;
    var at := r * C + col - 1;
    if at < t {
      VecAt(flat[..t], C, S, r, col);
    } else {
      VecAtEnd(flat[..t], C, S, r, col);
      DivMod(r, C, col - 1);
    }
  }

  lemma VecAtEnd(flat: seq<string>, C: nat, S: nat, r: nat, col: nat)
    requires S > 0 && 1 <= col <= C && |flat| == r * C + col - 1
    ensures |VecOf(flat, C, S, (Quo(r, S) + 1, col))| == Rem(r, S)
  {
    hide Quo, Rem, VecOf;
    DivMod(r, C, col - 1);
    VecLength(flat, C, S, Quo(r, S) + 1, col);
    HeldIs(|flat|, C, col);
    ClampStep(r, S, Quo(r, S) + 1);
  }

  /** What a group has to hold: every vector with something in it, under its field. */
  ghost predicate Stores(vectors: map<(nat, nat), seq<string>>, flat: seq<string>, C: nat, S: nat)
    requires C > 0 && S > 0
  {
    && (forall f :: f in vectors ==> vectors[f] == VecOf(flat, C, S, f) && vectors[f] != [])
    && (forall f :: VecOf(flat, C, S, f) != [] ==> f in vectors)
  }

  function Insert(vectors: map<(nat, nat), seq<string>>, f: (nat, nat), value: string): map<(nat, nat), seq<string>> {
    vectors[f := (if f in vectors then vectors[f] else []) + [value]]
  }

  lemma InsertStores(vectors: map<(nat, nat), seq<string>>, flat: seq<string>, C: nat, S: nat, value: string)
    requires C > 0 && S > 0 && Stores(vectors, flat, C, S)
    ensures Stores(Insert(vectors, Field(|flat|, C, S), value), flat + [value], C, S)
  {
    assert (flat + [value])[..|flat|] == flat;
    hide Field;
  }

  /** The row, vector and column a value of one FPWRITE goes to, as the command
      computes them from the rows already there. */
  lemma FieldOfNext(rows: nat, idx: nat, C: nat, S: nat)
    requires C > 0 && S > 0
    ensures var rowIdx := rows + idx / C + 1;
      Field(rows * C + idx, C, S) == ((rowIdx - 1) / S + 1, idx % C + 1)
  {
    var q, c := Quo(idx, C), Rem(idx, C);
    Split(idx, C);
    assert rows * C + idx == (rows + q) * C + c;
    DivMod(rows + q, C, c);
  }

  /** The first n of `values`, inserted one by one after t values. */
  function InsertFrom(vectors: map<(nat, nat), seq<string>>, t: nat, values: seq<string>, n: nat, C: nat, S: nat):
    map<(nat, nat), seq<string>>
    requires C > 0 && S > 0 && n <= |values|
  {
    if n == 0 then vectors
    else Insert(InsertFrom(vectors, t, values, n - 1, C, S), Field(t + n - 1, C, S), values[n - 1])
  }

  lemma {:induction false} InsertFromStores(vectors: map<(nat, nat), seq<string>>, flat: seq<string>,
                                            values: seq<string>, n: nat,
                                            C: nat, S: nat)
    requires C > 0 && S > 0 && n <= |values| && Stores(vectors, flat, C, S)
    ensures Stores(InsertFrom(vectors, |flat|, values, n, C, S), flat + values[..n], C, S)
  {
    hide Stores, Insert, Field;
    if n == 0 {
      assert flat + values[..0] == flat;
    } else {
      InsertFromStores(vectors, flat, values, n - 1, C, S);
      InsertStores(InsertFrom(vectors, |flat|, values, n - 1, C, S), flat + values[..n - 1], C, S, values[n - 1]);
      assert flat + values[..n - 1] + [values[n - 1]] == flat + values[..n];
    }
  }

  /** The loop of FPWRITE over its values; `rows` rows are already there. */
  method InsertAll(vectors: map<(nat, nat), seq<string>>, rows: nat, values: seq<string>, C: nat, S: nat)
    returns (r: map<(nat, nat), seq<string>>)
    requires C > 0 && S > 0
    ensures r == InsertFrom(vectors, rows * C, values, |values|, C, S)
  {
    r := vectors;
    for idx := 0 to |values|
      invariant r == InsertFrom(vectors, rows * C, values, idx, C, S)
    {
      var rowIdx := rows + idx / C + 1;
      var f := ((rowIdx - 1) / S + 1, idx % C + 1);
      FieldOfNext(rows, idx, C, S);
      r := Insert(r, f, values[idx]);
    }
  }

  // ---- what a scan must return ----

  /** The value of row r in a column. */
  function At(flat: seq<string>, C: nat, r: nat, col: nat): string {
    var t := r * C + col - 1;
    if 0 <= t < |flat| then flat[t] else ""
  }

  function Pick(flat: seq<string>, C: nat, cols: seq<nat>, r: nat): seq<string> {
    seq(|cols|, k requires 0 <= k < |cols| => At(flat, C, r, cols[k]))
  }

  /** The requested columns of the first n rows, row by row. */
  function Select(flat: seq<string>, C: nat, cols: seq<nat>, n: nat): seq<string> {
    if n == 0 then [] else Select(flat, C, cols, n - 1) + Pick(flat, C, cols, n - 1)
  }

  predicate Within(cols: seq<nat>, C: nat) {
    forall k :: 0 <= k < |cols| ==> 1 <= cols[k] <= C
  }

  lemma AtConcat(a: seq<string>, b: seq<string>, C: nat, m: nat, r: nat, col: nat)
    requires |a| == m * C && 1 <= col <= C
    ensures r < m ==> At(a + b, C, r, col) == At(a, C, r, col)
    ensures At(a + b, C, m + r, col) == At(b, C, r, col)
  {
    if r < m { MulMono(r + 1, m, C); }
    assert (m + r) * C == m * C + r * C;
  }

  lemma PickConcat(a: seq<string>, b: seq<string>, C: nat, cols: seq<nat>, m: nat, r: nat)
    requires |a| == m * C && Within(cols, C)
    ensures r < m ==> Pick(a + b, C, cols, r) == Pick(a, C, cols, r)
    ensures Pick(a + b, C, cols, m + r) == Pick(b, C, cols, r)
  {
    hide At;
    forall k | 0 <= k < |cols|
      ensures r < m ==> At(a + b, C, r, cols[k]) == At(a, C, r, cols[k])
      ensures At(a + b, C, m + r, cols[k]) == At(b, C, r, cols[k])
    {
      AtConcat(a, b, C, m, r, cols[k]);
    }
  }

  lemma {:induction false} SelectPrefix(a: seq<string>, b: seq<string>, C: nat, cols: seq<nat>, m: nat, n: nat)
    requires |a| == m * C && Within(cols, C) && n <= m
    ensures Select(a + b, C, cols, n) == Select(a, C, cols, n)
  {
    hide Pick, Within;
    if n > 0 {
      SelectPrefix(a, b, C, cols, m, n - 1);
      PickConcat(a, b, C, cols, m, n - 1);
    }
  }

  /** Rows of one group after another are the rows of both. */
  lemma {:induction false} SelectConcat(a: seq<string>, b: seq<string>, C: nat, cols: seq<nat>, m: nat, n: nat)
    requires |a| == m * C && Within(cols, C)
    ensures Select(a + b, C, cols, m + n) == Select(a, C, cols, m) + Select(b, C, cols, n)
  {
    hide Pick, Within;
    if n == 0 {
      SelectPrefix(a, b, C, cols, m, m);
    } else {
      SelectConcat(a, b, C, cols, m, n - 1);
      PickConcat(a, b, C, cols, m, n - 1);
    }
  }

  lemma CellOf(flat: seq<string>, C: nat, S: nat, n: nat, r: nat, col: nat)
    requires S > 0 && 1 <= col <= C && |flat| == n * C && r < n
    ensures var v := VecOf(flat, C, S, (Quo(r, S) + 1, col));
      v != [] && Rem(r, S) < |v| && v[Rem(r, S)] == At(flat, C, r, col)
  {
    MulMono(r + 1, n, C);
    VecAt(flat, C, S, r, col);
  }

  // ---- scanning a group in memory ----

  ghost predicate CacheHolds(ids: seq<int>, objs: seq<seq<string>>, flat: seq<string>, C: nat, S: nat, cols: seq<nat>)
    requires C > 0 && S > 0
  {
    && |ids| == |objs| == |cols|
    && forall k :: 0 <= k < |cols| && ids[k] != -1 ==> ids[k] >= 0 && objs[k] == VecOf(flat, C, S, (ids[k], cols[k]))
  }

  /** `_cachedScan`. */
  method CachedScan(vectors: map<(nat, nat), seq<string>>, n: nat, C: nat, S: nat, cols: seq<nat>,
                    ghost flat: seq<string>)
    returns (replies: seq<string>, count: nat)
    requires C > 0 && S > 0 && Stores(vectors, flat, C, S) && |flat| == n * C && Within(cols, C)
    ensures replies == Select(flat, C, cols, n) && count == |replies|
  {
    hide Quo, Rem, VecOf, At;
    var objs := new seq<string>[|cols|](_ => []);
    var ids := new int[|cols|](_ => -1);
    replies, count := [], 0;
    for j := 0 to n
      invariant replies == Select(flat, C, cols, j) && count == |replies|
      invariant CacheHolds(ids[..], objs[..], flat, C, S, cols)
    {
      ghost var before := replies;
      for k := 0 to |cols|
        invariant replies == before + Pick(flat, C, cols, j)[..k] && count == |replies|
        invariant CacheHolds(ids[..], objs[..], flat, C, S, cols)
      {
        var rowId := j + 1;
        var id := Quo(rowId - 1, S) + 1;
        CellOf(flat, C, S, n, j, cols[k]);
        if id != ids[k] {
          ids[k] := id;
          objs[k] := vectors[(id, cols[k])];
        }
        replies := replies + [objs[k][Rem(rowId - 1, S)]];
        count := count + 1;
      }
      assert Pick(flat, C, cols, j)[..|cols|] == Pick(flat, C, cols, j);
    }
  }
}
