/** The slot table is stored twice: `slots[j]` names the owner of slot j, and every
    node has a bitmap of the slots it serves with their number. */
module SlotTable {
  import opened Basics
  import opened Cluster
  import opened Bitmap

  const BYTES: nat := 2048

  /** The `slots` and `numslots` fields of `clusterNode`. */
  datatype Serving = Serving(bits: seq<bv8>, count: nat)

  predicate Agrees(slots: seq<Option<Id>>, n: Id, s: Serving) {
    && |slots| == SLOTS && |s.bits| == BYTES && s.count == Count(s.bits, SLOTS)
    && forall j :: 0 <= j < SLOTS ==> (Test(s.bits, j) <==> slots[j] == Some(n))
  }

  /** Both copies of the table say the same, and owners are known nodes. */
  predicate Consistent(slots: seq<Option<Id>>, serving: map<Id, Serving>) {
    && |slots| == SLOTS
    && (forall n :: n in serving ==> Agrees(slots, n, serving[n]))
    && (forall j :: 0 <= j < SLOTS && slots[j].Some? ==> slots[j].value in serving)
  }

  lemma ClearAgrees(slots: seq<Option<Id>>, n: Id, s: Serving, j: nat)
    requires Agrees(slots, n, s) && j < SLOTS && slots[j] == Some(n)
    ensures Test(s.bits, j) && s.count > 0
    ensures Agrees(slots[j := None], n, Serving(Clear(s.bits, j), s.count - 1))
  {
    hide Test, Clear;
    CountSet(s.bits, j, SLOTS);
    forall k | 0 <= k < SLOTS
      ensures Test(Clear(s.bits, j), k) <==> slots[j := None][k] == Some(n)
    {
      TestSet(s.bits, j, k);
    }
  }

  lemma SetAgrees(slots: seq<Option<Id>>, n: Id, s: Serving, j: nat)
    requires Agrees(slots, n, s) && j < SLOTS && slots[j].None?
    ensures !Test(s.bits, j)
    ensures Agrees(slots[j := Some(n)], n, Serving(Set(s.bits, j), s.count + 1))
  {
    hide Test, Set;
    CountSet(s.bits, j, SLOTS);
    forall k | 0 <= k < SLOTS
      ensures Test(Set(s.bits, j), k) <==> slots[j := Some(n)][k] == Some(n)
    {
      TestSet(s.bits, j, k);
    }
  }

  /** A slot that moves between nobody and n is nothing to another node. */
  lemma OtherAgrees(slots: seq<Option<Id>>, owner: Option<Id>, n: Id, s: Serving, j: nat)
    requires Agrees(slots, n, s) && j < SLOTS && slots[j] != Some(n) && owner != Some(n)
    ensures Agrees(slots[j := owner], n, s)
  {
    hide Test, Count;
  }

  lemma DelConsistent(slots: seq<Option<Id>>, serving: map<Id, Serving>, j: nat)
    requires Consistent(slots, serving) && j < SLOTS && slots[j].Some?
    ensures var n := slots[j].value;
      && n in serving && j < 8 * |serving[n].bits| && Test(serving[n].bits, j) && serving[n].count > 0
      && Consistent(slots[j := None], serving[n := Serving(Clear(serving[n].bits, j), serving[n].count - 1)])
  {
    hide Agrees, Test, Clear;
    var n := slots[j].value;
    ClearAgrees(slots, n, serving[n], j);
    assert |serving[n].bits| == BYTES by { SizeOf(slots, n, serving[n]); }
    forall k | k in serving && k != n
      ensures Agrees(slots[j := None], k, serving[k])
    {
      OtherAgrees(slots, None, k, serving[k], j);
    }
  }

  lemma AddConsistent(slots: seq<Option<Id>>, serving: map<Id, Serving>, n: Id, j: nat)
    requires Consistent(slots, serving) && j < SLOTS && slots[j].None? && n in serving
    ensures j < 8 * |serving[n].bits| && !Test(serving[n].bits, j)
    ensures Consistent(slots[j := Some(n)], serving[n := Serving(Set(serving[n].bits, j), serving[n].count + 1)])
  {
    hide Agrees, Test, Set;
    SetAgrees(slots, n, serving[n], j);
    assert |serving[n].bits| == BYTES by { SizeOf(slots, n, serving[n]); }
    forall k | k in serving && k != n
      ensures Agrees(slots[j := Some(n)], k, serving[k])
    {
      OtherAgrees(slots, Some(n), k, serving[k], j);
    }
  }

  lemma SizeOf(slots: seq<Option<Id>>, n: Id, s: Serving)
    requires Agrees(slots, n, s)
    ensures |s.bits| == BYTES
  {
  }

  /** What readers of the second copy see. */
  lemma BitIsOwner(slots: seq<Option<Id>>, serving: map<Id, Serving>, n: Id, j: nat)
    requires Consistent(slots, serving) && n in serving && j < SLOTS
    ensures |serving[n].bits| == BYTES
    ensures Test(serving[n].bits, j) <==> slots[j] == Some(n)
  {
    hide Test;
    assert Agrees(slots, n, serving[n]);
  }

  function OwnedIn(slots: seq<Option<Id>>, n: Id): set<int> {
    set j | 0 <= j < |slots| && slots[j] == Some(n)
  }

  lemma CountIsOwned(slots: seq<Option<Id>>, serving: map<Id, Serving>, n: Id)
    requires Consistent(slots, serving) && n in serving
    ensures |serving[n].bits| == BYTES
    ensures Bits(serving[n].bits) == OwnedIn(slots, n)
    ensures serving[n].count == |OwnedIn(slots, n)|
  {
    hide Test;
    var s := serving[n];
    assert Agrees(slots, n, s);
    CountIsSize(s.bits, SLOTS);
    assert (set p | 0 <= p < SLOTS && Test(s.bits, p)) == OwnedIn(slots, n);
    assert Bits(s.bits) == OwnedIn(slots, n);
  }

  /** No slot is in two bitmaps. */
  lemma BitmapsDisjoint(slots: seq<Option<Id>>, serving: map<Id, Serving>, a: Id, b: Id)
    requires Consistent(slots, serving) && a in serving && b in serving && a != b
    ensures Bits(serving[a].bits) !! Bits(serving[b].bits)
  {
    CountIsOwned(slots, serving, a);
    CountIsOwned(slots, serving, b);
    hide Bits, Test, Consistent;
  }

  /** Renaming or dropping a node without slots. */
  lemma DropConsistent(slots: seq<Option<Id>>, serving: map<Id, Serving>, n: Id)
    requires Consistent(slots, serving) && OwnedIn(slots, n) == {}
    ensures Consistent(slots, serving - {n})
  {
    hide Agrees;
    forall j | 0 <= j < SLOTS && slots[j].Some?
      ensures slots[j].value in serving - {n}
    {
      assert j in OwnedIn(slots, slots[j].value);
    }
  }

  lemma JoinConsistent(slots: seq<Option<Id>>, serving: map<Id, Serving>, n: Id, s: Serving)
    requires Consistent(slots, serving) && OwnedIn(slots, n) == {}
    requires |s.bits| == BYTES && s.count == 0 && Bits(s.bits) == {}
    ensures Consistent(slots, serving[n := s])
  {
    hide Test;
    CountZero(s.bits, SLOTS);
    forall j | 0 <= j < SLOTS
      ensures !Test(s.bits, j) && slots[j] != Some(n)
    {
      assert j !in Bits(s.bits);
      assert j !in OwnedIn(slots, n);
    }
    assert Agrees(slots, n, s);
  }
}
