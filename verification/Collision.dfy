/** Config epoch collisions among masters: the master with the smaller name moves
    to a new epoch.  `held[k]` is every config epoch master k ever had.  A master
    only leaves an epoch that a master with a greater name also had, so it moves at
    most as often as those masters together had epochs. */
module Collision {
  import opened Basics
  import opened Cluster

  /** The epochs a node knows: the current one and one per known node. */
  datatype Knower = Knower(current: nat, epochs: map<Id, nat>)

  type History = map<Id, set<nat>>

  function Know(v: View): Knower {
    Knower(v.currentEpoch, map k | k in v.nodes :: v.Epoch(k))
  }

  ghost predicate Known(know: map<Id, Knower>, held: History) {
    && held.Keys == know.Keys
    && forall n :: n in know ==> n in know[n].epochs
  }

  /** What is recorded about a master is an epoch it had. */
  ghost predicate RecordsHeld(know: map<Id, Knower>, held: History) {
    forall n, k :: n in know && k in know[n].epochs && k in held ==> know[n].epochs[k] in held[k]
  }

  ghost predicate PacketHeld(p: Packet, held: History) {
    && p.msg.sender in held && p.msg.configEpoch in held[p.msg.sender]
    && (p.msg.body.Update? && p.msg.body.about in held ==> p.msg.body.epoch in held[p.msg.body.about])
  }

  /** A master's own epoch is the greatest it had, and is not above its current epoch. */
  ghost predicate OwnIsGreatest(know: map<Id, Knower>, held: History)
    requires Known(know, held)
  {
    forall n :: n in know ==>
      && know[n].epochs[n] <= know[n].current
      && forall e :: e in held[n] ==> e <= know[n].epochs[n]
  }

  ghost predicate Shared(held: History, n: Id, e: nat) {
    exists k :: k in held && k > n && e in held[k]
  }

  /** Every epoch a master left was had by a master with a greater name. */
  ghost predicate LeftWereShared(know: map<Id, Knower>, held: History)
    requires Known(know, held)
  {
    forall n, e :: n in know && e in held[n] && e != know[n].epochs[n] ==> Shared(held, n, e)
  }

  ghost predicate Inv(know: map<Id, Knower>, net: set<Packet>, held: History) {
    && Known(know, held) && RecordsHeld(know, held) && OwnIsGreatest(know, held) && LeftWereShared(know, held)
    && forall p :: p in net ==> PacketHeld(p, held)
  }

  /** A greater epoch of k, or a greater current epoch, is learned. */
  ghost predicate Learns(a: Knower, b: Knower, k: Id, held: History) {
    && b.epochs.Keys == a.epochs.Keys && a.current <= b.current
    && (forall j :: j in a.epochs && j != k ==> b.epochs[j] == a.epochs[j])
    && (k in a.epochs ==> a.epochs[k] <= b.epochs[k])
    && (k in a.epochs && k in held ==> b.epochs[k] in held[k])
  }

  lemma LearnRecords(know: map<Id, Knower>, held: History, n: Id, b: Knower, k: Id)
    requires Known(know, held) && RecordsHeld(know, held) && OwnIsGreatest(know, held)
    requires n in know && Learns(know[n], b, k, held)
    ensures b.epochs[n] == know[n].epochs[n]
    ensures Known(know[n := b], held) && RecordsHeld(know[n := b], held) && OwnIsGreatest(know[n := b], held)
  {
    if k == n {
      assert b.epochs[k] in held[k];
    }
  }

  lemma LearnInv(know: map<Id, Knower>, net: set<Packet>, held: History, n: Id, b: Knower, k: Id)
    requires Inv(know, net, held) && n in know && Learns(know[n], b, k, held)
    ensures Inv(know[n := b], net, held)
    ensures b.epochs[n] == know[n].epochs[n]
  {
    LearnRecords(know, held, n, b, k);
    hide RecordsHeld, OwnIsGreatest, Learns, Shared;
  }

  /** A master takes the epoch after its current one. */
  function Moved(a: Knower, n: Id): Knower {
    Knower(a.current + 1, a.epochs[n := a.current + 1])
  }

  function Note(held: History, n: Id, e: nat): History
    requires n in held
  {
    held[n := held[n] + {e}]
  }

  lemma MoveShares(know: map<Id, Knower>, held: History, n: Id, k: Id)
    requires Known(know, held) && LeftWereShared(know, held) && n in know && k in held && k > n
    requires know[n].epochs[n] in held[k]
    ensures LeftWereShared(know[n := Moved(know[n], n)], Note(held, n, know[n].current + 1))
  {
    var know1, held1 := know[n := Moved(know[n], n)], Note(held, n, know[n].current + 1);
    forall m, e | m in know1 && e in held1[m] && e != know1[m].epochs[m] ensures Shared(held1, m, e) {
      var j := k;
      if m != n || e != know[n].epochs[n] {
        assert Shared(held, m, e);
        j :| j in held && j > m && e in held[j];
      }
      assert j in held1 && j > m && e in held1[j];
    }
  }

  lemma MoveRecords(know: map<Id, Knower>, held: History, n: Id)
    requires Known(know, held) && RecordsHeld(know, held) && OwnIsGreatest(know, held) && n in know
    ensures var know1, held1 := know[n := Moved(know[n], n)], Note(held, n, know[n].current + 1);
            Known(know1, held1) && RecordsHeld(know1, held1) && OwnIsGreatest(know1, held1)
    ensures know[n].current + 1 !in held[n]
  {
  }

  lemma MoveInv(know: map<Id, Knower>, net: set<Packet>, held: History, n: Id, k: Id)
    requires Inv(know, net, held) && n in know && k in held && k > n
    requires know[n].epochs[n] in held[k]
    ensures Inv(know[n := Moved(know[n], n)], net, Note(held, n, know[n].current + 1))
    ensures know[n].current + 1 !in held[n]
  {
    MoveShares(know, held, n, k);
    MoveRecords(know, held, n);
    hide RecordsHeld, OwnIsGreatest, LeftWereShared;
  }

  /** Nothing is recorded but the epochs in `own`. */
  ghost predicate StartsWith(a: Knower, n: Id, own: map<Id, nat>) {
    && n in own && n in a.epochs && own[n] <= a.current
    && forall k :: k in a.epochs && k in own ==> a.epochs[k] == own[k]
  }

  lemma StartInv(know: map<Id, Knower>, held: History, own: map<Id, nat>)
    requires know.Keys == held.Keys == own.Keys
    requires forall n :: n in know ==> StartsWith(know[n], n, own) && held[n] == {own[n]}
    ensures Inv(know, {}, held)
  {
    hide Shared;
  }

  /** What one step does: every master keeps its epoch, or takes one it never had. */
  ghost predicate Result(know: map<Id, Knower>, know1: map<Id, Knower>, net1: set<Packet>,
                         held: History, held1: History)
  {
    && Known(know, held) && Known(know1, held1) && know1.Keys == know.Keys
    && Inv(know1, net1, held1)
    && forall n :: n in know ==> Kept(know[n], know1[n], n, held[n], held1[n])
  }

  ghost predicate Kept(a: Knower, b: Knower, n: Id, had: set<nat>, has: set<nat>)
    requires n in a.epochs && n in b.epochs
  {
    if b.epochs[n] == a.epochs[n] then has == had
    else b.epochs[n] !in had && has == had + {b.epochs[n]}
  }

  lemma LearnResult(know: map<Id, Knower>, net: set<Packet>, held: History, n: Id, b: Knower, k: Id)
    requires Inv(know, net, held) && n in know && Learns(know[n], b, k, held)
    ensures Result(know, know[n := b], net, held, held)
  {
    LearnInv(know, net, held, n, b, k);
    hide RecordsHeld, OwnIsGreatest, LeftWereShared, Learns;
  }

  lemma InvParts(know: map<Id, Knower>, net: set<Packet>, held: History)
    requires Inv(know, net, held)
    ensures Known(know, held) && RecordsHeld(know, held)
  {
  }

  lemma OwnIsHeld(know: map<Id, Knower>, held: History, n: Id)
    requires Known(know, held) && RecordsHeld(know, held) && n in know
    ensures know[n].epochs[n] in held[n]
  {
  }

  lemma MoveResult(know: map<Id, Knower>, net: set<Packet>, held: History, n: Id, k: Id)
    requires Inv(know, net, held) && n in know && k in held && k > n && know[n].epochs[n] in held[k]
    ensures Result(know, know[n := Moved(know[n], n)], net, held, Note(held, n, know[n].current + 1))
  {
    hide Inv, RecordsHeld, OwnIsGreatest, LeftWereShared;
    MoveInv(know, net, held, n, k);
    InvParts(know, net, held);
    InvParts(know[n := Moved(know[n], n)], net, Note(held, n, know[n].current + 1));
    OwnIsHeld(know, held, n);
  }

  lemma SameResult(know: map<Id, Knower>, net: set<Packet>, net1: set<Packet>, held: History)
    requires Inv(know, net, held) && forall p :: p in net1 ==> PacketHeld(p, held)
    ensures Result(know, know, net1, held, held)
  {
    hide RecordsHeld, OwnIsGreatest, LeftWereShared, PacketHeld;
  }

  lemma ResultKept(know: map<Id, Knower>, know1: map<Id, Knower>, net1: set<Packet>,
                   held: History, held1: History, n: Id)
    requires Result(know, know1, net1, held, held1) && n in know
    ensures n in held && n in held1 && n in know1 && n in know[n].epochs && n in know1[n].epochs
    ensures Kept(know[n], know1[n], n, held[n], held1[n])
  {
    hide Inv, Kept;
  }

  lemma ThenResult(know: map<Id, Knower>, know1: map<Id, Knower>, know2: map<Id, Knower>, net1: set<Packet>,
                   net2: set<Packet>, held: History, held2: History)
    requires Result(know, know1, net1, held, held) && Result(know1, know2, net2, held, held2)
    ensures Result(know, know2, net2, held, held2)
  {
    hide Inv;
  }

  // ---- counting ----

  ghost function Least(ids: set<Id>): (m: Id)
    requires ids != {}
    ensures m in ids && forall k :: k in ids ==> m <= k
  {
    var x :| x in ids;
    if ids == {x} then x
    else
      assert ids - {x} != {};
      var y := Least(ids - {x});
      assert forall k :: k in ids ==> k == x || k in ids - {x};
      if x < y then x else y
  }

  /** All epochs the masters `ids` had, and how many they had together. */
  ghost function AllHeld(held: History, ids: set<Id>): set<nat>
    requires ids <= held.Keys
  {
    if ids == {} then {} else var m := Least(ids); held[m] + AllHeld(held, ids - {m})
  }

  ghost function Total(held: History, ids: set<Id>): nat
    requires ids <= held.Keys
  {
    if ids == {} then 0 else var m := Least(ids); |held[m]| + Total(held, ids - {m})
  }

  function Above(held: History, n: Id): set<Id> {
    set k | k in held && k > n
  }

  lemma {:induction false} InAllHeld(held: History, ids: set<Id>, k: Id, e: nat)
    requires ids <= held.Keys && k in ids && e in held[k]
    ensures e in AllHeld(held, ids)
  {
    var m := Least(ids);
    if k != m { InAllHeld(held, ids - {m}, k, e); }
  }

  lemma {:induction false} AllHeldSize(held: History, ids: set<Id>)
    requires ids <= held.Keys
    ensures |AllHeld(held, ids)| <= Total(held, ids)
  {
    if ids != {} {
      var m := Least(ids);
      AllHeldSize(held, ids - {m});
      assert |held[m] + AllHeld(held, ids - {m})| <= |held[m]| + |AllHeld(held, ids - {m})|;
    }
  }

  /** A master had at most one epoch more than the masters above it had together. */
  ghost predicate Few(held: History, n: Id)
    requires n in held
  {
    |held[n]| <= 1 + Total(held, Above(held, n))
  }

  lemma HeldByAbove(know: map<Id, Knower>, net: set<Packet>, held: History, n: Id)
    requires Inv(know, net, held) && n in know
    ensures Few(held, n)
  {
    var up, own := Above(held, n), know[n].epochs[n];
    forall e | e in held[n] && e != own ensures e in AllHeld(held, up) {
      var k :| k in held && k > n && e in held[k];
      InAllHeld(held, up, k, e);
    }
    SubsetSize(held[n] - {own}, AllHeld(held, up));
    AllHeldSize(held, up);
  }

  lemma {:induction false} TotalBound(held: History, ids: set<Id>)
    requires ids <= held.Keys && forall n {:trigger Few(held, n)} :: n in held ==> Few(held, n)
    requires forall n, k :: n in ids && k in held && k > n ==> k in ids
    ensures Total(held, ids) <= Pow2(|ids|) - 1
  {
    if ids != {} {
      var m := Least(ids);
      assert Above(held, m) == ids - {m};
      TotalBound(held, ids - {m});
      assert Few(held, m);
    }
  }

  lemma AllFew(know: map<Id, Knower>, net: set<Packet>, held: History)
    requires Inv(know, net, held)
    ensures forall n {:trigger Few(held, n)} :: n in held ==> Few(held, n)
  {
    hide RecordsHeld, OwnIsGreatest, LeftWereShared, Total;
    forall m {:trigger Few(held, m)} | m in held ensures Few(held, m) {
      HeldByAbove(know, net, held, m);
    }
  }

  /** The master with r masters above it had at most 2^r epochs. */
  lemma HeldBound(know: map<Id, Knower>, net: set<Packet>, held: History, n: Id)
    requires Inv(know, net, held) && n in held
    ensures |held[n]| <= Pow2(|Above(held, n)|)
  {
    hide Inv, Total;
    AllFew(know, net, held);
    TotalBound(held, Above(held, n));
    assert Few(held, n);
  }

  /** All n masters together had at most 2^n - 1 epochs. */
  lemma AllHeldBound(know: map<Id, Knower>, net: set<Packet>, held: History)
    requires Inv(know, net, held)
    ensures Total(held, held.Keys) <= Pow2(|held.Keys|) - 1
  {
    hide Inv, Total;
    AllFew(know, net, held);
    TotalBound(held, held.Keys);
  }
}
