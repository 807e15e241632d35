/** The server's cluster state, updated in place.  Every method is tied to the
    function of module Cluster that the protocol proofs are about, and keeps the two
    copies of the slot table equal. */
module ClusterServer {
  import opened Basics
  import opened Cluster
  import opened Bitmap
  import opened SlotTable
  import Epochs

  /** Everything j below is already as in `target`, the rest still as in `orig`. */
  predicate Upto(cur: seq<Option<Id>>, target: seq<Option<Id>>, orig: seq<Option<Id>>, j: nat) {
    && |cur| == |target| == |orig| && j <= |cur|
    && (forall k :: 0 <= k < j ==> cur[k] == target[k])
    && (forall k :: j <= k < |cur| ==> cur[k] == orig[k])
  }

  function Unassigned(): (r: seq<Option<Id>>)
    ensures |r| == SLOTS && forall j :: 0 <= j < SLOTS ==> r[j].None?
  {
    seq(SLOTS, _ => None)
  }

  /** How many of the first j slots belong to n. */
  function HeldBelow(slots: seq<Option<Id>>, n: Id, j: nat): nat
    requires j <= |slots|
  {
    if j == 0 then 0 else HeldBelow(slots, n, j - 1) + if slots[j - 1] == Some(n) then 1 else 0
  }

  lemma {:induction false} HeldIsOwned(slots: seq<Option<Id>>, n: Id, j: nat)
    requires j <= |slots|
    ensures HeldBelow(slots, n, j) == |set k | 0 <= k < j && slots[k] == Some(n)|
  {
    if j > 0 {
      HeldIsOwned(slots, n, j - 1);
      var s := set k | 0 <= k < j - 1 && slots[k] == Some(n);
      var t := set k | 0 <= k < j && slots[k] == Some(n);
      if slots[j - 1] == Some(n) {
        assert t == s + {j - 1};
      } else {
        assert t == s;
      }
    }
  }

  /** CLUSTER FORGET: the node is gone, its slots are free, its slaves have no known master. */
  function Forget(v: View, n: Id): View {
    DelNodeSlots(v, n).(
      importing := (map j | j in v.importing && v.importing[j] != n :: v.importing[j]),
      nodes := (map k | k in v.nodes && k != n ::
        if v.nodes[k].slaveof == Some(n) then v.nodes[k].(slaveof := None) else v.nodes[k]))
  }

  /** CLUSTER RESET: a master alone, without slots; HARD also forgets the epochs and the name. */
  function ResetTo(v: View, hard: bool, newName: Id): View {
    var info := v.At(v.me).(role := Master, slaveof := None);
    if hard then
      View(newName, 0, 0, v.size, map[newName := info.(configEpoch := 0)], Unassigned(), map[], v.auth)
    else
      View(v.me, v.currentEpoch, v.lastVoteEpoch, v.size, map[v.me := info], Unassigned(), map[], v.auth)
  }

  lemma ForgetTidy(v: View, n: Id, strict: bool)
    requires v.Tidy(strict) && n != v.me && v.nodes[v.me].slaveof != Some(n)
    ensures Forget(v, n).Tidy(strict)
  {
  }

  lemma TidyMaster(v: View, strict: bool)
    requires v.Tidy(strict)
    ensures v.IsMaster(v.me) ==> v.nodes[v.me].slaveof.None?
  {
  }

  lemma ResetSound(v: View, hard: bool, newName: Id)
    ensures ResetTo(v, hard, newName).Sound()
  {
  }

  lemma IsServing(v: View, n: Id)
    ensures n in ServingMasters(v) <==> v.IsMaster(n) && v.Owned(n) != {}
  {
  }

  lemma ServingKnown(v: View)
    ensures ServingMasters(v) <= v.nodes.Keys
  {
  }

  lemma OneLess(all: set<Id>, todo: set<Id>, n: Id)
    requires n in todo
    ensures |all - (todo - {n})| == |all - todo| + if n in all then 1 else 0
  {
    assert all - (todo - {n}) == if n in all then (all - todo) + {n} else all - todo;
  }

  lemma ForgetUnassigned(v: View, n: Id)
    requires v.slots == Unassigned() && v.importing == map[]
    ensures var r := Forget(v, n); r.slots == Unassigned() && r.importing == map[] && r.nodes.Keys == v.nodes.Keys - {n}
    ensures forall k :: k in v.nodes && k != n ==>
      Forget(v, n).nodes[k] == if v.nodes[k].slaveof == Some(n) then v.nodes[k].(slaveof := None) else v.nodes[k]
  {
    assert DelNodeSlots(v, n).slots == v.slots;
  }

  class Server {
    var me: Id
    var currentEpoch: nat
    var lastVoteEpoch: nat
    var size: nat
    var nodes: map<Id, Info>
    var serving: map<Id, Serving>
    const slots: array<Option<Id>>
    var importingFrom: map<int, Id>
    var auth: Auth

    ghost predicate Valid()
      reads this, slots
    {
      && slots.Length == SLOTS && me in nodes && serving.Keys == nodes.Keys
      && Consistent(slots[..], serving)
    }

    ghost function State(): View
      reads this, slots
    {
      View(me, currentEpoch, lastVoteEpoch, size, nodes, slots[..], importingFrom, auth)
    }

    constructor (name: Id)
      ensures Valid() && fresh(slots)
      ensures State() == View(name, 0, 0, 1, map[name := Info(0, Master, None, false, 0)],
                              Unassigned(), map[], Auth(0, 0, false, 0, 0))
      ensures State().Sound()
    {
      me := name;
      currentEpoch, lastVoteEpoch, size := 0, 0, 1;
      nodes := map[name := Info(0, Master, None, false, 0)];
      serving := map[name := Serving(seq(BYTES, _ => 0), 0)];
      slots := new Option<Id>[SLOTS](_ => None);
      importingFrom := map[];
      auth := Auth(0, 0, false, 0, 0);
      new;
      assert slots[..] == Unassigned();
      EmptyTable(slots[..], serving[name].bits);
      JoinConsistent(slots[..], map[], name, serving[name]);
    }

    static lemma EmptyTable(s: seq<Option<Id>>, b: seq<bv8>)
      requires |s| == SLOTS && forall j :: 0 <= j < SLOTS ==> s[j].None?
      requires forall i :: 0 <= i < |b| ==> b[i] == 0
      ensures Consistent(s, map[])
      ensures forall n :: OwnedIn(s, n) == {}
      ensures Bits(b) == {}
    {
      forall p | 0 <= p < 8 * |b|
        ensures !Test(b, p)
      {
        assert b[p / 8] == 0;
        NoBit(p % 8);
      }
    }

    static lemma NoBit(k: nat)
      requires k < 8
      ensures !Bit(0, k)
    {
    }

    // ---- the slot table ----

    method SetSlotBit(n: Id, j: nat) returns (was: bool)
      requires n in serving && j < 8 * |serving[n].bits|
      modifies this`serving
      ensures was == Test(old(serving[n].bits), j)
      ensures serving == old(serving)[n := Serving(Set(old(serving[n].bits), j),
                                                   old(serving[n].count) + if was then 0 else 1)]
    {
      var s := serving[n];
      was := Test(s.bits, j);
      serving := serving[n := Serving(Set(s.bits, j), if was then s.count else s.count + 1)];
    }

    method ClearSlotBit(n: Id, j: nat) returns (was: bool)
      requires n in serving && j < 8 * |serving[n].bits|
      requires Test(serving[n].bits, j) ==> serving[n].count > 0
      modifies this`serving
      ensures was == Test(old(serving[n].bits), j)
      ensures serving == old(serving)[n := Serving(Clear(old(serving[n].bits), j),
                                                   old(serving[n].count) - if was then 1 else 0)]
    {
      var s := serving[n];
      was := Test(s.bits, j);
      serving := serving[n := Serving(Clear(s.bits, j), if was then s.count - 1 else s.count)];
    }

    method AddSlot(n: Id, j: nat) returns (ok: bool)
      requires Valid() && n in nodes && j < SLOTS
      modifies this`serving, slots
      ensures Valid() && ok == old(slots[j]).None?
      ensures slots[..] == if ok then old(slots[..])[j := Some(n)] else old(slots[..])
    {
      hide Consistent, Test, Set;
      if slots[j].Some? { return false; }
      AddConsistent(slots[..], serving, n, j);
      var _ := SetSlotBit(n, j);
      slots[j] := Some(n);
      assert slots[..] == old(slots[..])[j := Some(n)];
      return true;
    }

    /** The bit that `clusterDelSlot` asserts is always set. */
    method DelSlot(j: nat) returns (ok: bool)
      requires Valid() && j < SLOTS
      modifies this`serving, slots
      ensures Valid() && ok == old(slots[j]).Some?
      ensures slots[..] == old(slots[..])[j := None]
    {
      hide Consistent, Test, Clear;
      if slots[j].None? {
        assert slots[..] == slots[..][j := None];
        return false;
      }
      DelConsistent(slots[..], serving, j);
      var was := ClearSlotBit(slots[j].value, j);
      assert was;
      slots[j] := None;
      assert slots[..] == old(slots[..])[j := None];
      return true;
    }

    /** `clusterDelSlot` then `clusterAddSlot`. */
    method Rebind(n: Id, j: nat)
      requires Valid() && n in nodes && j < SLOTS
      modifies this`serving, slots
      ensures Valid() && slots[..] == old(slots[..])[j := Some(n)]
    {
      hide Consistent;
      var _ := DelSlot(j);
      var _ := AddSlot(n, j);
    }

    method ServesSlots(n: Id) returns (some: bool)
      requires Valid() && n in nodes
      ensures some <==> State().Owned(n) != {}
    {
      hide Consistent;
      CountIsOwned(slots[..], serving, n);
      assert OwnedIn(slots[..], n) == State().Owned(n);
      some := serving[n].count != 0;
    }

    method DelNodeSlots(n: Id) returns (deleted: nat)
      requires Valid() && n in nodes
      modifies this`serving, slots
      ensures Valid() && State() == Cluster.DelNodeSlots(old(State()), n)
      ensures deleted == |old(State()).Owned(n)|
    {
      hide Consistent, Test;
      ghost var v := State();
      ghost var target := Cluster.DelNodeSlots(v, n).slots;
      deleted := 0;
      for j := 0 to SLOTS
        invariant Valid() && Upto(slots[..], target, v.slots, j)
        invariant deleted == HeldBelow(v.slots, n, j)
      {
        BitIsOwner(slots[..], serving, n, j);
        if Test(serving[n].bits, j) {
          var _ := DelSlot(j);
          deleted := deleted + 1;
        }
      }
      assert slots[..] == target;
      HeldIsOwned(v.slots, n, SLOTS);
      assert v.Owned(n) == set k | 0 <= k < SLOTS && v.slots[k] == Some(n);
    }

    // ---- heartbeats and UPDATEs ----

    method SetNodeAsMaster(n: Id)
      requires Valid() && n in nodes
      modifies this`nodes
      ensures Valid() && State() == Cluster.SetAsMaster(old(State()), n)
    {
      if nodes[n].role == Master { return; }
      nodes := nodes[n := nodes[n].(role := Master, slaveof := None)];
    }

    /** `clusterSetMaster`.  Here and below `alive` is false when its assertion fails, which
        says that this node has no slots. */
    method SetMaster(n: Id) returns (alive: bool)
      requires Valid() && n != me
      modifies this`nodes, this`importingFrom
      ensures Valid() && alive == (old(State()).Owned(me) == {})
      ensures State() == if alive then Cluster.SetMaster(old(State()), n) else old(State())
    {
      hide Consistent;
      var serves := ServesSlots(me);
      alive := !serves;
      if !alive { return; }
      var info := nodes[me];
      if info.role == Master { importingFrom := map[]; }
      nodes := nodes[me := info.(role := Slave, slaveof := Some(n))];
    }

    method UpdateSlotsConfigWith(sender: Id, epoch: nat, claim: seq<bv8>) returns (alive: bool)
      requires Valid() && State().Tidy(false) && sender in nodes && |claim| == BYTES
      modifies this`serving, this`nodes, this`importingFrom, slots
      ensures Valid() && alive == !Stuck(old(State()), sender, epoch, Bits(claim))
      ensures alive ==> State() == UpdateSlots(old(State()), sender, epoch, Bits(claim))
    {
      hide Consistent, Test, View.Tidy, Demotes;
      alive := true;
      if sender == me { return; }
      ghost var v := State();
      var curMaster := CurrentMaster();
      var newMaster := RebindClaimed(sender, epoch, claim, curMaster);
      ghost var v1 := Claim(v, sender, epoch, Bits(claim));
      assert State() == v1;
      var serves := ServesSlots(curMaster);
      assert (newMaster && !serves) == Demotes(v, sender, epoch, Bits(claim)) by {
        DemotesMeans(v, sender, epoch, Bits(claim));
      }
      if newMaster && !serves {
        Epochs.DemotedOwnsNothing(v, sender, epoch, Bits(claim));
        alive := SetMaster(sender);
      }
    }

    static lemma DemotesMeans(v: View, sender: Id, epoch: nat, claim: set<int>)
      ensures Demotes(v, sender, epoch, claim) ==
        (TakesFromMaster(v, sender, epoch, claim) && Claim(v, sender, epoch, claim).Owned(v.CurMaster()) == {})
    {
    }

    method CurrentMaster() returns (n: Id)
      requires Valid() && State().Tidy(false)
      ensures n == State().CurMaster() && n in nodes
    {
      hide Consistent;
      n := if nodes[me].role == Master || nodes[me].slaveof.None? then me else nodes[me].slaveof.value;
    }

    method RebindClaimed(sender: Id, epoch: nat, claim: seq<bv8>, curMaster: Id) returns (newMaster: bool)
      requires Valid() && sender in nodes && sender != me && |claim| == BYTES && curMaster == State().CurMaster()
      modifies this`serving, slots
      ensures Valid() && State() == Claim(old(State()), sender, epoch, Bits(claim))
      ensures newMaster == TakesFromMaster(old(State()), sender, epoch, Bits(claim))
    {
      hide Consistent, Test;
      ghost var v := State();
      ghost var target := Claim(v, sender, epoch, Bits(claim)).slots;
      newMaster := false;
      for j := 0 to SLOTS
        invariant Valid() && Upto(slots[..], target, v.slots, j)
        invariant newMaster <==> exists k ::
          0 <= k < j && v.slots[k] == Some(curMaster) && Rebinds(v, sender, epoch, Bits(claim), k)
      {
        assert slots[j] == v.slots[j];
        assert j in Bits(claim) <==> Test(claim, j);
        ghost var moves := Rebinds(v, sender, epoch, Bits(claim), j);
        if Test(claim, j) && slots[j] != Some(sender) && j !in importingFrom {
          var current := slots[j];
          var older := current.None? || EpochOf(current.value) < epoch;
          assert older == moves;
          if older {
            if current == Some(curMaster) { newMaster := true; }
            Rebind(sender, j);
          }
        }
      }
      assert slots[..] == target;
    }

    function EpochOf(n: Id): (e: nat)
      reads this, slots
      ensures e == State().Epoch(n)
    {
      if n in nodes then nodes[n].configEpoch else 0
    }

    method SwitchRole(n: Id, slaveof: Option<Id>)
      requires Valid() && n in nodes
      modifies this`serving, this`nodes, slots
      ensures Valid() && State() == Cluster.SwitchRole(old(State()), n, slaveof)
    {
      hide Consistent;
      if slaveof.None? {
        SetNodeAsMaster(n);
        return;
      }
      if nodes[n].role == Master {
        var _ := DelNodeSlots(n);
        nodes := nodes[n := nodes[n].(role := Slave)];
      }
      if slaveof.value in nodes && nodes[n].slaveof != slaveof {
        nodes := nodes[n := nodes[n].(slaveof := slaveof)];
      }
      assert slaveof.value in nodes ==> nodes[n := nodes[n].(slaveof := slaveof)] == nodes;
    }

    /** Every packet of a known sender. */
    method ProcessHeader(m: Msg)
      requires Valid() && m.sender in nodes
      modifies this`currentEpoch, this`nodes
      ensures Valid() && State() == Header(old(State()), m)
    {
      hide Consistent;
      if m.currentEpoch > currentEpoch { currentEpoch := m.currentEpoch; }
      var info := nodes[m.sender];
      if m.configEpoch > info.configEpoch { nodes := nodes[m.sender := info.(configEpoch := m.configEpoch)]; }
      assert nodes == old(nodes)[m.sender := info.(configEpoch := Max(info.configEpoch, m.configEpoch))];
    }

    method HandleConfigEpochCollision(sender: Id)
      requires Valid() && sender in nodes
      modifies this`currentEpoch, this`nodes
      ensures Valid() && State() == HandleCollision(old(State()), sender)
    {
      hide Consistent;
      if nodes[sender].configEpoch != nodes[me].configEpoch { return; }
      if nodes[sender].role != Master || nodes[me].role != Master { return; }
      if sender <= me { return; }
      currentEpoch := currentEpoch + 1;
      nodes := nodes[me := nodes[me].(configEpoch := currentEpoch)];
    }

    method ProcessHeartbeat(m: Msg, claim: seq<bv8>) returns (alive: bool)
      requires Valid() && State().Tidy(false) && m.sender in nodes && m.sender != me
      requires |claim| == BYTES && Bits(claim) == m.claim
      modifies this, slots
      ensures Valid() && alive == !HeartbeatStuck(old(State()), m)
      ensures alive ==> State() == Cluster.ProcessHeartbeat(old(State()), m)
    {
      hide Consistent, View.Tidy, Cluster.SwitchRole, UpdateSlots, HandleCollision, Stuck;
      alive := true;
      Epochs.SwitchRoleTidy(State(), m.sender, m.slaveof, false);
      SwitchRole(m.sender, m.slaveof);
      CountIsOwned(slots[..], serving, m.sender);
      SameBits(serving[m.sender].bits, claim);
      assert OwnedIn(slots[..], m.sender) == State().Owned(m.sender);
      if nodes[m.sender].role == Master && serving[m.sender].bits != claim {
        alive := UpdateSlotsConfigWith(m.sender, m.configEpoch, claim);
        if !alive { return; }
      }
      assert State() == HeartbeatConfig(old(State()), m);
      hide HeartbeatConfig;
      if nodes[me].role == Master && nodes[m.sender].role == Master && m.configEpoch == nodes[me].configEpoch {
        HandleConfigEpochCollision(m.sender);
      }
    }

    method ProcessUpdate(n: Id, epoch: nat, claim: seq<bv8>) returns (alive: bool)
      requires Valid() && State().Tidy(false) && |claim| == BYTES
      modifies this, slots
      ensures Valid() && alive == !UpdateStuck(old(State()), n, epoch, Bits(claim))
      ensures alive ==> State() == Cluster.ProcessUpdate(old(State()), n, epoch, Bits(claim))
    {
      hide Consistent, View.Tidy, UpdateSlots, Bits, Stuck;
      alive := true;
      if n !in nodes || nodes[n].configEpoch >= epoch { return; }
      Epochs.SetAsMasterTidy(State(), n, false);
      if nodes[n].role == Slave { SetNodeAsMaster(n); }
      Epochs.SetEpochTidy(State(), n, epoch, false);
      nodes := nodes[n := nodes[n].(configEpoch := epoch)];
      alive := UpdateSlotsConfigWith(n, epoch, claim);
    }

    // ---- failover ----

    /** The only loop of the vote: no claimed slot is served under a newer epoch. */
    method ClaimIsCurrent(claim: seq<bv8>, epoch: nat) returns (ok: bool)
      requires Valid() && |claim| == BYTES
      ensures ok <==> forall j ::
        0 <= j < SLOTS && j in Bits(claim) && slots[j].Some? ==> EpochOf(slots[j].value) <= epoch
    {
      hide Consistent, Test;
      for j := 0 to SLOTS
        invariant forall k :: 0 <= k < j && k in Bits(claim) && slots[k].Some? ==> EpochOf(slots[k].value) <= epoch
      {
        assert j in Bits(claim) <==> Test(claim, j);
        if Test(claim, j) && slots[j].Some? && EpochOf(slots[j].value) > epoch { return false; }
      }
      return true;
    }

    /** `granted` is the ACK being sent. */
    method SendFailoverAuthIfNeeded(m: Msg, claim: seq<bv8>, now: int, timeout: int) returns (granted: bool)
      requires Valid() && m.sender in nodes && |claim| == BYTES && Bits(claim) == m.claim && State().Tidy(false)
      modifies this`lastVoteEpoch, this`nodes
      ensures Valid() && granted == MayVote(old(State()), m, now, timeout)
      ensures State() == if granted then Vote(old(State()), m.sender, now) else old(State())
    {
      hide Consistent, Bits;
      var serves := ServesSlots(me);
      if nodes[me].role == Slave || !serves { return false; }
      if m.currentEpoch < currentEpoch { return false; }
      if lastVoteEpoch == currentEpoch { return false; }
      var master := nodes[m.sender].slaveof;
      if nodes[m.sender].role == Master || master.None? { return false; }
      if !nodes[master.value].failed && !(m.body.AuthRequest? && m.body.force) { return false; }
      if now - nodes[master.value].votedTime < timeout * 2 { return false; }
      var current := ClaimIsCurrent(claim, m.configEpoch);
      if !current { return false; }
      lastVoteEpoch := currentEpoch;
      nodes := nodes[master.value := nodes[master.value].(votedTime := now)];
      return true;
    }

    /** Claim every slot of the old master. */
    method TakeSlots(master: Id)
      requires Valid() && master in nodes
      modifies this`serving, slots
      ensures Valid()
      ensures slots[..] == Handed(old(slots[..]), master, me)
    {
      hide Consistent, Test;
      ghost var was := slots[..];
      ghost var target := Handed(was, master, me);
      for j := 0 to SLOTS
        invariant Valid() && Upto(slots[..], target, was, j)
      {
        BitIsOwner(slots[..], serving, master, j);
        if Test(serving[master].bits, j) { Rebind(me, j); }
      }
      assert slots[..] == target;
    }

    method ReplaceYourMaster(early: bool)
      requires Valid() && State().Tidy(false)
      modifies this`serving, this`nodes, this`size, slots
      ensures Valid() && State() == Cluster.ReplaceYourMaster(old(State()), early)
    {
      hide Consistent;
      if nodes[me].role == Master || nodes[me].slaveof.None? { return; }
      var master := nodes[me].slaveof.value;
      SetNodeAsMaster(me);
      TakeSlots(master);
      UpdateSize(early);
    }

    /** The config epoch of an election won. */
    method TakeEpoch()
      requires Valid()
      modifies this`nodes
      ensures Valid() && State() == old(State()).SetEpoch(me, Max(old(nodes[me].configEpoch), auth.epoch))
    {
      hide Consistent;
      var info := nodes[me];
      if info.configEpoch < auth.epoch { nodes := nodes[me := info.(configEpoch := auth.epoch)]; }
      assert nodes == old(nodes)[me := info.(configEpoch := Max(info.configEpoch, auth.epoch))];
    }

    method HandleSlaveFailover(x: Clock) returns (action: Action)
      requires Valid() && State().Tidy(false)
      modifies this`auth, this`currentEpoch, this`nodes, this`serving, this`size, slots
      ensures Valid() && (State(), action) == SlaveFailover(old(State()), x)
    {
      hide Consistent, Cluster.ReplaceYourMaster;
      var authAge := x.now - auth.time;
      var authTimeout := if x.timeout * 2 < 2000 then 2000 else x.timeout * 2;
      var manual := x.mfEnd && x.mfCanStart;
      if nodes[me].role == Master || nodes[me].slaveof.None? { return Idle; }
      var master := nodes[me].slaveof.value;
      var serves := ServesSlots(master);
      if (!nodes[master].failed && !manual) || !serves { return Idle; }
      if !x.dataFresh && !manual { return Idle; }
      if authAge > authTimeout * 2 {
        auth := auth.(time := x.now + 500 + x.random % 500 + x.rank * 1000, count := 0, sent := false, rank := x.rank);
        if x.mfEnd { auth := auth.(time := x.now, rank := 0); }
        return Scheduled;
      }
      if !auth.sent && !x.mfEnd && x.rank > auth.rank {
        auth := auth.(time := auth.time + (x.rank - auth.rank) * 1000, rank := x.rank);
      }
      if x.now < auth.time { return Idle; }
      if authAge > authTimeout { return Idle; }
      if !auth.sent {
        currentEpoch := currentEpoch + 1;
        auth := auth.(epoch := currentEpoch, sent := true);
        return Requested;
      }
      if auth.count < size / 2 + 1 { return Idle; }
      Epochs.SetEpochTidy(State(), me, Max(nodes[me].configEpoch, auth.epoch), false);
      TakeEpoch();
      ReplaceYourMaster(x.early);
      return Won;
    }

    /** The loop of `clusterUpdateState` over the nodes. */
    method CountServing() returns (count: nat)
      requires Valid()
      ensures count == |ServingMasters(State())|
    {
      hide Consistent, ServingMasters, View.Owned;
      var todo := nodes.Keys;
      count := 0;
      ghost var all := ServingMasters(State());
      ServingKnown(State());
      while todo != {}
        invariant todo <= nodes.Keys && count == |all - todo|
        decreases |todo|
      {
        var n :| n in todo;
        var serves := ServesSlots(n);
        IsServing(State(), n);
        OneLess(all, todo, n);
        if nodes[n].role == Master && serves { count := count + 1; }
        todo := todo - {n};
      }
      assert all - todo == all;
    }

    method UpdateSize(early: bool)
      requires Valid()
      modifies this`size
      ensures Valid() && State() == UpdateState(old(State()), early)
    {
      hide Consistent, ServingMasters;
      if early && nodes[me].role == Master { return; }
      size := CountServing();
    }

    /** The greatest epoch in sight. */
    method GetMaxEpoch() returns (max: nat)
      requires Valid()
      ensures currentEpoch <= max && forall n :: n in nodes ==> nodes[n].configEpoch <= max
      ensures max == currentEpoch || exists n :: n in nodes && nodes[n].configEpoch == max
    {
      hide Consistent;
      var todo := nodes.Keys;
      max := 0;
      ghost var from := me;
      while todo != {}
        invariant todo <= nodes.Keys && forall n :: n in nodes && n !in todo ==> nodes[n].configEpoch <= max
        invariant max == 0 || (from in nodes && nodes[from].configEpoch == max)
        decreases |todo|
      {
        var n :| n in todo;
        if nodes[n].configEpoch > max { max, from := nodes[n].configEpoch, n; }
        todo := todo - {n};
      }
      if max < currentEpoch { max := currentEpoch; }
    }

    method BumpConfigEpoch() returns (bumped: bool)
      requires Valid()
      modifies this`currentEpoch, this`nodes
      ensures Valid() && State() == BumpEpoch(old(State()))
      ensures bumped <==> old(nodes[me].configEpoch) == 0 || !HasMaxEpoch(old(State()))
    {
      hide Consistent;
      var max := GetMaxEpoch();
      bumped := nodes[me].configEpoch == 0 || nodes[me].configEpoch != max;
      if bumped {
        currentEpoch := currentEpoch + 1;
        nodes := nodes[me := nodes[me].(configEpoch := currentEpoch)];
      }
    }

    method ProcessAck(m: Msg)
      requires Valid() && m.sender in nodes
      modifies this`auth
      ensures Valid()
      ensures auth == old(auth).(count := old(auth).count + if Counts(old(State()), m) then 1 else 0)
    {
      hide Consistent;
      var serves := ServesSlots(m.sender);
      if nodes[m.sender].role == Master && serves && m.currentEpoch >= auth.epoch {
        auth := auth.(count := auth.count + 1);
      }
    }

    // ---- forgetting nodes ----

    method UnassignSlots(n: Id)
      requires Valid()
      modifies this`serving, slots
      ensures Valid() && slots[..] == Cluster.DelNodeSlots(old(State()), n).slots
    {
      hide Consistent;
      ghost var v := State();
      ghost var target := Cluster.DelNodeSlots(v, n).slots;
      for j := 0 to SLOTS
        invariant Valid() && Upto(slots[..], target, v.slots, j)
      {
        if slots[j] == Some(n) { var _ := DelSlot(j); }
      }
      assert slots[..] == target;
    }

    method DelNode(n: Id)
      requires Valid() && n in nodes && n != me
      modifies this`serving, this`nodes, this`importingFrom, slots
      ensures Valid()
      ensures State() == Forget(old(State()), n)
      ensures old(State()).Sound() && old(nodes[me]).slaveof != Some(n) ==> State().Sound()
    {
      hide Consistent;
      UnassignSlots(n);
      importingFrom := map j | j in importingFrom && importingFrom[j] != n :: importingFrom[j];
      assert OwnedIn(slots[..], n) == {};
      DropConsistent(slots[..], serving, n);
      serving := serving - {n};
      nodes := map k | k in nodes && k != n ::
        if nodes[k].slaveof == Some(n) then nodes[k].(slaveof := None) else nodes[k];
      if old(State()).Sound() && old(nodes[me]).slaveof != Some(n) { ForgetTidy(old(State()), n, true); }
    }

    method BecomeMaster()
      requires Valid()
      modifies this`nodes
      ensures Valid() && nodes.Keys == old(nodes).Keys
      ensures nodes[me] == if old(nodes[me]).role == Slave then old(nodes[me]).(role := Master, slaveof := None)
                           else old(nodes[me])
    {
      hide Consistent;
      if nodes[me].role == Slave { SetNodeAsMaster(me); }
    }

    method ClearSlots()
      requires Valid()
      modifies this`serving, slots
      ensures Valid() && slots[..] == Unassigned()
    {
      hide Consistent;
      for j := 0 to SLOTS
        invariant Valid() && forall k :: 0 <= k < j ==> slots[k].None?
      {
        var _ := DelSlot(j);
      }
      assert slots[..] == Unassigned();
    }

    method DelOtherNodes()
      requires Valid() && importingFrom == map[] && slots[..] == Unassigned()
      modifies this`serving, this`nodes, this`importingFrom, slots
      ensures Valid() && importingFrom == map[] && slots[..] == Unassigned()
      ensures nodes == map[me := old(nodes[me]).(slaveof := nodes[me].slaveof)]
      ensures old(nodes[me]).slaveof.None? ==> nodes[me].slaveof.None?
    {
      hide Consistent, Forget, Unassigned;
      var others := nodes.Keys - {me};
      while others != {}
        invariant Valid() && importingFrom == map[] && slots[..] == Unassigned()
        invariant others == nodes.Keys - {me}
        invariant nodes[me] == old(nodes[me]).(slaveof := nodes[me].slaveof)
        invariant old(nodes[me]).slaveof.None? ==> nodes[me].slaveof.None?
        decreases |others|
      {
        var n :| n in others;
        ForgetUnassigned(State(), n);
        DelNode(n);
        others := others - {n};
      }
      assert nodes == map[me := nodes[me]];
    }

    /** The node table's only entry moves to a new name and to epoch 0. */
    method Rename(newName: Id)
      requires Valid() && nodes.Keys == {me} && slots[..] == Unassigned()
      modifies this`me, this`nodes, this`serving
      ensures Valid() && me == newName && nodes == map[newName := old(nodes[me]).(configEpoch := 0)]
    {
      hide Consistent;
      var info, s := nodes[me].(configEpoch := 0), serving[me];
      assert OwnedIn(slots[..], me) == {} && OwnedIn(slots[..], newName) == {};
      CountIsOwned(slots[..], serving, me);
      DropConsistent(slots[..], serving, me);
      JoinConsistent(slots[..], serving - {me}, newName, s);
      assert (serving - {me})[newName := s] == map[newName := s];
      serving, nodes, me := map[newName := s], map[newName := info], newName;
    }

    /** What both kinds of reset do: no slot is assigned, no other node is known and this
        one is a master. */
    method StandAlone()
      requires Valid()
      modifies this`serving, this`nodes, this`importingFrom, slots
      ensures Valid() && slots[..] == Unassigned() && importingFrom == map[] && nodes.Keys == {me}
      ensures nodes[me] == old(nodes[me]).(role := Master, slaveof := nodes[me].slaveof)
      ensures old(nodes[me]).role == Slave || old(nodes[me]).slaveof.None? ==> nodes[me].slaveof.None?
    {
      hide Consistent, Unassigned;
      BecomeMaster();
      importingFrom := map[];
      ClearSlots();
      DelOtherNodes();
    }

    /** What HARD adds: the epochs and the name are forgotten. */
    method Renounce(newName: Id)
      requires Valid() && nodes.Keys == {me} && slots[..] == Unassigned()
      modifies this`me, this`nodes, this`serving, this`currentEpoch, this`lastVoteEpoch
      ensures Valid()
      ensures State() == old(State()).(me := newName, currentEpoch := 0, lastVoteEpoch := 0,
                                       nodes := map[newName := old(nodes[me]).(configEpoch := 0)])
    {
      hide Consistent, Unassigned;
      currentEpoch, lastVoteEpoch := 0, 0;
      Rename(newName);
    }

    /** CLUSTER RESET. */
    method Reset(hard: bool, newName: Id)
      requires Valid()
      modifies this, slots
      ensures Valid() && State() == ResetTo(old(State()), hard, newName).(nodes := nodes)
      ensures nodes == map[me := ResetTo(old(State()), hard, newName).At(me).(slaveof := nodes[me].slaveof)]
      ensures old(State()).Tidy(false) ==> State() == ResetTo(old(State()), hard, newName) && State().Sound()
    {
      assert me in nodes;
      hide Consistent, Unassigned, View.Tidy, Valid;
      ghost var was := State();
      ghost var sound := was.Tidy(false);
      if sound { TidyMaster(was, false); }
      ResetSound(was, hard, newName);
      StandAlone();
      ghost var info := was.nodes[was.me].(role := Master, slaveof := nodes[me].slaveof);
      assert State() == was.(nodes := map[was.me := info], slots := Unassigned(), importing := map[]);
      if hard { Renounce(newName); }
      assert State().nodes == map[me := if hard then info.(configEpoch := 0) else info];
      assert sound ==> info.slaveof.None?;
    }

    // ---- the remaining commands ----

    /** A node that finished its handshake enters the table without slots. */
    method Join(n: Id, role: Role)
      requires Valid() && n !in nodes && State().Owned(n) == {}
      modifies this`nodes, this`serving
      ensures Valid() && State() == old(State()).Put(n, Info(0, role, None, false, 0))
    {
      hide Consistent;
      var s := Serving(seq(BYTES, _ => 0), 0);
      assert OwnedIn(slots[..], n) == {} by { assert State().Owned(n) == OwnedIn(slots[..], n); }
      NoBits(s.bits);
      JoinConsistent(slots[..], serving, n, s);
      nodes, serving := nodes[n := Info(0, role, None, false, 0)], serving[n := s];
    }

    static lemma NoBits(b: seq<bv8>)
      requires forall i :: 0 <= i < |b| ==> b[i] == 0
      ensures Bits(b) == {}
    {
      EmptyTable(Unassigned(), b);
    }

    method MarkFailed(about: Id, failed: bool)
      requires Valid()
      modifies this`nodes
      ensures Valid() && State() == Perform(old(State()), Command.MarkFailed(about, failed))
    {
      hide Consistent;
      if about in nodes { nodes := nodes[about := nodes[about].(failed := failed)]; }
    }

    /** CLUSTER SET-CONFIG-EPOCH. */
    method AssignEpoch(e: nat)
      requires Valid()
      modifies this`nodes, this`currentEpoch
      ensures Valid() && State() == SetConfigEpoch(old(State()), e)
    {
      hide Consistent;
      if |nodes| > 1 || nodes[me].configEpoch != 0 { return; }
      nodes := nodes[me := nodes[me].(configEpoch := e)];
      if currentEpoch < e { currentEpoch := e; }
    }

    /** CLUSTER ADDSLOTS and DELSLOTS, for one slot. */
    method AssignSlot(j: nat, del: bool) returns (ok: bool)
      requires Valid() && j < SLOTS
      modifies this`serving, this`importingFrom, slots
      ensures Valid() && ok == (old(slots[j]).Some? <==> del)
      ensures State() == if ok then old(State()).(slots := old(slots[..])[j := if del then None else Some(me)],
                                                  importing := old(importingFrom) - {j})
                         else old(State())
    {
      hide Consistent;
      ok := slots[j].Some? == del;
      if !ok { return; }
      importingFrom := importingFrom - {j};
      if del { var _ := DelSlot(j); } else { var _ := AddSlot(me, j); }
    }

    /** CLUSTER REPLICATE; `empty` says that there are no keys. */
    method Replicate(n: Id, empty: bool) returns (ok: bool, alive: bool)
      requires Valid()
      modifies this`nodes, this`importingFrom
      ensures Valid() && ok == MayReplicate(old(State()), n, empty)
      ensures alive == !(ok && old(State()).Owned(me) != {})
      ensures State() == if ok && alive then Cluster.SetMaster(old(State()), n) else old(State())
    {
      hide Consistent;
      if n !in nodes || n == me || nodes[n].role == Slave { return false, true; }
      var serves := ServesSlots(me);
      if nodes[me].role == Master && (serves || !empty) { return false, true; }
      alive := SetMaster(n);
      return true, alive;
    }
  }

  predicate MayReplicate(v: View, n: Id, empty: bool) {
    && v.IsMaster(n) && n != v.me
    && (v.IsMaster(v.me) ==> v.Owned(v.me) == {} && empty)
  }
}
