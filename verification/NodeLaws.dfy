/** What packets, timers and commands do to one node beyond its slots, each told without
    the function that does it: roles, vote counts, elections, epochs and the node table. */
module NodeLaws {
  import opened Basics
  import opened Cluster
  import opened ClusterSystem
  import opened ClusterServer
  import Epochs
  import ServerRuns

  // ---- packets ----

  lemma SwitchSettles(v: View, n: Id, slaveof: Option<Id>, k: Id)
    requires v.Tidy(false) && n in v.nodes && k in v.nodes
    ensures var r := SwitchRole(v, n, slaveof);
      && r.me == v.me && r.nodes.Keys == v.nodes.Keys
      && r.nodes[k] == if k != n then v.nodes[k] else v.nodes[n].(
           role := if slaveof.None? then Master else Slave,
           slaveof := if slaveof.None? then None else if slaveof.value in v.nodes then slaveof else v.nodes[n].slaveof)
  {
  }

  lemma ClaimKeepsOthers(v: View, sender: Id, epoch: nat, claim: set<int>, k: Id)
    requires v.me in v.nodes && k in v.nodes && k != v.me
    ensures var r := UpdateSlots(v, sender, epoch, claim); r.me == v.me && k in r.nodes && r.nodes[k] == v.nodes[k]
  {
    hide Demotes;
  }

  /** A heartbeat settles the role and the master of its sender, and leaves the other
      records but the receiver's alone. */
  lemma RolesAfterHeartbeat(v: View, m: Msg, k: Id)
    requires v.Tidy(false) && m.sender in v.nodes && m.sender != v.me && k in v.nodes && k != v.me
    ensures var r := ProcessHeartbeat(v, m);
      && k in r.nodes
      && r.nodes[k] == if k != m.sender then v.nodes[k] else v.nodes[k].(
           role := if m.slaveof.None? then Master else Slave,
           slaveof := if m.slaveof.None? then None
                      else if m.slaveof.value in v.nodes then m.slaveof else v.nodes[k].slaveof)
  {
    SwitchSettles(v, m.sender, m.slaveof, k);
    hide SwitchRole, UpdateSlots, View.Tidy;
    ClaimKeepsOthers(SwitchRole(v, m.sender, m.slaveof), m.sender, m.configEpoch, m.claim, k);
  }

  /** Every packet of a known sender raises the current epoch, and the sender's config epoch,
      to those it carries. */
  lemma HeaderEpochs(v: View, m: Msg)
    requires m.sender in v.nodes
    ensures var r := Header(v, m);
      && r.currentEpoch == (if v.currentEpoch < m.currentEpoch then m.currentEpoch else v.currentEpoch)
      && (forall k :: k in v.nodes ==> r.nodes[k] == v.nodes[k].(configEpoch :=
            if k == m.sender && v.Epoch(k) < m.configEpoch then m.configEpoch else v.Epoch(k)))
      && r == v.(currentEpoch := r.currentEpoch, nodes := r.nodes) && r.nodes.Keys == v.nodes.Keys
  {
  }

  lemma ClaimKeepsEpochs(v: View, m: Msg)
    requires v.me in v.nodes && m.sender in v.nodes && m.sender != v.me
    ensures var r := HeartbeatConfig(v, m);
      && r.me == v.me && r.currentEpoch == v.currentEpoch && r.Epoch(v.me) == v.Epoch(v.me)
      && r.Epoch(m.sender) == v.Epoch(m.sender) && (r.IsMaster(m.sender) <==> m.slaveof.None?)
  {
    hide Demotes;
  }

  /** A heartbeat changes the receiver's own epoch exactly when it stays a master and the
      sender, a master too with a greater name, has that epoch as well; the new epoch is
      above everything seen. */
  lemma CollisionIff(v: View, m: Msg)
    requires v.me in v.nodes && m.sender in v.nodes && m.sender != v.me
    ensures var r := ProcessHeartbeat(v, m);
      var collides := r.IsMaster(v.me) && m.slaveof.None? && m.sender > v.me
                      && m.configEpoch == v.Epoch(v.me) == v.Epoch(m.sender);
      && r.Epoch(v.me) == (if collides then v.currentEpoch + 1 else v.Epoch(v.me))
      && r.currentEpoch == (if collides then v.currentEpoch + 1 else v.currentEpoch)
  {
    ClaimKeepsEpochs(v, m);
    hide HeartbeatConfig;
  }

  lemma SlotsKeepRecords(v: View, n: Id, epoch: nat, slots: set<int>)
    requires v.me in v.nodes
    ensures var r := UpdateSlots(v, n, epoch, slots);
      && r.me == v.me && r.currentEpoch == v.currentEpoch && (forall k :: r.Epoch(k) == v.Epoch(k))
      && (forall k :: k != v.me ==> (r.IsMaster(k) <==> v.IsMaster(k))) && (n == v.me ==> r == v)
  {
    hide Demotes;
  }

  /** An UPDATE about a known node with a newer epoch records the epoch, and the node as a
      master; one that is not newer, or about an unknown node, changes nothing. */
  lemma UpdateRecords(v: View, n: Id, epoch: nat, slots: set<int>)
    requires v.me in v.nodes
    ensures var r := ProcessUpdate(v, n, epoch, slots);
      if n in v.nodes && v.Epoch(n) < epoch
      then r.IsMaster(n) && (forall k :: r.Epoch(k) == if k == n then epoch else v.Epoch(k))
      else r == v
  {
    if n in v.nodes && v.Epoch(n) < epoch {
      var v1 := if v.nodes[n].role == Slave then SetAsMaster(v, n) else v;
      SlotsKeepRecords(v1.SetEpoch(n, epoch), n, epoch, slots);
      hide UpdateSlots;
    }
  }

  /** An ACK that counts: of a known master with slots, its epoch not behind the election's. */
  predicate AckCounts(v: View, m: Msg) {
    && m.body == AuthAck && v.IsMaster(m.sender) && m.currentEpoch >= v.auth.epoch
    && exists j :: 0 <= j < |v.slots| && v.slots[j] == Some(m.sender)
  }

  lemma CountsIs(v: View, m: Msg)
    requires m.sender in v.nodes && m.body == AuthAck
    ensures Counts(Header(v, m), m) <==> AckCounts(v, m)
  {
    var h := Header(v, m);
    assert forall j :: 0 <= j < |v.slots| && v.slots[j] == Some(m.sender) ==> j in h.Owned(m.sender);
    if h.Owned(m.sender) != {} { assert exists j :: j in h.Owned(m.sender); }
  }

  lemma ReceiveCounts(s: System, n: Id, m: Msg, now: int, timeout: int)
    requires s.WF() && n in s.views && m.sender != n
    ensures var v, r := s.views[n], Receive(s, n, m, now, timeout).views[n];
      r.auth == v.auth.(count := v.auth.count + if AckCounts(v, m) then 1 else 0)
  {
    hide ProcessHeartbeat, ProcessUpdate, MayVote, BuildMsg, Counts, Header, System.WF, View.Shape;
    var v := s.views[n];
    if m.sender in v.nodes && m.body == AuthAck {
      CountsIs(v, m);
      hide AckCounts;
    } else {
      NoAck(v, m);
      hide AckCounts;
    }
  }

  lemma NoAck(v: View, m: Msg)
    requires m.sender !in v.nodes || m.body != AuthAck
    ensures !AckCounts(v, m)
  {
  }

  /** A packet adds one to the vote counter exactly when it is an ACK that counts, and
      changes nothing else of the election. */
  lemma AckCountsIff(s: System, p: Packet, now: int, timeout: int)
    requires s.WF() && Enabled(s, Deliver(p, now, timeout))
    ensures var v, r := s.views[p.to], Exec(s, Deliver(p, now, timeout)).views[p.to];
      r.auth == v.auth.(count := v.auth.count + if AckCounts(v, p.msg) then 1 else 0)
  {
    hide Receive, AckCounts;
    ReceiveCounts(s, p.to, p.msg, now, timeout);
  }

  /** A slave speaks for its master: its packets carry the master's epoch and slots. */
  lemma SlaveSpeaksForMaster(v: View, body: Body)
    requires v.Tidy(false) && !v.IsMaster(v.me)
    ensures var m, master := BuildMsg(v, body), v.At(v.me).slaveof;
      && m.slaveof == master && master.Some? && m.configEpoch == v.Epoch(master.value)
      && (forall j :: j in m.claim <==> 0 <= j < SLOTS && v.slots[j] == master)
  {
  }

  // ---- the failover timer ----

  /** May the slave run an election at all? */
  predicate Eligible(v: View, x: Clock) {
    var master := v.At(v.me).slaveof;
    && !v.IsMaster(v.me) && master.Some? && (exists j :: 0 <= j < |v.slots| && v.slots[j] == master)
    && ((x.mfEnd && x.mfCanStart) || (v.At(master.value).failed && x.dataFresh))
  }

  /** Twice the node timeout, and two seconds at least. */
  function AuthTimeout(x: Clock): int {
    if x.timeout < 1000 then 2000 else 2 * x.timeout
  }

  lemma EligibleOwns(v: View)
    ensures v.At(v.me).slaveof.Some? ==>
      (v.Owned(v.At(v.me).slaveof.value) != {} <==> exists j :: 0 <= j < |v.slots| && v.slots[j] == v.At(v.me).slaveof)
  {
    if v.At(v.me).slaveof.Some? {
      var n := v.At(v.me).slaveof.value;
      assert forall j :: 0 <= j < |v.slots| && v.slots[j] == Some(n) ==> j in v.Owned(n);
      if v.Owned(n) != {} { assert exists j :: j in v.Owned(n); }
    }
  }

  /** A new election is scheduled exactly when the last one is over for long: at once for a
      manual failover, else after half a second to a second and one more for every slave
      with fresher data.  The counter starts again. */
  lemma SchedulesIff(v: View, x: Clock)
    requires v.Shape()
    ensures var (r, action) := SlaveFailover(v, x);
      && (action == Scheduled <==> Eligible(v, x) && x.now > v.auth.time + 2 * AuthTimeout(x))
      && (action == Scheduled ==>
            && r == v.(auth := r.auth) && r.auth.count == 0 && !r.auth.sent && r.auth.epoch == v.auth.epoch
            && (x.mfEnd ==> r.auth.time == x.now && r.auth.rank == 0)
            && (!x.mfEnd ==> 500 <= r.auth.time - x.now - 1000 * x.rank < 1000 && r.auth.rank == x.rank))
  {
    EligibleOwns(v);
    hide View.Owned, ReplaceYourMaster;
  }

  /** How much later the election is due because more slaves have fresher data now. */
  function Delay(v: View, x: Clock): int {
    if !v.auth.sent && !x.mfEnd && x.rank > v.auth.rank then 1000 * (x.rank - v.auth.rank) else 0
  }

  /** Votes are requested exactly when the election is due, not over and not yet begun; the
      epoch asked for is a new one. */
  lemma RequestsIff(v: View, x: Clock)
    requires v.Shape()
    ensures var (r, action) := SlaveFailover(v, x);
      && (action == Requested <==>
            Eligible(v, x) && !v.auth.sent && v.auth.time + Delay(v, x) <= x.now <= v.auth.time + AuthTimeout(x))
      && (action == Requested ==>
            && r == v.(auth := r.auth, currentEpoch := v.currentEpoch + 1)
            && r.auth.epoch == v.currentEpoch + 1 && r.auth.sent && r.auth.count == v.auth.count
            && r.auth.time == v.auth.time + Delay(v, x))
  {
    EligibleOwns(v);
    hide View.Owned, ReplaceYourMaster;
  }

  /** Otherwise, short of a victory, at most the due time moves. */
  lemma IdleKeeps(v: View, x: Clock)
    requires v.Shape()
    ensures var (r, action) := SlaveFailover(v, x);
      action == Idle ==> r == v || r == v.(auth := v.auth.(time := v.auth.time + Delay(v, x), rank := x.rank))
  {
    hide View.Owned, ReplaceYourMaster;
  }

  /** A victory makes the node a master, and counts the masters with slots anew unless it is
      too early for that. */
  lemma WinLeaves(v: View, x: Clock)
    requires v.Shape() && SlaveFailover(v, x).1 == Won
    ensures var r := SlaveFailover(v, x).0;
      && r.IsMaster(v.me) && r.nodes[v.me].slaveof.None?
      && (forall k :: k in v.nodes && k != v.me ==> r.nodes[k] == v.nodes[k])
      && r.size == (if x.early then v.size else |Serving(r)|)
  {
    var r := SlaveFailover(v, x).0;
    ServingIs(r);
    SizeIrrelevant(r, v.size);
    hide ServingMasters, View.Owned;
  }

  lemma SizeIrrelevant(v: View, size: nat)
    ensures ServingMasters(v.(size := size)) == ServingMasters(v)
  {
    assert forall n :: v.(size := size).Owned(n) == v.Owned(n);
  }

  /** The masters that serve at least one slot. */
  function Serving(v: View): set<Id> {
    set n | n in v.nodes && v.nodes[n].role == Master && exists j :: 0 <= j < |v.slots| && v.slots[j] == Some(n)
  }

  lemma ServingIs(v: View)
    ensures ServingMasters(v) == Serving(v)
  {
    forall n | n in v.nodes
      ensures v.Owned(n) != {} <==> exists j :: 0 <= j < |v.slots| && v.slots[j] == Some(n)
    {
      assert forall j :: 0 <= j < |v.slots| && v.slots[j] == Some(n) ==> j in v.Owned(n);
      if v.Owned(n) != {} { assert exists j :: j in v.Owned(n); }
    }
  }

  /** The size is the number of masters with slots; a master of a failed cluster waits. */
  lemma RecountCounts(v: View, early: bool)
    requires v.Shape()
    ensures var r := Perform(v, Recount(early));
      r == v.(size := if early && v.At(v.me).role == Master then v.size else |Serving(v)|)
  {
    ServingIs(v);
    hide ServingMasters;
  }

  // ---- epochs and the node table ----

  /** A bump happens exactly unless the own epoch is the greatest in sight; it then is. */
  lemma BumpIff(v: View)
    requires Epochs.Good(v)
    ensures var r := BumpEpoch(v);
      && (r == v <==> v.Epoch(v.me) != 0 && v.Epoch(v.me) == v.currentEpoch)
      && (r != v ==> r.Epoch(v.me) == r.currentEpoch == v.currentEpoch + 1)
      && (r != v ==> forall k :: k in v.nodes && k != v.me ==> r.Epoch(k) == v.Epoch(k) < r.Epoch(v.me))
  {
  }

  /** An epoch is assigned exactly to a node alone that has none. */
  lemma AssignIff(v: View, e: nat)
    requires v.Shape()
    ensures var r := SetConfigEpoch(v, e);
      && (v.nodes.Keys == {v.me} && v.Epoch(v.me) == 0 ==>
            r.Epoch(v.me) == e && r.currentEpoch == (if e < v.currentEpoch then v.currentEpoch else e))
      && (v.nodes.Keys != {v.me} || v.Epoch(v.me) != 0 ==> r == v)
  {
    if |v.nodes| <= 1 {
      OnlyMe(v.nodes.Keys, v.me);
    } else {
      assert |v.nodes.Keys| > 1;
    }
  }

  lemma OnlyMe(all: set<Id>, me: Id)
    requires me in all && |all| <= 1
    ensures all == {me}
  {
    SubsetSize({me}, all);
    if all != {me} {
      var k :| k in all && k != me;
      SubsetSize({me, k}, all);
    }
  }

  /** A FAIL report settles the mark of the node it is about, and nothing else. */
  lemma MarkSettles(v: View, about: Id, failed: bool, k: Id)
    requires v.Shape() && k in v.nodes
    ensures var r := Perform(v, MarkFailed(about, failed));
      && r.At(k) == (if k == about then v.At(k).(failed := failed) else v.At(k))
      && r == v.(nodes := r.nodes) && r.nodes.Keys == v.nodes.Keys
  {
  }

  /** CLUSTER FORGET leaves no trace of the node: no record, no slot, no import, no slave. */
  lemma ForgetsAll(v: View, n: Id)
    requires v.Shape() && n != v.me
    ensures var r := Forget(v, n);
      && r.nodes.Keys == v.nodes.Keys - {n}
      && (forall j :: 0 <= j < SLOTS ==> r.slots[j] == if v.slots[j] == Some(n) then None else v.slots[j])
      && (forall j :: j in r.importing <==> j in v.importing && v.importing[j] != n)
      && (forall j :: j in r.importing ==> r.importing[j] == v.importing[j])
      && (forall k :: k in r.nodes ==> r.At(k).slaveof == if v.At(k).slaveof == Some(n) then None else v.At(k).slaveof)
      && (forall k :: k in r.nodes ==> r.At(k) == v.At(k).(slaveof := r.At(k).slaveof))
  {
  }

  /** CLUSTER REPLICATE makes a replica of n exactly when n is another master and this node
      is a replica already, or a master without slots and keys. */
  lemma ReplicatesIff(v: View, n: Id, empty: bool)
    requires v.Shape() && (forall j :: 0 <= j < SLOTS ==> v.slots[j] != Some(v.me))
    ensures var r := ServerRuns.Operate(v, ServerRuns.Replicate(n, empty));
      var may := n != v.me && v.IsMaster(n) && (v.At(v.me).role == Slave || empty);
      && r.At(v.me) == (if may then v.At(v.me).(role := Slave, slaveof := Some(n)) else v.At(v.me))
      && r.slots == v.slots && r.importing == (if may && v.IsMaster(v.me) then map[] else v.importing)
  {
    assert v.Owned(v.me) == {};
  }

  /** CLUSTER RESET leaves a master alone without slots and imports; a soft one keeps the
      name, the epochs and the last vote, a hard one none of them. */
  lemma ResetsTo(v: View, hard: bool, newName: Id)
    requires v.Shape()
    ensures var r := ServerRuns.Operate(v, ServerRuns.ResetNode(hard, newName));
      && r.nodes.Keys == {r.me} && r.IsMaster(r.me) && r.nodes[r.me].slaveof.None? && r.importing == map[]
      && (forall j :: 0 <= j < SLOTS ==> r.slots[j].None?)
      && (if hard then r.me == newName && r.currentEpoch == r.lastVoteEpoch == r.Epoch(r.me) == 0
          else r.me == v.me && r.currentEpoch == v.currentEpoch && r.lastVoteEpoch == v.lastVoteEpoch
               && r.Epoch(r.me) == v.Epoch(v.me))
  {
  }

  /** ADDSLOTS takes a free slot, DELSLOTS frees an assigned one; either ends its import, and
      neither touches another. */
  lemma AssignsOne(v: View, j: nat, k: nat)
    requires v.Shape() && j < SLOTS && k < SLOTS
    ensures var r := ServerRuns.Operate(v, ServerRuns.AddSlot(j));
      && r.slots[k] == (if k == j && v.slots[j].None? then Some(v.me) else v.slots[k])
      && (k in r.importing <==> k in v.importing && !(k == j && v.slots[j].None?))
    ensures var r := ServerRuns.Operate(v, ServerRuns.DelSlot(j));
      && r.slots[k] == (if k == j then None else v.slots[k])
      && (k in r.importing <==> k in v.importing && !(k == j && v.slots[j].Some?))
  {
  }

  /** FORGET is refused for unknown nodes, for the node itself and for its own master. */
  lemma ForgetsIff(v: View, n: Id)
    requires v.Shape()
    ensures var r := ServerRuns.Operate(v, ServerRuns.ForgetNode(n));
      n !in r.nodes <==> n !in v.nodes || (n != v.me && (v.IsMaster(v.me) || v.At(v.me).slaveof != Some(n)))
  {
  }

  /** An UPDATE says what its sender records of the owner of a slot. */
  lemma UpdateTells(s: System, n: Id, to: Id, slot: int)
    requires s.WF() && Enabled(s, SendUpdate(n, to, slot))
    ensures var v, about := s.views[n], s.views[n].slots[slot].value;
      exists p :: p in Exec(s, SendUpdate(n, to, slot)).net && p.to == to && p.msg.sender == n
        && p.msg.body == Update(about, v.Epoch(about), v.Owned(about)) && slot in p.msg.body.slots
  {
    var v, about := s.views[n], s.views[n].slots[slot].value;
    assert v.Shape();
    var p := Packet(s.nextUid, to, BuildUpdate(v, about));
    assert p in Exec(s, SendUpdate(n, to, slot)).net;
    assert slot in v.Owned(about);
  }

  // ---- the server and the node of the cluster ----

  lemma BodyIsNode(s: System, n: Id, m: Msg, now: int, timeout: int)
    requires s.WF() && n in s.views && m.sender != n && m.sender in s.views[n].nodes
    ensures ReceiveBody(s, n, m, now, timeout).views[n] == ServerRuns.Body(s.views[n], m, now, timeout)
  {
    hide ProcessHeartbeat, ProcessUpdate, MayVote, Counts, Vote, BuildMsg;
  }

  /** What one server does in `ServerRuns` on a packet, a timer or a command is what its
      node does in the cluster. */
  lemma ServerIsNode(s: System, p: Packet, claim: seq<bv8>, about: seq<bv8>, now: int, timeout: int)
    requires s.WF() && Enabled(s, Deliver(p, now, timeout))
    requires ServerRuns.Allowed(s.views[p.to], ServerRuns.Receive(p.msg, claim, about, now, timeout))
    ensures Exec(s, Deliver(p, now, timeout)).views[p.to]
         == ServerRuns.Operate(s.views[p.to], ServerRuns.Receive(p.msg, claim, about, now, timeout))
  {
    hide ReceiveBody, ServerRuns.Body, Header;
    var v, m := s.views[p.to], p.msg;
    if m.sender in v.nodes {
      BodyIsNode(s.SetView(p.to, Header(v, m)), p.to, m, now, timeout);
    }
  }

  lemma TimerIsNode(s: System, n: Id, x: Clock)
    requires s.WF() && n in s.views
    ensures RunFailover(s, n, x).views[n] == ServerRuns.Operate(s.views[n], ServerRuns.Timer(x))
  {
    hide SlaveFailover, BuildMsg, System.WF, View.Shape, ServerRuns.Operate;
    assert s.views[n].me == n && s.views[n].Shape() by { Shaped(s, n); }
    TimerOperates(s.views[n], x);
  }

  lemma Shaped(s: System, n: Id)
    requires s.WF() && n in s.views
    ensures s.views[n].me == n && s.views[n].Shape()
  {
  }

  lemma TimerOperates(v: View, x: Clock)
    requires v.Shape()
    ensures ServerRuns.Operate(v, ServerRuns.Timer(x)) == SlaveFailover(v, x).0
  {
    hide SlaveFailover;
  }

  lemma CommandIsNode(s: System, n: Id, c: Command)
    requires s.WF() && n in s.views
    ensures Exec(s, Local(n, c)).views[n] == ServerRuns.Operate(s.views[n], ServerRuns.Issue(c))
  {
    hide Perform;
  }
}
