/** Over whole runs: every node's current epoch dominates every config epoch it has
    recorded, its tables stay consistent, and the recorded epoch of a slot's owner
    never goes down while the slot stays assigned. */
module Epochs {
  import opened Basics
  import opened Cluster
  import opened ClusterSystem

  ghost predicate Dominated(v: View) {
    v.auth.epoch <= v.currentEpoch && forall n :: n in v.nodes ==> v.Epoch(n) <= v.currentEpoch
  }

  ghost predicate Good(v: View) {
    v.Sound() && Dominated(v)
  }

  predicate Honest(m: Msg) {
    m.configEpoch <= m.currentEpoch && (m.body.Update? ==> m.body.epoch <= m.currentEpoch)
  }

  ghost predicate Inv(s: System) {
    && s.WF()
    && (forall n :: n in s.views ==> Good(s.views[n]))
    && (forall p :: p in s.net ==> Honest(p.msg))
  }

  // ---- one node ----

  lemma HeaderGood(v: View, m: Msg)
    requires Good(v) && Honest(m) && m.sender in v.nodes
    ensures var r := Header(v, m); Good(r) && m.currentEpoch <= r.currentEpoch
    ensures m.configEpoch <= Header(v, m).Epoch(m.sender)
  {
  }

  lemma SetAsMasterTidy(v: View, n: Id, strict: bool)
    requires v.Tidy(strict) && n in v.nodes
    ensures SetAsMaster(v, n).Tidy(strict) && SetAsMaster(v, n).slots == v.slots
  {
  }

  lemma TurnSlaveTidy(v: View, n: Id, strict: bool)
    requires v.Tidy(strict) && v.IsMaster(n) && n != v.me
    ensures DelNodeSlots(v, n).Put(n, v.nodes[n].(role := Slave)).Tidy(strict)
  {
  }

  lemma SwitchRoleTidy(v: View, n: Id, slaveof: Option<Id>, strict: bool)
    requires v.Tidy(strict) && n in v.nodes && n != v.me
    ensures SwitchRole(v, n, slaveof).Tidy(strict)
  {
    SetAsMasterTidy(v, n, strict);
    if slaveof.Some? {
      var v1 := v;
      if v.IsMaster(n) {
        TurnSlaveTidy(v, n, strict);
        v1 := DelNodeSlots(v, n).Put(n, v.nodes[n].(role := Slave));
      }
      hide SetAsMaster, DelNodeSlots;
      if slaveof.value in v1.nodes { FollowTidy(v1, n, slaveof, strict); }
      hide View.Tidy;
    }
  }

  lemma FollowTidy(v: View, n: Id, slaveof: Option<Id>, strict: bool)
    requires v.Tidy(strict) && n in v.nodes && !v.IsMaster(n) && n != v.me
    requires slaveof.Some? && slaveof.value in v.nodes
    ensures v.Put(n, v.nodes[n].(slaveof := slaveof)).Tidy(strict)
  {
  }

  /** A claim that turns this node into a replica leaves it no slot, so that the assertions
      of `clusterSetMaster` hold, exactly when it is not stuck; in a sound view it never is. */
  lemma DemotedOwnsNothing(v: View, sender: Id, epoch: nat, claim: set<int>)
    requires sender != v.me && Demotes(v, sender, epoch, claim)
    ensures Claim(v, sender, epoch, claim).Owned(v.me) == {} <==> !Stuck(v, sender, epoch, claim)
    ensures v.Sound() ==> !Stuck(v, sender, epoch, claim)
  {
    var v1 := Claim(v, sender, epoch, claim);
    forall j | 0 <= j < |v.slots|
      ensures v1.slots[j] == Some(v.me) <==> v.slots[j] == Some(v.me) && !Rebinds(v, sender, epoch, claim, j)
    {
    }
    assert forall j :: 0 <= j < |v.slots| ==> (v1.slots[j] == Some(v.me) <==> j in v1.Owned(v.me));
  }

  lemma UpdateSlotsTidy(v: View, sender: Id, epoch: nat, claim: set<int>, strict: bool)
    requires v.Tidy(strict) && v.IsMaster(sender) && !Stuck(v, sender, epoch, claim)
    ensures UpdateSlots(v, sender, epoch, claim).Tidy(strict)
  {
    if sender != v.me {
      var v1 := Claim(v, sender, epoch, claim);
      assert v1.Tidy(strict);
      if Demotes(v, sender, epoch, claim) {
        DemotedOwnsNothing(v, sender, epoch, claim);
        hide Demotes;
        assert forall j :: 0 <= j < SLOTS && v1.slots[j] == Some(v.me) ==> j in v1.Owned(v.me);
      }
    }
  }

  lemma NotStuck(v: View, sender: Id, epoch: nat, claim: set<int>)
    requires v.Sound()
    ensures !Stuck(v, sender, epoch, claim)
  {
    hide Demotes;
    if sender != v.me && Demotes(v, sender, epoch, claim) { DemotedOwnsNothing(v, sender, epoch, claim); }
  }

  lemma SetEpochTidy(v: View, n: Id, e: nat, strict: bool)
    requires v.Tidy(strict) && n in v.nodes
    ensures v.SetEpoch(n, e).Tidy(strict)
  {
  }

  lemma ConfigTidy(v: View, m: Msg, strict: bool)
    requires v.Tidy(strict) && m.sender in v.nodes && m.sender != v.me && !HeartbeatStuck(v, m)
    ensures HeartbeatConfig(v, m).Tidy(strict)
  {
    SwitchRoleTidy(v, m.sender, m.slaveof, strict);
    var v1 := SwitchRole(v, m.sender, m.slaveof);
    if v1.IsMaster(m.sender) && v1.Owned(m.sender) != m.claim {
      UpdateSlotsTidy(v1, m.sender, m.configEpoch, m.claim, strict);
    }
    hide SwitchRole, UpdateSlots, View.Tidy, Stuck;
  }

  lemma HeartbeatNotStuck(v: View, m: Msg)
    requires v.Sound() && m.sender in v.nodes && m.sender != v.me
    ensures !HeartbeatStuck(v, m)
  {
    SwitchRoleTidy(v, m.sender, m.slaveof, true);
    hide View.Tidy, Stuck, SwitchRole;
    NotStuck(SwitchRole(v, m.sender, m.slaveof), m.sender, m.configEpoch, m.claim);
  }

  lemma UpdateNotStuck(v: View, n: Id, epoch: nat, slots: set<int>)
    requires v.Sound()
    ensures !UpdateStuck(v, n, epoch, slots)
  {
    hide View.Tidy, Stuck, SetAsMaster;
    if n in v.nodes && v.Epoch(n) < epoch {
      SetAsMasterTidy(v, n, true);
      var v1 := if v.nodes[n].role == Slave then SetAsMaster(v, n) else v;
      SetEpochTidy(v1, n, epoch, true);
      NotStuck(v1.SetEpoch(n, epoch), n, epoch, slots);
    }
  }

  lemma CollisionGood(v: View, sender: Id)
    requires Good(v)
    ensures Good(HandleCollision(v, sender))
  {
    var v1 := v.(currentEpoch := v.currentEpoch + 1);
    assert v1.Sound();
    SetEpochTidy(v1, v.me, v1.currentEpoch, true);
    hide View.Tidy;
  }

  lemma HeartbeatGood(v: View, m: Msg)
    requires Good(v) && m.sender in v.nodes && m.sender != v.me
    ensures var r := ProcessHeartbeat(v, m); Good(r)
  {
    HeartbeatNotStuck(v, m);
    ConfigTidy(v, m, true);
    var v1 := HeartbeatConfig(v, m);
    assert Dominated(v1);
    hide HeartbeatConfig, View.Tidy;
    CollisionGood(v1, m.sender);
  }

  lemma UpdateGood(v: View, n: Id, epoch: nat, slots: set<int>)
    requires Good(v) && epoch <= v.currentEpoch
    ensures var r := ProcessUpdate(v, n, epoch, slots); Good(r)
  {
    if n in v.nodes && v.Epoch(n) < epoch {
      SetAsMasterTidy(v, n, true);
      var v1 := if v.nodes[n].role == Slave then SetAsMaster(v, n) else v;
      hide SetAsMaster, UpdateSlots;
      SetEpochTidy(v1, n, epoch, true);
      UpdateNotStuck(v, n, epoch, slots);
      UpdateSlotsTidy(v1.SetEpoch(n, epoch), n, epoch, slots, true);
      assert Dominated(v1.SetEpoch(n, epoch));
    }
  }

  lemma VoteGood(v: View, m: Msg, now: int, timeout: int)
    requires Good(v) && MayVote(v, m, now, timeout)
    ensures var r := Vote(v, m.sender, now); Good(r)
  {
  }

  lemma FailoverGood(v: View, x: Clock)
    requires Good(v)
    ensures var r := SlaveFailover(v, x).0; Good(r)
  {
  }

  lemma BuildHonest(v: View, body: Body)
    requires Good(v) && (body.Update? ==> body.epoch <= v.currentEpoch)
    ensures Honest(BuildMsg(v, body))
  {
  }

  /** The owner of a slot, if it changed, changed to a greater epoch; its epoch did not go down. */
  ghost predicate OwnerRises(v: View, r: View, j: int)
    requires 0 <= j < |v.slots| && 0 <= j < |r.slots|
  {
    v.slots[j].Some? && r.slots[j].Some? ==>
      var a, b := v.slots[j].value, r.slots[j].value;
      v.Epoch(a) <= r.Epoch(b) && (a != b ==> v.Epoch(a) < r.Epoch(b))
  }

  lemma UpdateSlotsRises(v: View, sender: Id, epoch: nat, claim: set<int>, j: int)
    requires v.Sound() && sender in v.nodes && epoch <= v.Epoch(sender) && 0 <= j < SLOTS
    ensures OwnerRises(v, UpdateSlots(v, sender, epoch, claim), j)
  {
  }

  lemma SwitchRoleKeepsOwners(v: View, n: Id, slaveof: Option<Id>, j: int)
    requires v.Shape() && n in v.nodes && 0 <= j < SLOTS
    ensures var r := SwitchRole(v, n, slaveof); r.slots[j] == v.slots[j] || r.slots[j].None?
  {
  }

  lemma ConfigRises(v: View, m: Msg, j: int)
    requires v.Sound() && m.sender in v.nodes && m.sender != v.me
    requires m.configEpoch <= v.Epoch(m.sender) && 0 <= j < SLOTS
    ensures OwnerRises(v, HeartbeatConfig(v, m), j)
  {
    SwitchRoleTidy(v, m.sender, m.slaveof, true);
    SwitchRoleKeepsOwners(v, m.sender, m.slaveof, j);
    var v1 := SwitchRole(v, m.sender, m.slaveof);
    hide SwitchRole;
    UpdateSlotsRises(v1, m.sender, m.configEpoch, m.claim, j);
    hide UpdateSlots;
  }

  lemma HeartbeatRises(v: View, m: Msg, j: int)
    requires Good(v) && m.sender in v.nodes && m.sender != v.me
    requires m.configEpoch <= v.Epoch(m.sender) && 0 <= j < SLOTS
    ensures OwnerRises(v, ProcessHeartbeat(v, m), j)
  {
    ConfigRises(v, m, j);
    var v1 := HeartbeatConfig(v, m);
    hide HeartbeatConfig;
    assert ProcessHeartbeat(v, m).slots == v1.slots;
    assert v1.Epoch(v1.me) <= v1.currentEpoch;
  }

  lemma UpdateRises(v: View, n: Id, epoch: nat, slots: set<int>, j: int)
    requires Good(v) && 0 <= j < SLOTS
    ensures OwnerRises(v, ProcessUpdate(v, n, epoch, slots), j)
  {
    if n in v.nodes && v.Epoch(n) < epoch {
      SetAsMasterTidy(v, n, true);
      var v1 := if v.nodes[n].role == Slave then SetAsMaster(v, n) else v;
      hide SetAsMaster, UpdateSlots;
      var v2 := v1.SetEpoch(n, epoch);
      SetEpochTidy(v1, n, epoch, true);
      assert OwnerRises(v, v2, j) && v2.slots == v.slots;
      UpdateSlotsRises(v2, n, epoch, slots, j);
    }
  }

  // ---- the whole system ----

  lemma SetViewGood(s: System, n: Id, v: View)
    requires Inv(s) && n in s.views && v.me == n && v.Shape() && Good(v)
    ensures Inv(s.SetView(n, v))
  {
    hide Good;
  }

  lemma PostGood(s: System, ps: set<Packet>)
    requires Inv(s) && forall p :: p in ps ==> p.uid == s.nextUid && p.msg.sender in s.views && Honest(p.msg)
    ensures Inv(s.Post(ps))
  {
    hide Good;
  }

  lemma RequestGood(s: System, n: Id, m: Msg, now: int, timeout: int)
    requires Inv(s) && n in s.views && m.sender in s.views[n].nodes
    ensures Inv(ReceiveRequest(s, n, m, now, timeout))
  {
    hide Good, Dominated, Honest;
    var v := s.views[n];
    if MayVote(v, m, now, timeout) {
      VoteGood(v, m, now, timeout);
      var s1 := s.SetView(n, Vote(v, m.sender, now));
      SetViewGood(s, n, Vote(v, m.sender, now));
      BuildHonest(v, AuthAck);
      PostGood(s1, {Packet(s.nextUid, m.sender, BuildMsg(v, AuthAck))});
      TraceGood(s1.Post({Packet(s.nextUid, m.sender, BuildMsg(v, AuthAck))}), ReceiveRequest(s, n, m, now, timeout));
    }
  }

  /** The recorded history does not matter. */
  lemma TraceGood(s: System, r: System)
    requires Inv(s) && r.WF() && r.views == s.views && r.net <= s.net
    ensures Inv(r)
  {
    hide Good, Honest;
  }

  lemma CountGood(v: View)
    requires Good(v)
    ensures Good(v.(auth := v.auth.(count := v.auth.count + 1)))
  {
  }

  lemma AckGood(s: System, n: Id, m: Msg)
    requires Inv(s) && n in s.views && m.sender in s.views[n].nodes
    ensures Inv(ReceiveAck(s, n, m))
  {
    hide Good, Counts;
    var v := s.views[n];
    var v1 := v.(auth := v.auth.(count := v.auth.count + 1));
    CountGood(v);
    SetViewGood(s, n, v1);
    if Counts(v, m) { TraceGood(s.SetView(n, v1), ReceiveAck(s, n, m)); }
  }

  lemma BodyGood(s: System, n: Id, m: Msg, now: int, timeout: int)
    requires Inv(s) && n in s.views && m.sender in s.views[n].nodes && m.sender != n
    requires Honest(m) && m.currentEpoch <= s.views[n].currentEpoch
    ensures Inv(ReceiveBody(s, n, m, now, timeout))
  {
    hide Good, ProcessHeartbeat, ProcessUpdate;
    var v := s.views[n];
    match m.body {
      case Heartbeat =>
        HeartbeatGood(v, m);
        SetViewGood(s, n, ProcessHeartbeat(v, m));
      case Update(about, epoch, slots) =>
        UpdateGood(v, about, epoch, slots);
        SetViewGood(s, n, ProcessUpdate(v, about, epoch, slots));
      case AuthRequest(_) =>
        RequestGood(s, n, m, now, timeout);
      case AuthAck =>
        AckGood(s, n, m);
    }
  }

  lemma DeliverGood(s: System, p: Packet, now: int, timeout: int)
    requires Inv(s) && p in s.net && p.to in s.views && p.msg.sender != p.to
    ensures Inv(Receive(s, p.to, p.msg, now, timeout).Consume(p))
  {
    hide Good, Header, ReceiveBody;
    var n, m := p.to, p.msg;
    if m.sender in s.views[n].nodes {
      var v1 := Header(s.views[n], m);
      HeaderGood(s.views[n], m);
      SetViewGood(s, n, v1);
      BodyGood(s.SetView(n, v1), n, m, now, timeout);
    }
    var r := Receive(s, n, m, now, timeout);
    TraceGood(r, r.Consume(p));
  }

  lemma ConcludeGood(s: System, n: Id, v: View, action: Action, force: bool)
    requires Inv(s) && n in s.views && v.Shape() && v.me == n && Good(v)
    ensures Inv(Conclude(s, n, v, action, force))
  {
    hide Good, Honest;
    SetViewGood(s, n, v);
    var s1, r := s.SetView(n, v), Conclude(s, n, v, action, force);
    match action {
      case Idle =>
      case Scheduled => TraceGood(s1, r);
      case Requested =>
        BuildHonest(v, AuthRequest(force));
        PostGood(s1, set to | to in v.nodes && to != n :: Packet(s.nextUid, to, BuildMsg(v, AuthRequest(force))));
      case Won => TraceGood(s1, r);
    }
  }

  lemma RecountGood(v: View, early: bool)
    requires Good(v)
    ensures Good(UpdateState(v, early))
  {
  }

  lemma SetFailedGood(v: View, about: Id, failed: bool)
    requires Good(v) && about in v.nodes
    ensures Good(SetFailed(v, about, failed))
  {
  }

  lemma BumpGood(v: View)
    requires Good(v)
    ensures Good(BumpEpoch(v))
  {
    var v1 := v.(currentEpoch := v.currentEpoch + 1);
    assert v1.Sound();
    SetEpochTidy(v1, v.me, v1.currentEpoch, true);
    hide View.Tidy, HasMaxEpoch;
  }

  lemma AssignGood(v: View, e: nat)
    requires Good(v)
    ensures Good(SetConfigEpoch(v, e))
  {
    var v1 := v.(currentEpoch := Max(v.currentEpoch, e));
    assert v1.Sound();
    SetEpochTidy(v1, v.me, e, true);
    hide View.Tidy;
  }

  lemma PerformGood(v: View, c: Command)
    requires Good(v)
    ensures Good(Perform(v, c))
  {
    hide Good, UpdateState, SetFailed, BumpEpoch, SetConfigEpoch;
    match c {
      case Recount(early) => RecountGood(v, early);
      case MarkFailed(about, failed) => if about in v.nodes { SetFailedGood(v, about, failed); }
      case Bump => BumpGood(v);
      case AssignEpoch(e) => AssignGood(v, e);
    }
  }

  lemma StepGood(s: System, step: Step)
    requires Inv(s) && Enabled(s, step)
    ensures Inv(Exec(s, step))
  {
    hide Good, Honest, Receive, Conclude, Perform, SlaveFailover;
    match step {
      case SendHeartbeat(n, to) =>
        BuildHonest(s.views[n], Heartbeat);
        PostGood(s, {Packet(s.nextUid, to, BuildMsg(s.views[n], Heartbeat))});
      case SendUpdate(n, to, slot) =>
        var about := s.views[n].slots[slot].value;
        EpochDominated(s.views[n], about);
        BuildHonest(s.views[n], Update(about, s.views[n].Epoch(about), s.views[n].Owned(about)));
        PostGood(s, {Packet(s.nextUid, to, BuildUpdate(s.views[n], about))});
      case Deliver(p, now, timeout) => DeliverGood(s, p, now, timeout);
      case Duplicate(p) => PostGood(s, {p.(uid := s.nextUid)});
      case Failover(n, x) =>
        FailoverGood(s.views[n], x);
        var (v, action) := SlaveFailover(s.views[n], x);
        ConcludeGood(s, n, v, action, x.mfEnd);
      case Local(n, command) =>
        PerformGood(s.views[n], command);
        SetViewGood(s, n, Perform(s.views[n], command));
    }
  }

  lemma EpochDominated(v: View, n: Id)
    requires Good(v)
    ensures v.Epoch(n) <= v.currentEpoch
  {
  }

  /** Epoch dominance and table consistency, in every state of every run. */
  lemma {:induction false} RunGood(s: System, steps: seq<Step>)
    requires Inv(s) && Run(s, steps)
    ensures Inv(After(s, steps))
    decreases |steps|
  {
    hide Good, Exec;
    if steps != [] {
      StepGood(s, steps[0]);
      RunGood(Exec(s, steps[0]), steps[1..]);
    }
  }

  // ---- the owner of a slot ----

  /** The checks an election must pass for the failover timer to win it. */
  predicate Wins(v: View, x: Clock) {
    var master := v.At(v.me).slaveof;
    var authTimeout := if x.timeout * 2 < 2000 then 2000 else x.timeout * 2;
    var manual := x.mfEnd && x.mfCanStart;
    && !v.IsMaster(v.me) && master.Some?
    && (v.At(master.value).failed || manual) && v.Owned(master.value) != {}
    && (x.dataFresh || manual)
    && v.auth.time <= x.now <= v.auth.time + authTimeout
    && v.auth.sent && v.auth.count >= v.size / 2 + 1
  }

  lemma WonIff(v: View, x: Clock)
    requires v.Shape()
    ensures SlaveFailover(v, x).1 == Won <==> Wins(v, x)
  {
  }

  /** The failover this timer wins takes slot j at an epoch that is not above the one
      recorded for the old master. */
  predicate TakesBehind(v: View, x: Clock, j: int)
    requires v.Shape() && 0 <= j < SLOTS
  {
    && Wins(v, x)
    && v.slots[j] == v.At(v.me).slaveof
    && Max(v.Epoch(v.me), v.auth.epoch) <= v.Epoch(v.At(v.me).slaveof.value)
  }

  predicate WinsBehind(s: System, step: Step, n: Id, j: int)
    requires s.WF() && Enabled(s, step) && n in s.views && 0 <= j < SLOTS
  {
    step.Failover? && step.n == n && TakesBehind(s.views[n], step.clock, j)
  }

  /** Slot j of node n stays assigned all along the run, and n never takes it over at an
      epoch behind its old owner's. */
  predicate StaysAssigned(s: System, steps: seq<Step>, n: Id, j: int)
    requires s.WF() && n in s.views && 0 <= j < SLOTS && Run(s, steps)
    decreases |steps|
  {
    && s.views[n].slots[j].Some?
    && (steps == [] || (!WinsBehind(s, steps[0], n, j) && StaysAssigned(Exec(s, steps[0]), steps[1..], n, j)))
  }

  lemma HeaderRises(v: View, m: Msg, r: View, j: int)
    requires v.Shape() && m.sender in v.nodes && 0 <= j < SLOTS && |r.slots| == SLOTS
    requires OwnerRises(Header(v, m), r, j)
    ensures OwnerRises(v, r, j)
  {
  }

  lemma SameRises(v: View, r: View, j: int)
    requires SameEpochs(v, r) && r.slots == v.slots && 0 <= j < |v.slots|
    ensures OwnerRises(v, r, j)
  {
  }

  lemma BodyRises(s: System, n: Id, m: Msg, now: int, timeout: int, j: int)
    requires Inv(s) && n in s.views && m.sender in s.views[n].nodes && m.sender != n && 0 <= j < SLOTS
    requires m.configEpoch <= s.views[n].Epoch(m.sender)
    ensures OwnerRises(s.views[n], ReceiveBody(s, n, m, now, timeout).views[n], j)
  {
    hide Good, OwnerRises, ProcessHeartbeat, ProcessUpdate, MayVote, Counts;
    var v, v1 := s.views[n], ReceiveBody(s, n, m, now, timeout).views[n];
    match m.body {
      case Heartbeat => HeartbeatRises(v, m, j);
      case Update(about, epoch, slots) => UpdateRises(v, about, epoch, slots, j);
      case AuthRequest(_) => SameRises(v, v1, j);
      case AuthAck => SameRises(v, v1, j);
    }
  }

  lemma DeliverRises(s: System, p: Packet, now: int, timeout: int, n: Id, j: int)
    requires Inv(s) && p in s.net && p.to in s.views && p.msg.sender != p.to && n in s.views && 0 <= j < SLOTS
    ensures OwnerRises(s.views[n], Receive(s, p.to, p.msg, now, timeout).views[n], j)
  {
    hide Good, Header, ReceiveBody;
    var m := p.msg;
    if p.to == n && m.sender in s.views[n].nodes {
      var v1 := Header(s.views[n], m);
      HeaderGood(s.views[n], m);
      SetViewGood(s, n, v1);
      BodyRises(s.SetView(n, v1), n, m, now, timeout, j);
      HeaderRises(s.views[n], m, Receive(s, n, m, now, timeout).views[n], j);
    } else if m.sender in s.views[p.to].nodes {
      OthersStay(s.SetView(p.to, Header(s.views[p.to], m)), p.to, m, now, timeout, n);
    }
  }

  lemma OthersStay(s: System, to: Id, m: Msg, now: int, timeout: int, n: Id)
    requires s.WF() && to in s.views && m.sender in s.views[to].nodes && m.sender != to && n in s.views && n != to
    ensures ReceiveBody(s, to, m, now, timeout).views[n] == s.views[n]
  {
    hide ProcessHeartbeat, ProcessUpdate, MayVote, Counts, Vote;
  }

  /** The failover timer raises the epoch of a slot's owner unless it takes the slot behind it. */
  lemma FailoverRises(v: View, x: Clock, j: int)
    requires Good(v) && 0 <= j < SLOTS
    ensures OwnerRises(v, SlaveFailover(v, x).0, j) <==> !TakesBehind(v, x, j)
  {
    WonIff(v, x);
    hide Wins;
    if SlaveFailover(v, x).1 == Won {
      WonView(v, x, j);
    } else {
      NotWon(v, x, j);
    }
  }

  lemma NotWon(v: View, x: Clock, j: int)
    requires v.Shape() && 0 <= j < SLOTS && SlaveFailover(v, x).1 != Won
    ensures OwnerRises(v, SlaveFailover(v, x).0, j)
  {
  }

  /** What a victory makes of the slots and the epochs. */
  lemma WonView(v: View, x: Clock, j: int)
    requires Good(v) && 0 <= j < SLOTS && SlaveFailover(v, x).1 == Won
    ensures var r := SlaveFailover(v, x).0;
      && v.At(v.me).slaveof.Some? && v.At(v.me).slaveof != Some(v.me)
      && r.slots[j] == (if v.slots[j] == v.At(v.me).slaveof then Some(v.me) else v.slots[j])
      && (forall k :: r.Epoch(k) == if k == v.me then Max(v.Epoch(v.me), v.auth.epoch) else v.Epoch(k))
      && v.slots[j] != Some(v.me)
  {
  }

  lemma PerformRises(v: View, c: Command, j: int)
    requires Good(v) && 0 <= j < SLOTS
    ensures OwnerRises(v, Perform(v, c), j)
  {
  }

  /** A step lowers the recorded epoch of a slot's owner, or keeps it under a new owner,
      exactly when the node takes the slot behind its old owner. */
  lemma StepRises(s: System, step: Step, n: Id, j: int)
    requires Inv(s) && Enabled(s, step) && n in s.views && 0 <= j < SLOTS
    ensures OwnerRises(s.views[n], Exec(s, step).views[n], j) <==> !WinsBehind(s, step, n, j)
  {
    hide Good, Honest, OwnerRises, Receive, Conclude, Perform, SlaveFailover, TakesBehind;
    SameRises(s.views[n], s.views[n], j);
    match step {
      case Deliver(p, now, timeout) => DeliverRises(s, p, now, timeout, n, j);
      case Failover(k, x) => if k == n { FailoverRises(s.views[n], x, j); }
      case Local(k, command) => if k == n { PerformRises(s.views[n], command, j); }
      case _ =>
    }
  }

  /** Over every run that keeps a slot assigned, the recorded epoch of its owner never
      goes down, and is greater at the end if the owner is another one. */
  lemma {:induction false} OwnerEpochNeverFalls(s: System, steps: seq<Step>, n: Id, j: int)
    requires Inv(s) && Run(s, steps) && n in s.views && 0 <= j < SLOTS && StaysAssigned(s, steps, n, j)
    ensures OwnerRises(s.views[n], After(s, steps).views[n], j)
    decreases |steps|
  {
    hide Good, Honest, Exec, WinsBehind, OwnerRises;
    if steps != [] {
      var s1 := Exec(s, steps[0]);
      StepGood(s, steps[0]);
      StepRises(s, steps[0], n, j);
      OwnerEpochNeverFalls(s1, steps[1..], n, j);
      RisesOn(s.views[n], s1.views[n], After(s, steps).views[n], j);
    } else {
      SameRises(s.views[n], s.views[n], j);
    }
  }

  lemma RisesOn(a: View, b: View, c: View, j: int)
    requires 0 <= j < |a.slots| && |a.slots| == |b.slots| == |c.slots| && b.slots[j].Some?
    requires OwnerRises(a, b, j) && OwnerRises(b, c, j)
    ensures OwnerRises(a, c, j)
  {
  }
}
