/** One server over any list of packets, timers and commands, node deletion and reset
    included: the two copies of its slot table stay equal, its view stays tidy, and it is
    known when the assertion of `clusterSetMaster` ends the run. */
module ServerRuns {
  import opened Basics
  import opened Cluster
  import opened Bitmap
  import opened SlotTable
  import opened ClusterServer
  import Epochs

  /** A packet comes with the bitmaps its sets of slots are read from. */
  datatype Operation =
    | Receive(m: Msg, claim: seq<bv8>, about: seq<bv8>, now: int, timeout: int)
    | Timer(x: Clock)
    | Issue(command: Command)
    | Join(n: Id, role: Role)
    | Replicate(master: Id, empty: bool)
    | AddSlot(j: nat)
    | DelSlot(j: nat)
    | ForgetNode(gone: Id)
    | ResetNode(hard: bool, newName: Id)

  /** What is well formed, and what the rest of the server sees to: no packet comes from
      the node itself, and a node joins once. */
  predicate Allowed(v: View, op: Operation) {
    match op
    case Receive(m, claim, about, _, _) =>
      && m.sender != v.me && |claim| == BYTES && Bits(claim) == m.claim && |about| == BYTES
      && (m.body.Update? ==> Bits(about) == m.body.slots)
    case Join(n, _) => n !in v.nodes
    case AddSlot(j) => j < SLOTS
    case DelSlot(j) => j < SLOTS
    case _ => true
  }

  function Count(v: View, m: Msg): View {
    if Counts(v, m) then v.(auth := v.auth.(count := v.auth.count + 1)) else v
  }

  function Ballot(v: View, m: Msg, now: int, timeout: int): View {
    if MayVote(v, m, now, timeout) then Vote(v, m.sender, now) else v
  }

  function Body(v: View, m: Msg, now: int, timeout: int): View
    requires v.me in v.nodes && m.sender in v.nodes
  {
    match m.body
    case Heartbeat => ProcessHeartbeat(v, m)
    case Update(about, epoch, slots) => ProcessUpdate(v, about, epoch, slots)
    case AuthRequest(_) => Ballot(v, m, now, timeout)
    case AuthAck => Count(v, m)
  }

  predicate MayForget(v: View, n: Id) {
    n in v.nodes && n != v.me && !(v.At(v.me).role == Slave && v.At(v.me).slaveof == Some(n))
  }

  function Assigned(v: View, j: nat, del: bool): View
    requires j < |v.slots|
  {
    if v.slots[j].Some? != del then v
    else v.(slots := v.slots[j := if del then None else Some(v.me)], importing := v.importing - {j})
  }

  function Operate(v: View, op: Operation): (r: View)
    requires v.Shape() && Allowed(v, op)
    ensures r.Shape()
  {
    match op
    case Receive(m, _, _, now, timeout) => if m.sender in v.nodes then Body(Header(v, m), m, now, timeout) else v
    case Timer(x) => SlaveFailover(v, x).0
    case Issue(command) => Perform(v, command)
    case Join(n, role) => v.Put(n, Info(0, role, None, false, 0))
    case Replicate(n, empty) => if MayReplicate(v, n, empty) then SetMaster(v, n) else v
    case AddSlot(j) => Assigned(v, j, false)
    case DelSlot(j) => Assigned(v, j, true)
    case ForgetNode(n) => if MayForget(v, n) then Forget(v, n) else v
    case ResetNode(hard, newName) => ResetTo(v, hard, newName)
  }

  predicate BodyAborts(v: View, m: Msg)
    requires m.sender in v.nodes
  {
    match m.body
    case Heartbeat => HeartbeatStuck(v, m)
    case Update(about, epoch, slots) => UpdateStuck(v, about, epoch, slots)
    case _ => false
  }

  /** Does the operation end in a failed assertion: must a replica with slots of its own
      follow another master? */
  predicate Aborts(v: View, op: Operation) {
    match op
    case Receive(m, _, _, _, _) => m.sender in v.nodes && BodyAborts(Header(v, m), m)
    case Replicate(n, empty) => MayReplicate(v, n, empty) && v.Owned(v.me) != {}
    case _ => false
  }

  // ---- tidiness ----

  lemma HeaderTidy(v: View, m: Msg, strict: bool)
    requires v.Tidy(strict) && m.sender in v.nodes
    ensures Header(v, m).Tidy(strict)
  {
  }

  lemma CollisionTidy(v: View, sender: Id, strict: bool)
    requires v.Tidy(strict)
    ensures HandleCollision(v, sender).Tidy(strict)
  {
  }

  lemma UpdateTidy(v: View, n: Id, epoch: nat, slots: set<int>, strict: bool)
    requires v.Tidy(strict) && !UpdateStuck(v, n, epoch, slots)
    ensures ProcessUpdate(v, n, epoch, slots).Tidy(strict)
  {
    hide Stuck;
    if n in v.nodes && v.Epoch(n) < epoch {
      Epochs.SetAsMasterTidy(v, n, strict);
      var v1 := if v.nodes[n].role == Slave then SetAsMaster(v, n) else v;
      hide SetAsMaster, UpdateSlots;
      Epochs.SetEpochTidy(v1, n, epoch, strict);
      Epochs.UpdateSlotsTidy(v1.SetEpoch(n, epoch), n, epoch, slots, strict);
    }
  }

  lemma BodyTidy(v: View, m: Msg, now: int, timeout: int, strict: bool)
    requires v.Tidy(strict) && m.sender in v.nodes && m.sender != v.me && !BodyAborts(v, m)
    ensures Body(v, m, now, timeout).Tidy(strict)
  {
    hide HeartbeatStuck, UpdateStuck;
    match m.body {
      case Heartbeat =>
        Epochs.ConfigTidy(v, m, strict);
        CollisionTidy(HeartbeatConfig(v, m), m.sender, strict);
        hide HeartbeatConfig, HandleCollision, View.Tidy;
      case Update(about, epoch, slots) => UpdateTidy(v, about, epoch, slots, strict);
      case AuthRequest(_) => BallotTidy(v, m, now, timeout, strict);
      case AuthAck => CountTidy(v, m, strict);
    }
  }

  lemma BallotTidy(v: View, m: Msg, now: int, timeout: int, strict: bool)
    requires v.Tidy(strict)
    ensures Ballot(v, m, now, timeout).Tidy(strict)
  {
  }

  lemma CountTidy(v: View, m: Msg, strict: bool)
    requires v.Tidy(strict)
    ensures Count(v, m).Tidy(strict)
  {
    hide Counts;
  }

  lemma TimerTidy(v: View, x: Clock, strict: bool)
    requires v.Tidy(strict)
    ensures SlaveFailover(v, x).0.Tidy(strict)
  {
  }

  lemma IssueTidy(v: View, c: Command, strict: bool)
    requires v.Tidy(strict)
    ensures Perform(v, c).Tidy(strict)
  {
  }

  lemma JoinTidy(v: View, n: Id, role: Role, strict: bool)
    requires v.Tidy(strict) && n !in v.nodes
    ensures v.Put(n, Info(0, role, None, false, 0)).Tidy(strict)
  {
  }

  lemma ReplicateTidy(v: View, n: Id, empty: bool, strict: bool)
    requires v.Tidy(strict) && MayReplicate(v, n, empty) && v.Owned(v.me) == {}
    ensures SetMaster(v, n).Tidy(strict)
  {
    assert forall j :: 0 <= j < SLOTS && v.slots[j] == Some(v.me) ==> j in v.Owned(v.me);
  }

  lemma AssignTidy(v: View, j: nat, del: bool, strict: bool)
    requires v.Tidy(strict) && j < SLOTS && (strict && !del ==> v.IsMaster(v.me))
    ensures Assigned(v, j, del).Tidy(strict)
  {
  }

  /** A slot added keeps the view sound exactly at a master; the command does not check. */
  lemma AddSlotSoundIff(v: View, j: nat)
    requires v.Sound() && j < SLOTS && v.slots[j].None?
    ensures Assigned(v, j, false).Sound() <==> v.IsMaster(v.me)
  {
    assert Assigned(v, j, false).slots[j] == Some(v.me);
  }

  lemma ForgetAllowed(v: View, n: Id, strict: bool)
    requires v.Tidy(strict) && MayForget(v, n)
    ensures Forget(v, n).Tidy(strict)
  {
    TidyMaster(v, strict);
    ForgetTidy(v, n, strict);
  }

  /** Every operation that does not abort keeps the view tidy, and strictly so unless it
      adds a slot at a replica. */
  lemma OperateTidy(v: View, op: Operation, strict: bool)
    requires v.Tidy(strict) && Allowed(v, op) && !Aborts(v, op)
    requires strict && op.AddSlot? ==> v.IsMaster(v.me)
    ensures Operate(v, op).Tidy(strict)
  {
    hide View.Tidy, Header, Body, BodyAborts, SlaveFailover, Perform, SetMaster, Forget, ResetTo, Assigned;
    match op {
      case Receive(m, _, _, now, timeout) =>
        if m.sender in v.nodes {
          HeaderTidy(v, m, strict);
          BodyTidy(Header(v, m), m, now, timeout, strict);
        }
      case Timer(x) => TimerTidy(v, x, strict);
      case Issue(command) => IssueTidy(v, command, strict);
      case Join(n, role) => JoinTidy(v, n, role, strict);
      case Replicate(n, empty) => if MayReplicate(v, n, empty) { ReplicateTidy(v, n, empty, strict); }
      case AddSlot(j) => AssignTidy(v, j, false, strict);
      case DelSlot(j) => AssignTidy(v, j, true, strict);
      case ForgetNode(n) => if MayForget(v, n) { ForgetAllowed(v, n, strict); }
      case ResetNode(hard, newName) =>
        ResetSound(v, hard, newName);
        SoundIsTidy(ResetTo(v, hard, newName), strict);
    }
  }

  lemma SoundIsTidy(v: View, strict: bool)
    requires v.Sound()
    ensures v.Tidy(strict)
  {
  }

  lemma SlaveOwnsNothing(v: View)
    requires v.Sound() && !v.IsMaster(v.me)
    ensures v.Owned(v.me) == {}
  {
  }

  lemma StuckIsReplica(v: View, sender: Id, epoch: nat, claim: set<int>)
    requires Stuck(v, sender, epoch, claim)
    ensures !v.IsMaster(v.me) && v.Owned(v.me) != {}
  {
    var j :| 0 <= j < |v.slots| && v.slots[j] == Some(v.me) && !Rebinds(v, sender, epoch, claim, j);
    assert j in v.Owned(v.me);
    assert j in Claim(v, sender, epoch, claim).Owned(v.me);
  }

  lemma SwitchKeepsOwn(v: View, n: Id, slaveof: Option<Id>)
    requires n in v.nodes && n != v.me
    ensures var r := SwitchRole(v, n, slaveof);
      r.me == v.me && (r.IsMaster(v.me) <==> v.IsMaster(v.me)) && r.Owned(v.me) == v.Owned(v.me)
  {
  }

  lemma BodyAbortsAtReplica(v: View, m: Msg)
    requires m.sender in v.nodes && m.sender != v.me && BodyAborts(v, m)
    ensures !v.IsMaster(v.me) && v.Owned(v.me) != {}
  {
    hide Stuck;
    match m.body {
      case Heartbeat =>
        SwitchKeepsOwn(v, m.sender, m.slaveof);
        hide SwitchRole;
        StuckIsReplica(SwitchRole(v, m.sender, m.slaveof), m.sender, m.configEpoch, m.claim);
      case Update(n, epoch, slots) =>
        var v1 := if v.nodes[n].role == Slave then SetAsMaster(v, n) else v;
        var v2 := v1.SetEpoch(n, epoch);
        StuckIsReplica(v2, n, epoch, slots);
        assert v2.Owned(v.me) == v.Owned(v.me);
      case _ =>
    }
  }

  /** The assertion of `clusterSetMaster` fails only at a replica that has slots of its own. */
  lemma AbortsAtReplica(v: View, op: Operation)
    requires Allowed(v, op) && Aborts(v, op)
    ensures !v.IsMaster(v.me) && v.Owned(v.me) != {}
  {
    hide BodyAborts;
    if op.Receive? {
      BodyAbortsAtReplica(Header(v, op.m), op.m);
      assert Header(v, op.m).Owned(v.me) == v.Owned(v.me);
    }
  }

  lemma SoundNeverAborts(v: View, op: Operation)
    requires v.Sound() && Allowed(v, op)
    ensures !Aborts(v, op)
  {
    hide View.Tidy, Allowed, Aborts;
    if Aborts(v, op) {
      AbortsAtReplica(v, op);
      SlaveOwnsNothing(v);
    }
  }

  function Newborn(name: Id): (v: View)
    ensures v.Shape()
  {
    View(name, 0, 0, 1, map[name := Info(0, Master, None, false, 0)], Unassigned(), map[], Auth(0, 0, false, 0, 0))
  }

  // ---- runs ----

  predicate OperationRun(v: View, ops: seq<Operation>)
    requires v.Shape()
    decreases |ops|
  {
    ops == [] ||
    (Allowed(v, ops[0]) && (Aborts(v, ops[0]) || OperationRun(Operate(v, ops[0]), ops[1..])))
  }

  /** No operation of the run ends in a failed assertion. */
  predicate Survives(v: View, ops: seq<Operation>)
    requires v.Shape() && OperationRun(v, ops)
    decreases |ops|
  {
    ops == [] || (!Aborts(v, ops[0]) && Survives(Operate(v, ops[0]), ops[1..]))
  }

  /** Slots are added at masters only. */
  predicate AtMasters(v: View, ops: seq<Operation>)
    requires v.Shape() && OperationRun(v, ops)
    decreases |ops|
  {
    ops == [] || Aborts(v, ops[0]) ||
    ((ops[0].AddSlot? ==> v.IsMaster(v.me)) && AtMasters(Operate(v, ops[0]), ops[1..]))
  }

  function OperateAll(v: View, ops: seq<Operation>): View
    requires v.Shape() && OperationRun(v, ops) && Survives(v, ops)
    decreases |ops|
  {
    if ops == [] then v else OperateAll(Operate(v, ops[0]), ops[1..])
  }

  /** Every run that adds slots at masters only keeps the view sound, and no assertion fails. */
  lemma {:induction false} RunSound(v: View, ops: seq<Operation>)
    requires v.Sound() && OperationRun(v, ops) && AtMasters(v, ops)
    ensures Survives(v, ops) && OperateAll(v, ops).Sound()
    decreases |ops|
  {
    assert v.Shape();
    hide View.Tidy, Operate, Allowed, Aborts;
    if ops != [] {
      SoundNeverAborts(v, ops[0]);
      OperateTidy(v, ops[0], true);
      RunSound(Operate(v, ops[0]), ops[1..]);
    }
  }

  /** A replica of node 2 is given a slot, and told again to replicate node 2. */
  function SlotAtReplica(): (ops: seq<Operation>) {
    [Join(2, Master), Replicate(2, true), AddSlot(0)]
  }

  /** From a new node on: the view is no longer sound, and the next command aborts. */
  lemma SlotAtReplicaAborts()
    ensures OperationRun(Newborn(1), SlotAtReplica()) && Survives(Newborn(1), SlotAtReplica())
    ensures var v := OperateAll(Newborn(1), SlotAtReplica());
      v.Tidy(false) && !v.Sound() && Allowed(v, Replicate(2, true)) && Aborts(v, Replicate(2, true))
  {
    var ops, v0 := SlotAtReplica(), Newborn(1);
    assert ops[1..] == [Replicate(2, true), AddSlot(0)] && ops[1..][1..] == [AddSlot(0)] && ops[1..][1..][1..] == [];
    assert v0.Owned(1) == {};
    var v1 := Operate(v0, ops[0]);
    assert v1.Owned(1) == {};
    var v2 := Operate(v1, ops[1]);
    var v3 := Operate(v2, ops[2]);
    assert 0 in v3.Owned(1) && v3.slots[0] == Some(1);
  }

  // ---- on the object ----

  method ServeBody(s: Server, m: Msg, claim: seq<bv8>, about: seq<bv8>, now: int, timeout: int) returns (alive: bool)
    requires s.Valid() && s.State().Tidy(false) && m.sender in s.nodes
    requires Allowed(s.State(), Receive(m, claim, about, now, timeout))
    modifies s, s.slots
    ensures s.Valid() && alive == !BodyAborts(old(s.State()), m)
    ensures alive ==> s.State() == Body(old(s.State()), m, now, timeout)
  {
    hide View.Tidy, MayVote, Vote, Counts, ProcessHeartbeat, ProcessUpdate, Bits, Consistent;
    hide HeartbeatStuck, UpdateStuck;
    alive := true;
    match m.body {
      case Heartbeat => alive := s.ProcessHeartbeat(m, claim);
      case Update(n, epoch, _) => alive := s.ProcessUpdate(n, epoch, about);
      case AuthRequest(_) => var _ := s.SendFailoverAuthIfNeeded(m, claim, now, timeout);
      case AuthAck => s.ProcessAck(m);
    }
  }

  /** A packet: unknown senders are ignored, then the header, then the body. */
  method ServePacket(s: Server, m: Msg, claim: seq<bv8>, about: seq<bv8>, now: int, timeout: int)
    returns (alive: bool)
    requires s.Valid() && s.State().Tidy(false) && Allowed(s.State(), Receive(m, claim, about, now, timeout))
    modifies s, s.slots
    ensures s.Valid() && alive == !Aborts(old(s.State()), Receive(m, claim, about, now, timeout))
    ensures alive ==> s.State() == Operate(old(s.State()), Receive(m, claim, about, now, timeout))
  {
    hide View.Tidy, Header, Body, BodyAborts, Bits, Consistent;
    alive := true;
    if m.sender !in s.nodes { return; }
    HeaderTidy(s.State(), m, false);
    s.ProcessHeader(m);
    alive := ServeBody(s, m, claim, about, now, timeout);
  }

  method ServeCommand(s: Server, command: Command)
    requires s.Valid()
    modifies s, s.slots
    ensures s.Valid() && s.State() == Perform(old(s.State()), command)
  {
    hide Server.Valid, UpdateState, BumpEpoch, SetConfigEpoch;
    match command {
      case Recount(early) => s.UpdateSize(early);
      case MarkFailed(about, failed) => s.MarkFailed(about, failed);
      case Bump => var _ := s.BumpConfigEpoch();
      case AssignEpoch(e) => s.AssignEpoch(e);
    }
  }

  /** CLUSTER FORGET, with the nodes it refuses. */
  method ServeForget(s: Server, n: Id)
    requires s.Valid()
    modifies s, s.slots
    ensures s.Valid()
    ensures s.State() == if MayForget(old(s.State()), n) then Forget(old(s.State()), n) else old(s.State())
  {
    hide Forget;
    if n !in s.nodes || n == s.me { return; }
    if s.nodes[s.me].role == Slave && s.nodes[s.me].slaveof == Some(n) { return; }
    s.DelNode(n);
  }

  lemma StrangerOwnsNothing(v: View, n: Id)
    requires v.Tidy(false) && n !in v.nodes
    ensures v.Owned(n) == {}
  {
  }

  /** Each operation either does to the object what `Operate` does to its view, or fails the
      assertion of `clusterSetMaster`, exactly when `Aborts` says so. */
  method Serve(s: Server, op: Operation) returns (alive: bool)
    requires s.Valid() && s.State().Tidy(false) && Allowed(s.State(), op)
    modifies s, s.slots
    ensures s.Valid() && alive == !Aborts(old(s.State()), op)
    ensures alive ==> s.State() == Operate(old(s.State()), op) && s.State().Tidy(false)
  {
    hide BodyAborts;
    if !Aborts(s.State(), op) { OperateTidy(s.State(), op, false); }
    alive := true;
    match op {
      case Receive(m, claim, about, now, timeout) => alive := ServePacket(s, m, claim, about, now, timeout);
      case Timer(x) => var _ := s.HandleSlaveFailover(x);
      case Issue(command) => ServeCommand(s, command);
      case Join(n, role) =>
        StrangerOwnsNothing(s.State(), n);
        s.Join(n, role);
      case Replicate(n, empty) =>
        var _, a := s.Replicate(n, empty);
        alive := a;
      case AddSlot(j) => var _ := s.AssignSlot(j, false);
      case DelSlot(j) => var _ := s.AssignSlot(j, true);
      case ForgetNode(n) => ServeForget(s, n);
      case ResetNode(hard, newName) => s.Reset(hard, newName);
    }
  }

  /** Any list of operations: both copies of the slot table agree after each of them, and
      the list is served to its end exactly when no operation aborts. */
  method ServeAll(s: Server, ops: seq<Operation>) returns (alive: bool)
    requires s.Valid() && s.State().Tidy(false) && OperationRun(s.State(), ops)
    modifies s, s.slots
    ensures s.Valid() && alive == Survives(old(s.State()), ops)
    ensures alive ==> s.State().Tidy(false) && s.State() == OperateAll(old(s.State()), ops)
    ensures old(s.State()).Sound() && AtMasters(old(s.State()), ops) ==> alive && s.State().Sound()
  {
    ghost var v := s.State();
    if v.Sound() && AtMasters(v, ops) { RunSound(v, ops); }
    hide View.Tidy, Operate, Allowed, Aborts, AtMasters;
    for i := 0 to |ops|
      invariant s.Valid() && s.State().Tidy(false) && OperationRun(s.State(), ops[i..])
      invariant Survives(s.State(), ops[i..]) == Survives(v, ops)
      invariant Survives(v, ops) ==> OperateAll(s.State(), ops[i..]) == OperateAll(v, ops)
    {
      assert ops[i..][0] == ops[i] && ops[i..][1..] == ops[i + 1..];
      alive := Serve(s, ops[i]);
      if !alive { return; }
    }
    alive := true;
  }

  /** From a new node on, every reachable state is consistent and tidy. */
  method ServeFromStart(name: Id, ops: seq<Operation>) returns (s: Server, alive: bool)
    requires OperationRun(Newborn(name), ops)
    ensures s.Valid() && alive == Survives(Newborn(name), ops)
    ensures alive ==> s.State().Tidy(false) && s.State() == OperateAll(Newborn(name), ops)
    ensures AtMasters(Newborn(name), ops) ==> alive && s.State().Sound()
  {
    s := new Server(name);
    SoundIsTidy(s.State(), false);
    alive := ServeAll(s, ops);
  }
}
