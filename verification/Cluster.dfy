/** Redis Cluster: what one node knows, and what each packet handler, timer and
    command does to it.  Epochs are unbounded; node names are the numbers their
    40 bytes spell, so `memcmp` on names is `<` on them. */
module Cluster {
  import opened Basics

  type Id = nat

  const SLOTS: nat := 16384

  datatype Role = Master | Slave

  /** The fields of `clusterNode` that take part in epochs, elections and slots. */
  datatype Info = Info(
    configEpoch: nat,
    role: Role,
    slaveof: Option<Id>,
    failed: bool,
    votedTime: int)

  /** The election this node runs as a slave (`failover_auth_*`). */
  datatype Auth = Auth(time: int, count: nat, sent: bool, rank: nat, epoch: nat)

  datatype View = View(
    me: Id,
    currentEpoch: nat,
    lastVoteEpoch: nat,
    size: nat,
    nodes: map<Id, Info>,
    slots: seq<Option<Id>>,
    importing: map<int, Id>,
    auth: Auth)
  {
    predicate Shape() {
      me in nodes && |slots| == SLOTS
    }

    /** Slot owners are known masters; masters of slaves are known; a slave knows its master. */
    predicate Sound() {
      Tidy(true)
    }

    /** The same; a view that is not strict lets this node hold slots as a slave. */
    predicate Tidy(strict: bool) {
      && Shape()
      && (forall j :: 0 <= j < SLOTS && slots[j].Some? ==>
            IsMaster(slots[j].value) || (!strict && slots[j] == Some(me)))
      && (forall n :: n in nodes && nodes[n].slaveof.Some? ==> !IsMaster(n) && nodes[n].slaveof.value in nodes)
      && (IsMaster(me) || nodes[me].slaveof.Some?) && nodes[me].slaveof != Some(me)
    }

    predicate IsMaster(n: Id) {
      n in nodes && nodes[n].role == Master
    }

    /** The entry of n; nothing below looks at the default in a `Sound` view. */
    function At(n: Id): Info {
      if n in nodes then nodes[n] else Info(0, Slave, None, false, 0)
    }

    function Epoch(n: Id): nat {
      At(n).configEpoch
    }

    function Owned(n: Id): set<int> {
      set j | 0 <= j < |slots| && slots[j] == Some(n)
    }

    /** The master whose slots this node stands for: itself, or the one it replicates. */
    function CurMaster(): Id {
      if IsMaster(me) || At(me).slaveof.None? then me else At(me).slaveof.value
    }

    function Put(n: Id, info: Info): View {
      this.(nodes := nodes[n := info])
    }

    function SetEpoch(n: Id, e: nat): (r: View)
      requires n in nodes
      ensures Keeps(this, r) && r.slots == slots
      ensures forall k :: r.IsMaster(k) <==> IsMaster(k)
    {
      Put(n, nodes[n].(configEpoch := e))
    }
  }

  /** What every packet handler and command below leaves alone: the votes given, the
      election run and the set of known nodes; and the current epoch never goes down. */
  predicate Keeps(v: View, r: View) {
    && r.me == v.me && r.auth == v.auth && r.lastVoteEpoch == v.lastVoteEpoch
    && r.nodes.Keys == v.nodes.Keys && |r.slots| == |v.slots|
    && v.currentEpoch <= r.currentEpoch
  }

  predicate SameEpochs(v: View, r: View) {
    && r.currentEpoch == v.currentEpoch && r.nodes.Keys == v.nodes.Keys
    && forall n :: n in v.nodes ==> r.Epoch(n) == v.Epoch(n)
  }

  datatype Body =
    | Heartbeat
    | AuthRequest(force: bool)
    | AuthAck
    | Update(about: Id, epoch: nat, slots: set<int>)

  datatype Msg = Msg(
    sender: Id,
    currentEpoch: nat,
    configEpoch: nat,
    slaveof: Option<Id>,
    claim: set<int>,
    body: Body)

  datatype Packet = Packet(uid: nat, to: Id, msg: Msg)

  /** A slave advertises its master's epoch and slots. */
  function BuildMsg(v: View, body: Body): (m: Msg)
    ensures m.sender == v.me && m.body == body && m.currentEpoch == v.currentEpoch
    ensures v.IsMaster(v.me) ==> m.configEpoch == v.Epoch(v.me) && m.claim == v.Owned(v.me)
  {
    var info := v.At(v.me);
    var master := if info.role == Slave && info.slaveof.Some? then info.slaveof.value else v.me;
    Msg(v.me, v.currentEpoch, v.Epoch(master), info.slaveof, v.Owned(master), body)
  }

  function BuildUpdate(v: View, about: Id): Msg {
    BuildMsg(v, Update(about, v.Epoch(about), v.Owned(about)))
  }

  function Max(a: nat, b: nat): nat {
    if a < b then b else a
  }

  /** Every packet of a known sender first raises the two recorded epochs. */
  function Header(v: View, m: Msg): (r: View)
    requires m.sender in v.nodes
    ensures Keeps(v, r)
  {
    v.(currentEpoch := Max(v.currentEpoch, m.currentEpoch))
     .SetEpoch(m.sender, Max(v.Epoch(m.sender), m.configEpoch))
  }

  function SetAsMaster(v: View, n: Id): (r: View)
    requires n in v.nodes
    ensures Keeps(v, r) && SameEpochs(v, r)
    ensures r.IsMaster(n)
  {
    if v.nodes[n].role == Master then v
    else v.Put(n, v.nodes[n].(role := Master, slaveof := None))
  }

  function DelNodeSlots(v: View, n: Id): (r: View)
    ensures Keeps(v, r) && SameEpochs(v, r)
    ensures r.Owned(n) == {}
  {
    v.(slots := seq(|v.slots|, j requires 0 <= j < |v.slots| => if v.slots[j] == Some(n) then None else v.slots[j]))
  }

  /** Role switch announced by the `slaveof` field of a heartbeat. */
  function SwitchRole(v: View, n: Id, slaveof: Option<Id>): (r: View)
    requires n in v.nodes
    ensures Keeps(v, r) && SameEpochs(v, r)
  {
    if slaveof.None? then SetAsMaster(v, n)
    else
      var v1 :=
        if v.nodes[n].role == Master then DelNodeSlots(v, n).Put(n, v.nodes[n].(role := Slave))
        else v;
      if slaveof.value in v1.nodes then v1.Put(n, v1.nodes[n].(slaveof := slaveof)) else v1
  }

  /** Does a claim of slot j move it to the claimant? */
  predicate Rebinds(v: View, sender: Id, epoch: nat, claim: set<int>, j: int)
    requires 0 <= j < |v.slots|
  {
    && j in claim
    && v.slots[j] != Some(sender)
    && j !in v.importing
    && (v.slots[j].None? || v.Epoch(v.slots[j].value) < epoch)
  }

  function Claim(v: View, sender: Id, epoch: nat, claim: set<int>): (r: View)
    ensures Keeps(v, r) && SameEpochs(v, r)
  {
    v.(slots := seq(|v.slots|, j requires 0 <= j < |v.slots| =>
        if Rebinds(v, sender, epoch, claim, j) then Some(sender) else v.slots[j]))
  }

  /** `clusterSetMaster`: become (or stay) a replica, now of n. */
  function SetMaster(v: View, n: Id): (r: View)
    requires v.me in v.nodes
    ensures Keeps(v, r) && SameEpochs(v, r)
  {
    var info := v.nodes[v.me];
    v.Put(v.me, info.(role := Slave, slaveof := Some(n)))
     .(importing := if info.role == Master then map[] else v.importing)
  }

  /** Was some slot of our own master moved by this claim? */
  predicate TakesFromMaster(v: View, sender: Id, epoch: nat, claim: set<int>) {
    exists j :: 0 <= j < |v.slots| && v.slots[j] == Some(v.CurMaster()) && Rebinds(v, sender, epoch, claim, j)
  }

  predicate Demotes(v: View, sender: Id, epoch: nat, claim: set<int>) {
    TakesFromMaster(v, sender, epoch, claim) && Claim(v, sender, epoch, claim).Owned(v.CurMaster()) == {}
  }

  /** The claim demotes this node, but leaves it a slot of its own: then the assertion of
      `clusterSetMaster` fails. */
  predicate Stuck(v: View, sender: Id, epoch: nat, claim: set<int>) {
    && sender != v.me && Demotes(v, sender, epoch, claim)
    && exists j :: 0 <= j < |v.slots| && v.slots[j] == Some(v.me) && !Rebinds(v, sender, epoch, claim, j)
  }

  function UpdateSlots(v: View, sender: Id, epoch: nat, claim: set<int>): (r: View)
    requires v.me in v.nodes
    ensures Keeps(v, r) && SameEpochs(v, r)
  {
    if sender == v.me then v
    else
      var v1 := Claim(v, sender, epoch, claim);
      if Demotes(v, sender, epoch, claim) then SetMaster(v1, sender) else v1
  }

  /** The node with the smaller name moves to a new epoch of its own making. */
  function HandleCollision(v: View, sender: Id): (r: View)
    requires v.me in v.nodes
    ensures Keeps(v, r)
  {
    if v.Epoch(sender) != v.Epoch(v.me) || !v.IsMaster(sender) || !v.IsMaster(v.me) || sender <= v.me then v
    else v.(currentEpoch := v.currentEpoch + 1).SetEpoch(v.me, v.currentEpoch + 1)
  }

  /** The role and slots part of a heartbeat. */
  function HeartbeatConfig(v: View, m: Msg): (r: View)
    requires v.me in v.nodes && m.sender in v.nodes
    ensures Keeps(v, r) && SameEpochs(v, r)
  {
    var v1 := SwitchRole(v, m.sender, m.slaveof);
    if v1.IsMaster(m.sender) && v1.Owned(m.sender) != m.claim then
      UpdateSlots(v1, m.sender, m.configEpoch, m.claim)
    else v1
  }

  /** PING and PONG, once the header is processed. */
  function ProcessHeartbeat(v: View, m: Msg): (r: View)
    requires v.me in v.nodes && m.sender in v.nodes
    ensures Keeps(v, r)
  {
    var v1 := HeartbeatConfig(v, m);
    if v1.IsMaster(v1.me) && v1.IsMaster(m.sender) && m.configEpoch == v1.Epoch(v1.me) then
      HandleCollision(v1, m.sender)
    else v1
  }

  /** UPDATE, once the header is processed. */
  function ProcessUpdate(v: View, n: Id, epoch: nat, slots: set<int>): (r: View)
    requires v.me in v.nodes
    ensures Keeps(v, r)
  {
    if n !in v.nodes || v.Epoch(n) >= epoch then v
    else
      var v1 := if v.nodes[n].role == Slave then SetAsMaster(v, n) else v;
      UpdateSlots(v1.SetEpoch(n, epoch), n, epoch, slots)
  }

  /** Does the assertion of `clusterSetMaster` fail on this heartbeat? */
  predicate HeartbeatStuck(v: View, m: Msg)
    requires m.sender in v.nodes
  {
    var v1 := SwitchRole(v, m.sender, m.slaveof);
    v1.IsMaster(m.sender) && v1.Owned(m.sender) != m.claim && Stuck(v1, m.sender, m.configEpoch, m.claim)
  }

  predicate UpdateStuck(v: View, n: Id, epoch: nat, slots: set<int>) {
    && n in v.nodes && v.Epoch(n) < epoch
    && var v1 := if v.nodes[n].role == Slave then SetAsMaster(v, n) else v;
       Stuck(v1.SetEpoch(n, epoch), n, epoch, slots)
  }

  /** When a vote is granted (`clusterSendFailoverAuthIfNeeded`), in the order of the checks. */
  predicate MayVote(v: View, m: Msg, now: int, timeout: int) {
    var master := v.At(m.sender).slaveof;
    && v.At(v.me).role != Slave && v.Owned(v.me) != {}
    && m.currentEpoch >= v.currentEpoch
    && v.lastVoteEpoch != v.currentEpoch
    && !v.IsMaster(m.sender) && master.Some? && master.value in v.nodes
    && (v.nodes[master.value].failed || (m.body.AuthRequest? && m.body.force))
    && now - v.nodes[master.value].votedTime >= timeout * 2
    && (forall j :: 0 <= j < |v.slots| && j in m.claim && v.slots[j].Some? ==>
          v.Epoch(v.slots[j].value) <= m.configEpoch)
  }

  function Vote(v: View, sender: Id, now: int): (r: View)
    requires v.At(sender).slaveof.Some? && v.At(sender).slaveof.value in v.nodes
    ensures r == v.(lastVoteEpoch := v.currentEpoch, nodes := r.nodes) && SameEpochs(v, r)
  {
    var master := v.At(sender).slaveof.value;
    v.(lastVoteEpoch := v.currentEpoch).Put(master, v.nodes[master].(votedTime := now))
  }

  /** An ACK is counted when its sender serves slots and its epoch is not behind the election's. */
  predicate Counts(v: View, m: Msg) {
    v.IsMaster(m.sender) && v.Owned(m.sender) != {} && m.currentEpoch >= v.auth.epoch
  }

  /** The clock, the configuration and the replication state the failover timer reads;
      `early` is the cluster being down less than two seconds after the first look at it. */
  datatype Clock = Clock(
    now: int,
    timeout: nat,
    mfEnd: bool,
    mfCanStart: bool,
    dataFresh: bool,
    random: nat,
    rank: nat,
    early: bool)

  datatype Action = Idle | Scheduled | Requested | Won

  /** Every slot of one node given to another. */
  function Handed(slots: seq<Option<Id>>, from: Id, to: Id): (r: seq<Option<Id>>)
    ensures |r| == |slots|
    ensures forall j :: 0 <= j < |slots| ==> r[j] == if slots[j] == Some(from) then Some(to) else slots[j]
  {
    seq(|slots|, j requires 0 <= j < |slots| => if slots[j] == Some(from) then Some(to) else slots[j])
  }

  function ReplaceYourMaster(v: View, early: bool): (r: View)
    requires v.me in v.nodes
    ensures Keeps(v, r) && SameEpochs(v, r)
  {
    if v.IsMaster(v.me) || v.nodes[v.me].slaveof.None? then v
    else
      var master := v.nodes[v.me].slaveof.value;
      UpdateState(SetAsMaster(v, v.me).(slots := Handed(v.slots, master, v.me)), early)
  }

  /** `clusterHandleSlaveFailover`. */
  function SlaveFailover(v: View, x: Clock): (r: (View, Action))
    requires v.me in v.nodes
    ensures r.0.me == v.me && r.0.nodes.Keys == v.nodes.Keys && |r.0.slots| == |v.slots|
  {
    var authAge := x.now - v.auth.time;
    var authTimeout := if x.timeout * 2 < 2000 then 2000 else x.timeout * 2;
    var manual := x.mfEnd && x.mfCanStart;
    if v.IsMaster(v.me) || v.nodes[v.me].slaveof.None? then (v, Idle)
    else
      var master := v.nodes[v.me].slaveof.value;
      if (!v.At(master).failed && !manual) || v.Owned(master) == {} then (v, Idle)
      else if !x.dataFresh && !manual then (v, Idle)
      else if authAge > authTimeout * 2 then
        (v.(auth := v.auth.(
              time := if x.mfEnd then x.now else x.now + 500 + x.random % 500 + x.rank * 1000,
              count := 0,
              sent := false,
              rank := if x.mfEnd then 0 else x.rank)), Scheduled)
      else
        var auth :=
          if !v.auth.sent && !x.mfEnd && x.rank > v.auth.rank then
            v.auth.(time := v.auth.time + (x.rank - v.auth.rank) * 1000, rank := x.rank)
          else v.auth;
        var v1 := v.(auth := auth);
        if x.now < auth.time then (v1, Idle)
        else if authAge > authTimeout then (v1, Idle)
        else if !auth.sent then
          (v1.(currentEpoch := v.currentEpoch + 1,
               auth := auth.(epoch := v.currentEpoch + 1, sent := true)), Requested)
        else if auth.count >= v.size / 2 + 1 then
          (ReplaceYourMaster(v1.SetEpoch(v.me, Max(v1.Epoch(v.me), auth.epoch)), x.early), Won)
        else (v1, Idle)
  }

  function ServingMasters(v: View): set<Id> {
    set n | n in v.nodes && v.IsMaster(n) && v.Owned(n) != {}
  }

  /** `clusterUpdateState`: count the masters that serve at least one slot; a master waits
      at first. */
  function UpdateState(v: View, early: bool): (r: View)
    ensures Keeps(v, r) && SameEpochs(v, r)
  {
    if early && v.IsMaster(v.me) then v else v.(size := |ServingMasters(v)|)
  }

  function SetFailed(v: View, n: Id, failed: bool): (r: View)
    requires n in v.nodes
    ensures Keeps(v, r) && SameEpochs(v, r)
  {
    v.Put(n, v.nodes[n].(failed := failed))
  }

  /** Is our config epoch what `clusterGetMaxEpoch` returns? */
  predicate HasMaxEpoch(v: View) {
    v.currentEpoch <= v.Epoch(v.me) && forall n :: n in v.nodes ==> v.Epoch(n) <= v.Epoch(v.me)
  }

  /** `clusterBumpConfigEpochWithoutConsensus`. */
  function BumpEpoch(v: View): (r: View)
    requires v.me in v.nodes
    ensures Keeps(v, r)
  {
    if v.Epoch(v.me) == 0 || !HasMaxEpoch(v) then
      v.(currentEpoch := v.currentEpoch + 1).SetEpoch(v.me, v.currentEpoch + 1)
    else v
  }

  /** CLUSTER SET-CONFIG-EPOCH, allowed on a node that knows no other. */
  function SetConfigEpoch(v: View, e: nat): (r: View)
    requires v.me in v.nodes
    ensures Keeps(v, r)
  {
    if |v.nodes| > 1 || v.Epoch(v.me) != 0 then v
    else v.(currentEpoch := Max(v.currentEpoch, e)).SetEpoch(v.me, e)
  }

  /** The other events at one node: timers, FAIL reports and administrator commands. */
  datatype Command = Recount(early: bool) | MarkFailed(about: Id, failed: bool) | Bump | AssignEpoch(epoch: nat)

  function Perform(v: View, c: Command): (r: View)
    requires v.me in v.nodes
    ensures Keeps(v, r) && r.slots == v.slots
  {
    match c
    case Recount(early) => UpdateState(v, early)
    case MarkFailed(about, failed) => if about in v.nodes then SetFailed(v, about, failed) else v
    case Bump => BumpEpoch(v)
    case AssignEpoch(e) => SetConfigEpoch(v, e)
  }
}
