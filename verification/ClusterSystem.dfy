/** Nodes, packets in flight, and the steps the cluster takes: a packet is sent,
    delivered (possibly late and out of order), duplicated, or never delivered;
    timers fire; the administrator issues commands. */
module ClusterSystem {
  import opened Cluster
  import opened Election

  /** `votes`, `tally` and `wins` only record history; no step reads them. */
  datatype System = System(
    views: map<Id, View>,
    net: set<Packet>,
    nextUid: nat,
    votes: map<(Id, nat), Id>,
    tally: map<Id, Tally>,
    wins: set<Win>)
  {
    predicate WF() {
      && (forall n :: n in views ==> views[n].me == n && views[n].Shape())
      && tally.Keys == views.Keys
      && (forall p :: p in net ==> p.uid < nextUid && p.msg.sender in views)
    }

    function Post(ps: set<Packet>): (r: System)
      requires WF()
      requires forall p :: p in ps ==> p.uid == nextUid && p.msg.sender in views
      ensures r.WF() && r.views == views
    {
      this.(net := net + ps, nextUid := nextUid + 1)
    }

    function Consume(p: Packet): (r: System)
      requires WF()
      ensures r.WF() && r.views == views
    {
      this.(net := net - {p})
    }

    function SetView(n: Id, v: View): (r: System)
      requires WF() && n in views && v.Shape() && v.me == n
      ensures r.WF() && r.views.Keys == views.Keys
    {
      this.(views := views[n := v])
    }
  }

  datatype Step =
    | SendHeartbeat(n: Id, to: Id)
    | SendUpdate(n: Id, to: Id, slot: int)
    | Deliver(p: Packet, now: int, timeout: int)
    | Duplicate(p: Packet)
    | Failover(n: Id, clock: Clock)
    | Local(n: Id, command: Command)

  predicate Enabled(s: System, step: Step)
    requires s.WF()
  {
    match step
    case SendHeartbeat(n, to) => n in s.views && to != n
    case SendUpdate(n, to, slot) =>
      && n in s.views && to != n && 0 <= slot < SLOTS
      && s.views[n].slots[slot].Some? && s.views[n].slots[slot].value in s.views[n].nodes
    case Deliver(p, _, _) => p in s.net && p.to in s.views && p.msg.sender != p.to
    case Duplicate(p) => p in s.net
    case Failover(n, _) => n in s.views
    case Local(n, _) => n in s.views
  }

  function ReceiveAck(s: System, n: Id, m: Msg): (r: System)
    requires s.WF() && n in s.views && m.sender in s.views[n].nodes
    ensures r.WF() && r.views.Keys == s.views.Keys
  {
    var v, t := s.views[n], s.tally[n];
    if !Counts(v, m) then s
    else
      var t1 := if v.auth.sent then t.(counted := t.counted + {m.sender}) else t.(stale := t.stale + 1);
      s.SetView(n, v.(auth := v.auth.(count := v.auth.count + 1))).(tally := s.tally[n := t1])
  }

  function ReceiveRequest(s: System, n: Id, m: Msg, now: int, timeout: int): (r: System)
    requires s.WF() && n in s.views && m.sender in s.views[n].nodes
    ensures r.WF() && r.views.Keys == s.views.Keys
  {
    var v := s.views[n];
    if !MayVote(v, m, now, timeout) then s
    else
      var ack := Packet(s.nextUid, m.sender, BuildMsg(v, AuthAck));
      s.SetView(n, Vote(v, m.sender, now)).Post({ack}).(votes := s.votes[(n, v.currentEpoch) := m.sender])
  }

  /** A packet whose header was processed. */
  function ReceiveBody(s: System, n: Id, m: Msg, now: int, timeout: int): (r: System)
    requires s.WF() && n in s.views && m.sender != n && m.sender in s.views[n].nodes
    ensures r.WF() && r.views.Keys == s.views.Keys
  {
    match m.body
    case Heartbeat => s.SetView(n, ProcessHeartbeat(s.views[n], m))
    case Update(about, epoch, slots) => s.SetView(n, ProcessUpdate(s.views[n], about, epoch, slots))
    case AuthRequest(_) => ReceiveRequest(s, n, m, now, timeout)
    case AuthAck => ReceiveAck(s, n, m)
  }

  /** Packets of unknown senders are ignored. */
  function Receive(s: System, n: Id, m: Msg, now: int, timeout: int): (r: System)
    requires s.WF() && n in s.views && m.sender != n
    ensures r.WF() && r.views.Keys == s.views.Keys
  {
    if m.sender !in s.views[n].nodes then s
    else ReceiveBody(s.SetView(n, Header(s.views[n], m)), n, m, now, timeout)
  }

  /** What the system records and sends when the failover timer of n ends in `action`. */
  function Conclude(s: System, n: Id, v: View, action: Action, force: bool): (r: System)
    requires s.WF() && n in s.views && v.Shape() && v.me == n
    ensures r.WF() && r.views == s.views[n := v]
  {
    var s1 := s.SetView(n, v);
    match action
    case Idle => s1
    case Scheduled => s1.(tally := s.tally[n := Tally({}, 0)])
    case Requested =>
      s1.Post(set to | to in v.nodes && to != n :: Packet(s.nextUid, to, BuildMsg(v, AuthRequest(force))))
    case Won =>
      s1.(wins := s.wins + {Win(n, s.views[n].auth.epoch, s.tally[n].counted, s.tally[n].stale)})
  }

  function RunFailover(s: System, n: Id, x: Clock): (r: System)
    requires s.WF() && n in s.views
    ensures r.WF() && r.views.Keys == s.views.Keys
  {
    var (v, action) := SlaveFailover(s.views[n], x);
    Conclude(s, n, v, action, x.mfEnd)
  }

  function Exec(s: System, step: Step): (r: System)
    requires s.WF() && Enabled(s, step)
    ensures r.WF() && r.views.Keys == s.views.Keys
  {
    match step
    case SendHeartbeat(n, to) => s.Post({Packet(s.nextUid, to, BuildMsg(s.views[n], Heartbeat))})
    case SendUpdate(n, to, slot) =>
      s.Post({Packet(s.nextUid, to, BuildUpdate(s.views[n], s.views[n].slots[slot].value))})
    case Deliver(p, now, timeout) => Receive(s, p.to, p.msg, now, timeout).Consume(p)
    case Duplicate(p) => s.Post({p.(uid := s.nextUid)})
    case Failover(n, x) => RunFailover(s, n, x)
    case Local(n, command) => s.SetView(n, Perform(s.views[n], command))
  }

  /** A run: every step is enabled where it is taken. */
  predicate Run(s: System, steps: seq<Step>)
    requires s.WF()
    decreases |steps|
  {
    steps == [] || (Enabled(s, steps[0]) && Run(Exec(s, steps[0]), steps[1..]))
  }

  function After(s: System, steps: seq<Step>): (r: System)
    requires s.WF() && Run(s, steps)
    ensures r.WF() && r.views.Keys == s.views.Keys
    decreases |steps|
  {
    if steps == [] then s else After(Exec(s, steps[0]), steps[1..])
  }
}
