/** Which step moves a slot, told from the view before the packet and the packet alone:
    for every node, every slot and every step of the cluster, the owner after it.  A slot
    being imported moves for no claim. */
module SlotMoves {
  import opened Basics
  import opened Cluster
  import opened ClusterSystem
  import Epochs

  // ---- claims ----

  /** A claim is new to slot j: nobody has it, or somebody with a smaller epoch. */
  predicate Newer(v: View, epoch: nat, j: int)
    requires 0 <= j < |v.slots|
  {
    v.slots[j] == None || (v.slots[j].Some? && v.Epoch(v.slots[j].value) < epoch)
  }

  lemma ClaimMoves(v: View, sender: Id, epoch: nat, claim: set<int>, j: int)
    requires v.me in v.nodes && 0 <= j < |v.slots|
    ensures UpdateSlots(v, sender, epoch, claim).slots[j]
         == if sender != v.me && j in claim && j !in v.importing && Newer(v, epoch, j) then Some(sender) else v.slots[j]
  {
    hide Demotes;
  }

  /** A node turns into a replica of the claimant exactly when the claim took a slot of the
      master it stood for and that master has none left; it then imports nothing more. */
  lemma DemotionIff(v: View, sender: Id, epoch: nat, claim: set<int>)
    requires v.me in v.nodes && sender != v.me
    ensures var r, cur := UpdateSlots(v, sender, epoch, claim), v.CurMaster();
      var taken :=
        && (exists j :: 0 <= j < |v.slots| && v.slots[j] == Some(cur) && r.slots[j] == Some(sender) != Some(cur))
        && (forall j :: 0 <= j < |v.slots| ==> r.slots[j] != Some(cur));
      && r.nodes == (if taken then v.nodes[v.me := v.nodes[v.me].(role := Slave, slaveof := Some(sender))] else v.nodes)
      && r.importing == (if taken && v.IsMaster(v.me) then map[] else v.importing)
  {
    var r, cur := UpdateSlots(v, sender, epoch, claim), v.CurMaster();
    var c := Claim(v, sender, epoch, claim);
    assert r.slots == c.slots;
    assert forall j :: 0 <= j < |v.slots| ==> (c.slots[j] == Some(cur) <==> j in c.Owned(cur));
    forall j | 0 <= j < |v.slots| && v.slots[j] == Some(cur)
      ensures Rebinds(v, sender, epoch, claim, j) <==> r.slots[j] == Some(sender) != Some(cur)
    {
    }
  }

  // ---- packets, from the view before they came ----

  /** The config epoch of k once the header of m is processed. */
  function Raised(v: View, m: Msg, k: Id): nat {
    if k == m.sender && v.Epoch(k) < m.configEpoch then m.configEpoch else v.Epoch(k)
  }

  /** The sender, a master so far, announces that it is a slave: its slots are freed. */
  predicate Frees(v: View, m: Msg, j: int)
    requires 0 <= j < |v.slots|
  {
    m.body.Heartbeat? && m.slaveof.Some? && v.IsMaster(m.sender) && v.slots[j] == Some(m.sender)
  }

  /** The sender claims slot j as a master. */
  predicate Claims(v: View, m: Msg, j: int)
    requires 0 <= j < |v.slots|
  {
    m.body.Heartbeat? && m.slaveof.None? && j in m.claim && j !in v.importing && Newer(v, m.configEpoch, j)
  }

  /** The sender tells of a newer claim of another node. */
  predicate Tells(v: View, m: Msg, j: int)
    requires 0 <= j < |v.slots|
  {
    && m.body.Update? && m.body.about in v.nodes && m.body.about != v.me && Raised(v, m, m.body.about) < m.body.epoch
    && j in m.body.slots && j !in v.importing
    && (v.slots[j].None? || Raised(v, m, v.slots[j].value) < m.body.epoch)
  }

  /** The owner of slot j after the packet. */
  function Owner(v: View, m: Msg, j: int): Option<Id>
    requires 0 <= j < |v.slots|
  {
    if Frees(v, m, j) then None
    else if Claims(v, m, j) then Some(m.sender)
    else if Tells(v, m, j) then Some(m.body.about)
    else v.slots[j]
  }

  lemma SwitchMoves(v: View, n: Id, slaveof: Option<Id>, j: int)
    requires v.me in v.nodes && n in v.nodes && 0 <= j < |v.slots|
    ensures var r := SwitchRole(v, n, slaveof);
      && r.me == v.me && r.importing == v.importing && (r.IsMaster(n) <==> slaveof.None?)
      && r.slots[j] == if slaveof.Some? && v.IsMaster(n) && v.slots[j] == Some(n) then None else v.slots[j]
  {
  }

  lemma HeaderRaised(v: View, m: Msg)
    requires m.sender in v.nodes
    ensures var r := Header(v, m);
      && r.me == v.me && r.slots == v.slots && r.importing == v.importing && r.nodes.Keys == v.nodes.Keys
      && (forall k :: r.Epoch(k) == Raised(v, m, k)) && (forall k :: r.IsMaster(k) <==> v.IsMaster(k))
  {
  }

  lemma ConfigMoves(v: View, m: Msg, j: int)
    requires v.me in v.nodes && m.sender in v.nodes && m.sender != v.me && 0 <= j < |v.slots|
    ensures HeartbeatConfig(v, m).slots[j] ==
      if m.slaveof.Some? then (if v.IsMaster(m.sender) && v.slots[j] == Some(m.sender) then None else v.slots[j])
      else if j in m.claim && j !in v.importing && Newer(v, m.configEpoch, j) then Some(m.sender)
      else v.slots[j]
  {
    SwitchMoves(v, m.sender, m.slaveof, j);
    hide SwitchRole, UpdateSlots;
    var v1 := SwitchRole(v, m.sender, m.slaveof);
    ClaimMoves(v1, m.sender, m.configEpoch, m.claim, j);
    assert v1.Owned(m.sender) == m.claim && j in m.claim ==> v1.slots[j] == Some(m.sender);
  }

  lemma HeartbeatMoves(v: View, m: Msg, j: int)
    requires v.Shape() && m.sender in v.nodes && m.sender != v.me && m.body.Heartbeat? && 0 <= j < SLOTS
    ensures ProcessHeartbeat(Header(v, m), m).slots[j] == Owner(v, m, j)
  {
    HeaderRaised(v, m);
    hide Header, HeartbeatConfig;
    ConfigMoves(Header(v, m), m, j);
  }

  lemma UpdateMoves(v: View, m: Msg, j: int)
    requires v.Shape() && m.sender in v.nodes && m.body.Update? && 0 <= j < SLOTS
    ensures ProcessUpdate(Header(v, m), m.body.about, m.body.epoch, m.body.slots).slots[j] == Owner(v, m, j)
  {
    HeaderRaised(v, m);
    hide Header, UpdateSlots;
    var v1, n := Header(v, m), m.body.about;
    if n in v1.nodes && v1.Epoch(n) < m.body.epoch {
      var v2 := if v1.nodes[n].role == Slave then SetAsMaster(v1, n) else v1;
      ClaimMoves(v2.SetEpoch(n, m.body.epoch), n, m.body.epoch, m.body.slots, j);
    }
  }

  // ---- every step ----

  /** The owner node n records for slot j after the step. */
  function OwnerAfter(s: System, step: Step, n: Id, j: int): Option<Id>
    requires s.WF() && Enabled(s, step) && n in s.views && 0 <= j < SLOTS
  {
    var v := s.views[n];
    match step
    case Deliver(p, _, _) => if p.to == n && p.msg.sender in v.nodes then Owner(v, p.msg, j) else v.slots[j]
    case Failover(k, x) =>
      if k == n && Epochs.Wins(v, x) && v.slots[j] == v.At(n).slaveof then Some(n) else v.slots[j]
    case _ => v.slots[j]
  }

  /** Votes and ACKs move nothing. */
  lemma SilentMoves(v: View, m: Msg, j: int)
    requires m.sender in v.nodes && 0 <= j < |v.slots| && !m.body.Heartbeat? && !m.body.Update?
    ensures Header(v, m).slots == v.slots && Owner(v, m, j) == v.slots[j]
  {
  }

  lemma ReceiveMoves(s: System, p: Packet, now: int, timeout: int, n: Id, j: int)
    requires s.WF() && Enabled(s, Deliver(p, now, timeout)) && n in s.views && 0 <= j < SLOTS
    ensures Receive(s, p.to, p.msg, now, timeout).views[n].slots[j] == OwnerAfter(s, Deliver(p, now, timeout), n, j)
  {
    hide Header, ProcessHeartbeat, ProcessUpdate, MayVote, Counts, BuildMsg, Owner, System.WF;
    var v, m := s.views[p.to], p.msg;
    assert v.me == p.to && v.Shape() by { Shaped(s, p.to); }
    if m.sender in v.nodes {
      match m.body {
        case Heartbeat => HeartbeatMoves(v, m, j);
        case Update(_, _, _) => UpdateMoves(v, m, j);
        case _ => SilentMoves(v, m, j);
      }
    }
  }

  lemma Shaped(s: System, n: Id)
    requires s.WF() && n in s.views
    ensures s.views[n].me == n && s.views[n].Shape()
  {
  }

  lemma TimerMoves(v: View, x: Clock, j: int)
    requires v.Shape() && 0 <= j < SLOTS
    ensures SlaveFailover(v, x).0.slots[j]
         == if Epochs.Wins(v, x) && v.slots[j] == v.At(v.me).slaveof then Some(v.me) else v.slots[j]
  {
    Epochs.WonIff(v, x);
  }

  /** For every step of the cluster, every node and every slot. */
  lemma StepMoves(s: System, step: Step, n: Id, j: int)
    requires s.WF() && Enabled(s, step) && n in s.views && 0 <= j < SLOTS
    ensures Exec(s, step).views[n].slots[j] == OwnerAfter(s, step, n, j)
  {
    hide Receive, SlaveFailover, Perform, BuildMsg, Owner, Epochs.Wins;
    match step {
      case Deliver(p, now, timeout) => ReceiveMoves(s, p, now, timeout, n, j);
      case Failover(k, x) => if k == n { TimerMoves(s.views[n], x, j); }
      case _ =>
    }
  }

  // ---- slots being imported ----

  /** The only steps that touch a slot being imported: its owner announces that it is a
      slave, or the node wins the failover of its owner. */
  predicate Disturbs(s: System, step: Step, n: Id, j: int)
    requires s.WF() && Enabled(s, step) && n in s.views && 0 <= j < SLOTS
  {
    var v := s.views[n];
    match step
    case Deliver(p, _, _) => p.to == n && p.msg.sender in v.nodes && Frees(v, p.msg, j)
    case Failover(k, x) => k == n && Epochs.Wins(v, x) && v.slots[j] == v.At(n).slaveof
    case _ => false
  }

  lemma ImportedStays(s: System, step: Step, n: Id, j: int)
    requires s.WF() && Enabled(s, step) && n in s.views && 0 <= j < SLOTS
    requires j in s.views[n].importing && !Disturbs(s, step, n, j)
    ensures Exec(s, step).views[n].slots[j] == s.views[n].slots[j]
  {
    hide Exec, Epochs.Wins;
    StepMoves(s, step, n, j);
  }

  /** Slot j stays in the importing state of n, and nothing disturbs it. */
  predicate Importing(s: System, steps: seq<Step>, n: Id, j: int)
    requires s.WF() && Run(s, steps) && n in s.views && 0 <= j < SLOTS
    decreases |steps|
  {
    && j in s.views[n].importing
    && (steps == [] || (!Disturbs(s, steps[0], n, j) && Importing(Exec(s, steps[0]), steps[1..], n, j)))
  }

  /** Over every run: whatever is claimed, a slot being imported keeps its owner. */
  lemma {:induction false} ImportedNeverMoves(s: System, steps: seq<Step>, n: Id, j: int)
    requires s.WF() && Run(s, steps) && n in s.views && 0 <= j < SLOTS && Importing(s, steps, n, j)
    ensures After(s, steps).views[n].slots[j] == s.views[n].slots[j]
    decreases |steps|
  {
    hide Exec, Enabled, Disturbs, System.WF;
    if steps != [] {
      ImportedStays(s, steps[0], n, j);
      ImportedNeverMoves(Exec(s, steps[0]), steps[1..], n, j);
    }
  }
}
