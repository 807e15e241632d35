/** Over every run in which collisions are the only source of new config epochs,
    the number of moves is bounded; and a collision that is heard is resolved. */
module CollisionRuns {
  import opened Basics
  import opened Cluster
  import opened ClusterSystem
  import opened Collision

  function KnowAll(s: System): map<Id, Knower> {
    KnowOf(s.views)
  }

  function KnowOf(views: map<Id, View>): map<Id, Knower> {
    map n | n in views :: Know(views[n])
  }

  function Own(s: System, n: Id): nat
    requires s.WF() && n in s.views
  {
    s.views[n].Epoch(n)
  }

  ghost predicate Masters(s: System) {
    forall n :: n in s.views ==> s.views[n].IsMaster(n)
  }

  /** A cluster of masters that starts with nothing in flight and correct records. */
  ghost predicate Init(s: System) {
    && s.WF() && s.net == {}
    && forall n :: n in s.views ==>
      && Own(s, n) <= s.views[n].currentEpoch
      && forall k :: k in s.views[n].nodes && k in s.views ==> s.views[n].Epoch(k) == Own(s, k)
  }

  predicate AssignsNoEpoch(step: Step) {
    step.Local? ==> !step.command.Bump? && !step.command.AssignEpoch?
  }

  /** All nodes stay masters and no administrator assigns epochs. */
  ghost predicate CalmRun(s: System, steps: seq<Step>)
    requires s.WF()
    decreases |steps|
  {
    && Masters(s)
    && (steps == [] ||
        (&& Enabled(s, steps[0]) && AssignsNoEpoch(steps[0])
         && CalmRun(Exec(s, steps[0]), steps[1..])))
  }

  /** How often the config epoch of n changes in a run. */
  ghost function Moves(s: System, steps: seq<Step>, n: Id): nat
    requires s.WF() && Run(s, steps) && n in s.views
    decreases |steps|
  {
    if steps == [] then 0
    else
      var s1 := Exec(s, steps[0]);
      (if Own(s1, n) != Own(s, n) then 1 else 0) + Moves(s1, steps[1..], n)
  }

  lemma HeaderLearns(v: View, m: Msg, held: History)
    requires m.sender in v.nodes
    requires m.sender in held ==> m.configEpoch in held[m.sender] && v.Epoch(m.sender) in held[m.sender]
    ensures Learns(Know(v), Know(Header(v, m)), m.sender, held)
  {
  }

  lemma UpdateLearns(v: View, n: Id, epoch: nat, slots: set<int>, held: History)
    requires v.me in v.nodes
    requires n in v.nodes && n in held ==> epoch in held[n] && v.Epoch(n) in held[n]
    ensures Learns(Know(v), Know(ProcessUpdate(v, n, epoch, slots)), n, held)
  {
  }

  /** A heartbeat changes no epoch, unless it collides with ours and its sender's name is greater. */
  lemma HeartbeatMoves(v: View, m: Msg)
    requires v.me in v.nodes && m.sender in v.nodes && m.sender != v.me
    ensures var r := ProcessHeartbeat(v, m);
            || Know(r) == Know(v)
            || (&& Know(r) == Moved(Know(v), v.me)
                && m.sender > v.me && v.Epoch(v.me) == m.configEpoch)
  {
    hide HeartbeatConfig;
    assert Know(HeartbeatConfig(v, m)) == Know(v);
  }

  lemma SetViewKnow(s: System, n: Id, v: View)
    requires s.WF() && n in s.views && v.Shape() && v.me == n
    ensures KnowAll(s.SetView(n, v)) == KnowAll(s)[n := Know(v)]
  {
  }

  lemma SameKnow(views: map<Id, View>, n: Id, v: View)
    requires n in views && SameEpochs(views[n], v)
    ensures KnowOf(views[n := v]) == KnowOf(views)
  {
    assert Know(v) == Know(views[n]);
  }

  /** The records of a node, and the packets in flight, tell epochs that were had. */
  lemma HeldFacts(s: System, held: History, n: Id, k: Id)
    requires Collision.Inv(KnowAll(s), s.net, held) && n in s.views
    ensures forall p :: p in s.net ==> PacketHeld(p, held)
    ensures k in s.views[n].nodes && k in held ==> s.views[n].Epoch(k) in held[k]
  {
    assert k in s.views[n].nodes ==> KnowAll(s)[n].epochs[k] == s.views[n].Epoch(k);
  }

  lemma HeaderResult(s: System, p: Packet, held: History)
    requires s.WF() && Collision.Inv(KnowAll(s), s.net, held) && p in s.net && p.to in s.views
    requires p.msg.sender in s.views[p.to].nodes
    ensures var s1 := s.SetView(p.to, Header(s.views[p.to], p.msg));
            Result(KnowAll(s), KnowAll(s1), s.net, held, held)
  {
    HeldFacts(s, held, p.to, p.msg.sender);
    hide Collision.Inv;
    var v1 := Header(s.views[p.to], p.msg);
    HeaderLearns(s.views[p.to], p.msg, held);
    LearnResult(KnowAll(s), s.net, held, p.to, Know(v1), p.msg.sender);
    SetViewKnow(s, p.to, v1);
  }

  lemma UpdateResult(s: System, p: Packet, held: History)
    requires s.WF() && Collision.Inv(KnowAll(s), s.net, held) && p in s.net && p.to in s.views && p.msg.body.Update?
    ensures var b := p.msg.body;
            var s1 := s.SetView(p.to, ProcessUpdate(s.views[p.to], b.about, b.epoch, b.slots));
            Result(KnowAll(s), KnowAll(s1), s.net, held, held)
  {
    var b := p.msg.body;
    HeldFacts(s, held, p.to, b.about);
    hide Collision.Inv;
    var v1 := ProcessUpdate(s.views[p.to], b.about, b.epoch, b.slots);
    UpdateLearns(s.views[p.to], b.about, b.epoch, b.slots, held);
    LearnResult(KnowAll(s), s.net, held, p.to, Know(v1), b.about);
    SetViewKnow(s, p.to, v1);
  }

  lemma HeartbeatResult(s: System, p: Packet, held: History) returns (held1: History)
    requires s.WF() && Collision.Inv(KnowAll(s), s.net, held) && p in s.net && p.to in s.views
    requires p.msg.sender in s.views[p.to].nodes && p.msg.sender != p.to
    ensures var s1 := s.SetView(p.to, ProcessHeartbeat(s.views[p.to], p.msg));
            Result(KnowAll(s), KnowAll(s1), s.net, held, held1)
  {
    var n, m := p.to, p.msg;
    hide Collision.Inv, ProcessHeartbeat, Result;
    HeldFacts(s, held, n, n);
    var v1 := ProcessHeartbeat(s.views[n], m);
    HeartbeatMoves(s.views[n], m);
    SetViewKnow(s, n, v1);
    assert Know(s.views[n]).epochs[n] == s.views[n].Epoch(n);
    if Know(v1) == Know(s.views[n]) {
      assert KnowAll(s)[n := Know(v1)] == KnowAll(s);
      NetHeld(s, held);
      SameResult(KnowAll(s), s.net, s.net, held);
      held1 := held;
    } else {
      KeysHeld(s, held);
      MoveResult(KnowAll(s), s.net, held, n, m.sender);
      held1 := Note(held, n, KnowAll(s)[n].current + 1);
    }
  }

  lemma NetHeld(s: System, held: History)
    requires Collision.Inv(KnowAll(s), s.net, held)
    ensures forall p :: p in s.net ==> PacketHeld(p, held)
  {
  }

  lemma KeysHeld(s: System, held: History)
    requires Collision.Inv(KnowAll(s), s.net, held)
    ensures held.Keys == s.views.Keys
  {
  }

  lemma FewerPackets(know: map<Id, Knower>, net: set<Packet>, p: Packet, held: History)
    requires Collision.Inv(know, net, held)
    ensures Collision.Inv(know, net - {p}, held)
  {
    hide RecordsHeld, OwnIsGreatest, LeftWereShared, PacketHeld;
  }

  lemma ConsumeResult(s: System, r: System, p: Packet, held: History, held1: History)
    requires r.WF() && Result(KnowAll(s), KnowAll(r), r.net, held, held1)
    ensures Result(KnowAll(s), KnowAll(r.Consume(p)), r.Consume(p).net, held, held1)
  {
    hide Collision.Inv, Kept, Collision.Known, KnowOf;
    FewerPackets(KnowAll(r), r.net, p, held1);
  }

  lemma PostResult(s: System, r: System, p: Packet, held: History)
    requires Collision.Inv(KnowAll(s), s.net, held)
    requires KnowAll(r) == KnowAll(s) && r.net == s.net + {p} && PacketHeld(p, held)
    ensures Result(KnowAll(s), KnowAll(r), r.net, held, held)
  {
    NetHeld(s, held);
    hide Collision.Inv, PacketHeld;
    SameResult(KnowAll(s), s.net, r.net, held);
  }

  lemma BodyResult(s: System, p: Packet, now: int, timeout: int, held: History) returns (held1: History)
    requires s.WF() && Collision.Inv(KnowAll(s), s.net, held) && p in s.net && p.to in s.views && Masters(s)
    requires p.msg.sender in s.views[p.to].nodes && p.msg.sender != p.to
    ensures var r := ReceiveBody(s, p.to, p.msg, now, timeout);
            Result(KnowAll(s), KnowAll(r), r.net, held, held1)
  {
    hide Collision.Inv, Result, ProcessHeartbeat, ProcessUpdate, ReceiveRequest, ReceiveAck, KnowOf, PacketHeld;
    held1 := held;
    match p.msg.body {
      case Heartbeat =>
        held1 := HeartbeatResult(s, p, held);
      case Update(_, _, _) =>
        UpdateResult(s, p, held);
      case AuthRequest(_) =>
        RequestResult(s, p, now, timeout, held);
      case AuthAck =>
        AckKnow(s, p.to, p.msg);
        NetHeld(s, held);
        SameResult(KnowAll(s), s.net, s.net, held);
    }
  }

  lemma AckKnow(s: System, n: Id, m: Msg)
    requires s.WF() && n in s.views && m.sender in s.views[n].nodes
    ensures KnowAll(ReceiveAck(s, n, m)) == KnowAll(s) && ReceiveAck(s, n, m).net == s.net
  {
    hide Counts;
    var v := s.views[n];
    if Counts(v, m) {
      SameKnow(s.views, n, v.(auth := v.auth.(count := v.auth.count + 1)));
    }
  }

  lemma RequestKnow(s: System, n: Id, m: Msg, now: int, timeout: int)
    requires s.WF() && n in s.views && m.sender in s.views[n].nodes
    ensures KnowAll(ReceiveRequest(s, n, m, now, timeout)) == KnowAll(s)
  {
    var v := s.views[n];
    if MayVote(v, m, now, timeout) {
      SameKnow(s.views, n, Vote(v, m.sender, now));
    }
  }

  lemma OwnHeld(s: System, held: History, n: Id)
    requires s.WF() && Collision.Inv(KnowAll(s), s.net, held) && n in s.views
    ensures n in held && Own(s, n) in held[n]
  {
    assert KnowAll(s)[n].epochs[n] == Own(s, n);
  }

  lemma RequestResult(s: System, p: Packet, now: int, timeout: int, held: History)
    requires s.WF() && Collision.Inv(KnowAll(s), s.net, held) && p in s.net && p.to in s.views && Masters(s)
    requires p.msg.sender in s.views[p.to].nodes
    ensures var r := ReceiveRequest(s, p.to, p.msg, now, timeout);
            Result(KnowAll(s), KnowAll(r), r.net, held, held)
  {
    hide Collision.Inv, Result, MayVote, KnowAll;
    var v, r := s.views[p.to], ReceiveRequest(s, p.to, p.msg, now, timeout);
    if MayVote(v, p.msg, now, timeout) {
      OwnHeld(s, held, p.to);
      RequestKnow(s, p.to, p.msg, now, timeout);
      PostResult(s, r, Packet(s.nextUid, p.msg.sender, BuildMsg(v, AuthAck)), held);
    } else {
      NetHeld(s, held);
      SameResult(KnowAll(s), s.net, s.net, held);
    }
  }

  lemma DeliverResult(s: System, p: Packet, now: int, timeout: int, held: History) returns (held1: History)
    requires s.WF() && Collision.Inv(KnowAll(s), s.net, held) && Masters(s)
    requires p in s.net && p.to in s.views && p.msg.sender != p.to
    ensures var r := Receive(s, p.to, p.msg, now, timeout).Consume(p);
            Result(KnowAll(s), KnowAll(r), r.net, held, held1)
  {
    hide Collision.Inv, Result, ReceiveBody, Header;
    if p.msg.sender in s.views[p.to].nodes {
      var s1 := s.SetView(p.to, Header(s.views[p.to], p.msg));
      HeaderResult(s, p, held);
      InvOf(KnowAll(s), KnowAll(s1), s.net, held, held);
      HeaderMasters(s, p.to, p.msg);
      held1 := BodyResult(s1, p, now, timeout, held);
      var r := ReceiveBody(s1, p.to, p.msg, now, timeout);
      ThenResult(KnowAll(s), KnowAll(s1), KnowAll(r), s1.net, r.net, held, held1);
      ConsumeResult(s, r, p, held, held1);
    } else {
      held1 := held;
      NetHeld(s, held);
      SameResult(KnowAll(s), s.net, s.net, held);
      ConsumeResult(s, s, p, held, held);
    }
  }

  lemma InvOf(know: map<Id, Knower>, know1: map<Id, Knower>, net1: set<Packet>, held: History, held1: History)
    requires Result(know, know1, net1, held, held1)
    ensures Collision.Inv(know1, net1, held1)
  {
    hide Collision.Inv;
  }

  lemma HeaderMasters(s: System, n: Id, m: Msg)
    requires s.WF() && Masters(s) && n in s.views && m.sender in s.views[n].nodes
    ensures Masters(s.SetView(n, Header(s.views[n], m)))
  {
  }

  lemma HeartbeatSent(s: System, n: Id, to: Id, held: History)
    requires s.WF() && Collision.Inv(KnowAll(s), s.net, held) && Masters(s) && Enabled(s, SendHeartbeat(n, to))
    ensures var r := Exec(s, SendHeartbeat(n, to)); Result(KnowAll(s), KnowAll(r), r.net, held, held)
  {
    hide Collision.Inv, Result, KnowOf;
    OwnHeld(s, held, n);
    PostResult(s, Exec(s, SendHeartbeat(n, to)), Packet(s.nextUid, to, BuildMsg(s.views[n], Heartbeat)), held);
  }

  lemma UpdateSent(s: System, n: Id, to: Id, slot: int, held: History)
    requires s.WF() && Collision.Inv(KnowAll(s), s.net, held) && Masters(s) && Enabled(s, SendUpdate(n, to, slot))
    ensures var r := Exec(s, SendUpdate(n, to, slot)); Result(KnowAll(s), KnowAll(r), r.net, held, held)
  {
    hide Collision.Inv, Result, KnowOf;
    UpdateHeld(s, n, s.views[n].slots[slot].value, held);
    PostResult(s, Exec(s, SendUpdate(n, to, slot)),
               Packet(s.nextUid, to, BuildUpdate(s.views[n], s.views[n].slots[slot].value)), held);
  }

  lemma Duplicated(s: System, p: Packet, held: History)
    requires s.WF() && Collision.Inv(KnowAll(s), s.net, held) && Enabled(s, Duplicate(p))
    ensures var r := Exec(s, Duplicate(p)); Result(KnowAll(s), KnowAll(r), r.net, held, held)
  {
    hide Collision.Inv, Result, KnowOf;
    NetHeld(s, held);
    PostResult(s, Exec(s, Duplicate(p)), p.(uid := s.nextUid), held);
  }

  lemma TimerFired(s: System, n: Id, x: Clock, held: History)
    requires s.WF() && Collision.Inv(KnowAll(s), s.net, held) && Masters(s) && n in s.views
    ensures var r := Exec(s, Failover(n, x)); Result(KnowAll(s), KnowAll(r), r.net, held, held)
  {
    hide Collision.Inv, Result, KnowOf, RunFailover;
    NetHeld(s, held);
    SameResult(KnowAll(s), s.net, s.net, held);
    MasterStays(s, n, x);
  }

  lemma CommandDone(s: System, n: Id, command: Command, held: History)
    requires s.WF() && Collision.Inv(KnowAll(s), s.net, held) && n in s.views && AssignsNoEpoch(Local(n, command))
    ensures var r := Exec(s, Local(n, command)); Result(KnowAll(s), KnowAll(r), r.net, held, held)
  {
    hide Collision.Inv, Result, KnowOf;
    LocalResult(s, n, Perform(s.views[n], command), held);
  }

  lemma Delivered(s: System, p: Packet, now: int, timeout: int, held: History) returns (held1: History)
    requires s.WF() && Collision.Inv(KnowAll(s), s.net, held) && Masters(s) && Enabled(s, Deliver(p, now, timeout))
    ensures var r := Exec(s, Deliver(p, now, timeout)); Result(KnowAll(s), KnowAll(r), r.net, held, held1)
  {
    hide Collision.Inv, Result, Receive, KnowAll, Masters;
    held1 := DeliverResult(s, p, now, timeout, held);
  }

  lemma StepResult(s: System, step: Step, held: History) returns (held1: History)
    requires s.WF() && Collision.Inv(KnowAll(s), s.net, held) && Masters(s)
    requires Enabled(s, step) && AssignsNoEpoch(step)
    ensures var r := Exec(s, step); Result(KnowAll(s), KnowAll(r), r.net, held, held1)
  {
    hide Collision.Inv, Result, KnowAll, Exec, System.WF, Masters;
    held1 := held;
    match step {
      case SendHeartbeat(n, to) => HeartbeatSent(s, n, to, held);
      case SendUpdate(n, to, slot) => UpdateSent(s, n, to, slot, held);
      case Deliver(p, now, timeout) => held1 := Delivered(s, p, now, timeout, held);
      case Duplicate(p) => Duplicated(s, p, held);
      case Failover(n, x) => TimerFired(s, n, x, held);
      case Local(n, command) => CommandDone(s, n, command, held);
    }
  }

  /** The failover timer of a master does nothing. */
  lemma MasterStays(s: System, n: Id, x: Clock)
    requires s.WF() && n in s.views && Masters(s)
    ensures RunFailover(s, n, x) == s
  {
    assert s.SetView(n, s.views[n]) == s;
  }

  lemma LocalResult(s: System, n: Id, v: View, held: History)
    requires s.WF() && Collision.Inv(KnowAll(s), s.net, held) && n in s.views && v.Shape() && v.me == n
    requires SameEpochs(s.views[n], v)
    ensures Result(KnowAll(s), KnowAll(s.SetView(n, v)), s.net, held, held)
  {
    NetHeld(s, held);
    hide Collision.Inv, Result, SameEpochs, KnowOf;
    SameKnow(s.views, n, v);
    SameResult(KnowAll(s), s.net, s.net, held);
  }

  lemma UpdateHeld(s: System, n: Id, about: Id, held: History)
    requires s.WF() && Collision.Inv(KnowAll(s), s.net, held) && Masters(s) && n in s.views
    requires about in s.views[n].nodes
    ensures forall uid, to :: PacketHeld(Packet(uid, to, BuildUpdate(s.views[n], about)), held)
  {
    OwnHeld(s, held, n);
    HeldFacts(s, held, n, about);
    hide Collision.Inv;
  }

  /** One step more in the history is one move more. */
  lemma StepCounts(s: System, r: System, held: History, held1: History, n: Id)
    requires s.WF() && r.WF() && r.views.Keys == s.views.Keys && n in s.views
    requires Result(KnowAll(s), KnowAll(r), r.net, held, held1)
    ensures n in held && n in held1
    ensures |held1[n]| == |held[n]| + if Own(r, n) != Own(s, n) then 1 else 0
  {
    hide Result;
    ResultKept(KnowAll(s), KnowAll(r), r.net, held, held1, n);
    assert KnowAll(s)[n].epochs[n] == Own(s, n) && KnowAll(r)[n].epochs[n] == Own(r, n);
  }

  lemma {:induction false} RunCounts(s: System, steps: seq<Step>, held: History) returns (held1: History)
    requires s.WF() && CalmRun(s, steps) && Collision.Inv(KnowAll(s), s.net, held)
    ensures Run(s, steps)
    ensures Collision.Inv(KnowAll(After(s, steps)), After(s, steps).net, held1)
    ensures held.Keys == held1.Keys == s.views.Keys
    ensures forall n :: n in s.views ==> |held1[n]| == |held[n]| + Moves(s, steps, n)
    decreases |steps|
  {
    KeysHeld(s, held);
    if steps == [] {
      held1 := held;
    } else {
      var s1 := Exec(s, steps[0]);
      var h := StepResult(s, steps[0], held);
      InvOf(KnowAll(s), KnowAll(s1), s1.net, held, h);
      hide Exec, Collision.Inv;
      held1 := RunCounts(s1, steps[1..], h);
      forall n | n in s.views ensures |held1[n]| == |held[n]| + Moves(s, steps, n) {
        StepCounts(s, s1, held, h, n);
      }
    }
  }

  ghost function OwnAll(s: System): map<Id, nat>
    requires s.WF()
  {
    map n | n in s.views :: Own(s, n)
  }

  lemma InitFact(s: System, n: Id)
    requires Init(s) && n in s.views
    ensures n in KnowAll(s) && StartsWith(KnowAll(s)[n], n, OwnAll(s))
  {
  }

  lemma KnowKeys(s: System)
    requires s.WF()
    ensures KnowAll(s).Keys == s.views.Keys == OwnAll(s).Keys
  {
  }

  lemma InitHeld(s: System) returns (held: History)
    requires Init(s)
    ensures Collision.Inv(KnowAll(s), s.net, held)
    ensures held.Keys == s.views.Keys && forall n :: n in s.views ==> |held[n]| == 1
  {
    hide KnowAll, OwnAll, Collision.Inv, StartsWith, System.WF, View.Shape;
    KnowKeys(s);
    held := map n | n in OwnAll(s) :: {OwnAll(s)[n]};
    forall n | n in s.views
      ensures StartsWith(KnowAll(s)[n], n, OwnAll(s))
    {
      InitFact(s, n);
    }
    StartInv(KnowAll(s), held, OwnAll(s));
  }

  /** The master with r masters of greater name above it moves at most 2^r - 1 times:
      the greatest name never moves. */
  lemma MovesBound(s: System, steps: seq<Step>, n: Id)
    requires Init(s) && CalmRun(s, steps) && n in s.views
    ensures Run(s, steps)
    ensures Moves(s, steps, n) <= Pow2(|set k | k in s.views && k > n|) - 1
  {
    var held := InitHeld(s);
    var held1 := RunCounts(s, steps, held);
    hide CalmRun, Exec, Collision.Inv;
    HeldBound(KnowAll(After(s, steps)), After(s, steps).net, held1, n);
    assert Above(held1, n) == set k | k in s.views && k > n;
  }

  /** The moves of all masters `ids` together. */
  ghost function AllMoves(s: System, steps: seq<Step>, ids: set<Id>): nat
    requires s.WF() && Run(s, steps) && ids <= s.views.Keys
  {
    if ids == {} then 0 else var m := Least(ids); Moves(s, steps, m) + AllMoves(s, steps, ids - {m})
  }

  lemma {:induction false} AllMovesCount(s: System, steps: seq<Step>, held1: History, ids: set<Id>)
    requires s.WF() && Run(s, steps) && ids <= s.views.Keys == held1.Keys
    requires forall n :: n in s.views ==> |held1[n]| == 1 + Moves(s, steps, n)
    ensures Total(held1, ids) == |ids| + AllMoves(s, steps, ids)
  {
    hide Run, Moves, System.WF, View.Shape;
    if ids != {} {
      var m := Least(ids);
      AllMovesCount(s, steps, held1, ids - {m});
    }
  }

  /** n masters move at most 2^n - n - 1 times together, whatever is delayed,
      reordered, duplicated or lost: collision resolution stops. */
  lemma AllMovesBound(s: System, steps: seq<Step>)
    requires Init(s) && CalmRun(s, steps)
    ensures Run(s, steps)
    ensures AllMoves(s, steps, s.views.Keys) <= Pow2(|s.views|) - |s.views| - 1
  {
    hide CalmRun, Run, After, Exec, Collision.Inv, Moves, AllMoves, Total;
    var held := InitHeld(s);
    var held1 := RunCounts(s, steps, held);
    AllHeldBound(KnowAll(After(s, steps)), After(s, steps).net, held1);
    AllMovesCount(s, steps, held1, s.views.Keys);
    assert |s.views| == |s.views.Keys|;
  }

  /** A collision that is heard is resolved: when a master gets the heartbeat of a
      master with a greater name and the same epoch, it moves to a greater epoch. */
  lemma HeardCollisionResolves(a: View, b: View)
    requires a.Sound() && b.Sound() && a.IsMaster(a.me) && b.IsMaster(b.me)
    requires a.me < b.me && b.me in a.nodes
    requires a.Epoch(a.me) == b.Epoch(b.me) && a.Epoch(b.me) <= b.Epoch(b.me) && a.Epoch(a.me) <= a.currentEpoch
    ensures var m := BuildMsg(b, Heartbeat);
            var r := ProcessHeartbeat(Header(a, m), m);
            && r.Epoch(a.me) > a.Epoch(a.me) && r.Epoch(a.me) > r.Epoch(b.me)
            && r.Epoch(a.me) == r.currentEpoch
  {
    var m := BuildMsg(b, Heartbeat);
    var v := Header(a, m);
    var v1 := SwitchRole(v, m.sender, m.slaveof);
    assert v1.CurMaster() == a.me;
    assert !TakesFromMaster(v1, m.sender, m.configEpoch, m.claim);
    var v2 := HeartbeatConfig(v, m);
    assert v2.IsMaster(a.me) && v2.IsMaster(b.me);
    assert v2.Epoch(b.me) == v2.Epoch(a.me) == m.configEpoch;
  }
}
