/** Why `ElectionSafety` speaks of stale ACKs: a run of five nodes in which two slaves
    win the same epoch.  Slave 4 is granted a vote, lets that election lapse, and only
    then receives the ACK; the counter was reset but the epoch it is compared with was
    not, so the ACK is counted towards the next election. */
module ElectionStale {
  import opened Basics
  import opened Cluster
  import opened Election
  import opened ClusterSystem
  import opened ElectionSafety

  // ---- quiet runs ----

  /** The ACK is counted although no votes were requested since the reset. */
  ghost predicate DeliversStale(s: System, step: Step)
    requires s.WF() && Enabled(s, step)
  {
    && step.Deliver? && step.p.msg.body.AuthAck? && step.p.msg.sender in s.views[step.p.to].nodes
    && !s.views[step.p.to].auth.sent && Counts(Header(s.views[step.p.to], step.p.msg), step.p.msg)
  }

  ghost predicate QuietRun(s: System, steps: seq<Step>)
    requires s.WF()
    decreases |steps|
  {
    steps == [] || (Enabled(s, steps[0]) && !DeliversStale(s, steps[0]) && QuietRun(Exec(s, steps[0]), steps[1..]))
  }

  ghost predicate NoneStale(s: System) {
    && (forall n :: n in s.tally ==> s.tally[n].stale == 0)
    && (forall w :: w in s.wins ==> w.stale == 0)
  }

  lemma QuietStep(s: System, step: Step)
    requires s.WF() && Enabled(s, step) && !DeliversStale(s, step) && NoneStale(s)
    ensures NoneStale(Exec(s, step))
  {
    hide SlaveFailover, Receive, Perform, BuildMsg, DeliversStale, View.Shape;
    match step {
      case Deliver(p, now, timeout) => QuietReceive(s, p, now, timeout);
      case _ =>
    }
  }

  lemma QuietReceive(s: System, p: Packet, now: int, timeout: int)
    requires s.WF() && Enabled(s, Deliver(p, now, timeout))
    requires !DeliversStale(s, Deliver(p, now, timeout)) && NoneStale(s)
    ensures NoneStale(Receive(s, p.to, p.msg, now, timeout))
  {
    hide ProcessHeartbeat, ProcessUpdate, MayVote, BuildMsg, Counts, View.Shape, Header;
  }

  lemma {:induction false} QuietRunNoneStale(s: System, steps: seq<Step>)
    requires s.WF() && QuietRun(s, steps) && NoneStale(s)
    ensures Run(s, steps) && NoneStale(After(s, steps))
    decreases |steps|
  {
    hide NoneStale, DeliversStale, Exec, Enabled;
    if steps != [] {
      QuietStep(s, steps[0]);
      QuietRunNoneStale(Exec(s, steps[0]), steps[1..]);
    }
  }

  /** At most one slave wins an epoch in every run that never delivers an ACK between
      the reset of a counter and the next request. */
  lemma QuietRunsElectOne(s: System, steps: seq<Step>, voters: set<Id>, w1: Win, w2: Win)
    requires Init(s) && FairRun(s, steps, voters) && QuietRun(s, steps)
    ensures Run(s, steps)
    ensures {w1, w2} <= After(s, steps).wins && w1.epoch == w2.epoch ==> w1.slave == w2.slave
  {
    QuietRunNoneStale(s, steps);
    OneWinnerPerEpoch(s, steps, voters, w1, w2);
    hide Init, FairRun, QuietRun;
  }

  // ---- the run ----

  /** Masters 1, 2 and 3 serve slots 0, 1 and 2; nodes 4 and 5 replicate node 3. */
  function Slots(): (r: seq<Option<Id>>)
    ensures |r| == SLOTS && r[0] == Some(1) && r[1] == Some(2) && r[2] == Some(3)
  {
    seq(SLOTS, j => if j == 0 then Some(1) else if j == 1 then Some(2) else if j == 2 then Some(3) else None)
  }

  function Held(n: Id): set<int> {
    set j | 0 <= j < |Slots()| && Slots()[j] == Some(n)
  }

  function Known(voted: int): map<Id, Info> {
    map[1 := Info(1, Master, None, false, 0), 2 := Info(2, Master, None, false, 0),
        3 := Info(3, Master, None, false, voted),
        4 := Info(3, Slave, Some(3), false, 0), 5 := Info(3, Slave, Some(3), false, 0)]
  }

  function V(me: Id, epoch: nat, lastVote: nat, auth: Auth, voted: int): View {
    View(me, epoch, lastVote, 3, Known(voted), Slots(), map[], auth)
  }

  function Request(slave: Id, epoch: nat): Msg {
    Msg(slave, epoch, 3, Some(3), Held(3), AuthRequest(true))
  }

  function Ack(master: Id, epoch: nat): Msg {
    Msg(master, epoch, master, None, Held(master), AuthAck)
  }

  /** A manual failover under way; the node timeout is one second. */
  function At(now: int): Clock {
    Clock(now, 1000, true, true, true, 0, 0, false)
  }

  lemma OwnedIsHeld(v: View, n: Id)
    requires v.slots == Slots()
    ensures v.Owned(n) == Held(n) && (1 <= n <= 3 ==> n - 1 in Held(n))
  {
  }

  lemma KnownChanges(voted: int, now: int)
    ensures Known(voted)[3 := Info(3, Master, None, false, now)] == Known(now)
  {
  }

  lemma HeaderRaises(me: Id, epoch: nat, lastVote: nat, auth: Auth, voted: int, m: Msg)
    requires 1 <= m.sender <= 5 && m.configEpoch == if m.sender <= 3 then m.sender else 3
    ensures m.sender in Known(voted)
    ensures Header(V(me, epoch, lastVote, auth, voted), m) == V(me, Max(epoch, m.currentEpoch), lastVote, auth, voted)
  {
    hide Slots;
    var k := Known(voted);
    assert k[m.sender := k[m.sender].(configEpoch := Max(k[m.sender].configEpoch, m.configEpoch))] == k;
  }

  lemma BuildsRequest(slave: Id, epoch: nat, lastVote: nat, auth: Auth, voted: int)
    requires slave == 4 || slave == 5
    ensures BuildMsg(V(slave, epoch, lastVote, auth, voted), AuthRequest(true)) == Request(slave, epoch)
  {
    hide Slots;
    OwnedIsHeld(V(slave, epoch, lastVote, auth, voted), 3);
  }

  lemma BuildsAck(master: Id, epoch: nat, lastVote: nat, auth: Auth, voted: int)
    requires 1 <= master <= 3
    ensures BuildMsg(V(master, epoch, lastVote, auth, voted), AuthAck) == Ack(master, epoch)
  {
    hide Slots;
    OwnedIsHeld(V(master, epoch, lastVote, auth, voted), master);
  }

  lemma Grants(master: Id, slave: Id, epoch: nat, lastVote: nat, auth: Auth, voted: int, now: int)
    requires 1 <= master <= 3 && (slave == 4 || slave == 5) && lastVote != epoch && now - voted >= 2000
    ensures MayVote(V(master, epoch, lastVote, auth, voted), Request(slave, epoch), now, 1000)
    ensures Vote(V(master, epoch, lastVote, auth, voted), slave, now) == V(master, epoch, epoch, auth, now)
  {
    OwnedIsHeld(V(master, epoch, lastVote, auth, voted), master);
    KnownChanges(voted, now);
  }

  lemma CountsAck(master: Id, slave: Id, epoch: nat, auth: Auth, voted: int)
    requires 1 <= master <= 3 && auth.epoch <= epoch
    ensures Counts(V(slave, epoch, 0, auth, voted), Ack(master, epoch))
  {
    hide Slots;
    OwnedIsHeld(V(slave, epoch, 0, auth, voted), master);
  }

  /** A slave schedules an election, requests votes, or wins. */
  lemma Schedules(slave: Id, epoch: nat, auth: Auth, now: int)
    requires (slave == 4 || slave == 5) && now - auth.time > 4000
    ensures SlaveFailover(V(slave, epoch, 0, auth, -9000), At(now))
         == (V(slave, epoch, 0, auth.(time := now, count := 0, sent := false, rank := 0), -9000), Scheduled)
  {
    hide Slots;
    OwnedIsHeld(V(slave, epoch, 0, auth, -9000), 3);
  }

  lemma Requests(slave: Id, epoch: nat, auth: Auth, now: int)
    requires (slave == 4 || slave == 5) && 0 <= now - auth.time <= 2000 && !auth.sent
    ensures SlaveFailover(V(slave, epoch, 0, auth, -9000), At(now))
         == (V(slave, epoch + 1, 0, auth.(epoch := epoch + 1, sent := true), -9000), Requested)
  {
    hide Slots;
    OwnedIsHeld(V(slave, epoch, 0, auth, -9000), 3);
  }

  lemma Wins(slave: Id, epoch: nat, auth: Auth, now: int)
    requires (slave == 4 || slave == 5) && 0 <= now - auth.time <= 2000 && auth.sent && auth.count == 2
    ensures SlaveFailover(V(slave, epoch, 0, auth, -9000), At(now)).1 == Won
  {
    hide Slots;
    OwnedIsHeld(V(slave, epoch, 0, auth, -9000), 3);
  }

  /** What one step of the run must establish for the run to be extended by it. */
  ghost predicate Leads(s: System, step: Step, r: System) {
    s.WF() && Enabled(s, step) && Fair(s, step, {1, 2, 3}) && r == Exec(s, step)
  }

  lemma {:induction false} Extend(s: System, steps: seq<Step>, step: Step, r: System)
    requires s.WF() && FairRun(s, steps, {1, 2, 3}) && Run(s, steps) && Leads(After(s, steps), step, r)
    ensures FairRun(s, steps + [step], {1, 2, 3}) && Run(s, steps + [step]) && After(s, steps + [step]) == r
    decreases |steps|
  {
    hide Exec, Enabled, Fair, System.WF;
    var all := steps + [step];
    if steps == [] {
      assert all[1..] == [];
    } else {
      assert all[0] == steps[0] && all[1..] == steps[1..] + [step];
      Extend(Exec(s, steps[0]), steps[1..], step, r);
    }
  }

  predicate Posted(net: set<Packet>, uid: nat, to: Id, slave: Id, epoch: nat) {
    Packet(uid, to, Request(slave, epoch + 1)) in net
  }

  lemma KnownAll(voted: int)
    ensures forall n :: n in Known(voted) <==> 1 <= n <= 5
  {
  }

  /** The failover timer of a slave that requests votes. */
  lemma StepRequest(s: System, slave: Id, epoch: nat, auth: Auth, now: int) returns (r: System)
    requires s.WF() && slave in s.views && s.views[slave] == V(slave, epoch, 0, auth, -9000)
    requires (slave == 4 || slave == 5) && 0 <= now - auth.time <= 2000 && !auth.sent
    ensures Leads(s, Failover(slave, At(now)), r)
    ensures r.views == s.views[slave := V(slave, epoch + 1, 0, auth.(epoch := epoch + 1, sent := true), -9000)]
    ensures s.net <= r.net && r.tally == s.tally && r.wins == s.wins && r.nextUid == s.nextUid + 1
    ensures forall to :: 1 <= to <= 5 && to != slave ==> Posted(r.net, s.nextUid, to, slave, epoch)
  {
    hide SlaveFailover, Slots, BuildMsg, Known, System.WF, Request;
    KnownAll(-9000);
    Requests(slave, epoch, auth, now);
    var v := V(slave, epoch + 1, 0, auth.(epoch := epoch + 1, sent := true), -9000);
    BuildsRequest(slave, epoch + 1, 0, auth.(epoch := epoch + 1, sent := true), -9000);
    r := Exec(s, Failover(slave, At(now)));
    assert forall to :: 1 <= to <= 5 && to != slave ==> to in v.nodes;
  }

  lemma StepSchedule(s: System, slave: Id, epoch: nat, auth: Auth, now: int) returns (r: System)
    requires s.WF() && slave in s.views && s.views[slave] == V(slave, epoch, 0, auth, -9000)
    requires (slave == 4 || slave == 5) && now - auth.time > 4000
    ensures Leads(s, Failover(slave, At(now)), r)
    ensures var auth1 := auth.(time := now, count := 0, sent := false, rank := 0);
      r == s.(views := s.views[slave := V(slave, epoch, 0, auth1, -9000)],
              tally := s.tally[slave := Tally({}, 0)])
  {
    hide SlaveFailover, Slots, BuildMsg, Known, System.WF;
    KnownAll(-9000);
    Schedules(slave, epoch, auth, now);
    r := Exec(s, Failover(slave, At(now)));
  }

  lemma StepWin(s: System, slave: Id, epoch: nat, auth: Auth, now: int) returns (r: System, v: View)
    requires s.WF() && slave in s.views && slave in s.tally && s.views[slave] == V(slave, epoch, 0, auth, -9000)
    requires (slave == 4 || slave == 5) && 0 <= now - auth.time <= 2000 && auth.sent && auth.count == 2
    ensures Leads(s, Failover(slave, At(now)), r)
    ensures r == s.(views := s.views[slave := v],
                    wins := s.wins + {Win(slave, auth.epoch, s.tally[slave].counted, s.tally[slave].stale)})
  {
    hide SlaveFailover, Slots, BuildMsg, Known, System.WF;
    KnownAll(-9000);
    Wins(slave, epoch, auth, now);
    r := Exec(s, Failover(slave, At(now)));
    assert |{1, 2, 3}| == 3;
    v := r.views[slave];
  }

  lemma StepGrant(s: System, p: Packet, old0: nat, lastVote: nat, auth: Auth, voted: int,
                  slave: Id, epoch: nat, now: int)
    returns (r: System)
    requires s.WF() && p in s.net && p.to in s.views && 1 <= p.to <= 3
    requires s.views[p.to] == V(p.to, old0, lastVote, auth, voted) && p.msg == Request(slave, epoch)
    requires (slave == 4 || slave == 5) && old0 <= epoch && lastVote != epoch && now - voted >= 2000
    ensures Leads(s, Deliver(p, now, 1000), r)
    ensures r.views == s.views[p.to := V(p.to, epoch, epoch, auth, now)]
    ensures r.tally == s.tally && r.wins == s.wins && r.nextUid == s.nextUid + 1
    ensures r.net == s.net + {Packet(s.nextUid, slave, Ack(p.to, epoch))} - {p}
  {
    hide MayVote, Slots, BuildMsg, Header, Vote, Known, System.WF, Ack, Counts;
    HeaderRaises(p.to, old0, lastVote, auth, voted, p.msg);
    Grants(p.to, slave, epoch, lastVote, auth, voted, now);
    BuildsAck(p.to, epoch, lastVote, auth, voted);
    r := Exec(s, Deliver(p, now, 1000));
    assert s.views[p.to := V(p.to, epoch, lastVote, auth, voted)][p.to := V(p.to, epoch, epoch, auth, now)]
        == s.views[p.to := V(p.to, epoch, epoch, auth, now)];
  }

  /** A slave only learns the epoch of a request. */
  lemma StepIgnore(s: System, p: Packet, epoch: nat, auth: Auth, slave: Id) returns (r: System)
    requires s.WF() && p in s.net && p.to in s.views && p.to == 5 && slave == 4
    requires s.views[5] == V(5, epoch, 0, auth, -9000) && p.msg == Request(slave, epoch + 1)
    ensures Leads(s, Deliver(p, 0, 1000), r)
    ensures r == s.(views := s.views[5 := V(5, epoch + 1, 0, auth, -9000)], net := s.net - {p})
  {
    hide Slots, BuildMsg, Header, Vote, Counts;
    HeaderRaises(5, epoch, 0, auth, -9000, p.msg);
    r := Exec(s, Deliver(p, 0, 1000));
  }

  function Counted(t: Tally, sent: bool, master: Id): Tally {
    if sent then t.(counted := t.counted + {master}) else t.(stale := t.stale + 1)
  }

  lemma StepAck(s: System, p: Packet, auth: Auth, master: Id, epoch: nat) returns (r: System)
    requires s.WF() && p in s.net && p.to in s.views && p.to in s.tally && (p.to == 4 || p.to == 5) && 1 <= master <= 3
    requires s.views[p.to] == V(p.to, epoch, 0, auth, -9000) && p.msg == Ack(master, epoch) && auth.epoch <= epoch
    ensures Leads(s, Deliver(p, 0, 1000), r)
    ensures r == s.(views := s.views[p.to := V(p.to, epoch, 0, auth.(count := auth.count + 1), -9000)],
                    net := s.net - {p},
                    tally := s.tally[p.to := Counted(s.tally[p.to], auth.sent, master)])
  {
    hide Slots, BuildMsg, Header, Counts, Known, System.WF;
    KnownAll(-9000);
    HeaderRaises(p.to, epoch, 0, auth, -9000, p.msg);
    CountsAck(master, p.to, epoch, auth, -9000);
    r := Exec(s, Deliver(p, 0, 1000));
    assert s.views[p.to := s.views[p.to]] == s.views;
  }

  // ---- the run, step after step ----

  function NoAuth(): Auth {
    Auth(0, 0, false, 0, 0)
  }

  function Start(): System {
    System(map[1 := V(1, 3, 0, NoAuth(), -9000), 2 := V(2, 3, 0, NoAuth(), -9000), 3 := V(3, 3, 0, NoAuth(), -9000),
               4 := V(4, 3, 0, NoAuth(), -9000), 5 := V(5, 3, 0, NoAuth(), -9000)],
           {}, 0, map[],
           map[1 := Tally({}, 0), 2 := Tally({}, 0), 3 := Tally({}, 0), 4 := Tally({}, 0), 5 := Tally({}, 0)],
           {})
  }

  lemma StartInit()
    ensures Init(Start())
  {
    hide Slots;
    KnownAll(-9000);
  }

  ghost predicate Reached(steps: seq<Step>, r: System) {
    var s := Start();
    s.WF() && FairRun(s, steps, {1, 2, 3}) && Run(s, steps) && r == After(s, steps)
  }

  lemma Reach(steps: seq<Step>, s: System, step: Step, r: System)
    requires Reached(steps, s) && Leads(s, step, r)
    ensures Reached(steps + [step], r) && r.WF()
  {
    hide Start, FairRun, Run, After, Exec, Enabled, Fair;
    Extend(Start(), steps, step, r);
  }

  /** The five views and the tallies of the two slaves. */
  datatype Cast = Cast(v1: View, v2: View, v3: View, v4: View, v5: View, t4: Tally, t5: Tally)

  ghost predicate Scene(r: System, c: Cast) {
    && r.WF() && r.views == map[1 := c.v1, 2 := c.v2, 3 := c.v3, 4 := c.v4, 5 := c.v5]
    && 4 in r.tally && 5 in r.tally && r.tally[4] == c.t4 && r.tally[5] == c.t5
  }

  function Recast(c: Cast, n: Id, v: View): Cast {
    if n == 1 then c.(v1 := v) else if n == 2 then c.(v2 := v) else if n == 3 then c.(v3 := v)
    else if n == 4 then c.(v4 := v) else c.(v5 := v)
  }

  function ViewOf(c: Cast, n: Id): View {
    if n == 1 then c.v1 else if n == 2 then c.v2 else if n == 3 then c.v3 else if n == 4 then c.v4 else c.v5
  }

  function Recount(c: Cast, n: Id, t: Tally): Cast {
    if n == 4 then c.(t4 := t) else c.(t5 := t)
  }

  function TallyOf(c: Cast, n: Id): Tally {
    if n == 4 then c.t4 else c.t5
  }

  lemma SceneViews(r: System, c: Cast, n: Id)
    requires Scene(r, c) && 1 <= n <= 5
    ensures n in r.views && r.views[n] == ViewOf(c, n)
    ensures n >= 4 ==> n in r.tally && r.tally[n] == TallyOf(c, n)
  {
  }

  lemma SceneAfter(s: System, c: Cast, n: Id, v: View, r: System)
    requires Scene(s, c) && 1 <= n <= 5 && r.WF() && r.views == s.views[n := v]
    ensures r.tally == s.tally ==> Scene(r, Recast(c, n, v))
    ensures forall t :: n >= 4 && r.tally == s.tally[n := t] ==> Scene(r, Recount(Recast(c, n, v), n, t))
  {
    hide System.WF;
  }

  lemma GoRequest(steps: seq<Step>, s: System, c: Cast, slave: Id, epoch: nat, auth: Auth, now: int)
    returns (more: seq<Step>, r: System)
    requires Reached(steps, s) && Scene(s, c) && ViewOf(c, slave) == V(slave, epoch, 0, auth, -9000)
    requires (slave == 4 || slave == 5) && 0 <= now - auth.time <= 2000 && !auth.sent
    ensures Reached(more, r)
    ensures Scene(r, Recast(c, slave, V(slave, epoch + 1, 0, auth.(epoch := epoch + 1, sent := true), -9000)))
    ensures s.net <= r.net && r.wins == s.wins && r.nextUid == s.nextUid + 1
    ensures forall to :: 1 <= to <= 5 && to != slave ==> Posted(r.net, s.nextUid, to, slave, epoch)
  {
    SceneViews(s, c, slave);
    hide Reached, Leads, V, System.WF, Recast, ViewOf, Scene, Posted;
    assert s.WF() by { SceneWF(s, c); }
    r := StepRequest(s, slave, epoch, auth, now);
    Reach(steps, s, Failover(slave, At(now)), r);
    more := steps + [Failover(slave, At(now))];
    SceneAfter(s, c, slave, V(slave, epoch + 1, 0, auth.(epoch := epoch + 1, sent := true), -9000), r);
  }

  lemma SceneWF(s: System, c: Cast)
    requires Scene(s, c)
    ensures s.WF()
  {
  }

  lemma GoSchedule(steps: seq<Step>, s: System, c: Cast, slave: Id, epoch: nat, auth: Auth, now: int)
    returns (more: seq<Step>, r: System)
    requires Reached(steps, s) && Scene(s, c) && ViewOf(c, slave) == V(slave, epoch, 0, auth, -9000)
    requires (slave == 4 || slave == 5) && now - auth.time > 4000
    ensures Reached(more, r) && r.net == s.net && r.wins == s.wins && r.nextUid == s.nextUid
    ensures var auth1 := auth.(time := now, count := 0, sent := false, rank := 0);
      Scene(r, Recount(Recast(c, slave, V(slave, epoch, 0, auth1, -9000)),
                       slave, Tally({}, 0)))
  {
    SceneViews(s, c, slave);
    hide Reached, Leads, V, System.WF, Recast, Recount, ViewOf, Scene;
    assert s.WF() by { SceneWF(s, c); }
    r := StepSchedule(s, slave, epoch, auth, now);
    Reach(steps, s, Failover(slave, At(now)), r);
    more := steps + [Failover(slave, At(now))];
    SceneAfter(s, c, slave, V(slave, epoch, 0, auth.(time := now, count := 0, sent := false, rank := 0), -9000), r);
  }

  lemma GoWin(steps: seq<Step>, s: System, c: Cast, slave: Id, epoch: nat, auth: Auth, now: int)
    returns (more: seq<Step>, r: System, v: View)
    requires Reached(steps, s) && Scene(s, c) && ViewOf(c, slave) == V(slave, epoch, 0, auth, -9000)
    requires (slave == 4 || slave == 5) && 0 <= now - auth.time <= 2000 && auth.sent && auth.count == 2
    ensures Reached(more, r) && Scene(r, Recast(c, slave, v)) && r.net == s.net && r.nextUid == s.nextUid
    ensures r.wins == s.wins + {Win(slave, auth.epoch, TallyOf(c, slave).counted, TallyOf(c, slave).stale)}
  {
    SceneViews(s, c, slave);
    hide Reached, Leads, V, System.WF, Recast, ViewOf, TallyOf, Scene;
    assert s.WF() by { SceneWF(s, c); }
    r, v := StepWin(s, slave, epoch, auth, now);
    Reach(steps, s, Failover(slave, At(now)), r);
    more := steps + [Failover(slave, At(now))];
    SceneAfter(s, c, slave, v, r);
  }

  lemma GoGrant(steps: seq<Step>, s: System, c: Cast, uid: nat, master: Id, was: nat, lastVote: nat, auth: Auth,
                voted: int, slave: Id, epoch: nat, now: int)
    returns (more: seq<Step>, r: System)
    requires Reached(steps, s) && Scene(s, c)
    requires 1 <= master <= 3 && ViewOf(c, master) == V(master, was, lastVote, auth, voted)
    requires Posted(s.net, uid, master, slave, epoch)
    requires (slave == 4 || slave == 5) && was <= epoch + 1 && lastVote != epoch + 1 && now - voted >= 2000
    ensures Reached(more, r) && Scene(r, Recast(c, master, V(master, epoch + 1, epoch + 1, auth, now)))
    ensures r.wins == s.wins && r.nextUid == s.nextUid + 1
    ensures r.net == s.net + {Packet(s.nextUid, slave, Ack(master, epoch + 1))}
                   - {Packet(uid, master, Request(slave, epoch + 1))}
  {
    SceneViews(s, c, master);
    hide Reached, Leads, V, System.WF, Recast, ViewOf, Scene, Request, Ack;
    assert s.WF() by { SceneWF(s, c); }
    var p := Packet(uid, master, Request(slave, epoch + 1));
    r := StepGrant(s, p, was, lastVote, auth, voted, slave, epoch + 1, now);
    Reach(steps, s, Deliver(p, now, 1000), r);
    more := steps + [Deliver(p, now, 1000)];
    SceneAfter(s, c, master, V(master, epoch + 1, epoch + 1, auth, now), r);
  }

  lemma GoIgnore(steps: seq<Step>, s: System, c: Cast, uid: nat, epoch: nat, auth: Auth)
    returns (more: seq<Step>, r: System)
    requires Reached(steps, s) && Scene(s, c) && c.v5 == V(5, epoch, 0, auth, -9000) && Posted(s.net, uid, 5, 4, epoch)
    ensures Reached(more, r) && Scene(r, c.(v5 := V(5, epoch + 1, 0, auth, -9000)))
    ensures r.wins == s.wins && r.nextUid == s.nextUid && r.net == s.net - {Packet(uid, 5, Request(4, epoch + 1))}
  {
    SceneViews(s, c, 5);
    hide Reached, Leads, V, System.WF, Scene, Request;
    assert s.WF() by { SceneWF(s, c); }
    var p := Packet(uid, 5, Request(4, epoch + 1));
    r := StepIgnore(s, p, epoch, auth, 4);
    Reach(steps, s, Deliver(p, 0, 1000), r);
    more := steps + [Deliver(p, 0, 1000)];
    SceneAfter(s, c, 5, V(5, epoch + 1, 0, auth, -9000), r);
  }

  lemma GoAck(steps: seq<Step>, s: System, c: Cast, uid: nat, slave: Id, auth: Auth, master: Id, epoch: nat)
    returns (more: seq<Step>, r: System)
    requires Reached(steps, s) && Scene(s, c) && Packet(uid, slave, Ack(master, epoch)) in s.net
    requires (slave == 4 || slave == 5) && 1 <= master <= 3
    requires ViewOf(c, slave) == V(slave, epoch, 0, auth, -9000) && auth.epoch <= epoch
    ensures Reached(more, r) && r.wins == s.wins && r.nextUid == s.nextUid
    ensures r.net == s.net - {Packet(uid, slave, Ack(master, epoch))}
    ensures Scene(r, Recount(Recast(c, slave, V(slave, epoch, 0, auth.(count := auth.count + 1), -9000)), slave,
                             Counted(TallyOf(c, slave), auth.sent, master)))
  {
    SceneViews(s, c, slave);
    hide Reached, Leads, V, System.WF, Recast, Recount, ViewOf, TallyOf, Scene, Ack, Counted;
    assert s.WF() by { SceneWF(s, c); }
    var p := Packet(uid, slave, Ack(master, epoch));
    r := StepAck(s, p, auth, master, epoch);
    Reach(steps, s, Deliver(p, 0, 1000), r);
    more := steps + [Deliver(p, 0, 1000)];
    SceneAfter(s, c, slave, V(slave, epoch, 0, auth.(count := auth.count + 1), -9000), r);
  }

  lemma SceneStart()
    ensures Reached([], Start())
    ensures Scene(Start(), Cast(V(1, 3, 0, NoAuth(), -9000), V(2, 3, 0, NoAuth(), -9000), V(3, 3, 0, NoAuth(), -9000),
                                V(4, 3, 0, NoAuth(), -9000), V(5, 3, 0, NoAuth(), -9000), Tally({}, 0), Tally({}, 0)))
  {
    StartInit();
    hide V;
  }

  /** Slave 4 asks, lets the election lapse, and counts the late ACK of master 1. */
  lemma Lapse() returns (steps: seq<Step>, r: System)
    ensures Reached(steps, r) && r.nextUid == 2
    ensures Scene(r, Cast(V(1, 4, 4, NoAuth(), 0), V(2, 3, 0, NoAuth(), -9000), V(3, 3, 0, NoAuth(), -9000),
                          V(4, 4, 0, Auth(5000, 1, false, 0, 4), -9000), V(5, 4, 0, NoAuth(), -9000),
                          Tally({}, 1), Tally({}, 0)))
  {
    SceneStart();
    hide Reached, V, Scene, Ack, Request;
    var s := Start();
    var c := Cast(V(1, 3, 0, NoAuth(), -9000), V(2, 3, 0, NoAuth(), -9000), V(3, 3, 0, NoAuth(), -9000),
                  V(4, 3, 0, NoAuth(), -9000), V(5, 3, 0, NoAuth(), -9000), Tally({}, 0), Tally({}, 0));
    steps, r := GoRequest([], s, c, 4, 3, NoAuth(), 10);
    var a := Auth(0, 0, true, 0, 4);
    c := c.(v4 := V(4, 4, 0, a, -9000));
    assert Posted(r.net, 0, 1, 4, 3) && Posted(r.net, 0, 5, 4, 3);
    steps, r := GoGrant(steps, r, c, 0, 1, 3, 0, NoAuth(), -9000, 4, 3, 0);
    c := c.(v1 := V(1, 4, 4, NoAuth(), 0));
    steps, r := GoIgnore(steps, r, c, 0, 3, NoAuth());
    c := c.(v5 := V(5, 4, 0, NoAuth(), -9000));
    steps, r := GoSchedule(steps, r, c, 4, 4, a, 5000);
    c := c.(v4 := V(4, 4, 0, Auth(5000, 0, false, 0, 4), -9000), t4 := Tally({}, 0));
    steps, r := GoAck(steps, r, c, 1, 4, Auth(5000, 0, false, 0, 4), 1, 4);
  }

  /** One more vote is enough for slave 4 to win epoch 5. */
  lemma FirstWin() returns (steps: seq<Step>, r: System, v4: View)
    ensures Reached(steps, r) && r.nextUid == 4 && Win(4, 5, {2}, 1) in r.wins
    ensures Scene(r, Cast(V(1, 4, 4, NoAuth(), 0), V(2, 5, 5, NoAuth(), 0), V(3, 3, 0, NoAuth(), -9000),
                          v4, V(5, 4, 0, NoAuth(), -9000), Tally({2}, 1), Tally({}, 0)))
  {
    hide Reached, V, Scene, Ack, Request;
    steps, r := Lapse();
    var c := Cast(V(1, 4, 4, NoAuth(), 0), V(2, 3, 0, NoAuth(), -9000), V(3, 3, 0, NoAuth(), -9000),
                  V(4, 4, 0, Auth(5000, 1, false, 0, 4), -9000), V(5, 4, 0, NoAuth(), -9000),
                  Tally({}, 1), Tally({}, 0));
    steps, r := GoRequest(steps, r, c, 4, 4, Auth(5000, 1, false, 0, 4), 5001);
    c := c.(v4 := V(4, 5, 0, Auth(5000, 1, true, 0, 5), -9000));
    assert Posted(r.net, 2, 2, 4, 4);
    steps, r := GoGrant(steps, r, c, 2, 2, 3, 0, NoAuth(), -9000, 4, 4, 0);
    c := c.(v2 := V(2, 5, 5, NoAuth(), 0));
    steps, r := GoAck(steps, r, c, 3, 4, Auth(5000, 1, true, 0, 5), 2, 5);
    assert {} + {2} == {2};
    c := c.(v4 := V(4, 5, 0, Auth(5000, 2, true, 0, 5), -9000), t4 := Tally({2}, 1));
    steps, r, v4 := GoWin(steps, r, c, 4, 5, Auth(5000, 2, true, 0, 5), 5002);
  }

  /** Slave 5 asks for the same epoch and is granted it by a majority. */
  lemma SecondWin() returns (steps: seq<Step>, r: System)
    ensures Reached(steps, r) && Win(4, 5, {2}, 1) in r.wins && Win(5, 5, {1, 3}, 0) in r.wins
  {
    hide Reached, V, Scene, Ack, Request;
    var v4, v5;
    steps, r, v4 := FirstWin();
    var c := Cast(V(1, 4, 4, NoAuth(), 0), V(2, 5, 5, NoAuth(), 0), V(3, 3, 0, NoAuth(), -9000),
                  v4, V(5, 4, 0, NoAuth(), -9000), Tally({2}, 1), Tally({}, 0));
    steps, r := GoRequest(steps, r, c, 5, 4, NoAuth(), 10);
    c := c.(v5 := V(5, 5, 0, Auth(0, 0, true, 0, 5), -9000));
    assert Posted(r.net, 4, 1, 5, 4) && Posted(r.net, 4, 3, 5, 4);
    steps, r := GoGrant(steps, r, c, 4, 1, 4, 4, NoAuth(), 0, 5, 4, 2000);
    c := c.(v1 := V(1, 5, 5, NoAuth(), 2000));
    steps, r := GoGrant(steps, r, c, 4, 3, 3, 0, NoAuth(), -9000, 5, 4, 0);
    c := c.(v3 := V(3, 5, 5, NoAuth(), 0));
    steps, r := GoAck(steps, r, c, 5, 5, Auth(0, 0, true, 0, 5), 1, 5);
    assert {} + {1} == {1};
    c := c.(v5 := V(5, 5, 0, Auth(0, 1, true, 0, 5), -9000), t5 := Tally({1}, 0));
    steps, r := GoAck(steps, r, c, 6, 5, Auth(0, 1, true, 0, 5), 3, 5);
    assert {1} + {3} == {1, 3};
    c := c.(v5 := V(5, 5, 0, Auth(0, 2, true, 0, 5), -9000), t5 := Tally({1, 3}, 0));
    steps, r, v5 := GoWin(steps, r, c, 5, 5, Auth(0, 2, true, 0, 5), 11);
  }

  /** Without the condition of `QuietRunsElectOne` the claim fails: here is a run that
      satisfies everything else and has two winners of one epoch. */
  lemma StaleAckElectsTwo() returns (steps: seq<Step>, w1: Win, w2: Win)
    ensures Init(Start()) && FairRun(Start(), steps, {1, 2, 3}) && Run(Start(), steps)
    ensures {w1, w2} <= After(Start(), steps).wins && w1.epoch == w2.epoch && w1.slave != w2.slave
    ensures w1.stale == 1 && w2.stale == 0
  {
    StartInit();
    hide Init, FairRun, Run, After, Start;
    var r;
    steps, r := SecondWin();
    w1, w2 := Win(4, 5, {2}, 1), Win(5, 5, {1, 3}, 0);
  }
}
