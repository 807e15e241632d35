/** Why `Epochs` excludes failovers that take a slot behind its old owner: a run of the
    five nodes of `ElectionStale` that ends in one.  Slave 4 asks for epoch 4 and is granted
    it; its master then moves to epoch 5 and is heard; slave 4 wins with epoch 4. */
module EpochsBehind {
  import opened Basics
  import opened Cluster
  import opened Election
  import opened ClusterSystem
  import opened ElectionSafety
  import opened ElectionStale
  import Epochs

  /** The nodes, once master 3 has epoch 5. */
  function Raised(voted: int): map<Id, Info> {
    Known(voted)[3 := Info(5, Master, None, false, voted)]
  }

  function W(me: Id, lastVote: nat, auth: Auth, voted: int): View {
    View(me, 5, lastVote, 3, Raised(voted), Slots(), map[], auth)
  }

  /** The heartbeat master 3 sends then. */
  function Beat(): Msg {
    Msg(3, 5, 5, None, Held(3), Heartbeat)
  }

  lemma Bumps()
    ensures Perform(V(3, 4, 4, NoAuth(), 0), Bump) == W(3, 4, NoAuth(), 0)
  {
    hide Slots;
  }

  lemma Builds()
    ensures BuildMsg(W(3, 4, NoAuth(), 0), Heartbeat) == Beat()
  {
    OwnedIsHeld(W(3, 4, NoAuth(), 0), 3);
    hide Slots;
  }

  lemma HeardHeader(auth: Auth)
    ensures 3 in Known(-9000) && Header(V(4, 4, 0, auth, -9000), Beat()) == W(4, 0, auth, -9000)
  {
    hide Slots;
  }

  lemma HeardBody(auth: Auth)
    ensures W(4, 0, auth, -9000).Shape() && 3 in Raised(-9000)
    ensures ProcessHeartbeat(W(4, 0, auth, -9000), Beat()) == W(4, 0, auth, -9000)
  {
    OwnedIsHeld(W(4, 0, auth, -9000), 3);
    hide Slots, Held, View.Owned, UpdateSlots;
  }

  lemma StepBump(s: System) returns (r: System)
    requires s.WF() && 3 in s.views && s.views[3] == V(3, 4, 4, NoAuth(), 0)
    ensures Leads(s, Local(3, Bump), r) && r == s.(views := s.views[3 := W(3, 4, NoAuth(), 0)])
  {
    hide V, W, Perform, System.WF;
    Bumps();
    r := Exec(s, Local(3, Bump));
  }

  lemma StepBeat(s: System) returns (r: System)
    requires s.WF() && 3 in s.views && s.views[3] == W(3, 4, NoAuth(), 0)
    ensures Leads(s, SendHeartbeat(3, 4), r)
    ensures r == s.(net := s.net + {Packet(s.nextUid, 4, Beat())}, nextUid := s.nextUid + 1)
  {
    hide W, Beat, BuildMsg, System.WF;
    Builds();
    r := Exec(s, SendHeartbeat(3, 4));
  }

  lemma StepHear(s: System, p: Packet, auth: Auth) returns (r: System)
    requires s.WF() && p in s.net && p.to == 4 && p.msg == Beat()
    requires 4 in s.views && s.views[4] == V(4, 4, 0, auth, -9000)
    ensures Leads(s, Deliver(p, 0, 1000), r)
    ensures r == s.(views := s.views[4 := W(4, 0, auth, -9000)], net := s.net - {p})
  {
    hide Slots, Header, ProcessHeartbeat, Known, Raised, Counts, System.WF;
    HeardHeader(auth);
    HeardBody(auth);
    r := Exec(s, Deliver(p, 0, 1000));
    assert s.views[4 := W(4, 0, auth, -9000)][4 := W(4, 0, auth, -9000)] == s.views[4 := W(4, 0, auth, -9000)];
  }

  function Elected(): Auth {
    Auth(0, 2, true, 0, 4)
  }

  /** Slave 4 is granted epoch 4 by masters 1 and 3. */
  lemma Voted() returns (steps: seq<Step>, r: System, c: Cast)
    ensures Reached(steps, r) && Scene(r, c)
    ensures c.v3 == V(3, 4, 4, NoAuth(), 0) && c.v4 == V(4, 4, 0, Elected(), -9000)
  {
    SceneStart();
    hide Reached, V, Scene, Ack, Request;
    c := Cast(V(1, 3, 0, NoAuth(), -9000), V(2, 3, 0, NoAuth(), -9000), V(3, 3, 0, NoAuth(), -9000),
              V(4, 3, 0, NoAuth(), -9000), V(5, 3, 0, NoAuth(), -9000), Tally({}, 0), Tally({}, 0));
    steps, r := GoRequest([], Start(), c, 4, 3, NoAuth(), 10);
    c := c.(v4 := V(4, 4, 0, Auth(0, 0, true, 0, 4), -9000));
    assert Posted(r.net, 0, 1, 4, 3) && Posted(r.net, 0, 3, 4, 3);
    steps, r := GoGrant(steps, r, c, 0, 1, 3, 0, NoAuth(), -9000, 4, 3, 0);
    c := c.(v1 := V(1, 4, 4, NoAuth(), 0));
    steps, r := GoGrant(steps, r, c, 0, 3, 3, 0, NoAuth(), -9000, 4, 3, 0);
    c := c.(v3 := V(3, 4, 4, NoAuth(), 0));
    steps, r := GoAck(steps, r, c, 1, 4, Auth(0, 0, true, 0, 4), 1, 4);
    c := c.(v4 := V(4, 4, 0, Auth(0, 1, true, 0, 4), -9000), t4 := Counted(Tally({}, 0), true, 1));
    steps, r := GoAck(steps, r, c, 2, 4, Auth(0, 1, true, 0, 4), 3, 4);
    c := c.(v4 := V(4, 4, 0, Elected(), -9000), t4 := Counted(c.t4, true, 3));
  }

  /** Master 3 moves to epoch 5, and slave 4 hears of it. */
  lemma Overtaken() returns (steps: seq<Step>, r: System)
    ensures Reached(steps, r) && r.WF() && 4 in r.views && r.views[4] == W(4, 0, Elected(), -9000)
  {
    var s, c;
    steps, s, c := Voted();
    SceneViews(s, c, 3);
    SceneViews(s, c, 4);
    SceneWF(s, c);
    hide Reached, Leads, V, W, Scene, System.WF, Beat;
    r := StepBump(s);
    Reach(steps, s, Local(3, Bump), r);
    steps, s := steps + [Local(3, Bump)], r;
    var p := Packet(s.nextUid, 4, Beat());
    r := StepBeat(s);
    Reach(steps, s, SendHeartbeat(3, 4), r);
    steps, s := steps + [SendHeartbeat(3, 4)], r;
    r := StepHear(s, p, Elected());
    Reach(steps, s, Deliver(p, 0, 1000), r);
    steps := steps + [Deliver(p, 0, 1000)];
  }

  lemma TakesSlotBehind()
    ensures W(4, 0, Elected(), -9000).Shape() && Epochs.TakesBehind(W(4, 0, Elected(), -9000), At(20), 2)
  {
    OwnedIsHeld(W(4, 0, Elected(), -9000), 3);
    hide Slots, Held;
  }

  lemma GoodView(n: Id)
    requires 1 <= n <= 5
    ensures Epochs.Good(V(n, 3, 0, NoAuth(), -9000))
  {
  }

  lemma StartGood()
    ensures Epochs.Inv(Start())
  {
    StartInit();
    hide V, Epochs.Good;
    GoodView(1);
    GoodView(2);
    GoodView(3);
    GoodView(4);
    GoodView(5);
  }

  lemma StepsBehind(s: System)
    requires Epochs.Inv(s) && 4 in s.views && s.views[4] == W(4, 0, Elected(), -9000)
    ensures var step := Failover(4, At(20));
      && Enabled(s, step) && Epochs.WinsBehind(s, step, 4, 2)
      && !Epochs.OwnerRises(s.views[4], Exec(s, step).views[4], 2)
  {
    hide W, At, Epochs.TakesBehind, Epochs.OwnerRises, Epochs.Good, Exec;
    TakesSlotBehind();
    Epochs.StepRises(s, Failover(4, At(20)), 4, 2);
  }

  /** A run from a legal start, and a step after it that gives slot 2 of node 4 to an owner
      with a smaller epoch. */
  lemma BehindHappens() returns (steps: seq<Step>, step: Step)
    ensures Init(Start()) && Epochs.Inv(Start()) && Run(Start(), steps)
    ensures var s := After(Start(), steps);
      && 4 in s.views && Enabled(s, step) && Epochs.WinsBehind(s, step, 4, 2)
      && !Epochs.OwnerRises(s.views[4], Exec(s, step).views[4], 2)
  {
    hide Init, Epochs.Inv, FairRun, Run, After, Start, W, At, Epochs.WinsBehind, Epochs.OwnerRises, Exec;
    hide Enabled, System.WF;
    StartInit();
    StartGood();
    var r;
    steps, r := Overtaken();
    step := Failover(4, At(20));
    Epochs.RunGood(Start(), steps);
    StepsBehind(r);
  }
}
