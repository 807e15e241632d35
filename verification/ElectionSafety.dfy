/** Every step of the cluster is a step of `Election`, so at most one slave wins an epoch. */
module ElectionSafety {
  import opened Cluster
  import opened Election
  import opened ClusterSystem

  function BallotOf(v: View): Ballot {
    Ballot(v.currentEpoch, v.lastVoteEpoch, v.auth.epoch, v.auth.sent, v.auth.count)
  }

  function Project(s: System): Poll {
    Poll((map n | n in s.views :: BallotOf(s.views[n])),
         (set p | p in s.net && p.msg.body.AuthRequest?),
         (set p | p in s.net && p.msg.body.AuthAck?),
         s.votes, s.tally, s.wins)
  }

  /** The cluster when it starts: nothing in flight, no election run, no vote given. */
  ghost predicate Init(s: System) {
    && s.WF() && s.net == {} && s.votes == map[] && s.wins == {}
    && forall n :: n in s.views ==>
      && s.tally[n] == Tally({}, 0) && s.views[n].auth.count == 0 && !s.views[n].auth.sent
      && s.views[n].lastVoteEpoch <= s.views[n].currentEpoch && s.views[n].auth.epoch <= s.views[n].currentEpoch
  }

  ghost predicate CountedFrom(v: View, m: Msg, voters: set<Id>) {
    m.body.AuthAck? && m.sender in v.nodes && Counts(Header(v, m), m) ==> m.sender in voters
  }

  /** What a run must respect: no ACK is duplicated, the ACKs that are counted come
      from `voters`, and a winner computed its quorum from the size of `voters`. */
  ghost predicate Fair(s: System, step: Step, voters: set<Id>)
    requires s.WF() && Enabled(s, step)
  {
    match step
    case Duplicate(p) => !p.msg.body.AuthAck?
    case Deliver(p, _, _) => CountedFrom(s.views[p.to], p.msg, voters)
    case Failover(n, x) => SlaveFailover(s.views[n], x).1 == Won ==> s.views[n].size == |voters|
    case _ => true
  }

  ghost predicate FairRun(s: System, steps: seq<Step>, voters: set<Id>)
    requires s.WF()
    decreases |steps|
  {
    steps == [] || (Enabled(s, steps[0]) && Fair(s, steps[0], voters) && FairRun(Exec(s, steps[0]), steps[1..], voters))
  }

  lemma SetViewProjects(s: System, n: Id, v: View)
    requires n in s.views
    ensures var q := Project(s); Project(s.(views := s.views[n := v])) == q.(ballots := q.ballots[n := BallotOf(v)])
  {
    assert s.views[n := v].Keys == s.views.Keys;
  }

  lemma KeepsInv(s: System, n: Id, v: View, voters: set<Id>)
    requires n in s.views && Keeps(s.views[n], v) && Election.Inv(Project(s), voters)
    ensures Election.Inv(Project(s.(views := s.views[n := v])), voters)
  {
    SetViewProjects(s, n, v);
    RaiseInv(Project(s), n, v.currentEpoch, voters);
  }

  lemma ConsumeInv(s: System, p: Packet, voters: set<Id>)
    requires Election.Inv(Project(s), voters)
    ensures Election.Inv(Project(s.(net := s.net - {p})), voters)
  {
    var q := Project(s);
    DropInv(q, p, voters);
    ForgetInv(Drop(q, p), q.requests - {p}, voters);
    assert Project(s.(net := s.net - {p})) == Drop(q, p).(requests := q.requests - {p});
  }

  /** What each outcome of the failover timer does to the ballot. */
  predicate Outcome(v: View, r: View, action: Action) {
    match action
    case Idle => BallotOf(r) == BallotOf(v)
    case Scheduled => BallotOf(r) == BallotOf(v).(sent := false, count := 0)
    case Requested => !v.auth.sent && BallotOf(r) == BallotOf(v).(
      currentEpoch := v.currentEpoch + 1, epoch := v.currentEpoch + 1, sent := true)
    case Won => BallotOf(r) == BallotOf(v) && v.auth.count >= v.size / 2 + 1
  }

  lemma FailoverOutcome(v: View, x: Clock)
    requires v.me in v.nodes
    ensures var (r, action) := SlaveFailover(v, x); Outcome(v, r, action)
  {
  }

  /** The history part of receiving an ACK that counts. */
  lemma CountProjects(s: System, p: Packet, v: View, t: Tally)
    requires p.to in s.views && p.to in s.tally && p.msg.body.AuthAck?
    requires var b := BallotOf(s.views[p.to]); BallotOf(v) == b.(count := b.count + 1)
    requires t == if s.views[p.to].auth.sent then s.tally[p.to].(counted := s.tally[p.to].counted + {p.msg.sender})
                  else s.tally[p.to].(stale := s.tally[p.to].stale + 1)
    ensures Project(s.(views := s.views[p.to := v], tally := s.tally[p.to := t], net := s.net - {p}))
         == Collect(Project(s), p)
  {
    assert s.views[p.to := v].Keys == s.views.Keys;
  }

  lemma AckCollects(s: System, p: Packet, voters: set<Id>)
    requires Election.Inv(Project(s), voters) && p in s.net && p.to in s.views && p.msg.body.AuthAck?
    requires p.msg.sender in voters && p.msg.currentEpoch >= s.views[p.to].auth.epoch
    ensures p.to in Project(s).tally && Election.Inv(Collect(Project(s), p), voters)
  {
    assert p in Project(s).acks;
    CollectInv(Project(s), p, voters);
  }

  lemma AckInv(s: System, p: Packet, voters: set<Id>)
    requires s.WF() && Election.Inv(Project(s), voters)
    requires p in s.net && p.to in s.views && p.msg.body.AuthAck? && p.msg.sender in s.views[p.to].nodes
    requires Counts(s.views[p.to], p.msg) ==> p.msg.sender in voters
    ensures Election.Inv(Project(ReceiveAck(s, p.to, p.msg).(net := s.net - {p})), voters)
  {
    hide Election.Inv, View.Owned;
    if Counts(s.views[p.to], p.msg) {
      AckCollects(s, p, voters);
      var s1 := ReceiveAck(s, p.to, p.msg);
      CountProjects(s, p, s1.views[p.to], s1.tally[p.to]);
    } else {
      ConsumeInv(s, p, voters);
    }
  }

  lemma GrantProjects(s: System, v: View, ack: Packet, uid: nat)
    requires ack.msg.sender in s.views && ack.msg.body.AuthAck?
    requires ack.msg.currentEpoch == s.views[ack.msg.sender].currentEpoch
    requires BallotOf(v) == BallotOf(s.views[ack.msg.sender]).(lastVoteEpoch := ack.msg.currentEpoch)
    ensures Project(s.(views := s.views[ack.msg.sender := v], net := s.net + {ack}, nextUid := uid,
                       votes := s.votes[(ack.msg.sender, ack.msg.currentEpoch) := ack.to])) == Grant(Project(s), ack)
  {
    assert s.views[ack.msg.sender := v].Keys == s.views.Keys;
  }

  lemma MayGrantIfMayVote(s: System, p: Packet, now: int, timeout: int)
    requires s.WF()
    requires p in s.net && p.to in s.views && p.msg.body.AuthRequest? && p.msg.sender in s.views[p.to].nodes
    requires p.msg.currentEpoch <= s.views[p.to].currentEpoch
    requires MayVote(s.views[p.to], p.msg, now, timeout)
    ensures MayGrant(Project(s), Packet(s.nextUid, p.msg.sender, BuildMsg(s.views[p.to], AuthAck)))
  {
    assert p in Project(s).requests;
  }

  lemma RequestInv(s: System, p: Packet, now: int, timeout: int, voters: set<Id>)
    requires s.WF() && Election.Inv(Project(s), voters)
    requires p in s.net && p.to in s.views && p.msg.body.AuthRequest? && p.msg.sender in s.views[p.to].nodes
    requires p.msg.currentEpoch <= s.views[p.to].currentEpoch
    ensures Election.Inv(Project(ReceiveRequest(s, p.to, p.msg, now, timeout)), voters)
  {
    var v := s.views[p.to];
    if MayVote(v, p.msg, now, timeout) {
      var ack := Packet(s.nextUid, p.msg.sender, BuildMsg(v, AuthAck));
      MayGrantIfMayVote(s, p, now, timeout);
      GrantInv(Project(s), ack, voters);
      GrantProjects(s, Vote(v, p.msg.sender, now), ack, s.nextUid + 1);
    }
  }

  lemma ReceiveInv(s: System, p: Packet, now: int, timeout: int, voters: set<Id>)
    requires s.WF() && Election.Inv(Project(s), voters)
    requires p in s.net && p.to in s.views && p.msg.sender != p.to
    requires CountedFrom(s.views[p.to], p.msg, voters)
    ensures var r := Receive(s, p.to, p.msg, now, timeout);
            Election.Inv(Project(r.(net := r.net - {p})), voters)
  {
    hide Election.Inv, ReceiveBody;
    if p.msg.sender in s.views[p.to].nodes {
      var v1 := Header(s.views[p.to], p.msg);
      KeepsInv(s, p.to, v1, voters);
      BodyInv(s.SetView(p.to, v1), p, now, timeout, voters);
    } else {
      ConsumeInv(s, p, voters);
    }
  }

  lemma BodyInv(s: System, p: Packet, now: int, timeout: int, voters: set<Id>)
    requires s.WF() && Election.Inv(Project(s), voters)
    requires p in s.net && p.to in s.views && p.msg.sender in s.views[p.to].nodes && p.msg.sender != p.to
    requires p.msg.currentEpoch <= s.views[p.to].currentEpoch
    requires p.msg.body.AuthAck? && Counts(s.views[p.to], p.msg) ==> p.msg.sender in voters
    ensures var r := ReceiveBody(s, p.to, p.msg, now, timeout);
            Election.Inv(Project(r.(net := r.net - {p})), voters)
  {
    var v, m := s.views[p.to], p.msg;
    var r := ReceiveBody(s, p.to, m, now, timeout);
    match m.body {
      case Heartbeat =>
        KeepsInv(s, p.to, ProcessHeartbeat(v, m), voters);
        ConsumeInv(r, p, voters);
      case Update(about, epoch, slots) =>
        KeepsInv(s, p.to, ProcessUpdate(v, about, epoch, slots), voters);
        ConsumeInv(r, p, voters);
      case AuthRequest(_) =>
        RequestInv(s, p, now, timeout, voters);
        ConsumeInv(r, p, voters);
      case AuthAck =>
        AckInv(s, p, voters);
    }
  }

  lemma AskProjects(s: System, n: Id, v: View, ps: set<Packet>, uid: nat)
    requires n in s.views && forall p :: p in ps ==> p.msg.body.AuthRequest?
    requires BallotOf(v) == BallotOf(s.views[n]).(
               currentEpoch := s.views[n].currentEpoch + 1, epoch := s.views[n].currentEpoch + 1, sent := true)
    ensures Project(s.(views := s.views[n := v], net := s.net + ps, nextUid := uid)) == Ask(Project(s), n, ps)
  {
    assert s.views[n := v].Keys == s.views.Keys;
  }

  lemma ConcludeInv(s: System, n: Id, v: View, action: Action, force: bool, voters: set<Id>)
    requires s.WF() && n in s.views && v.Shape() && v.me == n && Election.Inv(Project(s), voters)
    requires Outcome(s.views[n], v, action) && (action == Won ==> s.views[n].size == |voters|)
    ensures Election.Inv(Project(Conclude(s, n, v, action, force)), voters)
  {
    hide Election.Inv;
    SetViewProjects(s, n, v);
    var q, r := Project(s), Conclude(s, n, v, action, force);
    match action {
      case Idle =>
        assert q.ballots[n := BallotOf(v)] == q.ballots;
      case Scheduled =>
        ScheduleInv(q, n, voters);
        assert Project(r) == Schedule(q, n);
      case Requested =>
        var ps := set to | to in v.nodes && to != n :: Packet(s.nextUid, to, BuildMsg(v, AuthRequest(force)));
        AskInv(q, n, ps, voters);
        AskProjects(s, n, v, ps, s.nextUid + 1);
      case Won =>
        DeclareInv(q, n, voters);
        assert q.ballots[n := BallotOf(v)] == q.ballots;
        assert Project(r) == Declare(q, n);
    }
  }

  lemma PostProjects(s: System, p: Packet, uid: nat)
    requires !p.msg.body.AuthAck?
    ensures var q := Project(s);
            Project(s.(net := s.net + {p}, nextUid := uid)) ==
              q.(requests := q.requests + if p.msg.body.AuthRequest? then {p} else {})
  {
  }

  lemma PostInv(s: System, p: Packet, voters: set<Id>)
    requires s.WF() && Election.Inv(Project(s), voters)
    requires p.uid == s.nextUid && p.msg.sender in s.views && !p.msg.body.AuthAck?
    requires p.msg.body.AuthRequest? ==> p.msg.currentEpoch <= s.views[p.msg.sender].auth.epoch
    ensures Election.Inv(Project(s.Post({p})), voters)
  {
    hide Election.Inv;
    PostProjects(s, p, s.nextUid + 1);
    if p.msg.body.AuthRequest? {
      RepeatInv(Project(s), p, voters);
    } else {
      assert Project(s).requests + {} == Project(s).requests;
    }
  }

  lemma DuplicateSound(s: System, p: Packet, voters: set<Id>)
    requires Election.Inv(Project(s), voters) && p in s.net && p.msg.body.AuthRequest? && p.msg.sender in s.views
    ensures p.msg.currentEpoch <= s.views[p.msg.sender].auth.epoch
  {
    assert p in Project(s).requests;
  }

  lemma SendUpdateInv(s: System, n: Id, to: Id, slot: int, voters: set<Id>)
    requires s.WF() && Enabled(s, SendUpdate(n, to, slot)) && Election.Inv(Project(s), voters)
    ensures Election.Inv(Project(Exec(s, SendUpdate(n, to, slot))), voters)
  {
    hide Election.Inv;
    PostInv(s, Packet(s.nextUid, to, BuildUpdate(s.views[n], s.views[n].slots[slot].value)), voters);
  }

  lemma StepInv(s: System, step: Step, voters: set<Id>)
    requires s.WF() && Enabled(s, step) && Fair(s, step, voters) && Election.Inv(Project(s), voters)
    ensures Election.Inv(Project(Exec(s, step)), voters)
  {
    hide Election.Inv, ReceiveBody, Conclude, SlaveFailover, Perform, Project;
    match step {
      case SendHeartbeat(n, to) => PostInv(s, Packet(s.nextUid, to, BuildMsg(s.views[n], Heartbeat)), voters);
      case SendUpdate(n, to, slot) =>
        SendUpdateInv(s, n, to, slot, voters);
      case Deliver(p, now, timeout) => ReceiveInv(s, p, now, timeout, voters);
      case Duplicate(p) =>
        if p.msg.body.AuthRequest? { DuplicateSound(s, p, voters); }
        PostInv(s, p.(uid := s.nextUid), voters);
      case Failover(n, x) =>
        FailoverOutcome(s.views[n], x);
        var (v, action) := SlaveFailover(s.views[n], x);
        ConcludeInv(s, n, v, action, x.mfEnd, voters);
      case Local(n, command) => KeepsInv(s, n, Perform(s.views[n], command), voters);
    }
  }

  lemma {:induction false} RunInv(s: System, steps: seq<Step>, voters: set<Id>)
    requires s.WF() && FairRun(s, steps, voters) && Election.Inv(Project(s), voters)
    ensures Run(s, steps) && Election.Inv(Project(After(s, steps)), voters)
    decreases |steps|
  {
    if steps != [] {
      StepInv(s, steps[0], voters);
      RunInv(Exec(s, steps[0]), steps[1..], voters);
    }
  }

  lemma InitInv(s: System, voters: set<Id>)
    requires Init(s)
    ensures Election.Inv(Project(s), voters)
  {
  }

  /** In every run, two winners of the same epoch whose counters took no stale ACK are the same slave. */
  lemma OneWinnerPerEpoch(s: System, steps: seq<Step>, voters: set<Id>, w1: Win, w2: Win)
    requires Init(s) && FairRun(s, steps, voters)
    ensures Run(s, steps)
    ensures {w1, w2} <= After(s, steps).wins && w1.epoch == w2.epoch && w1.stale == 0 && w2.stale == 0 ==>
              w1.slave == w2.slave
  {
    hide Election.Inv, Exec;
    InitInv(s, voters);
    RunInv(s, steps, voters);
    if {w1, w2} <= After(s, steps).wins && w1.epoch == w2.epoch && w1.stale == 0 && w2.stale == 0 {
      OneWinner(Project(After(s, steps)), voters, w1, w2);
    }
  }

  lemma CounterFacts(r: System, voters: set<Id>, n: Id)
    requires Election.Inv(Project(r), voters) && n in r.views && n in r.tally
    ensures Backed(r.votes, r.tally[n].counted, r.views[n].auth.epoch, n)
    ensures r.views[n].auth.count == |r.tally[n].counted| <==> r.tally[n].stale == 0
  {
    assert TallySound(r.votes, voters, n, Project(r).ballots[n], r.tally[n]);
  }

  /** In every run, a node's counter is the number of masters that voted for its
      running election exactly when no stale ACK came since the last reset. */
  lemma CounterIsExactIff(s: System, steps: seq<Step>, voters: set<Id>, n: Id)
    requires Init(s) && FairRun(s, steps, voters) && n in s.views
    ensures Run(s, steps) && n in After(s, steps).views && n in After(s, steps).tally
    ensures var r := After(s, steps);
            && Backed(r.votes, r.tally[n].counted, r.views[n].auth.epoch, n)
            && (r.views[n].auth.count == |r.tally[n].counted| <==> r.tally[n].stale == 0)
  {
    hide Election.Inv, Exec;
    InitInv(s, voters);
    RunInv(s, steps, voters);
    CounterFacts(After(s, steps), voters, n);
  }
}
