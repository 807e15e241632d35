/** When a vote is given, told from the outside: by what a step does to the epoch a node
    last voted in.  And, over whole runs, what the masters held that elected a slave. */
module Votes {
  import opened Cluster
  import opened Election
  import opened ClusterSystem
  import opened ElectionSafety

  /** The owners a node records for the slots claimed have no greater epoch. */
  predicate ClaimsCurrent(v: View, m: Msg) {
    forall j :: 0 <= j < |v.slots| && j in m.claim && v.slots[j].Some? ==> v.Epoch(v.slots[j].value) <= m.configEpoch
  }

  /** Does the node hold the master of x failed? */
  predicate HoldsFailed(v: View, x: Id) {
    v.At(x).slaveof.Some? && v.At(v.At(x).slaveof.value).failed
  }

  /** What the design asks of a vote for the sender of m, in the view before the packet. */
  predicate Deserved(v: View, m: Msg, now: int, timeout: int) {
    && m.sender in v.nodes && m.body.AuthRequest?
    && v.IsMaster(v.me) && v.Owned(v.me) != {}
    && m.currentEpoch >= v.currentEpoch && m.currentEpoch != v.lastVoteEpoch
    && !v.IsMaster(m.sender)
    && v.nodes[m.sender].slaveof.Some? && v.nodes[m.sender].slaveof.value in v.nodes
    && (HoldsFailed(v, m.sender) || m.body.force)
    && now >= v.nodes[v.nodes[m.sender].slaveof.value].votedTime + 2 * timeout
    && ClaimsCurrent(v, m)
  }

  lemma HeaderKeepsClaims(v: View, m: Msg)
    requires m.sender in v.nodes
    ensures ClaimsCurrent(Header(v, m), m) <==> ClaimsCurrent(v, m)
  {
  }

  lemma ReceivedVote(v: View, m: Msg, now: int, timeout: int)
    requires v.Shape() && m.sender in v.nodes && m.body.AuthRequest?
    ensures MayVote(Header(v, m), m, now, timeout) <==> Deserved(v, m, now, timeout)
  {
    HeaderKeepsClaims(v, m);
  }

  // ---- one step ----

  /** The step brings n a request that deserves its vote. */
  predicate VotesNow(s: System, step: Step, n: Id)
    requires s.WF() && Enabled(s, step) && n in s.views
  {
    step.Deliver? && step.p.to == n && Deserved(s.views[n], step.p.msg, step.now, step.timeout)
  }

  lemma TimerKeepsVote(v: View, x: Clock)
    requires v.Shape()
    ensures SlaveFailover(v, x).0.lastVoteEpoch == v.lastVoteEpoch
  {
  }

  /** What the receipt of m does to the votes of n. */
  ghost predicate Ballots(s: System, r: System, n: Id, m: Msg, now: int, timeout: int)
    requires s.WF() && n in s.views
  {
    && r.views.Keys == s.views.Keys
    && (r.views[n].lastVoteEpoch != s.views[n].lastVoteEpoch <==> Deserved(s.views[n], m, now, timeout))
    && (forall k :: k in s.views && k != n ==> r.views[k] == s.views[k])
    && r.votes == if Deserved(s.views[n], m, now, timeout) then s.votes[(n, m.currentEpoch) := m.sender] else s.votes
  }

  lemma RequestVotes(s: System, n: Id, m: Msg, now: int, timeout: int)
    requires s.WF() && n in s.views && m.sender != n && m.sender in s.views[n].nodes && m.body.AuthRequest?
    ensures Ballots(s, Receive(s, n, m, now, timeout), n, m, now, timeout)
  {
    assert s.views[n].Shape();
    hide BuildMsg, Header, MayVote, Deserved, System.WF, View.Shape;
    ReceivedVote(s.views[n], m, now, timeout);
    VoteAtEpoch(s.views[n], m, now, timeout);
  }

  lemma OtherVotes(s: System, n: Id, m: Msg, now: int, timeout: int)
    requires s.WF() && n in s.views && m.sender != n && (m.sender !in s.views[n].nodes || !m.body.AuthRequest?)
    ensures Ballots(s, Receive(s, n, m, now, timeout), n, m, now, timeout)
  {
    hide ProcessHeartbeat, ProcessUpdate, Counts, Header, Deserved, View.Shape;
    Undeserved(s.views[n], m, now, timeout);
  }

  lemma ReceiveVotes(s: System, n: Id, m: Msg, now: int, timeout: int)
    requires s.WF() && n in s.views && m.sender != n
    ensures Ballots(s, Receive(s, n, m, now, timeout), n, m, now, timeout)
  {
    hide Ballots, Receive, System.WF;
    if m.sender in s.views[n].nodes && m.body.AuthRequest? {
      RequestVotes(s, n, m, now, timeout);
    } else {
      OtherVotes(s, n, m, now, timeout);
    }
  }

  lemma Undeserved(v: View, m: Msg, now: int, timeout: int)
    requires m.sender !in v.nodes || !m.body.AuthRequest?
    ensures !Deserved(v, m, now, timeout)
  {
  }

  lemma VoteAtEpoch(v: View, m: Msg, now: int, timeout: int)
    requires m.sender in v.nodes
    ensures Header(v, m).lastVoteEpoch == v.lastVoteEpoch
    ensures Deserved(v, m, now, timeout) ==> Header(v, m).currentEpoch == m.currentEpoch != v.lastVoteEpoch
  {
    hide ClaimsCurrent, View.Owned, HoldsFailed;
  }

  /** A node's last voted epoch changes exactly when a request that deserves it comes in. */
  lemma VoteIff(s: System, step: Step, n: Id)
    requires s.WF() && Enabled(s, step) && n in s.views
    ensures Exec(s, step).views[n].lastVoteEpoch != s.views[n].lastVoteEpoch <==> VotesNow(s, step, n)
  {
    hide Receive, Deserved, RunFailover, Perform, BuildMsg, System.WF, View.Shape;
    match step {
      case Deliver(p, now, timeout) =>
        ReceiveVotes(s, p.to, p.msg, now, timeout);
        hide SameEpochs;
      case Failover(k, x) => TimerVotes(s, k, x, n);
      case _ =>
    }
  }

  lemma TimerVotes(s: System, k: Id, x: Clock, n: Id)
    requires s.WF() && k in s.views && n in s.views
    ensures RunFailover(s, k, x).views[n].lastVoteEpoch == s.views[n].lastVoteEpoch
  {
    TimerKeepsVote(s.views[k], x);
    hide SlaveFailover, BuildMsg;
  }

  /** The record of votes grows with exactly these. */
  lemma VoteRecorded(s: System, step: Step)
    requires s.WF() && Enabled(s, step)
    ensures var r := Exec(s, step).votes;
      if step.Deliver? && VotesNow(s, step, step.p.to)
      then r == s.votes[(step.p.to, step.p.msg.currentEpoch) := step.p.msg.sender] else r == s.votes
  {
    hide Receive, Deserved, SlaveFailover, Perform, BuildMsg, System.WF, View.Shape;
    if step.Deliver? { ReceiveVotes(s, step.p.to, step.p.msg, step.now, step.timeout); }
  }

  /** What a vote leaves: the epoch, the time for the slave's master, and an ACK on its way. */
  lemma VoteLeaves(s: System, step: Step)
    requires s.WF() && Enabled(s, step) && step.Deliver? && VotesNow(s, step, step.p.to)
    ensures var n, m, r := step.p.to, step.p.msg, Exec(s, step);
      && r.views[n].lastVoteEpoch == m.currentEpoch
      && r.views[n].At(s.views[n].At(m.sender).slaveof.value).votedTime == step.now
      && (exists q :: q in r.net && q.to == m.sender && q.msg.sender == n && q.msg.body == AuthAck
                      && q.msg.currentEpoch == m.currentEpoch)
  {
    hide Deserved, Header, System.WF, View.Shape, MayVote, ReceiveRequest, View.At;
    var n, m := step.p.to, step.p.msg;
    Voter(s, step);
    HeaderKeepsMaster(s.views[n], m);
    GrantLeaves(s.SetView(n, Header(s.views[n], m)), n, m, step.now, step.timeout, step.p);
  }

  lemma Voter(s: System, step: Step)
    requires s.WF() && Enabled(s, step) && step.Deliver? && VotesNow(s, step, step.p.to)
    ensures var n, m, v := step.p.to, step.p.msg, s.views[step.p.to];
      && v.Shape() && v.me == n && m.sender in v.nodes && m.body.AuthRequest? && step.p.uid < s.nextUid
      && Header(v, m).Shape() && Header(v, m).me == n && MayVote(Header(v, m), m, step.now, step.timeout)
      && Header(v, m).currentEpoch == m.currentEpoch
  {
    var m, v := step.p.msg, s.views[step.p.to];
    ReceivedVote(v, m, step.now, step.timeout);
    VoteAtEpoch(v, m, step.now, step.timeout);
    hide ClaimsCurrent, View.Owned, HoldsFailed, MayVote;
  }

  lemma GrantLeaves(s: System, n: Id, m: Msg, now: int, timeout: int, p: Packet)
    requires s.WF() && n in s.views && m.sender in s.views[n].nodes && MayVote(s.views[n], m, now, timeout)
    requires p.uid < s.nextUid
    ensures var r := ReceiveRequest(s, n, m, now, timeout).Consume(p);
      && r.views[n].lastVoteEpoch == s.views[n].currentEpoch
      && r.views[n].At(s.views[n].At(m.sender).slaveof.value).votedTime == now
      && (exists q :: q in r.net && q.to == m.sender && q.msg.sender == n && q.msg.body == AuthAck
                      && q.msg.currentEpoch == s.views[n].currentEpoch)
  {
    var ack := Packet(s.nextUid, m.sender, BuildMsg(s.views[n], AuthAck));
    assert ack in ReceiveRequest(s, n, m, now, timeout).Consume(p).net;
    hide BuildMsg, View.Owned;
  }

  lemma HeaderKeepsMaster(v: View, m: Msg)
    requires m.sender in v.nodes
    ensures var r := Header(v, m); r.me == v.me && r.At(m.sender).slaveof == v.At(m.sender).slaveof
  {
  }

  // ---- whole runs ----

  /** The step is a vote of n for x in epoch e; `held` asks that n holds x's master failed. */
  predicate VotesFor(s: System, step: Step, n: Id, x: Id, e: nat, held: bool)
    requires s.WF() && Enabled(s, step) && n in s.views
  {
    && VotesNow(s, step, n) && step.p.msg.sender == x && step.p.msg.currentEpoch == e
    && (held ==> HoldsFailed(s.views[n], x))
  }

  /** Somewhere in the run n votes for x in epoch e. */
  predicate VotedIn(s: System, steps: seq<Step>, n: Id, x: Id, e: nat, held: bool)
    requires s.WF() && Run(s, steps) && n in s.views
    decreases |steps|
  {
    steps != [] && (VotesFor(s, steps[0], n, x, e, held) || VotedIn(Exec(s, steps[0]), steps[1..], n, x, e, held))
  }

  /** With a manual failover under way, x starts asking for epoch e. */
  predicate Forces(s: System, step: Step, x: Id, e: nat)
    requires s.WF() && Enabled(s, step) && x in s.views
  {
    && step.Failover? && step.n == x && step.clock.mfEnd
    && s.views[x].currentEpoch != e && Exec(s, step).views[x].currentEpoch == e
  }

  predicate ForcedIn(s: System, steps: seq<Step>, x: Id, e: nat)
    requires s.WF() && Run(s, steps) && x in s.views
    decreases |steps|
  {
    steps != [] && (Forces(s, steps[0], x, e) || ForcedIn(Exec(s, steps[0]), steps[1..], x, e))
  }

  ghost predicate NoForced(net: set<Packet>, x: Id, e: nat) {
    forall p :: p in net && p.msg.sender == x && p.msg.body.AuthRequest? && p.msg.currentEpoch == e ==>
      !p.msg.body.force
  }

  /** Only a forced request of x can put one on the net. */
  lemma StepNoForced(s: System, step: Step, x: Id, e: nat)
    requires s.WF() && Enabled(s, step) && x in s.views && NoForced(s.net, x, e) && !Forces(s, step, x, e)
    ensures NoForced(Exec(s, step).net, x, e)
  {
    hide Receive, Perform, BuildMsg;
    match step {
      case Deliver(p, now, timeout) => ReceivePosts(s, p.to, p.msg, now, timeout);
      case Failover(n, clock) => TimerNoForced(s, n, clock, x, e);
      case _ =>
    }
  }

  /** The packets a timer posts are requests, forced or not as it says. */
  lemma ConcludePosts(s: System, n: Id, v: View, action: Action, force: bool, p: Packet)
    requires s.WF() && n in s.views && v.Shape() && v.me == n
    requires p in Conclude(s, n, v, action, force).net && p !in s.net
    ensures action == Requested && p.msg.sender == n && p.msg.currentEpoch == v.currentEpoch
    ensures p.msg.body == AuthRequest(force)
  {
    hide BuildMsg, System.WF, View.Shape;
  }

  lemma TimerNoForced(s: System, n: Id, clock: Clock, x: Id, e: nat)
    requires s.WF() && n in s.views && x in s.views && NoForced(s.net, x, e) && !Forces(s, Failover(n, clock), x, e)
    ensures NoForced(RunFailover(s, n, clock).net, x, e)
  {
    hide SlaveFailover, Conclude, System.WF;
    var v := s.views[n];
    assert v.Shape() && v.me == n by { Shaped(s, n); }
    RequestsAre(v, clock);
    var (v1, action) := SlaveFailover(v, clock);
    forall p | p in RunFailover(s, n, clock).net && p !in s.net
      ensures p.msg.sender == n && p.msg.currentEpoch == v1.currentEpoch && action == Requested
      ensures p.msg.body == AuthRequest(clock.mfEnd)
    {
      ConcludePosts(s, n, v1, action, clock.mfEnd, p);
    }
  }

  lemma Shaped(s: System, n: Id)
    requires s.WF() && n in s.views
    ensures s.views[n].me == n && s.views[n].Shape()
  {
  }

  /** Receiving a packet posts ACKs at most. */
  lemma ReceivePosts(s: System, n: Id, m: Msg, now: int, timeout: int)
    requires s.WF() && n in s.views && m.sender != n
    ensures forall p :: p in Receive(s, n, m, now, timeout).net && p !in s.net ==> p.msg.body == AuthAck
  {
    hide ProcessHeartbeat, ProcessUpdate, Counts, Header, MayVote, System.WF, View.Shape;
  }

  lemma RequestsAre(v: View, x: Clock)
    requires v.Shape()
    ensures var (r, action) := SlaveFailover(v, x);
      action == Requested ==> r.currentEpoch == v.currentEpoch + 1
  {
  }

  /** A vote recorded by a run was deserved when it was given; unless the slave's request
      for that epoch was forced, its giver then held the slave's master failed. */
  lemma {:induction false} RecordedVotes(s: System, steps: seq<Step>, n: Id, x: Id, e: nat)
    requires s.WF() && Run(s, steps) && n in s.views && x in s.views
    requires (n, e) in After(s, steps).votes && After(s, steps).votes[(n, e)] == x
    requires !((n, e) in s.votes && s.votes[(n, e)] == x)
    ensures VotedIn(s, steps, n, x, e, false)
    ensures NoForced(s.net, x, e) && !ForcedIn(s, steps, x, e) ==> VotedIn(s, steps, n, x, e, true)
    decreases |steps|
  {
    hide Exec, Enabled, System.WF, Deserved, HoldsFailed;
    if steps != [] {
      var r := Exec(s, steps[0]);
      VoteRecorded(s, steps[0]);
      if VotesFor(s, steps[0], n, x, e, false) {
        if NoForced(s.net, x, e) { UnforcedHeld(s, steps[0], n, x, e); }
      } else {
        if NoForced(s.net, x, e) && !ForcedIn(s, steps, x, e) { StepNoForced(s, steps[0], x, e); }
        RecordedVotes(r, steps[1..], n, x, e);
      }
    }
  }

  lemma UnforcedHeld(s: System, step: Step, n: Id, x: Id, e: nat)
    requires s.WF() && Enabled(s, step) && n in s.views && NoForced(s.net, x, e) && VotesFor(s, step, n, x, e, false)
    ensures VotesFor(s, step, n, x, e, true)
  {
    hide ClaimsCurrent, View.Owned;
  }

  /** In every run: who wins an epoch without a stale ACK and without having forced the
      election was voted for by a majority of the voters, each of which held the winner's
      master failed when it voted. */
  lemma WinnersMasterWasFailed(s: System, steps: seq<Step>, voters: set<Id>, w: Win)
    requires Init(s) && FairRun(s, steps, voters)
    ensures Run(s, steps)
    ensures w in After(s, steps).wins && w.stale == 0 ==>
      && w.slave in s.views && w.voters <= s.views.Keys && |w.voters| >= |voters| / 2 + 1
      && Elected(s, steps, w, false) && (!ForcedIn(s, steps, w.slave, w.epoch) ==> Elected(s, steps, w, true))
  {
    hide Run, After, VotedIn, ForcedIn, Election.Inv, Init, FairRun, Elected, System.WF;
    InitInv(s, voters);
    Started(s);
    RunInv(s, steps, voters);
    if w in After(s, steps).wins && w.stale == 0 {
      WinVotes(After(s, steps), voters, w);
      AllVoted(s, steps, w);
    }
  }

  /** Every voter of w voted for it in the run. */
  ghost predicate Elected(s: System, steps: seq<Step>, w: Win, held: bool)
    requires s.WF() && Run(s, steps) && w.voters <= s.views.Keys
  {
    forall n :: n in w.voters ==> VotedIn(s, steps, n, w.slave, w.epoch, held)
  }

  lemma Started(s: System)
    requires Init(s)
    ensures s.WF() && s.votes == map[] && s.net == {}
  {
  }

  lemma AllVoted(s: System, steps: seq<Step>, w: Win)
    requires s.WF() && Run(s, steps) && s.votes == map[] && s.net == {}
    requires w.slave in s.views && w.voters <= s.views.Keys
    requires forall n :: n in w.voters ==>
      (n, w.epoch) in After(s, steps).votes && After(s, steps).votes[(n, w.epoch)] == w.slave
    ensures Elected(s, steps, w, false) && (!ForcedIn(s, steps, w.slave, w.epoch) ==> Elected(s, steps, w, true))
  {
    hide Run, After, VotedIn, ForcedIn, System.WF;
    forall n | n in w.voters
      ensures VotedIn(s, steps, n, w.slave, w.epoch, false)
      ensures !ForcedIn(s, steps, w.slave, w.epoch) ==> VotedIn(s, steps, n, w.slave, w.epoch, true)
    {
      RecordedVotes(s, steps, n, w.slave, w.epoch);
    }
  }

  /** The votes behind a victory. */
  lemma WinVotes(r: System, voters: set<Id>, w: Win)
    requires Election.Inv(Project(r), voters) && w in r.wins && w.stale == 0
    ensures w.slave in r.views && w.voters <= r.views.Keys && |w.voters| >= |voters| / 2 + 1
    ensures forall n :: n in w.voters ==> (n, w.epoch) in r.votes && r.votes[(n, w.epoch)] == w.slave
  {
    var q := Project(r);
    assert w in q.wins;
    hide EpochsOrdered, RequestsSound, AcksSound, AcksUnique, TalliesSound;
    assert w.voters != {};
    forall n | n in w.voters
      ensures n in r.views && w.slave in r.views && (n, w.epoch) in r.votes && r.votes[(n, w.epoch)] == w.slave
    {
      assert (n, w.epoch) in q.votes;
    }
    assert exists n :: n in w.voters;
  }
}
