/** Elections, stripped to what decides them: epochs, votes, ACKs in flight and
    the vote counter.  `ElectionSafety` shows the cluster's steps are steps of this.

    The counter is reset when a new election is scheduled, but the epoch it is
    compared with changes only when the votes are requested.  An ACK delivered in
    between is counted without belonging to the election: it is `stale`. */
module Election {
  import opened Basics
  import opened Cluster

  datatype Ballot = Ballot(currentEpoch: nat, lastVoteEpoch: nat, epoch: nat, sent: bool, count: nat)

  /** What was counted since a node's counter was last reset. */
  datatype Tally = Tally(counted: set<Id>, stale: nat)

  /** A victory: who won, at which epoch, with which counted votes. */
  datatype Win = Win(slave: Id, epoch: nat, voters: set<Id>, stale: nat)

  datatype Poll = Poll(
    ballots: map<Id, Ballot>,
    requests: set<Packet>,
    acks: set<Packet>,
    votes: map<(Id, nat), Id>,
    tally: map<Id, Tally>,
    wins: set<Win>)

  ghost predicate EpochsOrdered(s: Poll) {
    forall n :: n in s.ballots ==>
      s.ballots[n].lastVoteEpoch <= s.ballots[n].currentEpoch && s.ballots[n].epoch <= s.ballots[n].currentEpoch
  }

  ghost predicate RequestsSound(s: Poll) {
    forall r :: r in s.requests ==>
      r.msg.sender in s.ballots && r.msg.currentEpoch <= s.ballots[r.msg.sender].epoch
  }

  /** A vote is for an epoch its receiver asked for, and is remembered by its giver. */
  ghost predicate VotesSound(s: Poll) {
    forall k :: k in s.votes ==>
      && k.0 in s.ballots && k.1 <= s.ballots[k.0].lastVoteEpoch
      && s.votes[k] in s.ballots && k.1 <= s.ballots[s.votes[k]].epoch
  }

  ghost predicate AcksSound(s: Poll) {
    forall a :: a in s.acks ==>
      && (a.msg.sender, a.msg.currentEpoch) in s.votes && s.votes[(a.msg.sender, a.msg.currentEpoch)] == a.to
      && a.to in s.ballots && a.to in s.tally
      && (s.ballots[a.to].sent && a.msg.currentEpoch == s.ballots[a.to].epoch ==>
            a.msg.sender !in s.tally[a.to].counted)
  }

  ghost predicate AcksUnique(s: Poll) {
    forall a, b ::
      a in s.acks && b in s.acks && a.msg.sender == b.msg.sender && a.msg.currentEpoch == b.msg.currentEpoch ==> a == b
  }

  /** The counter is the number of votes counted for this election plus the stale ACKs. */
  ghost predicate TalliesSound(s: Poll, voters: set<Id>) {
    && s.tally.Keys == s.ballots.Keys
    && forall n :: n in s.ballots ==> TallySound(s.votes, voters, n, s.ballots[n], s.tally[n])
  }

  ghost predicate TallySound(votes: map<(Id, nat), Id>, voters: set<Id>, n: Id, b: Ballot, t: Tally) {
    && b.count == |t.counted| + t.stale
    && t.counted <= voters
    && (!b.sent ==> t.counted == {})
    && Backed(votes, t.counted, b.epoch, n)
  }

  ghost predicate Backed(votes: map<(Id, nat), Id>, voters: set<Id>, epoch: nat, slave: Id) {
    forall m :: m in voters ==> (m, epoch) in votes && votes[(m, epoch)] == slave
  }

  ghost predicate WinsSound(s: Poll, voters: set<Id>) {
    forall w :: w in s.wins ==>
      && w.voters <= voters
      && |w.voters| + w.stale >= |voters| / 2 + 1
      && Backed(s.votes, w.voters, w.epoch, w.slave)
  }

  ghost predicate Inv(s: Poll, voters: set<Id>) {
    && EpochsOrdered(s) && RequestsSound(s) && VotesSound(s) && AcksSound(s) && AcksUnique(s)
    && TalliesSound(s, voters) && WinsSound(s, voters)
  }

  /** A newer epoch is seen. */
  function Raise(s: Poll, n: Id, e: nat): Poll
    requires n in s.ballots
  {
    s.(ballots := s.ballots[n := s.ballots[n].(currentEpoch := e)])
  }

  /** A new election is scheduled: the counter is reset. */
  function Schedule(s: Poll, n: Id): Poll
    requires n in s.ballots
  {
    s.(ballots := s.ballots[n := s.ballots[n].(sent := false, count := 0)],
       tally := s.tally[n := Tally({}, 0)])
  }

  /** The votes are requested, for a new epoch. */
  function Ask(s: Poll, n: Id, requests: set<Packet>): Poll
    requires n in s.ballots
  {
    var e := s.ballots[n].currentEpoch + 1;
    s.(ballots := s.ballots[n := s.ballots[n].(currentEpoch := e, epoch := e, sent := true)],
       requests := s.requests + requests)
  }

  function Grant(s: Poll, ack: Packet): Poll
    requires ack.msg.sender in s.ballots
  {
    var m, e := ack.msg.sender, ack.msg.currentEpoch;
    s.(ballots := s.ballots[m := s.ballots[m].(lastVoteEpoch := e)],
       acks := s.acks + {ack},
       votes := s.votes[(m, e) := ack.to])
  }

  function Drop(s: Poll, a: Packet): Poll {
    s.(acks := s.acks - {a})
  }

  /** An ACK is delivered and counted. */
  function Collect(s: Poll, a: Packet): Poll
    requires a.to in s.ballots && a.to in s.tally
  {
    var b, t := s.ballots[a.to], s.tally[a.to];
    Drop(s, a).(
      ballots := s.ballots[a.to := b.(count := b.count + 1)],
      tally := s.tally[a.to := if b.sent then t.(counted := t.counted + {a.msg.sender}) else t.(stale := t.stale + 1)])
  }

  function Declare(s: Poll, n: Id): Poll
    requires n in s.ballots && n in s.tally
  {
    s.(wins := s.wins + {Win(n, s.ballots[n].epoch, s.tally[n].counted, s.tally[n].stale)})
  }

  lemma RaiseInv(s: Poll, n: Id, e: nat, voters: set<Id>)
    requires Inv(s, voters) && n in s.ballots && e >= s.ballots[n].currentEpoch
    ensures Inv(Raise(s, n, e), voters)
  {
  }

  lemma ScheduleInv(s: Poll, n: Id, voters: set<Id>)
    requires Inv(s, voters) && n in s.ballots
    ensures Inv(Schedule(s, n), voters)
  {
  }

  lemma AskInv(s: Poll, n: Id, requests: set<Packet>, voters: set<Id>)
    requires Inv(s, voters) && n in s.ballots && !s.ballots[n].sent
    requires forall r :: r in requests ==> r.msg.sender == n && r.msg.currentEpoch == s.ballots[n].currentEpoch + 1
    ensures Inv(Ask(s, n, requests), voters)
  {
  }

  lemma BackedGrows(votes: map<(Id, nat), Id>, k: (Id, nat), slave: Id, voters: set<Id>, epoch: nat, n: Id)
    requires Backed(votes, voters, epoch, n) && k !in votes
    ensures Backed(votes[k := slave], voters, epoch, n)
  {
  }

  /** One vote per master and epoch: the key written is new. */
  lemma GrantIsFirst(s: Poll, m: Id)
    requires VotesSound(s) && EpochsOrdered(s) && AcksSound(s) && m in s.ballots
    requires s.ballots[m].lastVoteEpoch != s.ballots[m].currentEpoch
    ensures (m, s.ballots[m].currentEpoch) !in s.votes
    ensures forall a :: a in s.acks ==> a.msg.sender != m || a.msg.currentEpoch != s.ballots[m].currentEpoch
  {
  }

  ghost predicate MayGrant(s: Poll, ack: Packet) {
    var m, e := ack.msg.sender, ack.msg.currentEpoch;
    && m in s.ballots && e == s.ballots[m].currentEpoch && s.ballots[m].lastVoteEpoch != e
    && exists r :: r in s.requests && r.msg.sender == ack.to && r.msg.currentEpoch == e
  }

  lemma GrantAcks(s: Poll, ack: Packet, voters: set<Id>)
    requires Inv(s, voters) && MayGrant(s, ack)
    ensures AcksUnique(Grant(s, ack))
    ensures AcksSound(Grant(s, ack))
  {
    GrantIsFirst(s, ack.msg.sender);
    assert TallySound(s.votes, voters, ack.to, s.ballots[ack.to], s.tally[ack.to]);
  }

  lemma GrantTallies(s: Poll, ack: Packet, voters: set<Id>)
    requires Inv(s, voters) && MayGrant(s, ack)
    ensures TalliesSound(Grant(s, ack), voters) && WinsSound(Grant(s, ack), voters)
  {
    GrantIsFirst(s, ack.msg.sender);
    var s1, k := Grant(s, ack), (ack.msg.sender, ack.msg.currentEpoch);
    hide VotesSound, AcksSound, AcksUnique, RequestsSound, EpochsOrdered;
    forall n | n in s1.ballots ensures TallySound(s1.votes, voters, n, s1.ballots[n], s1.tally[n]) {
      assert TallySound(s.votes, voters, n, s.ballots[n], s.tally[n]);
      BackedGrows(s.votes, k, ack.to, s.tally[n].counted, s.ballots[n].epoch, n);
    }
    forall w | w in s1.wins ensures Backed(s1.votes, w.voters, w.epoch, w.slave) {
      BackedGrows(s.votes, k, ack.to, w.voters, w.epoch, w.slave);
    }
  }

  lemma GrantVotes(s: Poll, ack: Packet, voters: set<Id>)
    requires Inv(s, voters) && MayGrant(s, ack)
    ensures var s1 := Grant(s, ack); EpochsOrdered(s1) && RequestsSound(s1) && VotesSound(s1)
  {
    hide AcksSound, AcksUnique, TalliesSound, WinsSound;
  }

  lemma GrantInv(s: Poll, ack: Packet, voters: set<Id>)
    requires Inv(s, voters) && MayGrant(s, ack)
    ensures Inv(Grant(s, ack), voters)
  {
    GrantVotes(s, ack, voters);
    GrantAcks(s, ack, voters);
    GrantTallies(s, ack, voters);
    hide EpochsOrdered, RequestsSound, VotesSound, AcksSound, AcksUnique, TalliesSound, WinsSound;
  }

  lemma CollectAcks(s: Poll, a: Packet, voters: set<Id>)
    requires Inv(s, voters) && a in s.acks && a.msg.currentEpoch == s.ballots[a.to].epoch
    ensures AcksUnique(Collect(s, a)) && AcksSound(Collect(s, a))
  {
  }

  lemma CollectInv(s: Poll, a: Packet, voters: set<Id>)
    requires Inv(s, voters) && a in s.acks && a.msg.sender in voters
    requires a.msg.currentEpoch >= s.ballots[a.to].epoch
    ensures Inv(Collect(s, a), voters)
  {
    var s1 := Collect(s, a);
    assert (a.msg.sender, a.msg.currentEpoch) in s.votes && a.msg.currentEpoch == s.ballots[a.to].epoch;
    CollectAcks(s, a, voters);
    assert TallySound(s1.votes, voters, a.to, s1.ballots[a.to], s1.tally[a.to]) by {
      assert TallySound(s.votes, voters, a.to, s.ballots[a.to], s.tally[a.to]);
    }
  }

  lemma RepeatInv(s: Poll, p: Packet, voters: set<Id>)
    requires Inv(s, voters) && p.msg.sender in s.ballots && p.msg.currentEpoch <= s.ballots[p.msg.sender].epoch
    ensures Inv(s.(requests := s.requests + {p}), voters)
  {
    hide VotesSound, AcksSound, AcksUnique, TalliesSound, WinsSound;
    var s1 := s.(requests := s.requests + {p});
    OnlyRequestsDiffer(s, s1.requests, voters);
  }

  lemma OnlyRequestsDiffer(s: Poll, requests: set<Packet>, voters: set<Id>)
    requires Inv(s, voters)
    ensures var s1 := s.(requests := requests); Inv(s1, voters) <==> RequestsSound(s1)
  {
  }

  lemma ForgetInv(s: Poll, requests: set<Packet>, voters: set<Id>)
    requires Inv(s, voters) && requests <= s.requests
    ensures Inv(s.(requests := requests), voters)
  {
    OnlyRequestsDiffer(s, requests, voters);
    hide VotesSound, AcksSound, AcksUnique, TalliesSound, WinsSound;
  }

  lemma DropInv(s: Poll, a: Packet, voters: set<Id>)
    requires Inv(s, voters)
    ensures Inv(Drop(s, a), voters)
  {
  }

  lemma DeclareInv(s: Poll, n: Id, voters: set<Id>)
    requires Inv(s, voters) && n in s.ballots
    requires s.ballots[n].count >= |voters| / 2 + 1
    ensures Inv(Declare(s, n), voters)
  {
  }

  lemma MajoritiesMeet(a: set<Id>, b: set<Id>, all: set<Id>) returns (m: Id)
    requires a <= all && b <= all
    requires |a| >= |all| / 2 + 1 && |b| >= |all| / 2 + 1
    ensures m in a && m in b
  {
    if a * b == {} {
      SubsetSize(a + b, all);
      assert false;
    }
    m :| m in a * b;
  }

  /** Two winners of one epoch, neither of whose counters took a stale ACK, are the same slave. */
  lemma OneWinner(s: Poll, voters: set<Id>, w1: Win, w2: Win)
    requires Inv(s, voters)
    requires w1 in s.wins && w2 in s.wins && w1.epoch == w2.epoch
    requires w1.stale == 0 && w2.stale == 0
    ensures w1.slave == w2.slave
  {
    var _ := MajoritiesMeet(w1.voters, w2.voters, voters);
  }
}
