/** Slot claims converge.  Every claimant keeps one claim, config epochs are
    pairwise distinct, and an observer that imports no slot starts from an empty
    table.  Whatever heartbeats and UPDATEs reach it, in any order and any number
    of times, each slot belongs to the claimant with the greatest epoch among
    those it has heard. */
module SlotClaims {
  import opened Basics
  import opened Cluster

  datatype ClaimOf = ClaimOf(epoch: nat, slots: set<int>)

  predicate Distinct(claims: map<Id, ClaimOf>) {
    forall a, b :: a in claims && b in claims && a != b ==> claims[a].epoch != claims[b].epoch
  }

  /** An observer that has heard no claim yet; it makes none itself. */
  predicate Fresh(v: View, claims: map<Id, ClaimOf>) {
    && v.Shape() && v.me !in claims && v.importing == map[]
    && (forall n :: n in claims ==> n in v.nodes && v.Epoch(n) <= claims[n].epoch)
    && (forall j :: 0 <= j < SLOTS ==> v.slots[j].None?)
  }

  /** A packet that says of each claimant only what it claims.  Other senders are
      slaves, or masters without slots. */
  predicate Honest(claims: map<Id, ClaimOf>, v: View, m: Msg) {
    && m.sender in v.nodes && m.sender != v.me
    && (m.sender in claims ==>
          m.configEpoch == claims[m.sender].epoch && m.claim == claims[m.sender].slots && m.slaveof.None?)
    && (m.sender !in claims ==> m.slaveof.Some? || m.claim == {})
    && (m.body.Heartbeat? || m.body.Update?)
    && (m.body.Update? ==> m.body.about in claims && claims[m.body.about] == ClaimOf(m.body.epoch, m.body.slots))
  }

  function Observe(v: View, m: Msg): (r: View)
    requires v.me in v.nodes && m.sender in v.nodes
    ensures Keeps(v, r)
  {
    var v1 := Header(v, m);
    match m.body
    case Heartbeat => ProcessHeartbeat(v1, m)
    case Update(about, epoch, slots) => ProcessUpdate(v1, about, epoch, slots)
    case _ => v1
  }

  /** The claimants whose claim was applied: a heartbeat always is, an UPDATE only
      when it is newer than what is recorded of the node it describes. */
  function Hear(v: View, claims: map<Id, ClaimOf>, heard: set<Id>, m: Msg): set<Id>
    requires m.sender in v.nodes
  {
    match m.body
    case Heartbeat => if m.sender in claims then heard + {m.sender} else heard
    case Update(about, epoch, _) =>
      if about in v.nodes && Header(v, m).Epoch(about) < epoch then heard + {about} else heard
    case _ => heard
  }

  /** The table the claims of `heard` determine. */
  predicate Best(owner: Option<Id>, claims: map<Id, ClaimOf>, heard: set<Id>, j: int) {
    && (owner.Some? ==> owner.value in heard && owner.value in claims && j in claims[owner.value].slots)
    && (forall n :: n in heard && n in claims && j in claims[n].slots ==>
          owner.Some? && owner.value in claims && claims[n].epoch <= claims[owner.value].epoch)
  }

  predicate Records(v: View, claims: map<Id, ClaimOf>, heard: set<Id>) {
    && v.Shape() && v.me !in claims && v.importing == map[] && heard <= claims.Keys
    && (forall n :: n in claims ==> n in v.nodes && v.Epoch(n) <= claims[n].epoch)
    && (forall n :: n in heard ==> v.Epoch(n) == claims[n].epoch)
  }

  predicate Inv(v: View, claims: map<Id, ClaimOf>, heard: set<Id>) {
    && Records(v, claims, heard)
    && forall j :: 0 <= j < SLOTS ==> Best(v.slots[j], claims, heard, j)
  }

  /** Does r differ from v only in things the claims say nothing of? */
  predicate Alike(v: View, r: View, claims: map<Id, ClaimOf>) {
    && r.me == v.me && r.nodes.Keys == v.nodes.Keys && r.slots == v.slots && r.importing == v.importing
    && forall n :: n in claims ==> r.Epoch(n) == v.Epoch(n)
  }

  lemma AlikeInv(v: View, r: View, claims: map<Id, ClaimOf>, heard: set<Id>)
    requires Inv(v, claims, heard) && Alike(v, r, claims)
    ensures Inv(r, claims, heard)
  {
  }

  lemma HeaderInv(v: View, claims: map<Id, ClaimOf>, heard: set<Id>, m: Msg)
    requires Inv(v, claims, heard) && Honest(claims, v, m)
    ensures Inv(Header(v, m), claims, heard)
    ensures m.sender in claims ==> Header(v, m).Epoch(m.sender) == claims[m.sender].epoch
  {
  }

  /** One more claim, whose epoch is recorded as it is applied. */
  lemma ClaimInv(v: View, claims: map<Id, ClaimOf>, heard: set<Id>, n: Id)
    requires Inv(v, claims, heard) && Distinct(claims) && n in claims && v.Epoch(n) == claims[n].epoch
    ensures Inv(UpdateSlots(v, n, claims[n].epoch, claims[n].slots), claims, heard + {n})
  {
    hide Demotes;
    var c := claims[n];
    var r := Claim(v, n, c.epoch, c.slots);
    forall j | 0 <= j < SLOTS
      ensures Best(r.slots[j], claims, heard + {n}, j)
    {
      assert Best(v.slots[j], claims, heard, j);
    }
  }

  /** Applying again a claim that changes nothing would change nothing. */
  lemma SameClaimInv(v: View, claims: map<Id, ClaimOf>, heard: set<Id>, n: Id)
    requires Inv(v, claims, heard) && n in claims && v.Epoch(n) == claims[n].epoch
    requires v.Owned(n) == claims[n].slots
    ensures Inv(v, claims, heard + {n})
  {
    forall j | 0 <= j < SLOTS
      ensures Best(v.slots[j], claims, heard + {n}, j)
    {
      assert Best(v.slots[j], claims, heard, j);
      assert j in v.Owned(n) <==> v.slots[j] == Some(n);
    }
  }

  lemma ClaimantInv(v: View, claims: map<Id, ClaimOf>, heard: set<Id>, m: Msg)
    requires Inv(v, claims, heard) && Distinct(claims) && Honest(claims, v, m)
    requires m.sender in claims && v.Epoch(m.sender) == claims[m.sender].epoch
    ensures Inv(HeartbeatConfig(v, m), claims, heard + {m.sender})
  {
    hide Inv, UpdateSlots;
    var v1 := SetAsMaster(v, m.sender);
    AlikeInv(v, v1, claims, heard);
    if v1.Owned(m.sender) != m.claim {
      ClaimInv(v1, claims, heard, m.sender);
    } else {
      SameClaimInv(v1, claims, heard, m.sender);
    }
  }

  lemma OtherInv(v: View, claims: map<Id, ClaimOf>, heard: set<Id>, m: Msg)
    requires Inv(v, claims, heard) && Honest(claims, v, m) && m.sender !in claims
    ensures Inv(HeartbeatConfig(v, m), claims, heard)
  {
    hide UpdateSlots, Claim, Demotes;
    OwnsNothing(v, claims, heard, m.sender);
    var v1 := SwitchRole(v, m.sender, m.slaveof);
    assert v1.slots == v.slots;
    assert Alike(v, v1, claims);
    assert v1.Owned(m.sender) == {};
  }

  lemma OwnsNothing(v: View, claims: map<Id, ClaimOf>, heard: set<Id>, n: Id)
    requires Inv(v, claims, heard) && n !in claims
    ensures v.Owned(n) == {}
    ensures DelNodeSlots(v, n).slots == v.slots
  {
    forall j | 0 <= j < SLOTS
      ensures v.slots[j] != Some(n)
    {
      assert Best(v.slots[j], claims, heard, j);
    }
  }

  lemma CollisionInv(v: View, claims: map<Id, ClaimOf>, heard: set<Id>, sender: Id)
    requires Inv(v, claims, heard)
    ensures Inv(HandleCollision(v, sender), claims, heard)
  {
    AlikeInv(v, HandleCollision(v, sender), claims, heard);
  }

  lemma HeartbeatInv(v: View, claims: map<Id, ClaimOf>, heard: set<Id>, m: Msg)
    requires Inv(v, claims, heard) && Distinct(claims) && Honest(claims, v, m) && m.body.Heartbeat?
    ensures Inv(Observe(v, m), claims, Hear(v, claims, heard, m))
  {
    HeaderInv(v, claims, heard, m);
    hide Inv, HeartbeatConfig, HandleCollision;
    var v1 := Header(v, m);
    if m.sender in claims {
      ClaimantInv(v1, claims, heard, m);
    } else {
      OtherInv(v1, claims, heard, m);
    }
    CollisionInv(HeartbeatConfig(v1, m), claims, Hear(v, claims, heard, m), m.sender);
  }

  /** Recording a claim's epoch, at a node that is now a master. */
  lemma RecordInv(v: View, claims: map<Id, ClaimOf>, heard: set<Id>, n: Id)
    requires Inv(v, claims, heard) && n in claims
    ensures Inv(SetAsMaster(v, n).SetEpoch(n, claims[n].epoch), claims, heard)
  {
  }

  lemma UpdateInv(v: View, claims: map<Id, ClaimOf>, heard: set<Id>, m: Msg)
    requires v.me in v.nodes
    requires Inv(v, claims, heard) && Distinct(claims) && Honest(claims, v, m) && m.body.Update?
    ensures Inv(Observe(v, m), claims, Hear(v, claims, heard, m))
  {
    HeaderInv(v, claims, heard, m);
    hide Inv, UpdateSlots, Header;
    var v1 := Header(v, m);
    var n := m.body.about;
    if n in v1.nodes && v1.Epoch(n) < m.body.epoch {
      RecordInv(v1, claims, heard, n);
      ClaimInv(SetAsMaster(v1, n).SetEpoch(n, m.body.epoch), claims, heard, n);
    }
  }

  predicate AllHonest(claims: map<Id, ClaimOf>, v: View, packets: seq<Msg>) {
    forall i :: 0 <= i < |packets| ==> Honest(claims, v, packets[i])
  }

  function ObserveAll(v: View, packets: seq<Msg>): (r: View)
    requires v.me in v.nodes && forall i :: 0 <= i < |packets| ==> packets[i].sender in v.nodes
    ensures Keeps(v, r)
    decreases |packets|
  {
    if packets == [] then v else ObserveAll(Observe(v, packets[0]), packets[1..])
  }

  function HearAll(v: View, claims: map<Id, ClaimOf>, heard: set<Id>, packets: seq<Msg>): set<Id>
    requires v.me in v.nodes && forall i :: 0 <= i < |packets| ==> packets[i].sender in v.nodes
    decreases |packets|
  {
    if packets == [] then heard
    else HearAll(Observe(v, packets[0]), claims, Hear(v, claims, heard, packets[0]), packets[1..])
  }

  /** After any sequence of packets the table is the one the claims heard determine. */
  lemma {:induction false} TableOfHeard(v: View, claims: map<Id, ClaimOf>, heard: set<Id>, packets: seq<Msg>)
    requires v.me in v.nodes && Inv(v, claims, heard) && Distinct(claims) && AllHonest(claims, v, packets)
    ensures Inv(ObserveAll(v, packets), claims, HearAll(v, claims, heard, packets))
    decreases |packets|
  {
    hide Inv, Observe, Hear;
    if packets != [] {
      var m := packets[0];
      if m.body.Heartbeat? { HeartbeatInv(v, claims, heard, m); } else { UpdateInv(v, claims, heard, m); }
      TableOfHeard(Observe(v, m), claims, Hear(v, claims, heard, m), packets[1..]);
    }
  }

  lemma {:induction false} HeartbeatsAreHeard(v: View, claims: map<Id, ClaimOf>, heard: set<Id>,
                                              packets: seq<Msg>, n: Id)
    requires v.me in v.nodes && AllHonest(claims, v, packets) && n in claims
    requires n in heard || exists m :: m in packets && m.body.Heartbeat? && m.sender == n
    ensures n in HearAll(v, claims, heard, packets)
    decreases |packets|
  {
    hide Observe;
    if packets != [] {
      HeartbeatsAreHeard(Observe(v, packets[0]), claims, Hear(v, claims, heard, packets[0]), packets[1..], n);
    }
  }

  predicate AllSpeak(claims: map<Id, ClaimOf>, packets: seq<Msg>) {
    forall n :: n in claims ==> exists m :: m in packets && m.body.Heartbeat? && m.sender == n
  }

  lemma FreshInv(v: View, claims: map<Id, ClaimOf>)
    requires Fresh(v, claims)
    ensures Inv(v, claims, {})
  {
  }

  /** Once every claimant has been heard, each claimed slot belongs to its claimant of
      greatest epoch and unclaimed slots to nobody. */
  lemma GreatestClaimWins(v: View, claims: map<Id, ClaimOf>, packets: seq<Msg>, j: int)
    requires Fresh(v, claims) && Distinct(claims) && AllHonest(claims, v, packets) && AllSpeak(claims, packets)
    requires 0 <= j < SLOTS
    ensures Best(ObserveAll(v, packets).slots[j], claims, claims.Keys, j)
  {
    FreshInv(v, claims);
    TableOfHeard(v, claims, {}, packets);
    var heard := HearAll(v, claims, {}, packets);
    forall n | n in claims
      ensures n in heard
    {
      HeartbeatsAreHeard(v, claims, {}, packets, n);
    }
    assert heard == claims.Keys by { hide HearAll, ObserveAll; }
    hide HearAll, ObserveAll;
  }

  /** The order and the repetitions do not matter, nor do two observers differ. */
  lemma SlotClaimsConverge(v: View, w: View, claims: map<Id, ClaimOf>, p: seq<Msg>, q: seq<Msg>)
    requires Distinct(claims)
    requires Fresh(v, claims) && AllHonest(claims, v, p) && AllSpeak(claims, p)
    requires Fresh(w, claims) && AllHonest(claims, w, q) && AllSpeak(claims, q)
    ensures ObserveAll(v, p).slots == ObserveAll(w, q).slots
  {
    forall j | 0 <= j < SLOTS
      ensures ObserveAll(v, p).slots[j] == ObserveAll(w, q).slots[j]
    {
      GreatestClaimWins(v, claims, p, j);
      GreatestClaimWins(w, claims, q, j);
      hide ObserveAll, Fresh, AllHonest, AllSpeak;
    }
    hide ObserveAll, Fresh, AllHonest, AllSpeak;
  }
}
