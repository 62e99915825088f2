/**
 From signatures to a well-formed set of certificates, and from there to blocks. With at most `f` faulty stake, no author
 and round has two certificates. Every certificate references a quorum of the round before, although an honest signer
 may leave the references unchecked: what makes that harmless is when things happen, so the worlds here have a clock.
 */
module Certification {
  import opened Types
  import opened Committees
  import opened CertificateGraph
  import opened Anchors
  import opened Storages
  import opened Sync
  import Batches
  import opened PrimaryEvents
  import opened PrimaryRuns
  import opened Blocks
  import CommitRuns
  import Safety

  /**
   All certificates, who signed each of them, who is faulty, the lives of the honest primaries, and at what time each
   event of a life happened.
   */
  datatype World = World(
    certificates: Universe, signers: map<CertificateId, set<Address>>, faulty: set<Address>,
    lives: map<Address, Life>, times: map<Address, seq<nat>>)

  /** Every round has less than a third of its stake in faulty hands. */
  ghost predicate FaultsBounded(p: Protocol, w: World) {
    forall r: nat :: p.committee(r).Sound() && Stake(p.committee(r).members, w.faulty) <= p.committee(r).FaultBound()
  }

  /** A certificate carries a quorum of signatures, that of its author among them. */
  ghost predicate HasQuorum(p: Protocol, w: World, c: Certificate) {
    && c.round >= 1 && c.id in w.signers && c.author in w.signers[c.id]
    && p.committee(c.round).IsQuorum(w.signers[c.id])
  }

  /** An honest signature stands for an event in the life of the signer. */
  ghost predicate IsBacked(w: World, a: Address, c: Certificate) {
    a in w.lives && exists k: nat :: Vouches(a, w.lives[a], k, c)
  }

  /** Time goes on from one event of a life to the next. */
  ghost predicate TimesRise(w: World) {
    forall a :: a in w.lives ==>
      && a in w.times && |w.times[a]| == |w.lives[a].events|
      && forall j, k :: 0 <= j < k < |w.times[a]| ==> w.times[a][j] < w.times[a][k]
  }

  ghost predicate VouchesBefore(w: World, t: nat, a: Address, k: nat, c: Certificate) {
    && a in w.lives && Vouches(a, w.lives[a], k, c)
    && a in w.times && k < |w.times[a]| && w.times[a][k] < t
  }

  /** All honest signers of the certificate had signed it before time `t`. */
  ghost predicate ExistsBefore(w: World, t: nat, c: Certificate) {
    forall a :: c.id in w.signers && a in w.signers[c.id] && a !in w.faulty ==> exists k: nat :: VouchesBefore(w, t, a, k, c)
  }

  ghost function Known(w: World, t: nat): Universe {
    map i | i in w.certificates && ExistsBefore(w, t, w.certificates[i]) :: w.certificates[i]
  }

  /** Some run over these certificates leads to this storage, collected up to this round. */
  ghost predicate Reached(p: Protocol, u: Universe, stored: Universe, gcRound: nat) {
    exists actions, v :: CommitRuns.IsRun(p, u, actions, v) && v.storage == stored && v.gcRound == gcRound
  }

  /** Some run over these certificates leads to blocks the last of which is of this round; without blocks it is round 1. */
  ghost predicate LastBlockIsOf(p: Protocol, u: Universe, round: nat) {
    exists actions, v :: CommitRuns.IsRun(p, u, actions, v) && round == CommitRuns.StartingRound(v.accepted)
  }

  /** What an event saw of its validator is what a run over the certificates of that time leads to. */
  ghost predicate SeesState(p: Protocol, w: World, t: nat, e: Event) {
    match e
    case Propose(_, _, stored) => exists gcRound :: Reached(p, Known(w, t), stored, gcRound)
    case Sign(_, stored, gcRound) => Reached(p, Known(w, t), stored, gcRound)
    case Restart(round) => LastBlockIsOf(p, Known(w, t), round)
    case _ => true
  }

  ghost predicate IsWorld(p: Protocol, w: World) {
    && p.maxGcRounds >= 1
    && FaultsBounded(p, w)
    && Keyed(w.certificates)
    && (forall c :: Member(w.certificates, c) ==> HasQuorum(p, w, c))
    && (forall c, a :: Member(w.certificates, c) && c.id in w.signers && a in w.signers[c.id] && a !in w.faulty ==>
          IsBacked(w, a, c))
    && (forall a :: a in w.lives ==> a !in w.faulty && IsLife(p, a, w.lives[a]))
    && TimesRise(w)
    && (forall a, k :: a in w.lives && 0 <= k < |w.lives[a].events| ==> SeesState(p, w, w.times[a][k], w.lives[a].events[k]))
  }

  /** No two different batches of one author and round are both certified. */
  lemma CertificatesUnique(p: Protocol, w: World)
    requires IsWorld(p, w)
    ensures NonEquivocating(w.certificates)
  {
    hide IsLife, Stake, SeesState, TimesRise;
    var u := w.certificates;
    forall i, j | SameSlot(u, i, j) ensures i == j {
      SameBatch(p, w, u[i], u[j]);
    }
  }

  lemma SameBatch(p: Protocol, w: World, c: Certificate, d: Certificate)
    requires IsWorld(p, w) && Member(w.certificates, c) && Member(w.certificates, d)
    requires c.author == d.author && c.round == d.round
    ensures c == d
  {
    hide IsLife, Stake, Vouches, SeesState, TimesRise;
    assert HasQuorum(p, w, c) && HasQuorum(p, w, d);
    var a := TwoQuorumsShareHonest(p.committee(c.round), w.signers[c.id], w.signers[d.id], w.faulty);
    assert IsBacked(w, a, c) && IsBacked(w, a, d);
    var j :| Vouches(a, w.lives[a], j, c);
    var k :| Vouches(a, w.lives[a], k, d);
    VouchesOnce(p, a, w.lives[a], j, c, k, d);
  }

  /** Whatever is certified has references just when it is of a round above the first, and no more transmissions than allowed. */
  lemma CertifiedIsSound(p: Protocol, w: World, c: Certificate)
    requires IsWorld(p, w) && Member(w.certificates, c)
    ensures |c.transmissions| <= Batches.MAX_TRANSMISSIONS_PER_BATCH && (c.previous == [] <==> c.round <= 1)
  {
    var a := HonestSigner(p, w, c);
    assert IsBacked(w, a, c) && IsLife(p, a, w.lives[a]);
    hide IsWorld, IsLife;
    var k: nat :| Vouches(a, w.lives[a], k, c);
    VouchedIsSound(p, a, w.lives[a], k, c);
  }

  lemma VouchedIsSound(p: Protocol, a: Address, life: Life, k: nat, c: Certificate)
    requires IsLife(p, a, life) && Vouches(a, life, k, c)
    ensures HeaderIsSound(c)
  {
    hide ReferencesForRound, ReferencesPass;
    assert Occurs(p.committee, a, life.states[k], life.events[k], life.states[k + 1]);
  }

  /* What a voucher has checked. */

  /** The voucher checked the references: its own, or those of a header whose previous round was not yet collected. */
  ghost predicate HasChecked(e: Event) {
    e.Propose? || (e.Sign? && (e.header.round <= 1 || e.header.round > e.gcRound + 1))
  }

  lemma ProposeFacts(p: Protocol, a: Address, life: Life, k: nat)
    requires IsLife(p, a, life) && k < |life.events| && life.events[k].Propose?
    ensures var h := life.events[k].header; ReferencesForRound(p.committee, life.events[k].stored, h.round, h.previous)
  {
    assert Occurs(p.committee, a, life.states[k], life.events[k], life.states[k + 1]);
  }

  lemma SignFacts(p: Protocol, a: Address, life: Life, k: nat)
    requires IsLife(p, a, life) && k < |life.events| && life.events[k].Sign?
    ensures var e := life.events[k];
            && life.states[k].round <= e.header.round + 1 && e.header.round > e.gcRound && e.header.author != a
            && (HasChecked(e) ==> if e.header.round <= 1 then e.header.previous == []
                                  else ReferencesHold(p.committee, e.stored, e.header))
  {
    assert Occurs(p.committee, a, life.states[k], life.events[k], life.states[k + 1]);
    hide ReferencesHold;
  }

  lemma ProposalCarriesOver(p: Protocol, u: Universe, stored: Universe, c: Certificate)
    requires PartOf(stored, u) && ReferencesForRound(p.committee, stored, c.round, c.previous) && c.round >= 1
    ensures CertificateValid(p, u, c)
  {
    if c.round > 1 {
      assert Authors(stored, c.previous) == Authors(u, c.previous);
    }
  }

  lemma SigningCarriesOver(p: Protocol, u: Universe, stored: Universe, c: Certificate)
    requires PartOf(stored, u) && c.round >= 1
    requires if c.round <= 1 then c.previous == [] else ReferencesHold(p.committee, stored, c)
    ensures CertificateValid(p, u, c)
  {
    if c.round > 1 {
      assert Authors(stored, c.previous) == Authors(u, c.previous);
      forall i, j | 0 <= i < j < |c.previous| ensures c.previous[i] != c.previous[j] {
        assert c.previous[i] in c.previous && c.previous[j] in c.previous;
      }
    }
  }

  /** More certificates are known later. */
  lemma KnownGrows(w: World, s: nat, t: nat)
    requires s <= t
    ensures PartOf(Known(w, s), Known(w, t))
  {
    hide Vouches;
    forall i | i in Known(w, s) ensures i in Known(w, t) {
      var c := w.certificates[i];
      forall a | c.id in w.signers && a in w.signers[c.id] && a !in w.faulty ensures exists k: nat :: VouchesBefore(w, t, a, k, c) {
        var k: nat :| VouchesBefore(w, s, a, k, c);
        assert VouchesBefore(w, t, a, k, c);
      }
    }
  }

  /** A storage that a run over well-formed certificates leads to holds nothing else. */
  lemma ReachedIsPart(p: Protocol, u: Universe, stored: Universe, gcRound: nat)
    requires WellFormed(p, u) && p.maxGcRounds >= 1 && Reached(p, u, stored, gcRound)
    ensures PartOf(stored, u)
  {
    hide WellFormed, CommitRuns.IsRun;
    var actions, v :| CommitRuns.IsRun(p, u, actions, v) && v.storage == stored && v.gcRound == gcRound;
    CommitRuns.RunsKeepInv(p, u, actions, v);
    hide CommitRuns.GraphInv, CommitRuns.IdsInv, CommitRuns.LedgerInv, CommitRuns.GcInv, CommitRuns.ReadyInv, CommitRuns.FlightInv;
  }

  /** References that an honest voucher checked against its storage hold among the certificates known from then on. */
  lemma CheckedIsValid(p: Protocol, w: World, a: Address, k: nat, c: Certificate, t: nat)
    requires IsWorld(p, w) && VouchesBefore(w, t, a, k, c) && c.round >= 1 && HasChecked(w.lives[a].events[k])
    requires WellFormed(p, Known(w, w.times[a][k]))
    ensures CertificateValid(p, Known(w, t), c)
  {
    var life, s := w.lives[a], w.times[a][k];
    var e := life.events[k];
    assert SeesState(p, w, s, e) && IsLife(p, a, life);
    hide IsWorld, IsLife, Stake, Known, Reached, WellFormed, CertificateValid;
    KnownGrows(w, s, t);
    if e.Propose? {
      var gcRound :| Reached(p, Known(w, s), e.stored, gcRound);
      ReachedIsPart(p, Known(w, s), e.stored, gcRound);
      ProposeFacts(p, a, life, k);
      ProposalCarriesOver(p, Known(w, t), e.stored, c);
    } else {
      ReachedIsPart(p, Known(w, s), e.stored, e.gcRound);
      SignFacts(p, a, life, k);
      SigningCarriesOver(p, Known(w, t), e.stored, c);
    }
  }

  /* What has to have happened before a round is collected. */

  /** Below a certificate, each round has a quorum of authors. */
  lemma {:induction false} QuorumBelow(p: Protocol, u: Universe, c: Certificate, round: nat) returns (q: set<Address>)
    requires WellFormed(p, u) && Member(u, c) && 1 <= round < c.round
    ensures p.committee(round).IsQuorum(q)
    ensures forall b :: b in q ==> exists i :: i in u && u[i].round == round && u[i].author == b
    decreases c.round
  {
    hide Stake;
    if c.round == round + 1 {
      assert CertificateValid(p, u, c);
      q := Authors(u, c.previous);
    } else {
      var i := SomeParent(p, u, c);
      q := QuorumBelow(p, u, u[i], round);
    }
  }

  lemma SomeVote(p: Protocol, u: Universe, l: Certificate) returns (i: CertificateId)
    requires SoundCommittees(p) && Direct(p, u, l)
    ensures i in u && u[i].round == l.round + 1
  {
    var votes := Votes(u, l);
    assert votes != {} by {
      AvailabilityIsFPlusOne(p.committee(l.round + 1));
      assert Stake(p.committee(l.round + 1).members, {}) == 0;
    }
    var a :| a in votes;
    i :| i in u && u[i].round == l.round + 1 && l.id in u[i].previous && u[i].author == a;
  }

  /** A validator collects a round only after each round up to the depth above it has a quorum of authors. */
  lemma CollectedIsDeep(p: Protocol, u: Universe, stored: Universe, gcRound: nat, round: nat) returns (q: set<Address>)
    requires WellFormed(p, u) && p.maxGcRounds >= 1 && Reached(p, u, stored, gcRound)
    requires gcRound > 0 && 1 <= round <= gcRound + p.maxGcRounds
    ensures p.committee(round).IsQuorum(q)
    ensures forall b :: b in q ==> exists i :: i in u && u[i].round == round && u[i].author == b
  {
    var l := CollectedFor(p, u, stored, gcRound);
    hide WellFormed, Reached, Stake, Direct;
    var i := SomeVote(p, u, l) by { CommitteesAreSound(p, u); }
    assert Member(u, u[i]) by { KeyedMember(p, u, i); }
    q := QuorumBelow(p, u, u[i], round);
  }

  lemma CommitteesAreSound(p: Protocol, u: Universe)
    requires WellFormed(p, u)
    ensures SoundCommittees(p)
  {
  }

  lemma KeyedMember(p: Protocol, u: Universe, i: CertificateId)
    requires WellFormed(p, u) && i in u
    ensures Member(u, u[i])
  {
  }

  lemma CollectedFor(p: Protocol, u: Universe, stored: Universe, gcRound: nat) returns (l: Certificate)
    requires WellFormed(p, u) && p.maxGcRounds >= 1 && Reached(p, u, stored, gcRound) && gcRound > 0
    ensures Direct(p, u, l) && l.round >= gcRound + p.maxGcRounds
  {
    hide WellFormed, CommitRuns.IsRun, Direct, BlocksOf, SameDone, CommitRuns.Shaped, CommitRuns.GraphInv, CommitRuns.IdsInv,
         CommitRuns.ReadyInv, CommitRuns.FlightInv, CommitRuns.StorageInv, AnchorsOf, Chain;
    var actions, v :| CommitRuns.IsRun(p, u, actions, v) && v.storage == stored && v.gcRound == gcRound;
    CommitRuns.RunsKeepInv(p, u, actions, v);
    var anchors := AnchorsOf(v.accepted);
    l :| Direct(p, u, l) && anchors <= Chain(p, u, l);
    assert IsLeader(p, u, l) by { DirectLeads(p, u, l); }
    ChainShape(p, u, l);
    assert anchors[|anchors| - 1] == Chain(p, u, l)[|anchors| - 1];
  }

  lemma DirectLeads(p: Protocol, u: Universe, l: Certificate)
    requires Direct(p, u, l)
    ensures IsLeader(p, u, l)
  {
  }

  /* Restarts and committees. */

  /** No restart leaves a primary more than `back` rounds below the last round it proposed in. */
  ghost predicate FallsBackAtMost(w: World, back: nat) {
    forall a, k :: a in w.lives && 0 <= k < |w.lives[a].events| && k < |w.lives[a].states| && w.lives[a].events[k].Restart? ==>
      LatestRound(w.lives[a].states[k]) <= w.lives[a].events[k].round + back
  }

  /** Every quorum of the round has a member among `s`. */
  ghost predicate Meets(p: Protocol, round: nat, s: set<Address>) {
    forall q :: p.committee(round).IsQuorum(q) ==> q * s != {}
  }

  /**
   Committees do not change too fast: every quorum of a round shares an honest member with all quorums of some later
   round, far enough above that nobody who has been there signs for the earlier round, and within the depth of collection.
   */
  ghost predicate Overlap(p: Protocol, faulty: set<Address>, back: nat) {
    forall r: nat, q: set<Address> :: r >= 2 && p.committee(r).IsQuorum(q) ==> OverlapsAt(p, back, r, q - faulty)
  }

  ghost predicate OverlapsAt(p: Protocol, back: nat, r: nat, s: set<Address>) {
    exists j: nat :: r + 2 + back <= j < r + p.maxGcRounds && Meets(p, j, s)
  }

  /** A committee that does not change overlaps with itself just when the depth leaves room for it. */
  lemma OneCommitteeOverlapsIff(p: Protocol, w: World, back: nat)
    requires FaultsBounded(p, w) && forall r: nat :: p.committee(r) == p.committee(0)
    ensures Overlap(p, w.faulty, back) <==> back + 3 <= p.maxGcRounds
  {
    hide Stake;
    var c := p.committee(0);
    if back + 3 <= p.maxGcRounds {
      forall r: nat, q: set<Address> | r >= 2 && p.committee(r).IsQuorum(q)
        ensures OverlapsAt(p, back, r, q - w.faulty)
      {
        var j := r + 2 + back;
        forall q' | p.committee(j).IsQuorum(q') ensures q' * (q - w.faulty) != {} {
          var a := TwoQuorumsShareHonest(c, q, q', w.faulty);
          assert a in q' * (q - w.faulty);
        }
        assert Meets(p, j, q - w.faulty);
      }
    }
    if Overlap(p, w.faulty, back) {
      AllAreQuorum(c);
      assert p.committee(2).IsQuorum(c.members.Keys);
      assert OverlapsAt(p, back, 2, c.members.Keys - w.faulty);
      var j: nat :| 2 + 2 + back <= j < 2 + p.maxGcRounds && Meets(p, j, c.members.Keys - w.faulty);
    }
  }

  lemma AllAreQuorum(c: Committee)
    requires c.Sound()
    ensures c.IsQuorum(c.members.Keys)
  {
    QuorumIsNMinusF(c);
  }

  /** A primary is never more than `back` rounds below the last round it proposed in. */
  lemma {:induction false} KeepsUp(p: Protocol, w: World, back: nat, a: Address, k: nat)
    requires FallsBackAtMost(w, back) && a in w.lives && IsLife(p, a, w.lives[a]) && k < |w.lives[a].states|
    ensures LatestRound(w.lives[a].states[k]) <= w.lives[a].states[k].round + back
  {
    var life := w.lives[a];
    if k > 0 {
      KeepsUp(p, w, back, a, k - 1);
      LiveProposalIsLatest(p, a, life, k - 1);
      hide ReferencesForRound, ReferencesHold, HeaderIsSound;
      assert Occurs(p.committee, a, life.states[k - 1], life.events[k - 1], life.states[k]);
    }
  }

  /** Whoever proposed in a later round signs no more for an earlier one. */
  lemma SignsNoMore(p: Protocol, w: World, back: nat, a: Address, m: nat, k: nat)
    requires FallsBackAtMost(w, back) && a in w.lives && IsLife(p, a, w.lives[a]) && m < k < |w.lives[a].events|
    requires w.lives[a].events[m].Propose? && w.lives[a].events[k].Sign?
    ensures w.lives[a].events[m].header.round <= w.lives[a].events[k].header.round + 1 + back
  {
    var life := w.lives[a];
    assert Occurs(p.committee, a, life.states[m], life.events[m], life.states[m + 1]);
    hide ReferencesForRound, IsLife, FallsBackAtMost;
    SignFacts(p, a, life, k);
    RoundsRise(p, a, life, m + 1, k);
    KeepsUp(p, w, back, a, k);
  }

  /* Every certificate was checked. */

  lemma HonestSigner(p: Protocol, w: World, c: Certificate) returns (a: Address)
    requires IsWorld(p, w) && Member(w.certificates, c)
    ensures c.round >= 1 && c.id in w.signers && a in w.signers[c.id] && a !in w.faulty
  {
    hide IsLife, Stake, SeesState, TimesRise, IsBacked;
    assert HasQuorum(p, w, c);
    a := TwoQuorumsShareHonest(p.committee(c.round), w.signers[c.id], w.signers[c.id], w.faulty);
  }

  lemma KnownVoucher(p: Protocol, w: World, t: nat, c: Certificate, a: Address) returns (k: nat)
    requires IsWorld(p, w) && Member(Known(w, t), c) && c.id in w.signers && a in w.signers[c.id] && a !in w.faulty
    ensures VouchesBefore(w, t, a, k, c)
  {
    hide IsWorld, VouchesBefore;
    k :| VouchesBefore(w, t, a, k, c);
  }

  /** The author of a known certificate, if honest, has proposed it. */
  lemma KnownAuthor(p: Protocol, w: World, t: nat, c: Certificate) returns (k: nat)
    requires IsWorld(p, w) && Member(Known(w, t), c) && c.author !in w.faulty
    ensures VouchesBefore(w, t, c.author, k, c) && w.lives[c.author].events[k].Propose?
  {
    assert Member(w.certificates, c) && HasQuorum(p, w, c);
    k := KnownVoucher(p, w, t, c, c.author);
    assert IsLife(p, c.author, w.lives[c.author]);
    hide IsWorld, IsLife, Stake;
    if w.lives[c.author].events[k].Sign? {
      SignFacts(p, c.author, w.lives[c.author], k);
    }
  }

  /**
   If a signer of a known certificate did not check it, then another honest signer had proposed in a much later round
   by then, and so must have signed before that.
   */
  lemma EarlierSigner(p: Protocol, w: World, back: nat, t: nat, c: Certificate, a: Address, k: nat) returns (b: Address, m: nat)
    requires IsWorld(p, w) && FallsBackAtMost(w, back) && Overlap(p, w.faulty, back)
    requires Member(Known(w, t), c) && VouchesBefore(w, t, a, k, c) && !HasChecked(w.lives[a].events[k])
    requires WellFormed(p, Known(w, w.times[a][k]))
    ensures c.id in w.signers && b in w.signers[c.id] && b !in w.faulty && VouchesBefore(w, t, b, m, c)
    ensures HasChecked(w.lives[b].events[m]) || w.times[b][m] < w.times[a][k]
  {
    var s, e := w.times[a][k], w.lives[a].events[k];
    assert IsLife(p, a, w.lives[a]) && SeesState(p, w, s, e);
    assert Member(w.certificates, c) && HasQuorum(p, w, c);
    SignFacts(p, a, w.lives[a], k);
    assert OverlapsAt(p, back, c.round, w.signers[c.id] - w.faulty);
    var j: nat :| c.round + 2 + back <= j < c.round + p.maxGcRounds && Meets(p, j, w.signers[c.id] - w.faulty);
    hide IsLife, Stake, Known, Reached, WellFormed, Overlap, FallsBackAtMost, HasQuorum;
    var q := CollectedIsDeep(p, Known(w, s), e.stored, e.gcRound, j);
    b :| b in q * (w.signers[c.id] - w.faulty);
    var i :| i in Known(w, s) && Known(w, s)[i].round == j && Known(w, s)[i].author == b;
    var d := Known(w, s)[i];
    assert Member(Known(w, s), d) by { KeyedMember(p, Known(w, s), i); }
    var n := KnownAuthor(p, w, s, d);
    m := KnownVoucher(p, w, t, c, b);
    if !HasChecked(w.lives[b].events[m]) {
      LateIsImpossible(p, w, back, b, n, m);
    }
  }

  lemma LateIsImpossible(p: Protocol, w: World, back: nat, b: Address, n: nat, m: nat)
    requires IsWorld(p, w) && FallsBackAtMost(w, back) && b in w.lives && n < |w.lives[b].events| && m < |w.lives[b].events|
    requires w.lives[b].events[n].Propose? && w.lives[b].events[m].Sign?
    requires w.lives[b].events[n].header.round > w.lives[b].events[m].header.round + 1 + back
    ensures m < n && b in w.times && n < |w.times[b]| && w.times[b][m] < w.times[b][n]
  {
    assert IsLife(p, b, w.lives[b]);
    assert TimesRise(w);
    hide IsWorld, IsLife, FallsBackAtMost;
    if n < m {
      SignsNoMore(p, w, back, b, n, m);
    }
  }

  /** Going back in time, one comes to an honest signer that checked. */
  lemma {:induction false} SomeoneChecked(p: Protocol, w: World, back: nat, t: nat, c: Certificate, a: Address, k: nat)
    returns (b: Address, m: nat)
    requires IsWorld(p, w) && FallsBackAtMost(w, back) && Overlap(p, w.faulty, back)
    requires Member(Known(w, t), c) && VouchesBefore(w, t, a, k, c)
    ensures VouchesBefore(w, t, b, m, c) && HasChecked(w.lives[b].events[m])
    decreases t, 0, w.times[a][k]
  {
    hide IsWorld, FallsBackAtMost, Overlap, Known, HasChecked, WellFormed;
    if HasChecked(w.lives[a].events[k]) {
      b, m := a, k;
    } else {
      KnownIsWellFormed(p, w, back, w.times[a][k]);
      b, m := EarlierSigner(p, w, back, t, c, a, k);
      if !HasChecked(w.lives[b].events[m]) {
        b, m := SomeoneChecked(p, w, back, t, c, b, m);
      }
    }
  }

  lemma {:induction false} KnownIsValid(p: Protocol, w: World, back: nat, t: nat, c: Certificate)
    requires IsWorld(p, w) && FallsBackAtMost(w, back) && Overlap(p, w.faulty, back) && Member(Known(w, t), c)
    ensures CertificateValid(p, Known(w, t), c)
    decreases t, 1, 0
  {
    assert Member(w.certificates, c);
    hide IsWorld, FallsBackAtMost, Overlap, HasChecked, WellFormed, Known, CertificateValid;
    var a := HonestSigner(p, w, c);
    var k := KnownVoucher(p, w, t, c, a);
    a, k := SomeoneChecked(p, w, back, t, c, a, k);
    KnownIsWellFormed(p, w, back, w.times[a][k]);
    CheckedIsValid(p, w, a, k, c, t);
  }

  lemma KnownIsUnique(p: Protocol, w: World, t: nat)
    requires IsWorld(p, w)
    ensures Keyed(Known(w, t)) && NonEquivocating(Known(w, t)) && SoundCommittees(p)
  {
    hide Stake, IsLife, SeesState, TimesRise, ExistsBefore, IsBacked, HasQuorum;
    CertificatesUnique(p, w);
    var u := Known(w, t);
    forall i, j | SameSlot(u, i, j) ensures i == j {
      assert SameSlot(w.certificates, i, j);
    }
  }

  /** At any time, the certificates that exist are well-formed. */
  lemma {:induction false} KnownIsWellFormed(p: Protocol, w: World, back: nat, t: nat)
    requires IsWorld(p, w) && FallsBackAtMost(w, back) && Overlap(p, w.faulty, back)
    ensures WellFormed(p, Known(w, t))
    decreases t, 2, 0
  {
    var u := Known(w, t);
    KnownIsUnique(p, w, t);
    hide IsWorld, FallsBackAtMost, Overlap, Known, CertificateValid, NonEquivocating;
    forall c | Member(u, c) ensures CertificateValid(p, u, c) {
      KnownIsValid(p, w, back, t, c);
    }
  }

  /* The certificates of all times. */

  lemma {:induction false} AfterAll(w: World, addresses: set<Address>) returns (t: nat)
    requires TimesRise(w) && addresses <= w.lives.Keys
    ensures forall a, k :: a in addresses && 0 <= k < |w.times[a]| ==> w.times[a][k] < t
    decreases addresses
  {
    if addresses == {} {
      t := 0;
    } else {
      var a :| a in addresses;
      t := AfterAll(w, addresses - {a});
      var n := |w.times[a]|;
      if n > 0 && w.times[a][n - 1] >= t {
        t := w.times[a][n - 1] + 1;
      }
      assert forall k :: 0 <= k < n ==> w.times[a][k] < t;
      assert forall b :: b in addresses ==> b == a || b in addresses - {a};
    }
  }

  lemma AllIsKnown(p: Protocol, w: World) returns (t: nat)
    requires IsWorld(p, w)
    ensures Known(w, t) == w.certificates
  {
    hide IsLife, Stake, SeesState, Vouches;
    t := AfterAll(w, w.lives.Keys);
    forall i | i in w.certificates ensures ExistsBefore(w, t, w.certificates[i]) {
      var c := w.certificates[i];
      forall a | c.id in w.signers && a in w.signers[c.id] && a !in w.faulty ensures exists k: nat :: VouchesBefore(w, t, a, k, c) {
        assert Member(w.certificates, c);
        assert IsBacked(w, a, c);
        var k: nat :| Vouches(a, w.lives[a], k, c);
        assert VouchesBefore(w, t, a, k, c) by { VouchesInRange(w.lives[a], a, k, c); }
      }
    }
  }

  lemma VouchesInRange(life: Life, a: Address, k: nat, c: Certificate)
    requires Vouches(a, life, k, c)
    ensures k < |life.events|
  {
  }

  /** The certificates of a world with at most `f` faulty stake are well-formed. */
  lemma CertificatesWellFormed(p: Protocol, w: World, back: nat)
    requires IsWorld(p, w) && FallsBackAtMost(w, back) && Overlap(p, w.faulty, back)
    ensures WellFormed(p, w.certificates)
  {
    hide IsWorld, FallsBackAtMost, Overlap, Known, WellFormed;
    var t := AllIsKnown(p, w);
    KnownIsWellFormed(p, w, back, t);
  }

  /**
   No fork, from signatures to blocks: as long as less than a third of the stake of any committee is faulty, any two
   honest validators have the same anchors, as far as both have got, and each block adds the same for both. Blocks that
   both found themselves are the same to the last detail.
   */
  lemma NoFork(
    p: Protocol, w: World, back: nat,
    actions: seq<CommitRuns.Action>, v: CommitRuns.Validator, actions': seq<CommitRuns.Action>, v': CommitRuns.Validator)
    requires IsWorld(p, w) && FallsBackAtMost(w, back) && Overlap(p, w.faulty, back)
    requires CommitRuns.IsRun(p, w.certificates, actions, v) && CommitRuns.IsRun(p, w.certificates, actions', v')
    ensures Keyed(w.certificates)
    ensures PrefixComparable(AnchorsOf(v.accepted), AnchorsOf(v'.accepted))
    ensures forall k :: 0 <= k < |v.accepted| && k < |v'.accepted| ==>
              Safety.AgreeAt(p, w.certificates, v.accepted, v'.accepted, k)
    ensures Safety.TakesNoBlock(actions) && Safety.TakesNoBlock(actions') ==> PrefixComparable(v.accepted, v'.accepted)
  {
    CertificatesWellFormed(p, w, back);
    assert p.maxGcRounds >= 1 && Keyed(w.certificates);
    hide WellFormed, CommitRuns.IsRun, IsWorld, FallsBackAtMost, Overlap, Safety.AgreeAt, Safety.TakesNoBlock, AnchorsOf;
    Safety.AnchorAgreement(p, w.certificates, actions, v, actions', v');
    forall k | 0 <= k < |v.accepted| && k < |v'.accepted|
      ensures Safety.AgreeAt(p, w.certificates, v.accepted, v'.accepted, k)
    {
      Safety.BlockAgreement(p, w.certificates, actions, v, actions', v', k);
    }
    if Safety.TakesNoBlock(actions) && Safety.TakesNoBlock(actions') {
      Safety.OwnBlockAgreement(p, w.certificates, actions, v, actions', v');
    }
  }
}
