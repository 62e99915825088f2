/**
 When a validator moves to the next round (node/bft/src/bft.rs): even rounds wait for the leader, odd rounds for
 enough stake that references the leader, or enough that never will. A leader that is passed over because
 enough stake does without it can never be committed directly, by anyone.
 */
module Rounds {
  import opened Types
  import opened Committees
  import opened CertificateGraph
  import opened Anchors
  import opened Dags
  import opened Storages
  import opened CommitRuns

  function AuthorsOf(cs: set<Certificate>): set<Address> {
    set c | c in cs :: c.author
  }

  function WithLeader(cs: set<Certificate>, id: CertificateId): set<Address> {
    set c | c in cs && id in c.previous :: c.author
  }

  function WithoutLeader(cs: set<Certificate>, id: CertificateId): set<Address> {
    set c | c in cs && id !in c.previous :: c.author
  }

  ghost predicate DistinctAuthors(cs: set<Certificate>) {
    forall c, d :: c in cs && d in cs && c.author == d.author ==> c == d
  }

  /** The two counters split the stake of the round. */
  lemma CountersPartition(members: map<Address, nat>, cs: set<Certificate>, id: CertificateId)
    requires DistinctAuthors(cs)
    ensures WithLeader(cs, id) !! WithoutLeader(cs, id)
    ensures Stake(members, WithLeader(cs, id)) + Stake(members, WithoutLeader(cs, id)) == Stake(members, AuthorsOf(cs))
  {
    assert WithLeader(cs, id) * WithoutLeader(cs, id) == {};
    assert WithLeader(cs, id) + WithoutLeader(cs, id) == AuthorsOf(cs);
    StakeSplit(members, WithLeader(cs, id), WithoutLeader(cs, id));
  }

  /** A round never has both enough stake for the leader and enough without it. */
  lemma CountersExclusive(committee: Committee, cs: set<Certificate>, id: CertificateId)
    requires committee.Sound() && DistinctAuthors(cs)
    ensures !(committee.IsAvailable(WithLeader(cs, id)) && committee.IsQuorum(WithoutLeader(cs, id)))
  {
    CountersPartition(committee.members, cs, id);
    DisjointNotBoth(committee, WithoutLeader(cs, id), WithLeader(cs, id));
  }

  /** Once every member's certificate is there, exactly one counter has reached its threshold. */
  lemma AllPresentDecides(committee: Committee, cs: set<Certificate>, id: CertificateId)
    requires committee.Sound() && DistinctAuthors(cs) && AuthorsOf(cs) >= committee.members.Keys
    ensures committee.IsAvailable(WithLeader(cs, id)) <==> !committee.IsQuorum(WithoutLeader(cs, id))
  {
    CountersPartition(committee.members, cs, id);
    StakeMonotone(committee.members, committee.members.Keys, AuthorsOf(cs));
    StakeBounded(committee.members, AuthorsOf(cs));
    AvailabilityIsFPlusOne(committee);
    QuorumIsNMinusF(committee);
  }

  /** A leader left over from another round has no stake with it: a quorum is then a quorum without it. */
  lemma StaleLeaderCounts(storage: Storage, round: nat, leader: Certificate)
    requires storage.Valid() && round > storage.gcRound + 1 && leader.round + 1 != round
    requires leader.id in storage.certificates ==> storage.certificates[leader.id] == leader
    ensures WithoutLeader(storage.CertificatesForRound(round), leader.id) == AuthorsOf(storage.CertificatesForRound(round))
  {
    hide Indexed, NonEquivocating;
    forall c | c in storage.CertificatesForRound(round) ensures leader.id !in c.previous {
      var i :| i in storage.certificates && storage.certificates[i] == c;
      assert ReferencesHold(storage.committee, storage.certificates, c);
    }
  }

  lemma RoundHasDistinctAuthors(storage: Storage, round: nat)
    requires storage.Valid()
    ensures DistinctAuthors(storage.CertificatesForRound(round))
  {
    hide Closed, ReferencesHold, Indexed;
    var cs := storage.CertificatesForRound(round);
    forall c, d | c in cs && d in cs && c.author == d.author ensures c == d {
      var i :| i in storage.certificates && storage.certificates[i] == c;
      var j :| j in storage.certificates && storage.certificates[j] == d;
      assert SameSlot(storage.certificates, i, j);
    }
  }

  /**
   Skip exclusion: if the certificates that some validator holds of the round after a leader's include a quorum
   that does not reference the leader, then the leader has not, and will never have, the votes to be committed.
   */
  lemma SkipExclusion(p: Protocol, u: Universe, cs: set<Certificate>, leader: Certificate)
    requires WellFormed(p, u)
    requires forall c :: c in cs ==> Member(u, c) && c.round == leader.round + 1
    requires p.committee(leader.round + 1).IsQuorum(WithoutLeader(cs, leader.id))
    ensures !Direct(p, u, leader)
  {
    hide CertificateValid;
    var without, votes := WithoutLeader(cs, leader.id), Votes(u, leader);
    forall c, i | c in cs && leader.id !in c.previous
                  && i in u && u[i].round == leader.round + 1 && leader.id in u[i].previous
      ensures c.author != u[i].author
    {
      assert SameSlot(u, c.id, i) ==> c.id == i;
    }
    assert without !! votes;
    DisjointNotBoth(p.committee(leader.round + 1), without, votes);
  }

  /** The skipped leader is never ready to be committed in the run of any validator. */
  lemma SkippedIsNeverReady(
    p: Protocol, u: Universe, cs: set<Certificate>, leader: Certificate, actions: seq<Action>, v: Validator)
    requires WellFormed(p, u) && p.maxGcRounds >= 1 && IsRun(p, u, actions, v)
    requires forall c :: c in cs ==> Member(u, c) && c.round == leader.round + 1
    requires p.committee(leader.round + 1).IsQuorum(WithoutLeader(cs, leader.id))
    ensures leader !in v.ready
  {
    hide WellFormed, IsRun, Direct, StorageInv, GraphInv, IdsInv, LedgerInv, GcInv, FlightInv;
    RunsKeepInv(p, u, actions, v);
    SkipExclusion(p, u, cs, leader);
  }

  function Capped(n: nat): nat {
    if n <= U64_MAX then n else U64_MAX
  }

  /** The stake that references the leader, and the stake that does not, each summed with saturation. */
  method ComputeStake(id: CertificateId, cs: set<Certificate>, committee: Committee) returns (with: nat, without: nat)
    requires DistinctAuthors(cs)
    ensures with == Capped(Stake(committee.members, WithLeader(cs, id)))
    ensures without == Capped(Stake(committee.members, WithoutLeader(cs, id)))
  {
    hide Stake;
    with, without := 0, 0;
    var rest := cs;
    var done: set<Certificate> := {};
    NoStake(committee.members, id);
    while rest != {}
      invariant rest !! done && rest + done == cs
      invariant with == Capped(Stake(committee.members, WithLeader(done, id)))
      invariant without == Capped(Stake(committee.members, WithoutLeader(done, id)))
      decreases rest
    {
      var c :| c in rest;
      var stake := StakeOf(committee.members, c.author);
      CounterStep(committee.members, cs, done, c, id);
      if id in c.previous {
        with := SaturatingAdd(with, stake);
      } else {
        without := SaturatingAdd(without, stake);
      }
      rest := rest - {c};
      done := done + {c};
    }
    assert done == cs;
  }

  lemma NoStake(members: map<Address, nat>, id: CertificateId)
    ensures Stake(members, WithLeader({}, id)) == 0 && Stake(members, WithoutLeader({}, id)) == 0
  {
    assert WithLeader({}, id) == {} && WithoutLeader({}, id) == {};
  }

  /** One more certificate adds its author's stake to one counter and leaves the other. */
  lemma CounterStep(members: map<Address, nat>, cs: set<Certificate>, done: set<Certificate>, c: Certificate, id: CertificateId)
    requires DistinctAuthors(cs) && done <= cs && c in cs && c !in done
    ensures var with := Stake(members, WithLeader(done + {c}, id)) - Stake(members, WithLeader(done, id));
            var without := Stake(members, WithoutLeader(done + {c}, id)) - Stake(members, WithoutLeader(done, id));
            if id in c.previous then with == StakeOf(members, c.author) && without == 0
            else with == 0 && without == StakeOf(members, c.author)
  {
    if id in c.previous {
      StakeRemove(members, WithLeader(done + {c}, id), c.author);
      assert WithLeader(done + {c}, id) - {c.author} == WithLeader(done, id);
      assert WithoutLeader(done + {c}, id) == WithoutLeader(done, id);
    } else {
      StakeRemove(members, WithoutLeader(done + {c}, id), c.author);
      assert WithoutLeader(done + {c}, id) - {c.author} == WithoutLeader(done, id);
      assert WithLeader(done + {c}, id) == WithLeader(done, id);
    }
  }

  /** The certificate of an author among those of a round. */
  ghost predicate LeaderAmong(cs: set<Certificate>, author: Address, found: Option<Certificate>) {
    match found
    case Some(c) => c in cs && c.author == author
    case None => author !in AuthorsOf(cs)
  }

  class Advancer {
    const p: Protocol
    const storage: Storage
    var leaderCertificate: Option<Certificate>

    constructor (p: Protocol, storage: Storage)
      ensures this.p == p && this.storage == storage && leaderCertificate == None
    {
      this.p, this.storage, leaderCertificate := p, storage, None;
    }

    /** An even round ends with a quorum, once the leader's certificate is there or the timer has expired. */
    ghost predicate EvenRoundEnds(round: nat, timerExpired: bool)
      reads storage
    {
      var cs := storage.CertificatesForRound(round);
      && storage.currentRound == round && round % 2 == 0 && round >= 2
      && cs != {} && p.committee(round).IsQuorum(AuthorsOf(cs))
      && (p.leader(round) in AuthorsOf(cs) || timerExpired)
    }

    /**
     An odd round ends with a quorum, once there is no leader to wait for, enough stake references it, enough stake
     does without it, or the timer has expired.
     */
    ghost predicate OddRoundEnds(leader: Option<Certificate>, round: nat, timerExpired: bool)
      reads storage
    {
      var cs := storage.CertificatesForRound(round);
      && storage.currentRound == round && round % 2 == 1
      && p.committee(round).IsQuorum(AuthorsOf(cs))
      && (|| leader.None? || timerExpired
          || p.committee(round).IsAvailable(WithLeader(cs, leader.value.id))
          || p.committee(round).IsQuorum(WithoutLeader(cs, leader.value.id)))
    }

    /** Sets the leader certificate of an even round, and says whether the round may end. */
    method UpdateLeaderToEvenRound(evenRound: nat, timerExpired: bool) returns (ready: bool)
      requires storage.Valid()
      modifies this
      ensures var cs := storage.CertificatesForRound(evenRound);
              var applies := storage.currentRound == evenRound && evenRound % 2 == 0 && evenRound >= 2;
              && (!applies ==> !ready && leaderCertificate == old(leaderCertificate))
              && (applies ==> LeaderAmong(cs, p.leader(evenRound), leaderCertificate))
              && (ready <==> EvenRoundEnds(evenRound, timerExpired))
    {
      hide Indexed, NonEquivocating, Closed, Stake;
      if storage.currentRound != evenRound {
        return false;
      }
      if evenRound % 2 != 0 || evenRound < 2 {
        return false;
      }
      var cs := storage.CertificatesForRound(evenRound);
      if cs == {} {
        leaderCertificate := None;
        return false;
      }
      if c :| c in cs && c.author == p.leader(evenRound) {
        leaderCertificate := Some(c);
      } else {
        leaderCertificate := None;
      }
      var reached := IsQuorumThresholdReached(p.committee(evenRound), AuthorsOf(cs));
      if !reached {
        return false;
      }
      if leaderCertificate.Some? && leaderCertificate.value.round == evenRound {
        return true;
      }
      ready := timerExpired;
    }

    /** Whether an odd round may end. */
    method IsLeaderQuorumOrNonleadersAvailable(oddRound: nat, timerExpired: bool) returns (ready: bool)
      requires storage.Valid()
      ensures ready <==> OddRoundEnds(leaderCertificate, oddRound, timerExpired)
    {
      if storage.currentRound != oddRound {
        return false;
      }
      if oddRound % 2 != 1 {
        return false;
      }
      var cs := storage.CertificatesForRound(oddRound);
      RoundHasDistinctAuthors(storage, oddRound);
      hide Storage.Valid, Stake, DistinctAuthors;
      var reached := IsQuorumThresholdReached(p.committee(oddRound), AuthorsOf(cs));
      if !reached {
        return false;
      }
      if leaderCertificate.None? {
        return true;
      }
      var with, without := ComputeStake(leaderCertificate.value.id, cs, p.committee(oddRound));
      ready := with >= p.committee(oddRound).AvailabilityThreshold()
            || without >= p.committee(oddRound).QuorumThreshold()
            || timerExpired;
    }

    /** Moves storage to the next round if the current one is ready. */
    method TryAdvanceToNextRound(currentRound: nat, timerExpired: bool, startingRound: nat, latestBlockRound: nat)
      returns (advanced: bool)
      requires storage.Valid()
      modifies this, storage
      ensures storage.Valid() && storage.certificates == old(storage.certificates)
      ensures var ends := if currentRound % 2 == 0 then old(EvenRoundEnds(currentRound, timerExpired))
                          else old(OddRoundEnds(leaderCertificate, currentRound, timerExpired));
              && (advanced <==> ends && !(startingRound <= currentRound + 1 < storage.gcRound))
              && (!ends ==> storage.currentRound == old(storage.currentRound))
              && (ends ==> storage.currentRound == if startingRound <= currentRound + 1 then currentRound + 1
                                                   else if latestBlockRound > currentRound then latestBlockRound else currentRound)
      ensures storage.currentRound >= old(storage.currentRound)
      ensures currentRound % 2 == 1 ==> leaderCertificate == old(leaderCertificate)
    {
      hide Indexed, NonEquivocating, Closed, Stake;
      if currentRound < storage.currentRound {
        return false;
      }
      var ready;
      if currentRound % 2 == 0 {
        ready := UpdateLeaderToEvenRound(currentRound, timerExpired);
      } else {
        ready := IsLeaderQuorumOrNonleadersAvailable(currentRound, timerExpired);
      }
      if ready {
        var r := storage.IncrementToNextRound(currentRound, startingRound, latestBlockRound);
        if r.Err? {
          return false;
        }
      }
      advanced := ready;
    }
  }

  /** An odd round that has a quorum is never held up by a leader certificate of an earlier round. */
  lemma StaleLeaderNeverBlocks(storage: Storage, committee: Committee, round: nat, leader: Certificate)
    requires storage.Valid() && round > storage.gcRound + 1 && leader.round + 1 != round
    requires leader.id in storage.certificates ==> storage.certificates[leader.id] == leader
    requires committee.IsQuorum(AuthorsOf(storage.CertificatesForRound(round)))
    ensures committee.IsQuorum(WithoutLeader(storage.CertificatesForRound(round), leader.id))
  {
    StaleLeaderCounts(storage, round, leader);
  }

  /** So such a round ends, without the timer. */
  lemma StaleLeaderDoesNotHoldUp(advancer: Advancer, round: nat, leader: Certificate)
    requires advancer.storage.Valid() && round > advancer.storage.gcRound + 1 && leader.round + 1 != round
    requires leader.id in advancer.storage.certificates ==> advancer.storage.certificates[leader.id] == leader
    requires advancer.storage.currentRound == round && round % 2 == 1
    requires advancer.p.committee(round).IsQuorum(AuthorsOf(advancer.storage.CertificatesForRound(round)))
    ensures advancer.OddRoundEnds(Some(leader), round, false)
  {
    hide Storage.Valid, Stake;
    StaleLeaderNeverBlocks(advancer.storage, advancer.p.committee(round), round, leader);
  }

  /** An even round ends when the timer has expired just when it has a quorum, and before that if the leader is there as well. */
  lemma EvenRoundEndsIff(advancer: Advancer, round: nat)
    requires advancer.storage.currentRound == round && round % 2 == 0 && round >= 2
    ensures var cs := advancer.storage.CertificatesForRound(round);
            var quorate := advancer.p.committee(round).IsQuorum(AuthorsOf(cs));
            && (advancer.EvenRoundEnds(round, true) <==> quorate)
            && (advancer.EvenRoundEnds(round, false) <==> quorate && exists c :: c in cs && c.author == advancer.p.leader(round))
  {
    var committee, cs := advancer.p.committee(round), advancer.storage.CertificatesForRound(round);
    assert Stake(committee.members, {}) == 0;
    assert cs == {} ==> AuthorsOf(cs) == {};
  }

  /**
   An odd round ends when the timer has expired, or without a leader, just when it has a quorum. Before that it ends just when
   the leader moreover has enough votes, or can no longer get them from the members that have not voted otherwise.
   */
  lemma OddRoundEndsIff(advancer: Advancer, round: nat, leader: Certificate)
    requires advancer.p.committee(round).Sound() && advancer.storage.currentRound == round && round % 2 == 1
    ensures var committee, cs := advancer.p.committee(round), advancer.storage.CertificatesForRound(round);
            && (advancer.OddRoundEnds(Some(leader), round, true) <==> committee.IsQuorum(AuthorsOf(cs)))
            && (advancer.OddRoundEnds(None, round, false) <==> committee.IsQuorum(AuthorsOf(cs)))
            && (advancer.OddRoundEnds(Some(leader), round, false) <==>
                && committee.IsQuorum(AuthorsOf(cs))
                && (|| committee.IsAvailable(WithLeader(cs, leader.id))
                    || !committee.IsAvailable(committee.members.Keys - WithoutLeader(cs, leader.id))))
  {
    hide Stake;
    QuorumLeavesTooFew(advancer.p.committee(round), WithoutLeader(advancer.storage.CertificatesForRound(round), leader.id));
  }

  /** An odd round for which every member's certificate is there ends, whatever the leader and without the timer. */
  lemma FullRoundEnds(advancer: Advancer, round: nat, leader: Option<Certificate>)
    requires advancer.storage.Valid() && advancer.p.committee(round).Sound()
    requires advancer.storage.currentRound == round && round % 2 == 1
    requires AuthorsOf(advancer.storage.CertificatesForRound(round)) >= advancer.p.committee(round).members.Keys
    ensures advancer.OddRoundEnds(leader, round, false)
  {
    var committee, cs := advancer.p.committee(round), advancer.storage.CertificatesForRound(round);
    RoundHasDistinctAuthors(advancer.storage, round);
    hide Storage.Valid, Stake, DistinctAuthors;
    StakeMonotone(committee.members, committee.members.Keys, AuthorsOf(cs));
    QuorumIsNMinusF(committee);
    if leader.Some? {
      AllPresentDecides(committee, cs, leader.value.id);
    }
  }
}
