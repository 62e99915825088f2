/** What keeps a primary going: a round that has ended lets it propose in the next, and what it proposes can be certified. */
module Progress {
  import opened Types
  import opened Committees
  import opened CertificateGraph
  import opened Storages
  import opened PrimaryEvents
  import opened Primaries
  import opened Rounds

  lemma SameAuthors(storage: Storage, round: nat)
    ensures AuthorsOf(storage.CertificatesForRound(round)) == AuthorsInRound(storage.certificates, round)
  {
    var cs := storage.CertificatesForRound(round);
    forall a | a in AuthorsInRound(storage.certificates, round) ensures a in AuthorsOf(cs) {
      var i :| i in storage.certificates && storage.certificates[i].round == round && storage.certificates[i].author == a;
      assert storage.certificates[i] in cs;
    }
  }

  /**
   Once a round has ended, a primary may propose in the next one just when it has not proposed there yet, is connected to a
   quorum, and its last proposal, if there was any, is long enough ago.
   */
  lemma NextRoundCanPropose(advancer: Advancer, round: nat, leader: Option<Certificate>, timerExpired: bool,
                            s: PrimaryState, self: Address, timely: bool, connected: set<Address>)
    requires if round % 2 == 0 then advancer.EvenRoundEnds(round, timerExpired) else advancer.OddRoundEnds(leader, round, timerExpired)
    requires s.round == round + 1
    ensures var certificates := advancer.storage.certificates;
            CanPropose(advancer.p.committee, certificates, Expired(s), self, timely, connected) <==>
              && (s.proposal.Some? ==> s.proposal.value.header.round <= round)
              && (s.latest.Some? ==> s.latest.value <= round && timely)
              && self !in AuthorsInRound(certificates, round + 1)
              && advancer.p.committee(round + 1).IsQuorum(connected + {self})
  {
    hide Stake, AuthorsOf, AuthorsInRound;
    SameAuthors(advancer.storage, round);
  }

  /** Once its own batch of the round is certified, a primary proposes no other there, and is told so as soon as it may act. */
  lemma CertifiedRoundIsLeft(committee: nat -> Committee, certificates: Universe, s: PrimaryState, self: Address, timely: bool,
                             connected: set<Address>)
    requires s.proposal.None? && s.latest == Some(s.round) && self in AuthorsInRound(certificates, s.round)
    ensures IsCertified(certificates, s, self, timely) <==> timely
    ensures !CanPropose(committee, certificates, s, self, timely, connected)
  {
  }

  /** All members that the primary is connected to have signed, and some of them are others. */
  ghost predicate AllSign(committee: nat -> Committee, header: Certificate, self: Address, connected: set<Address>, ms: seq<Signature>) {
    var signers := GoodSigners(committee, header, self, ms);
    signers != {} && forall a :: a in connected && a != self && a in committee(header.round).members ==> a in signers
  }

  /** A primary proposes only what can be certified: the signatures of those it is connected to are enough. */
  lemma ConnectedAreEnough(committee: nat -> Committee, certificates: Universe, s: PrimaryState, self: Address, timely: bool,
                           connected: set<Address>, header: Certificate, ms: seq<Signature>)
    requires CanPropose(committee, certificates, s, self, timely, connected) && header.round == s.round
    requires AllSign(committee, header, self, connected, ms)
    ensures IsEnough(committee, header, self, ms)
  {
    hide GoodSigners, AuthorsInRound, Stake;
    var members, signers := committee(header.round).members, GoodSigners(committee, header, self, ms);
    var others := set a | a in connected && a !in members;
    StakeOfOthers(members, others);
    StakeSplit(members, signers + {self}, others);
    StakeMonotone(members, connected + {self}, signers + {self} + others);
  }

  lemma {:induction false} StakeOfOthers(members: map<Address, nat>, others: set<Address>)
    requires others !! members.Keys
    ensures Stake(members, others) == 0
    decreases others
  {
    if others != {} {
      var a :| a in others;
      StakeRemove(members, others, a);
      StakeOfOthers(members, others - {a});
    }
  }
}
