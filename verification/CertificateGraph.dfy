/**
 The set of all certificates that ever come to exist, seen from outside any one validator:
 what makes it well-formed, what a path is, and why enough votes make a leader unavoidable.
 */
module CertificateGraph {
  import opened Types
  import opened Committees

  /** Every certificate by its ID. */
  type Universe = map<CertificateId, Certificate>

  /** What all validators agree on: the lookback committee and the elected leader of each round. */
  datatype Protocol = Protocol(committee: nat -> Committee, leader: nat -> Address, maxGcRounds: nat)

  ghost predicate Keyed(u: Universe) {
    forall i :: i in u ==> u[i].id == i
  }

  ghost predicate SameSlot(u: Universe, i: CertificateId, j: CertificateId) {
    i in u && j in u && u[i].author == u[j].author && u[i].round == u[j].round
  }

  /** One certificate per author and round. */
  ghost predicate NonEquivocating(u: Universe) {
    forall i, j :: SameSlot(u, i, j) ==> i == j
  }

  ghost function Authors(u: Universe, ids: seq<CertificateId>): set<Address> {
    set i | i in ids && i in u :: u[i].author
  }

  /** The previous certificates are those of a quorum of the round just before. */
  ghost predicate ParentsReachQuorum(p: Protocol, u: Universe, c: Certificate) {
    if c.round <= 1 then c.previous == []
    else
      && (forall i :: i in c.previous ==> i in u && u[i].round + 1 == c.round)
      && p.committee(c.round - 1).IsQuorum(Authors(u, c.previous))
  }

  ghost predicate SoundCommittees(p: Protocol) {
    forall r: nat :: p.committee(r).Sound()
  }

  ghost predicate Member(u: Universe, c: Certificate) {
    c.id in u && u[c.id] == c
  }

  ghost predicate CertificateValid(p: Protocol, u: Universe, c: Certificate) {
    c.round >= 1 && NoDuplicates(c.previous) && ParentsReachQuorum(p, u, c)
  }

  ghost predicate WellFormed(p: Protocol, u: Universe) {
    && SoundCommittees(p)
    && Keyed(u)
    && NonEquivocating(u)
    && forall c {:trigger CertificateValid(p, u, c)} :: Member(u, c) ==> CertificateValid(p, u, c)
  }

  lemma IsKeyed(p: Protocol, u: Universe)
    requires WellFormed(p, u)
    ensures Keyed(u)
  {
  }

  /** There is a path of references from `c` back to `target`. */
  ghost predicate Linked(u: Universe, c: Certificate, target: Certificate)
    decreases c.round
  {
    c == target ||
    exists i :: i in c.previous && i in u && u[i].round < c.round && Linked(u, u[i], target)
  }

  lemma NextOnPath(u: Universe, c: Certificate, target: Certificate) returns (i: CertificateId)
    requires Linked(u, c, target) && c != target
    ensures i in c.previous && i in u && u[i].round < c.round && Linked(u, u[i], target)
  {
    i :| i in c.previous && i in u && u[i].round < c.round && Linked(u, u[i], target);
  }

  lemma LinkedRounds(u: Universe, c: Certificate, target: Certificate)
    requires Linked(u, c, target)
    ensures c == target || target.round < c.round
    decreases c.round
  {
    if c != target {
      var i :| i in c.previous && i in u && u[i].round < c.round && Linked(u, u[i], target);
      LinkedRounds(u, u[i], target);
    }
  }

  /** The authors who reference `c` from the next round. */
  ghost function Votes(u: Universe, c: Certificate): set<Address> {
    set i | i in u && u[i].round == c.round + 1 && c.id in u[i].previous :: u[i].author
  }

  lemma ParentInUniverse(p: Protocol, u: Universe, c: Certificate, i: CertificateId)
    requires WellFormed(p, u) && Member(u, c) && i in c.previous
    ensures i in u && Member(u, u[i]) && 1 <= u[i].round == c.round - 1
  {
    assert CertificateValid(p, u, c);
    assert CertificateValid(p, u, u[i]);
  }

  lemma SomeParent(p: Protocol, u: Universe, c: Certificate) returns (i: CertificateId)
    requires WellFormed(p, u) && Member(u, c) && c.round > 1
    ensures i in c.previous && i in u && u[i].round + 1 == c.round
  {
    assert CertificateValid(p, u, c);
    assert Authors(u, c.previous) != {};
    var a :| a in Authors(u, c.previous);
    i :| i in c.previous && i in u && u[i].author == a;
  }

  /** A quorum of parents and `f + 1` voters of the same round have a certificate in common. */
  lemma SomeParentVotes(p: Protocol, u: Universe, voted: Certificate, c: Certificate) returns (i: CertificateId)
    requires WellFormed(p, u) && Member(u, c)
    requires p.committee(voted.round + 1).IsAvailable(Votes(u, voted))
    requires voted.round + 2 == c.round
    ensures i in c.previous && i in u && u[i].round == voted.round + 1 && voted.id in u[i].previous
  {
    assert CertificateValid(p, u, c);
    var a := QuorumMeetsAvailability(p.committee(voted.round + 1), Authors(u, c.previous), Votes(u, voted));
    i :| i in c.previous && i in u && u[i].author == a;
    var v :| v in u && u[v].round == voted.round + 1 && voted.id in u[v].previous && u[v].author == a;
    assert SameSlot(u, i, v);
  }

  /**
   Any two availability-and-quorum sets of the same round meet, so a certificate two or more rounds
   above one that has `f + 1` votes always has a path to it.
   */
  lemma {:induction false} VotesMakeUnavoidable(p: Protocol, u: Universe, voted: Certificate, c: Certificate)
    requires WellFormed(p, u) && Member(u, voted) && Member(u, c)
    requires p.committee(voted.round + 1).IsAvailable(Votes(u, voted))
    requires voted.round + 2 <= c.round
    ensures Linked(u, c, voted)
    decreases c.round
  {
    if c.round == voted.round + 2 {
      var i := SomeParentVotes(p, u, voted, c);
      assert Linked(u, u[voted.id], voted);
      assert Linked(u, u[i], voted);
    } else {
      var i := SomeParent(p, u, c);
      VotesMakeUnavoidable(p, u, voted, u[i]);
    }
  }
}
