/**
 A committee of four members with the least stake that is allowed, and certificates of its members that are listed in a
 table. Concrete cases elsewhere are about these.
 */
module FourMembers {
  import opened Types
  import opened Committees
  import opened CertificateGraph

  const FOUR := Committee(map[0 := MIN_VALIDATOR_STAKE, 1 := MIN_VALIDATOR_STAKE, 2 := MIN_VALIDATOR_STAKE,
                              3 := MIN_VALIDATOR_STAKE], 4 * MIN_VALIDATOR_STAKE)

  /** The first member is elected in every round. */
  const FIRST_LEADS := Protocol((_: nat) => FOUR, (_: nat) => 0, 100)

  lemma {:induction false} StakeCounts(s: set<Address>)
    requires s <= FOUR.members.Keys
    ensures Stake(FOUR.members, s) == |s| * MIN_VALIDATOR_STAKE
    decreases s
  {
    if s != {} {
      var a :| a in s;
      StakeRemove(FOUR.members, s, a);
      StakeCounts(s - {a});
    }
  }

  /** Three of the four are a quorum, two are enough for availability, and one may be faulty. */
  lemma Thresholds(s: set<Address>)
    requires s <= {0, 1, 2, 3}
    ensures FOUR.IsQuorum(s) <==> |s| >= 3
    ensures FOUR.IsAvailable(s) <==> |s| >= 2
    ensures Stake(FOUR.members, s) <= FOUR.FaultBound() <==> |s| <= 1
  {
    assert FOUR.members.Keys == {0, 1, 2, 3};
    StakeCounts(s);
  }

  /** A committee that is built from these members is this one. */
  lemma FourIsSound()
    ensures FOUR.Sound() && |FOUR.members| == 4 && MIN_COMMITTEE_SIZE <= 4
  {
    assert FOUR.members.Keys == {0, 1, 2, 3};
    assert |FOUR.members.Keys| == 4;
    StakeCounts(FOUR.members.Keys);
  }

  /* Tables of certificates. */

  /** The first `n` certificates of a table. */
  function Upto(at: nat -> Certificate, n: nat): Universe {
    map i: nat | i < n :: at(i)
  }

  /** Three certificates of the round before, by authors who follow one another, from the one at `j` on. */
  ghost predicate Cites(at: nat -> Certificate, c: Certificate, j: nat) {
    && c.previous == [j, j + 1, j + 2]
    && at(j).round + 1 == at(j + 1).round + 1 == at(j + 2).round + 1 == c.round
    && at(j).author <= 1 && at(j + 1).author == at(j).author + 1 && at(j + 2).author == at(j).author + 2
  }

  ghost predicate IsEntry(at: nat -> Certificate, i: nat) {
    var c := at(i);
    && c.id == i && c.round >= 1
    && (c.round == 1 ==> c.previous == [])
    && (c.round > 1 ==> exists j: nat :: j + 2 < i && Cites(at, c, j))
  }

  /** A table in which each certificate references earlier ones, and no slot is taken twice. */
  ghost predicate IsTable(at: nat -> Certificate, size: nat) {
    && (forall i: nat :: i < size ==> IsEntry(at, i))
    && (forall i: nat, j: nat :: i < j < size ==> at(i).round != at(j).round || at(i).author != at(j).author)
  }

  lemma UptoNext(at: nat -> Certificate, n: nat)
    ensures Upto(at, n)[n := at(n)] == Upto(at, n + 1) && n !in Upto(at, n)
  {
  }

  /** Who is among the first `n`. */
  lemma UptoIff(at: nat -> Certificate, size: nat, n: nat, c: Certificate)
    requires IsTable(at, size) && n <= size
    ensures Member(Upto(at, n), c) <==> c.id < n && c == at(c.id)
    ensures Keyed(Upto(at, n))
  {
    hide Cites;
    forall i: nat | i < n ensures at(i).id == i {
      assert IsEntry(at, i);
    }
  }

  lemma ThreeAuthors(u: Universe, a: CertificateId, b: CertificateId, c: CertificateId)
    requires a in u && b in u && c in u
    ensures Authors(u, [a, b, c]) == {u[a].author, u[b].author, u[c].author}
  {
    assert a in [a, b, c] && b in [a, b, c] && c in [a, b, c];
  }

  /** Authors who follow one another are a quorum. */
  lemma RowIsQuorum(u: Universe, j: CertificateId)
    requires j in u && j + 1 in u && j + 2 in u
    requires u[j].author <= 1 && u[j + 1].author == u[j].author + 1 && u[j + 2].author == u[j].author + 2
    ensures FOUR.IsQuorum(Authors(u, [j, j + 1, j + 2]))
  {
    hide Stake, Committee.IsQuorum, Authors;
    var a := u[j].author;
    ThreeAuthors(u, j, j + 1, j + 2);
    assert |{a, a + 1, a + 2}| == 3;
    Thresholds({a, a + 1, a + 2});
  }

  lemma EntryIsValid(p: Protocol, at: nat -> Certificate, size: nat, i: nat)
    requires IsTable(at, size) && i < size && forall r: nat :: p.committee(r) == FOUR
    ensures CertificateValid(p, Upto(at, size), at(i))
  {
    hide Committee.IsQuorum, Authors;
    assert IsEntry(at, i);
    if at(i).round > 1 {
      var j: nat :| j + 2 < i && Cites(at, at(i), j);
      hide IsTable;
      RowIsQuorum(Upto(at, size), j);
    }
  }

  /** Whoever leads, the certificates of a table are well-formed. */
  lemma TableIsWellFormed(p: Protocol, at: nat -> Certificate, size: nat)
    requires IsTable(at, size) && forall r: nat :: p.committee(r) == FOUR
    ensures WellFormed(p, Upto(at, size))
  {
    hide Stake, CertificateValid, Committee.Sound;
    var u := Upto(at, size);
    FourIsSound();
    assert Keyed(u) by { UptoIff(at, size, size, at(0)); }
    forall i, j | SameSlot(u, i, j) ensures i == j {
    }
    forall c | Member(u, c) ensures CertificateValid(p, u, c) {
      UptoIff(at, size, size, c);
      EntryIsValid(p, at, size, c.id);
    }
  }
}
