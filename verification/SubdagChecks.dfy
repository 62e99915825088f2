/**
 The checks on a subdag before it may become a block (snarkVM/ledger/narwhal/subdag/src/lib.rs). Of what the search
 hands over, only the bound on the number of rounds can fail.
 */
module SubdagChecks {
  import opened Types
  import opened Committees
  import opened CertificateGraph
  import opened Dags
  import opened Ordering
  import opened Subdags

  /** The most rounds a subdag may span. */
  const MAX_ROUNDS: nat := 100

  /** What `Subdag::from` checks, and that the anchor round is that of the leader. */
  predicate Passes(s: Subdag, top: nat) {
    && top in s && (forall r :: r in s ==> r <= top)
    && |s| <= MAX_ROUNDS
    && top % 2 == 0 && |s[top]| == 1
    && (forall r :: r in s && r < top ==> r + 1 in s)
    && (forall r :: r in s && r < top ==> AllReferenced(RoundOf(s, r), RoundOf(s, r + 1)))
  }

  /** Every certificate of a round is referenced from the next one. */
  predicate AllReferenced(row: seq<Certificate>, above: seq<Certificate>) {
    forall c :: c in row ==> exists y :: y in above && c.id in y.previous
  }

  lemma {:induction false} SubsetSize(a: set<nat>, b: set<nat>)
    requires a <= b
    ensures |a| <= |b|
  {
    if a != {} {
      var x :| x in a;
      SubsetSize(a - {x}, b - {x});
    }
  }

  /** The `n` numbers from `low` up. */
  ghost function Interval(low: nat, n: nat): (s: set<nat>)
    ensures |s| == n && forall r :: r in s <==> low <= r < low + n
  {
    if n == 0 then {} else Interval(low, n - 1) + {low + n - 1}
  }

  /** What is reached is reached by a last step. */
  lemma {:induction false} ReachedFrom(u: Universe, past: Past, c: Certificate, x: Certificate) returns (y: Certificate)
    requires Keyed(u) && Reaches(u, past, c, x) && c != x && Member(u, c)
    ensures Reaches(u, past, c, y) && Follows(u, past, y, x.id) && Member(u, y) && Member(u, x)
    decreases c.round
  {
    var i :| Follows(u, past, c, i) && Reaches(u, past, u[i], x);
    if u[i] == x {
      y := c;
    } else {
      y := ReachedFrom(u, past, u[i], x);
    }
  }

  /** The row of the leader holds the leader alone, and no row is above it. */
  lemma TopRow(u: Universe, past: Past, leader: Certificate, m: Subdag)
    requires Keyed(u) && Exact(u, past, leader, m)
    ensures leader.round in m && m[leader.round] == [leader]
    ensures forall r :: r in m ==> r <= leader.round
  {
    hide Reaches;
    assert InSubdag(m, leader) by {
      LeaderReached(u, past, leader);
    }
    var row := m[leader.round];
    assert |row| > 1 ==> row[0] != row[1];
    forall r, c | r in m && c in m[r] ensures c == leader || r < leader.round {
      assert InSubdag(m, c);
      ReachesLower(u, past, leader, c);
    }
    forall r | r in m ensures r <= leader.round {
      assert m[r][0] in m[r];
    }
    forall j | 0 <= j < |row| ensures row[j] == leader {
      assert row[j] in row;
    }
  }

  lemma LeaderReached(u: Universe, past: Past, leader: Certificate)
    ensures Reaches(u, past, leader, leader)
  {
  }

  /** Rounds follow one another, and each certificate below the leader is referenced from the round above it. */
  lemma RowsConnect(p: Protocol, u: Universe, past: Past, leader: Certificate, m: Subdag, round: nat)
    requires WellFormed(p, u) && Member(u, leader) && Exact(u, past, leader, m) && round in m && round < leader.round
    ensures round + 1 in m && AllReferenced(RoundOf(m, round), RoundOf(m, round + 1))
  {
    hide Reaches, CertificateValid;
    forall c | c in m[round] ensures round + 1 in m && exists y :: y in m[round + 1] && c.id in y.previous {
      assert InSubdag(m, c);
      var y := ReachedFrom(u, past, leader, c);
      ParentInUniverse(p, u, y, c.id);
      assert InSubdag(m, y);
    }
    assert m[round][0] in m[round];
  }

  lemma {:induction false} RowsUpward(p: Protocol, u: Universe, past: Past, leader: Certificate, m: Subdag, low: nat, round: nat)
    requires WellFormed(p, u) && Member(u, leader) && Exact(u, past, leader, m)
    requires low in m && low <= round <= leader.round
    ensures round in m
    decreases round
  {
    if low < round {
      RowsUpward(p, u, past, leader, m, low, round - 1);
      RowsConnect(p, u, past, leader, m, round - 1);
    }
  }

  /** The number of rounds is within the bound just when the lowest round is. */
  lemma RoundsFit(p: Protocol, u: Universe, past: Past, leader: Certificate, m: Subdag)
    requires WellFormed(p, u) && Member(u, leader) && Exact(u, past, leader, m)
    ensures |m| <= MAX_ROUNDS <==> forall r :: r in m ==> r + MAX_ROUNDS > leader.round
  {
    hide Exact, WellFormed;
    var keys: set<nat> := m.Keys;
    assert |keys| == |m|;
    TopRow(u, past, leader, m) by {
      assert Keyed(u) by { IsKeyed(p, u); }
    }
    if r :| r in m && r + MAX_ROUNDS <= leader.round {
      var span := Interval(r, MAX_ROUNDS + 1);
      forall k | k in span ensures k in keys {
        RowsUpward(p, u, past, leader, m, r, k);
      }
      SubsetSize(span, keys);
    } else {
      var low := if leader.round < MAX_ROUNDS then 0 else leader.round - (MAX_ROUNDS - 1);
      SubsetSize(keys, Interval(low, leader.round + 1 - low));
    }
  }

  lemma PassesIff(p: Protocol, u: Universe, past: Past, leader: Certificate, m: Subdag)
    requires WellFormed(p, u) && Member(u, leader) && Exact(u, past, leader, m) && leader.round % 2 == 0
    ensures Passes(m, leader.round) <==> forall r :: r in m ==> r + MAX_ROUNDS > leader.round
  {
    hide Exact, WellFormed, AllReferenced, RoundOf;
    IsKeyed(p, u);
    TopRow(u, past, leader, m);
    RoundsFit(p, u, past, leader, m);
    forall r | r in m && r < leader.round
      ensures r + 1 in m && AllReferenced(RoundOf(m, r), RoundOf(m, r + 1))
    {
      RowsConnect(p, u, past, leader, m, r);
    }
  }

  /** A certificate of the leader's history that is new and recent, but too far below the leader for one subdag. */
  ghost predicate TooDeep(u: Universe, past: Past, leader: Certificate, x: Certificate) {
    && Linked(u, leader, x) && x.id !in past.done && AboveCutoff(past, x)
    && x.round + MAX_ROUNDS <= leader.round
  }

  /** The subdag is refused just when the leader's history holds a certificate that is too deep. */
  lemma RefusedIff(p: Protocol, u: Universe, past: Past, leader: Certificate, m: Subdag)
    requires WellFormed(p, u) && Member(u, leader) && Exact(u, past, leader, m) && leader.round % 2 == 0
    requires DoneClosed(u, past)
    ensures Passes(m, leader.round) <==> !exists x :: TooDeep(u, past, leader, x)
  {
    hide Passes, Linked, Reaches, CertificateValid, DoneClosed;
    PassesIff(p, u, past, leader, m);
    forall x | TooDeep(u, past, leader, x) ensures x.round in m {
      ReachesIffHistory(u, past, leader, x);
      assert InSubdag(m, x);
    }
    forall r | r in m && r + MAX_ROUNDS <= leader.round ensures TooDeep(u, past, leader, m[r][0]) {
      assert InSubdag(m, m[r][0]);
      ReachesIffHistory(u, past, leader, m[r][0]);
    }
  }

  /** A leader close enough to the one before it is never refused. */
  lemma CloseLeaderPasses(p: Protocol, u: Universe, past: Past, leader: Certificate, m: Subdag)
    requires WellFormed(p, u) && Member(u, leader) && Exact(u, past, leader, m) && leader.round % 2 == 0
    requires DoneClosed(u, past) && leader.round + past.maxGcRounds <= past.last + MAX_ROUNDS
    ensures Passes(m, leader.round)
  {
    hide Passes, Linked, Exact, WellFormed, DoneClosed;
    RefusedIff(p, u, past, leader, m);
  }
}
