/**
 The bound on the rounds of a subdag does fail, at the constants of the source: of four members three have a certificate
 in each of 102 rounds, and the fourth, which has none, is elected leader until round 102. The first anchor is refused,
 and no run over these certificates ever accepts a block. What a peer may hand over as that block passes all checks.
 */
module LongChain {
  import opened Types
  import opened Committees
  import opened FourMembers
  import opened CertificateGraph
  import opened Anchors
  import opened Dags
  import opened Views
  import opened Ordering
  import opened Subdags
  import opened Blocks
  import opened SubdagChecks
  import opened BlockChecks
  import opened CommitRuns
  import opened Arrivals
  import opened SubdagShapes

  const LEADER_ROUND: nat := 102

  const LATE := Protocol((_: nat) => FOUR, (r: nat) => if r == LEADER_ROUND then 0 else 3, 100)

  /** The certificate of a round and author; it references the three of the round before. */
  function Link(round: nat, author: Address): Certificate {
    Certificate(3 * round + author, author, round,
                if round <= 1 then [] else [3 * round - 3, 3 * round - 2, 3 * round - 1], [])
  }

  const LEADER := Link(LEADER_ROUND, 0)

  function ById(i: CertificateId): Certificate {
    Link(i / 3, i % 3)
  }

  /** The first `n` certificates, by round and then by author. */
  function Stored(n: nat): Universe {
    map i: nat | 3 <= i < n + 3 :: ById(i)
  }

  /** All of 102 rounds, and two of round 103: the votes that the leader needs. */
  const ALL: nat := 3 * LEADER_ROUND + 2

  const CHAIN: Universe := Stored(ALL)

  lemma ByIdIs(round: nat, author: Address)
    requires author < 3
    ensures ById(3 * round + author) == Link(round, author)
  {
  }

  /** Who is among the first `n`. */
  lemma IsStored(n: nat, round: nat, author: Address)
    requires author < 3 && 1 <= round && 3 * round + author < n + 3
    ensures 3 * round + author in Stored(n) && Stored(n)[3 * round + author] == Link(round, author)
  {
    ByIdIs(round, author);
  }

  lemma StoredIs(n: nat, c: Certificate)
    requires Member(Stored(n), c)
    ensures c.author < 3 && 1 <= c.round && 3 * c.round + c.author < n + 3 && c == Link(c.round, c.author)
  {
  }

  lemma ParentsAreQuorum(c: Certificate)
    requires Member(CHAIN, c) && c.round > 1
    ensures Authors(CHAIN, c.previous) == {0, 1, 2} && NoDuplicates(c.previous)
    ensures forall i :: i in c.previous ==> i in CHAIN && CHAIN[i].round + 1 == c.round
  {
    hide Stored;
    StoredIs(ALL, c);
    var r := c.round - 1;
    assert c.previous == [3 * r, 3 * r + 1, 3 * r + 2];
    IsStored(ALL, r, 0);
    IsStored(ALL, r, 1);
    IsStored(ALL, r, 2);
    var authors := Authors(CHAIN, c.previous);
    assert 3 * r in c.previous && 3 * r + 1 in c.previous && 3 * r + 2 in c.previous;
    assert CHAIN[3 * r].author in authors && CHAIN[3 * r + 1].author in authors && CHAIN[3 * r + 2].author in authors;
  }

  lemma OnePerSlot()
    ensures NonEquivocating(CHAIN)
  {
    StoredIsKeyed(ALL);
    hide Stored, Link;
    forall i, j | SameSlot(CHAIN, i, j) ensures i == j {
      StoredIs(ALL, CHAIN[i]);
      StoredIs(ALL, CHAIN[j]);
    }
  }

  lemma LinkIsValid(c: Certificate)
    requires Member(CHAIN, c)
    ensures CertificateValid(LATE, CHAIN, c)
  {
    hide Stake, Stored;
    StoredIs(ALL, c);
    if c.round > 1 {
      Thresholds({0, 1, 2});
      ParentsAreQuorum(c);
    }
  }

  lemma ChainIsWellFormed()
    ensures WellFormed(LATE, CHAIN)
  {
    FourIsSound();
    OnePerSlot();
    StoredIsKeyed(ALL);
    hide Stake, Stored, CertificateValid, NonEquivocating, Committee.Sound;
    forall c | Member(CHAIN, c) ensures CertificateValid(LATE, CHAIN, c) {
      LinkIsValid(c);
    }
  }

  lemma StoredIsKeyed(n: nat)
    ensures Keyed(Stored(n))
  {
  }

  lemma StoresNext(n: nat, c: Certificate)
    requires c == ById(n + 3)
    ensures Stored(n)[c.id := c] == Stored(n + 1) && c.id == n + 3 && c.id !in Stored(n)
    ensures c.author < 3 && 1 <= c.round && c == Link(c.round, c.author)
    ensures forall i :: c.round > 1 && i in c.previous ==> i in Stored(n)
  {
  }

  lemma NextArrivesHere(n: nat, v: Validator, c: Certificate)
    requires n < ALL && c == ById(n + 3) && HasArrived(Stored(n), v)
    ensures Insertable(v, c) && HasArrived(Stored(n + 1), Received(LATE, v, c)) && Member(CHAIN, c)
  {
    hide Stored, Received, HasArrived, ById;
    StoresNext(n, c);
    ArrivedIs(Stored(n), v);
    IsStored(ALL, c.round, c.author);
    forall x | Member(Stored(n), x) ensures x.round != c.round || x.author != c.author {
      StoredIs(n, x);
    }
    NextArrives(LATE, Stored(n), v, c);
  }

  lemma {:induction false} AllArrive(n: nat) returns (actions: seq<Action>, v: Validator)
    requires n <= ALL
    ensures IsRun(LATE, CHAIN, actions, v) && HasArrived(Stored(n), v) && (n == ALL ==> LEADER in v.ready)
  {
    hide IsRun, Received, Insertable, HasArrived, Stored, ById;
    if n == 0 {
      actions, v := [], GENESIS;
      NothingStored();
      NothingArrived();
      RunStarts(LATE, CHAIN);
    } else {
      var before, w := AllArrive(n - 1);
      var c := ById(n + 2);
      NextArrivesHere(n - 1, w, c);
      ReceiveIsRun(LATE, CHAIN, before, w, c);
      actions, v := before + [Store(c)] + [File(c)], Received(LATE, w, c);
      if n == ALL {
        LastMakesReady(w, c);
      }
    }
  }

  lemma NothingStored()
    ensures Stored(0) == map[]
  {
  }

  lemma LastMakesReady(w: Validator, c: Certificate)
    requires c == ById(ALL + 2) && HasArrived(CHAIN, Received(LATE, w, c))
    ensures LEADER in Received(LATE, w, c).ready
  {
    hide Stored, Elected, Inserted;
    ByIdIs(LEADER_ROUND + 1, 1);
    LeaderIsElected(Received(LATE, w, c).dag);
  }

  lemma LeaderIsElected(d: DagState)
    requires Dags.Filed(d.graph) && d.lastCommittedRound == 0 && forall x :: InGraph(d.graph, x) <==> Member(CHAIN, x)
    ensures Elected(LATE, d, Link(LEADER_ROUND + 1, 1)) == Some(LEADER)
  {
    hide Stake, Stored, VotersIn, CertificateWithAuthor, InGraph, Dags.Filed, Committee.IsAvailable;
    VotersAre(d.graph);
    Thresholds({0, 1});
  }

  lemma VotersAre(g: Graph)
    requires Dags.Filed(g) && forall x :: InGraph(g, x) <==> Member(CHAIN, x)
    ensures CertificateWithAuthor(g, LEADER_ROUND, 0) == Some(LEADER) && VotersIn(g, LEADER_ROUND + 1, LEADER) == {0, 1}
  {
    hide Stored;
    var r := LEADER_ROUND + 1;
    IsStored(ALL, LEADER_ROUND, 0);
    IsStored(ALL, r, 0);
    IsStored(ALL, r, 1);
    assert InGraph(g, LEADER) && InGraph(g, Link(r, 0)) && InGraph(g, Link(r, 1));
    assert LEADER.id in Link(r, 0).previous && LEADER.id in Link(r, 1).previous;
    var voters := VotersIn(g, r, LEADER);
    assert 0 in voters && 1 in voters;
    forall a | a in voters ensures a in {0, 1} {
      var x := Row(g, r)[a];
      assert InGraph(g, x);
      StoredIs(ALL, x);
    }
  }

  /** Below round 102 no leader has a certificate, so the walk finds none. */
  lemma {:induction false} NothingToWalkTo(v: Validator, current: Certificate, round: int)
    requires round < LEADER_ROUND && HasArrived(CHAIN, v)
    ensures LocalWalk(LATE, v.dag.graph, current, round, 2) == []
    decreases round
  {
    hide Stored, LinkedIn;
    if round >= 2 {
      NothingToWalkTo(v, current, round - 2);
      var leader := CertificateWithAuthor(v.dag.graph, round, 3);
      if leader.Some? {
        assert InGraph(v.dag.graph, leader.value);
        StoredIs(ALL, leader.value);
      }
    }
  }

  lemma {:induction false} LinksReach(n: nat)
    requires 1 <= n <= LEADER_ROUND
    ensures Linked(CHAIN, Link(n, 0), Link(1, 0))
  {
    hide Stored;
    if n > 1 {
      LinksReach(n - 1);
      IsStored(ALL, n - 1, 0);
      assert 3 * n - 3 in Link(n, 0).previous;
    }
  }

  /** The first certificate is 101 rounds below the first anchor, in no block, and recent enough. */
  lemma FirstIsTooDeep()
    ensures TooDeep(CHAIN, PastOf([], 100), LEADER, Link(1, 0))
  {
    hide Linked;
    LinksReach(LEADER_ROUND);
  }

  /** A run that comes to an anchor whose subdag is found, and refused. */
  lemma SomeRunIsRefused() returns (actions: seq<Action>, v: Validator)
    ensures WellFormed(LATE, CHAIN) && IsRun(LATE, CHAIN, actions, v)
    ensures v.flight.Some? && v.flight.value.remaining == [LEADER] && Keyed(v.storage)
    ensures var r := OrderDag(Env(v.dag, v.storage, {}, 100), LEADER); r.Ok? && !Passes(r.value, LEADER_ROUND)
  {
    ChainIsWellFormed();
    hide WellFormed, IsRun, OrderDag, Passes, TooDeep, Stored, AllFiled, HasArrived, LocalWalk;
    var before, last := AllArrive(ALL);
    ArrivedIs(CHAIN, last);
    v := Locked(LATE, last, LEADER);
    NothingToWalkTo(last, LEADER, LEADER_ROUND - 2);
    assert [] + [LEADER] == [LEADER];
    RunExtends(LATE, CHAIN, before, last, Lock(LEADER), v);
    actions := before + [Lock(LEADER)];
    FirstIsTooDeep();
    SubdagPasses(LATE, CHAIN, actions, v, {});
  }

  /** No validator, in any run over these certificates, ever accepts a block. */
  lemma NobodyEverCommits(actions: seq<Action>, v: Validator)
    requires IsRun(LATE, CHAIN, actions, v)
    ensures v.accepted == []
  {
    hide IsRun, TooDeep;
    ChainIsWellFormed();
    hide WellFormed;
    FirstIsTooDeep();
    LeaderIsCommittable();
    NobodyGetsPast(LATE, CHAIN, [], LEADER, Link(1, 0), actions, v);
  }

  /** The leader of round 102 has its votes, and nothing comes before it. */
  lemma LeaderIsCommittable()
    ensures Committable(LATE, CHAIN, [] + [LEADER])
  {
    LeaderIsDirect();
    hide Stored, Direct, WalkBack;
    NoLeaderBelow(LEADER, LEADER_ROUND - 2);
    assert [] + [LEADER] <= Chain(LATE, CHAIN, LEADER);
  }

  lemma LeaderIsDirect()
    ensures Direct(LATE, CHAIN, LEADER)
  {
    hide Stake, Stored, Votes;
    IsStored(ALL, LEADER_ROUND, 0);
    VotesAre();
    Thresholds({0, 1});
  }

  lemma VotesAre()
    ensures Votes(CHAIN, LEADER) == {0, 1}
  {
    hide Stored;
    var r := LEADER_ROUND + 1;
    IsStored(ALL, r, 0);
    IsStored(ALL, r, 1);
    assert LEADER.id in Link(r, 0).previous && LEADER.id in Link(r, 1).previous;
    StoredIsKeyed(ALL);
    forall i | i in CHAIN && CHAIN[i].round == r ensures CHAIN[i].author in {0, 1} {
      StoredIs(ALL, CHAIN[i]);
    }
    assert CHAIN[3 * r].author in Votes(CHAIN, LEADER) && CHAIN[3 * r + 1].author in Votes(CHAIN, LEADER);
  }

  lemma {:induction false} NoLeaderBelow(current: Certificate, round: int)
    requires round < LEADER_ROUND
    ensures WalkBack(LATE, CHAIN, current, round, 2) == []
    decreases round
  {
    hide Linked, Stored;
    if round >= 2 {
      NoLeaderBelow(current, round - 2);
      var leader := LeaderAt(LATE, CHAIN, round);
      if leader.Some? {
        StoredIs(ALL, leader.value);
      }
    }
  }

  /* A block that a peer may hand over. */

  function CutRow(round: nat): seq<Certificate> {
    if round == LEADER_ROUND then [LEADER] else [Link(round, 0), Link(round, 1), Link(round, 2)]
  }

  /** The history of the leader without its first three rounds. */
  const CUT := Block(LEADER, map r: nat | 4 <= r <= LEADER_ROUND :: CutRow(r))

  lemma InCut(c: Certificate)
    ensures InSubdag(CUT.subdag, c) <==>
            && 4 <= c.round <= LEADER_ROUND && c.author < 3 && c == Link(c.round, c.author)
            && (c.round == LEADER_ROUND ==> c.author == 0)
  {
    if 4 <= c.round < LEADER_ROUND && c.author < 3 && c == Link(c.round, c.author) {
      assert c == CutRow(c.round)[c.author];
    }
  }

  lemma CutIsPart()
    ensures IsPartOf(CHAIN, CUT.subdag)
  {
    CutIsFiled();
    hide Stored, CutRow, FiledByRound;
    forall c | InSubdag(CUT.subdag, c) ensures Member(CHAIN, c) {
      InCut(c);
      IsStored(ALL, c.round, c.author);
    }
  }

  lemma CutIsFiled()
    ensures FiledByRound(CUT.subdag)
  {
    forall r | r in CUT.subdag
      ensures CUT.subdag[r] != [] && NoDuplicates(CUT.subdag[r]) && forall c :: c in CUT.subdag[r] ==> c.round == r
    {
      assert CUT.subdag[r] == CutRow(r);
    }
  }

  lemma CutRowConnects(r: nat)
    requires 4 <= r < LEADER_ROUND
    ensures AllReferenced(RoundOf(CUT.subdag, r), RoundOf(CUT.subdag, r + 1))
  {
    var y := Link(r + 1, 0);
    assert CutRow(r + 1)[0] == y;
    assert y in RoundOf(CUT.subdag, r + 1);
    assert y.previous == [3 * r, 3 * r + 1, 3 * r + 2];
    forall c | c in RoundOf(CUT.subdag, r) ensures c.id in y.previous {
      assert c.id == y.previous[0] || c.id == y.previous[1] || c.id == y.previous[2];
    }
  }

  lemma CutPasses()
    ensures Passes(CUT.subdag, LEADER_ROUND)
  {
    hide AllReferenced, RoundOf;
    var keys: set<nat> := CUT.subdag.Keys;
    assert keys == Interval(4, LEADER_ROUND - 3);
    assert |keys| == |CUT.subdag|;
    forall r: nat | 4 <= r < LEADER_ROUND ensures AllReferenced(RoundOf(CUT.subdag, r), RoundOf(CUT.subdag, r + 1)) {
      CutRowConnects(r);
    }
  }

  lemma ReferenceIs(r: nat, c: Certificate, i: CertificateId) returns (a: Address)
    requires r >= 1 && c == Link(r + 1, c.author) && i in c.previous
    ensures a < 3 && i == Link(r, a).id
  {
    assert c.previous == [3 * r, 3 * r + 1, 3 * r + 2];
    a := i - 3 * r;
  }

  lemma CutLeavesKnown()
    ensures LeavesKnown(OnTopOf([], CUT))
  {
    hide Link, CutRow;
    LinkIs(LEADER_ROUND, 0);
    forall c, i | InSubdag(CUT.subdag, c) && i in c.previous && c.round + MAX_ROUNDS > LEADER_ROUND + 2
      ensures i in IdsOf(CUT.subdag)
    {
      InCut(c);
      var r := c.round - 1;
      var a := ReferenceIs(r, c, i);
      var x := Link(r, a);
      LinkIs(r, a);
      InCut(x);
      assert x in CUT.subdag[r];
    }
  }

  lemma LinkIs(r: nat, a: Address)
    ensures Link(r, a).round == r && Link(r, a).author == a
  {
  }

  lemma CutIsAtomic()
    ensures Atomic(LATE, 0, CUT)
  {
    hide LinkedWithin;
    forall l | InSubdag(CUT.subdag, l) ensures !LeadsBetween(LATE, 0, l, LEADER_ROUND) {
      InCut(l);
    }
  }

  /** It passes every check on a first block, and does not hold what the search finds. */
  lemma CutIsChecked()
    ensures WellFormed(LATE, CHAIN) && Checked(LATE, CHAIN, [], CUT)
    ensures NewIds({}, CUT.subdag) != IdsOf(SubdagOf(CHAIN, [], 100, LEADER))
  {
    ChainIsWellFormed();
    CutIsPart();
    CutPasses();
    CutLeavesKnown();
    CutIsAtomic();
    hide WellFormed, Passes, IsPartOf, LeavesKnown, Atomic, SubdagOf, Linked, Stored;
    assert AnchorsOf([]) == [];
    assert Checked(LATE, CHAIN, [], CUT);
    FirstIsTooDeep();
    assert LiesDeep(CHAIN, PastOf([], 100), LEADER, Link(1, 0));
    InCut(Link(1, 0));
    assert !Complete(CHAIN, PastOf([], 100), OnTopOf([], CUT));
    NothingBefore();
    TakenIsFoundIff(LATE, CHAIN, [], OnTopOf([], CUT));
  }

  lemma NothingBefore()
    ensures PastValid(CHAIN, PastOf([], 100)) && DoneIds([]) == {}
  {
  }
}
