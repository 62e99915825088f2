/**
 Two members with most of the stake have a certificate in every round up to an even one, and two more certificates vote
 for the leader of that round. A validator that has them all commits everything, and collects garbage.
 */
module TwoAuthors {
  import opened Types
  import opened Committees
  import opened CertificateGraph
  import opened Anchors
  import opened Dags
  import opened DagCommits
  import opened Views
  import opened Ordering
  import opened Subdags
  import opened Blocks
  import opened SubdagChecks
  import opened BlockChecks
  import opened Storages
  import opened Sync
  import opened CommitRuns
  import opened Arrivals
  import opened Safety
  import opened SubdagShapes

  /** Members 1 and 2 are honest and a quorum; 0 and 3 may be faulty. */
  const UNEVEN := Committee(map[0 := MIN_VALIDATOR_STAKE, 1 := 3 * MIN_VALIDATOR_STAKE, 2 := 2 * MIN_VALIDATOR_STAKE,
                                3 := MIN_VALIDATOR_STAKE], 7 * MIN_VALIDATOR_STAKE)

  function Uneven(depth: nat): Protocol {
    Protocol((_: nat) => UNEVEN, (_: nat) => 1, depth)
  }

  lemma TwoStakes(a: Address, b: Address)
    requires a != b
    ensures Stake(UNEVEN.members, {a, b}) == StakeOf(UNEVEN.members, a) + StakeOf(UNEVEN.members, b)
  {
    StakeRemove(UNEVEN.members, {a, b}, a);
    assert {a, b} - {a} == {b};
    StakeRemove(UNEVEN.members, {b}, b);
    assert {b} - {b} == {};
  }

  lemma UnevenIsSound()
    ensures UNEVEN.Sound() && UNEVEN.IsQuorum({1, 2}) && UNEVEN.IsAvailable({2, 3}) && UNEVEN.IsQuorum({0, 1, 3})
    ensures UNEVEN.IsQuorum({1, 2, 3}) && Stake(UNEVEN.members, {0, 3}) <= UNEVEN.FaultBound()
  {
    var m := UNEVEN.members;
    TwoStakes(1, 2);
    TwoStakes(2, 3);
    TwoStakes(0, 3);
    StakeRemove(m, {0, 1, 3}, 1);
    assert {0, 1, 3} - {1} == {0, 3};
    StakeRemove(m, {1, 2, 3}, 3);
    assert {1, 2, 3} - {3} == {1, 2};
    StakeRemove(m, {0, 1, 2, 3}, 0);
    assert {0, 1, 2, 3} - {0} == {1, 2, 3};
    assert m.Keys == {0, 1, 2, 3};
  }

  /** The certificate of a round and author; it references the two of the round before. */
  function Link(round: nat, author: Address): Certificate {
    Certificate(2 * round + author, author, round, if round <= 1 then [] else [2 * round - 1, 2 * round], [])
  }

  function ById(i: CertificateId): Certificate
    requires i >= 1
  {
    var round := (i - 1) / 2;
    Link(round, i - 2 * round)
  }

  /** The first `n` certificates, by round and then by author. */
  function Links(n: nat): Universe {
    map i: nat | 3 <= i < n + 3 :: ById(i)
  }

  ghost predicate IsAmong(n: nat, x: Certificate) {
    && (x.author == 1 || x.author == 2) && x.round >= 1 && x == Link(x.round, x.author) && x.id < n + 3
  }

  lemma AmongLinks(n: nat, x: Certificate)
    ensures IsAmong(n, x) <==> Member(Links(n), x)
  {
    if IsAmong(n, x) {
      assert ById(x.id) == x;
    }
  }

  lemma LinksAreKeyed(n: nat)
    ensures Keyed(Links(n))
  {
  }

  lemma LinksNext(n: nat)
    ensures Links(n)[n + 3 := ById(n + 3)] == Links(n + 1) && IsAmong(n + 1, ById(n + 3)) && ById(n + 3).id == n + 3
  {
    ByIdIs(n + 3);
    hide ById;
  }

  lemma ByIdIs(i: CertificateId)
    requires i >= 3
    ensures IsAmong(i - 2, ById(i)) && ById(i).id == i
  {
  }

  /** The two certificates of a round that vote for the leader of the round `top`. */
  function Vote(top: nat): Certificate {
    Certificate(1, 3, top + 1, [2 * top + 1, 2 * top + 2], [])
  }

  function Everything(top: nat): Universe {
    Links(2 * top)[2 * top + 4 := Link(top + 1, 2)][1 := Vote(top)]
  }

  /** What there is: the certificates of two authors up to `top`, and two above. */
  ghost predicate Exists(top: nat, x: Certificate) {
    IsAmong(2 * top, x) || x == Link(top + 1, 2) || x == Vote(top)
  }

  lemma ExistsIff(top: nat, x: Certificate)
    ensures Exists(top, x) <==> Member(Everything(top), x)
  {
    AmongLinks(2 * top, x);
    hide IsAmong;
    if x.id in Links(2 * top) {
      LinksInRange(2 * top, x.id);
    }
  }

  lemma LinksInRange(n: nat, i: CertificateId)
    requires i in Links(n)
    ensures 3 <= i < n + 3
  {
  }

  lemma EverythingIsKeyed(top: nat)
    ensures Keyed(Everything(top))
  {
    LinksAreKeyed(2 * top);
    hide Links;
  }

  /** Whatever is above the first round references the two certificates of the round before. */
  lemma ReferencesAre(top: nat, x: Certificate)
    requires Exists(top, x) && top >= 1
    ensures 1 <= x.round <= top + 1
    ensures if x.round == 1 then x.previous == []
            else
              var r := x.round - 1;
              && x.previous == [Link(r, 1).id, Link(r, 2).id]
              && Exists(top, Link(r, 1)) && Exists(top, Link(r, 2))
  {
  }

  lemma TwoAuthorsOf(u: Universe, a: CertificateId, b: CertificateId)
    requires a in u && b in u
    ensures Authors(u, [a, b]) == {u[a].author, u[b].author}
  {
    assert a in [a, b] && b in [a, b];
  }

  lemma IsValid(depth: nat, top: nat, x: Certificate)
    requires Exists(top, x) && top >= 1
    ensures CertificateValid(Uneven(depth), Everything(top), x)
  {
    hide Stake, Everything, Exists;
    UnevenIsSound();
    ReferencesAre(top, x);
    if x.round > 1 {
      var a, b := Link(x.round - 1, 1), Link(x.round - 1, 2);
      ExistsIff(top, a);
      ExistsIff(top, b);
      TwoAuthorsOf(Everything(top), a.id, b.id);
      assert NoDuplicates(x.previous);
    }
  }

  lemma EverythingIsWellFormed(depth: nat, top: nat)
    requires top >= 1
    ensures WellFormed(Uneven(depth), Everything(top))
  {
    hide Stake, Everything, Exists, CertificateValid, Committee.Sound;
    UnevenIsSound();
    EverythingIsKeyed(top);
    var u := Everything(top);
    forall i, j | SameSlot(u, i, j) ensures i == j {
      ExistsIff(top, u[i]);
      ExistsIff(top, u[j]);
      SlotsDiffer(top, u[i], u[j]);
    }
    forall c | Member(u, c) ensures CertificateValid(Uneven(depth), u, c) {
      ExistsIff(top, c);
      IsValid(depth, top, c);
    }
  }

  lemma SlotsDiffer(top: nat, x: Certificate, y: Certificate)
    requires Exists(top, x) && Exists(top, y) && x.round == y.round && x.author == y.author
    ensures x == y
  {
  }

  /* They arrive. */

  lemma {:induction false} LinksArrive(p: Protocol, u: Universe, n: nat) returns (actions: seq<Action>, v: Validator)
    requires PartOf(Links(n), u)
    ensures IsRun(p, u, actions, v) && HasArrived(Links(n), v)
  {
    hide IsRun, HasArrived, Insertable, Received, ById, IsAmong, Links, PartOf;
    if n == 0 {
      actions, v := [], GENESIS;
      assert Links(0) == map[] by { NoLinks(); }
      NothingArrived();
      RunStarts(p, u);
    } else {
      var c := ById(n + 2);
      LinksNext(n - 1);
      LinksGrow(n, u);
      var before, w := LinksArrive(p, u, n - 1);
      NextIsNew(n - 1, w);
      NextArrives(p, Links(n - 1), w, c);
      v := Received(p, w, c);
      ReceiveIsRun(p, u, before, w, c);
      actions := before + [Store(c)] + [File(c)];
    }
  }

  lemma NoLinks()
    ensures Links(0) == map[]
  {
  }

  lemma LinksGrow(n: nat, u: Universe)
    requires n > 0 && PartOf(Links(n), u)
    ensures PartOf(Links(n - 1), u) && Member(u, ById(n + 2))
  {
    ByIdIs(n + 2);
    hide ById;
  }

  lemma NextIsNew(n: nat, v: Validator)
    requires HasArrived(Links(n), v)
    ensures var c := ById(n + 3);
            && c.id !in Links(n) && Insertable(v, c)
            && forall x :: Member(Links(n), x) ==> x.round != c.round || x.author != c.author
  {
    var c := ById(n + 3);
    LinksNext(n);
    forall x | Member(Links(n), x) ensures x.round != c.round || x.author != c.author {
      AmongLinks(n, x);
    }
    ByIdIs(n + 3);
    hide HasArrived, ById, InGraph;
    forall i | c.round > 1 && i in c.previous ensures i in Links(n) {
      var a := i - 2 * (c.round - 1);
      AmongLinks(n, Link(c.round - 1, a));
    }
    assert v.storage == Links(n) && v.gcRound == 0 by { ArrivedIs(Links(n), v); }
    hide Links;
  }

  /** All arrive, and the last one makes the leader of the round `top` ready. */
  lemma AllArrive(depth: nat, top: nat) returns (actions: seq<Action>, v: Validator)
    requires top >= 2 && top % 2 == 0
    ensures IsRun(Uneven(depth), Everything(top), actions, v) && HasArrived(Everything(top), v) && Link(top, 1) in v.ready
  {
    hide IsRun, HasArrived, Insertable, Received, Links, Exists, Link;
    var p, u := Uneven(depth), Everything(top);
    var first, second := Link(top + 1, 2), Vote(top);
    var most := Links(2 * top)[first.id := first];
    assert first.id == 2 * top + 4 && u == most[second.id := second] by { IdsAre(top); }
    assert PartOf(Links(2 * top), u) by { hide Vote; LinksArePart(top); }
    actions, v := LinksArrive(p, u, 2 * top);
    VotesAreNew(top, v);
    ExistsIff(top, first) by { VotesExist(top); }
    ExistsIff(top, second) by { VotesExist(top); }
    NextArrives(p, Links(2 * top), v, first);
    ReceiveIsRun(p, u, actions, v, first);
    actions := actions + [Store(first)] + [File(first)];
    v := Received(p, v, first);
    LastIsNew(top, v);
    NextArrives(p, most, v, second);
    ReceiveIsRun(p, u, actions, v, second);
    actions := actions + [Store(second)] + [File(second)];
    LeaderGetsReady(depth, top, v);
    v := Received(p, v, second);
  }

  lemma IdsAre(top: nat)
    ensures Link(top + 1, 2).id == 2 * top + 4 && Vote(top).id == 1
    ensures Everything(top) == Links(2 * top)[Link(top + 1, 2).id := Link(top + 1, 2)][Vote(top).id := Vote(top)]
  {
  }

  lemma VotesExist(top: nat)
    ensures Exists(top, Link(top + 1, 2)) && Exists(top, Vote(top))
  {
  }

  lemma LinksArePart(top: nat)
    ensures PartOf(Links(2 * top), Everything(top))
  {
    hide ById, Link, Vote;
  }

  lemma VotesAreNew(top: nat, v: Validator)
    requires HasArrived(Links(2 * top), v) && top >= 1
    ensures var c := Link(top + 1, 2);
            && c.id !in Links(2 * top) && Insertable(v, c)
            && forall x :: Member(Links(2 * top), x) ==> x.round != c.round || x.author != c.author
  {
    var n, c := 2 * top, Link(top + 1, 2);
    ArrivedIs(Links(n), v);
    forall x | Member(Links(n), x) ensures x.round != c.round || x.author != c.author {
      AmongLinks(n, x);
    }
    assert c.id !in Links(n);
    AmongLinks(n, Link(top, 1));
    AmongLinks(n, Link(top, 2));
    hide HasArrived, Links;
  }

  lemma LastIsNew(top: nat, v: Validator)
    requires HasArrived(Links(2 * top)[Link(top + 1, 2).id := Link(top + 1, 2)], v) && top >= 1
    ensures var c := Vote(top); var most := Links(2 * top)[Link(top + 1, 2).id := Link(top + 1, 2)];
            && c.id !in most && Insertable(v, c)
            && forall x :: Member(most, x) ==> x.round != c.round || x.author != c.author
  {
    var n, c := 2 * top, Vote(top);
    var most := Links(n)[Link(top + 1, 2).id := Link(top + 1, 2)];
    ArrivedIs(most, v);
    forall x | Member(most, x) ensures x.round != c.round || x.author != c.author {
      if x != Link(top + 1, 2) {
        AmongLinks(n, x);
      }
    }
    assert c.id !in most;
    AmongLinks(n, Link(top, 1));
    AmongLinks(n, Link(top, 2));
    hide HasArrived, Links;
  }

  lemma LeaderGetsReady(depth: nat, top: nat, v: Validator)
    requires HasArrived(Links(2 * top)[Link(top + 1, 2).id := Link(top + 1, 2)], v) && top >= 2 && top % 2 == 0
    requires HasArrived(Everything(top), Received(Uneven(depth), v, Vote(top)))
    ensures Link(top, 1) in Received(Uneven(depth), v, Vote(top)).ready
  {
    var v' := Received(Uneven(depth), v, Vote(top));
    LeaderIsElected(depth, top, v'.dag) by {
      hide Elected, Inserted, Everything, Links, InGraph;
    }
    hide Elected, Inserted, Everything, Links;
  }

  lemma VotersAre(top: nat, g: Graph)
    requires top >= 2 && Dags.Filed(g) && forall x :: InGraph(g, x) <==> Member(Everything(top), x)
    ensures CertificateWithAuthor(g, top, 1) == Some(Link(top, 1)) && VotersIn(g, top + 1, Link(top, 1)) == {2, 3}
  {
    hide Everything, Exists;
    var leader, first, second := Link(top, 1), Link(top + 1, 2), Vote(top);
    assert Exists(top, leader) && Exists(top, first) && Exists(top, second) by { LinkExists(top, top); VotesExist(top); }
    ExistsIff(top, leader);
    ExistsIff(top, first);
    ExistsIff(top, second);
    assert InGraph(g, leader) && InGraph(g, first) && InGraph(g, second);
    var voters := VotersIn(g, top + 1, leader);
    assert leader.id in first.previous && leader.id in second.previous;
    assert 2 in voters && 3 in voters;
    forall a | a in voters ensures a in {2, 3} {
      var x := Row(g, top + 1)[a];
      assert InGraph(g, x);
      ExistsIff(top, x);
      HighIsVote(top, x);
    }
  }

  lemma HighIsVote(top: nat, x: Certificate)
    requires Exists(top, x) && x.round == top + 1
    ensures x.author in {2, 3}
  {
  }

  lemma LeaderIsElected(depth: nat, top: nat, d: DagState)
    requires top >= 2 && top % 2 == 0 && Dags.Filed(d.graph) && forall x :: InGraph(d.graph, x) <==> Member(Everything(top), x)
    requires d.lastCommittedRound == 0
    ensures Elected(Uneven(depth), d, Vote(top)) == Some(Link(top, 1))
  {
    hide Stake, Everything, InGraph, VotersIn, Dags.Filed, CertificateWithAuthor, Committee.IsAvailable, Committee.IsQuorum,
         Committee.Sound;
    VotersAre(top, d.graph);
    UnevenIsSound();
    assert Link(top, 1).round == top;
  }

  /* Everything is committed. */

  lemma {:induction false} LinkedDown(top: nat, c: Certificate, x: Certificate)
    requires Exists(top, c) && IsAmong(2 * top, x) && x.round < c.round && top >= 1
    ensures Linked(Everything(top), c, x)
    decreases c.round
  {
    hide Everything;
    ReferencesAre(top, c);
    var r := c.round - 1;
    if x.round == r {
      ExistsIff(top, x);
      assert Linked(Everything(top), x, x);
      assert x.id in c.previous;
    } else {
      var y := Link(r, 1);
      LinkedDown(top, y, x);
      ExistsIff(top, y);
      assert y.id in c.previous;
    }
  }

  /** The leaders of the even rounds. */
  function Evens(m: nat): seq<Certificate> {
    if m == 0 then [] else Evens(m - 1) + [Link(2 * m, 1)]
  }

  lemma {:induction false} EvensAt(m: nat, k: nat)
    requires k < m
    ensures |Evens(m)| == m && Evens(m)[k] == Link(2 * (k + 1), 1)
  {
    if m == 1 {
      assert Evens(1) == Evens(0) + [Link(2, 1)];
    } else if k + 1 < m {
      EvensAt(m - 1, k);
    } else {
      EvensAt(m - 1, 0);
    }
  }

  lemma {:induction false} ChainIsEvens(depth: nat, top: nat, m: nat)
    requires 1 <= m && 2 * m <= top
    ensures Chain(Uneven(depth), Everything(top), Link(2 * m, 1)) == Evens(m)
  {
    hide Everything, WalkBack, LeaderAt, Linked, WellFormed;
    var p, u, c := Uneven(depth), Everything(top), Link(2 * m, 1);
    if m == 1 {
      assert WalkBack(p, u, c, 0, 2) == [] by { WalkEnds(p, u, c); }
      assert Evens(1) == Evens(0) + [c];
    } else {
      var below := Link(2 * m - 2, 1);
      EverythingIsWellFormed(depth, top);
      ExistsIff(top, below);
      LeadsAt(depth, top, below);
      LinkedDown(top, c, below);
      WalkBackTakes(p, u, c, 2 * m - 2, 2, below);
      ChainIsEvens(depth, top, m - 1);
    }
  }

  lemma WalkEnds(p: Protocol, u: Universe, c: Certificate)
    ensures WalkBack(p, u, c, 0, 2) == []
  {
  }

  lemma LeadsAt(depth: nat, top: nat, l: Certificate)
    requires WellFormed(Uneven(depth), Everything(top)) && Member(Everything(top), l)
    requires l.author == 1 && l.round >= 2 && l.round % 2 == 0
    ensures LeaderAt(Uneven(depth), Everything(top), l.round) == Some(l)
  {
    hide Everything, CertificateValid;
    LeaderAtIs(Uneven(depth), Everything(top), l);
  }

  /** Whoever has an anchor before it has everything that is more than two rounds below the next one. */
  lemma NothingIsDeep(depth: nat, top: nat, actions: seq<Action>, v: Validator, x: Certificate)
    requires top >= 2 && top % 2 == 0 && depth >= 1 && IsRun(Uneven(depth), Everything(top), actions, v)
    requires v.flight.Some? && v.flight.value.remaining != [] && !v.flight.value.skipConsensus
    requires v.flight.value.latest == Link(top, 1)
    ensures !TooDeep(Everything(top), PastOf(v.accepted, depth), v.flight.value.remaining[0], x)
  {
    hide IsRun, WellFormed, Everything, Linked, DoneIds, StorageInv, GraphInv, IdsInv, GcInv, ReadyInv, LedgerInv, Direct, Chain, Link, NewIds;
    var p, u, n := Uneven(depth), Everything(top), |v.accepted|;
    var anchor := v.flight.value.remaining[0];
    EverythingIsWellFormed(depth, top);
    EverythingIsKeyed(top);
    RunsKeepInv(p, u, actions, v);
    ChainIsEvens(depth, top, top / 2);
    var evens := Evens(top / 2);
    assert evens == AnchorsOf(v.accepted) + v.flight.value.remaining;
    EvensAt(top / 2, 0);
    assert evens[n] == anchor;
    EvensAt(top / 2, n);
    RoundOfLink(2 * (n + 1));
    LinkExists(top, 2 * (n + 1));
    ExistsIff(top, anchor);
    if n > 0 && TooDeep(u, PastOf(v.accepted, depth), anchor, x) {
      var before := v.accepted[n - 1].anchor;
      assert evens[n - 1] == before;
      EvensAt(top / 2, n - 1);
      RoundOfLink(2 * n);
      LinkExists(top, 2 * n);
      LinkedIsMember(u, anchor, x);
      ExistsIff(top, x);
      LowIsAmong(top, x);
      LinkedDown(top, before, x);
      DoneBefore(depth, top, actions, v, x);
    }
  }

  lemma RoundOfLink(r: nat)
    ensures Link(r, 1).round == r
  {
  }

  lemma LinkExists(top: nat, r: nat)
    requires 1 <= r <= top
    ensures Exists(top, Link(r, 1))
  {
  }

  lemma LowIsAmong(top: nat, x: Certificate)
    requires Exists(top, x) && x.round <= top
    ensures IsAmong(2 * top, x)
  {
  }

  lemma DoneBefore(depth: nat, top: nat, actions: seq<Action>, v: Validator, x: Certificate)
    requires depth >= 1 && IsRun(Uneven(depth), Everything(top), actions, v) && v.accepted != []
    requires WellFormed(Uneven(depth), Everything(top)) && Member(Everything(top), x)
    requires Linked(Everything(top), v.accepted[|v.accepted| - 1].anchor, x) && AboveCutoff(PastOf(v.accepted, depth), x)
    ensures x.id in DoneIds(v.accepted)
  {
    hide IsRun, WellFormed, Everything, Linked, DoneIds, IdsOf, AnchorsOf;
    var n := |v.accepted| - 1;
    LastsRise(depth, top, actions, v);
    AcceptedIsHistory(Uneven(depth), Everything(top), actions, v, n, x.id);
    assert v.accepted[..n] + [v.accepted[n]] == v.accepted;
    DoneExtended(v.accepted[..n], v.accepted[n]);
  }

  lemma LastsRise(depth: nat, top: nat, actions: seq<Action>, v: Validator)
    requires depth >= 1 && IsRun(Uneven(depth), Everything(top), actions, v) && v.accepted != []
    requires WellFormed(Uneven(depth), Everything(top))
    ensures LastRound(AnchorsOf(v.accepted[..|v.accepted| - 1])) <= LastRound(AnchorsOf(v.accepted))
  {
    hide IsRun, WellFormed, Everything, DoneIds, IdsOf, IsOwn;
    EverythingIsKeyed(top);
    AcceptedAtMostOnce(Uneven(depth), Everything(top), actions, v);
    var n := |v.accepted| - 1;
    if n > 0 {
      assert v.accepted[n - 1].anchor.round < v.accepted[n].anchor.round;
    }
  }

  /** Anchors are accepted one after the other, until there are `m` blocks. */
  lemma {:induction false} Decides(depth: nat, top: nat, actions: seq<Action>, v: Validator, m: nat)
    returns (more: seq<Action>, w: Validator)
    requires top >= 2 && top % 2 == 0 && depth >= 1 && IsRun(Uneven(depth), Everything(top), actions, v) && Keyed(v.storage)
    requires v.flight.Some? && !v.flight.value.skipConsensus && v.flight.value.latest == Link(top, 1)
    requires |v.accepted| <= m <= top / 2
    ensures IsRun(Uneven(depth), Everything(top), more, w) && w.storage == v.storage && w.gcRound == v.gcRound
    ensures w.flight.Some? && !w.flight.value.skipConsensus && w.flight.value.latest == Link(top, 1)
    ensures |w.accepted| == m
    decreases m - |v.accepted|
  {
    hide IsRun, WellFormed, Everything, TooDeep, OrderDag, Passes, CommittedAll, Flatten, DoneIds, Link;
    var p, u := Uneven(depth), Everything(top);
    if |v.accepted| == m {
      more, w := actions, v;
    } else {
      EverythingIsWellFormed(depth, top);
      EvensRemain(depth, top, actions, v);
      SubdagPasses(p, u, actions, v, {});
      forall x ensures !TooDeep(u, PastOf(v.accepted, depth), v.flight.value.remaining[0], x) {
        NothingIsDeep(depth, top, actions, v, x);
      }
      var next := Decided(p, v, {}, true);
      RunExtends(p, u, actions, v, Decide({}, true), next);
      more, w := Decides(depth, top, actions + [Decide({}, true)], next, m);
    }
  }

  /** What is accepted and what remains are the leaders of the even rounds. */
  lemma EvensRemain(depth: nat, top: nat, actions: seq<Action>, v: Validator)
    requires top >= 2 && top % 2 == 0 && depth >= 1 && IsRun(Uneven(depth), Everything(top), actions, v)
    requires v.flight.Some? && !v.flight.value.skipConsensus && v.flight.value.latest == Link(top, 1)
    ensures |v.accepted| + |v.flight.value.remaining| == top / 2
    ensures AnchorsOf(v.accepted) == Evens(|v.accepted|)
  {
    hide IsRun, WellFormed, Everything, StorageInv, GraphInv, IdsInv, GcInv, ReadyInv, LedgerInv, Direct, Chain, Link;
    EverythingIsWellFormed(depth, top);
    RunsKeepInv(Uneven(depth), Everything(top), actions, v);
    ChainIsEvens(depth, top, top / 2);
    var n, anchors, evens := |v.accepted|, AnchorsOf(v.accepted), Evens(top / 2);
    assert evens == anchors + v.flight.value.remaining;
    EvensAt(top / 2, 0);
    EvensPrefix(top / 2, n);
    assert anchors == evens[..n];
  }

  lemma {:induction false} EvensPrefix(m: nat, n: nat)
    requires n <= m
    ensures |Evens(m)| == m && Evens(m)[..n] == Evens(n)
  {
    hide Link;
    if n < m {
      EvensPrefix(m - 1, n);
    } else if m > 0 {
      EvensPrefix(m - 1, m - 1);
    }
  }

  /** A validator that has everything comes to have `m` blocks. */
  lemma Commits(depth: nat, top: nat, m: nat) returns (actions: seq<Action>, v: Validator)
    requires depth >= 1 && top >= 2 && top % 2 == 0 && m <= top / 2
    ensures IsRun(Uneven(depth), Everything(top), actions, v) && AnchorsOf(v.accepted) == Evens(m)
    ensures v.storage == Everything(top) && v.gcRound == 0
    ensures v.flight.Some? && v.flight.value.latest == Link(top, 1) && (m == top / 2 ==> v.flight.value.remaining == [])
  {
    hide IsRun, Everything, HasArrived, LocalWalk, AllFiled, Link, AnchorsOf;
    var p, u, leader := Uneven(depth), Everything(top), Link(top, 1);
    actions, v := AllArrive(depth, top);
    ArrivedIs(u, v);
    RoundOfLink(top);
    var locked := Locked(p, v, leader);
    RunExtends(p, u, actions, v, Lock(leader), locked);
    actions := actions + [Lock(leader)];
    actions, v := Decides(depth, top, actions, locked, m);
    EvensRemain(depth, top, actions, v);
  }

  /** A validator that has everything commits it, and collects up to the depth below the leader of the round `top`. */
  lemma Collects(depth: nat, top: nat) returns (actions: seq<Action>, v: Validator)
    requires depth >= 1 && top > depth && top % 2 == 0
    ensures IsRun(Uneven(depth), Everything(top), actions, v) && AnchorsOf(v.accepted) == Evens(top / 2)
    ensures v.gcRound == top - depth && v.storage == KeptAbove(Everything(top), top - depth)
  {
    hide IsRun, Everything, KeptAbove, Link, AnchorsOf, Evens;
    var p, u := Uneven(depth), Everything(top);
    actions, v := Commits(depth, top, top / 2);
    RoundOfLink(top);
    RunExtends(p, u, actions, v, Finish, Finished(p, v));
    actions, v := actions + [Finish], Finished(p, v);
  }
}
