/**
 One validator's graph as a view of the universe of certificates. A view that is closed backwards above
 the last committed round sees the same paths, and so selects the same anchors, as the universe does.
 */
module Views {
  import opened Types
  import opened Committees
  import opened CertificateGraph
  import opened Anchors
  import opened Dags

  ghost predicate Faithful(u: Universe, g: Graph) {
    && Filed(g)
    && forall c :: InGraph(g, c) ==> Member(u, c)
  }

  /** The references of a certificate two or more rounds above `last` are in the graph. */
  ghost predicate ClosedAbove(u: Universe, g: Graph, last: nat) {
    forall c, i :: InGraph(g, c) && c.round > last + 1 && i in c.previous ==> i in u && InGraph(g, u[i])
  }

  /** A path in the graph is a path in the universe. */
  lemma {:induction false} LinkedInIsLinked(u: Universe, g: Graph, c: Certificate, target: Certificate)
    requires Faithful(u, g) && LinkedIn(g, c, target)
    ensures Linked(u, c, target)
    decreases c.round
  {
    if c != target {
      var a :| RefersTo(g, c, a) && LinkedIn(g, g[c.round - 1][a], target);
      var parent := g[c.round - 1][a];
      assert InGraph(g, parent) && u[parent.id] == parent;
      LinkedInIsLinked(u, g, parent, target);
    }
  }

  lemma ReferenceInGraph(u: Universe, g: Graph, last: nat, c: Certificate, i: CertificateId)
    requires ClosedAbove(u, g, last) && InGraph(g, c) && c.round > last + 1 && i in c.previous
    ensures i in u && InGraph(g, u[i])
  {
  }

  lemma ParentInGraph(p: Protocol, u: Universe, g: Graph, last: nat, c: Certificate, i: CertificateId)
    requires WellFormed(p, u) && Faithful(u, g) && ClosedAbove(u, g, last)
    requires InGraph(g, c) && c.round > last + 1 && i in c.previous
    ensures i in u && InGraph(g, u[i]) && RefersTo(g, c, u[i].author) && g[c.round - 1][u[i].author] == u[i]
  {
    ParentInUniverse(p, u, c, i);
    ReferenceInGraph(u, g, last, c, i);
  }

  /** A path in the universe to a target above `last` is a path in a closed graph. */
  lemma {:induction false} LinkedIsLinkedIn(
    p: Protocol, u: Universe, g: Graph, last: nat, c: Certificate, target: Certificate)
    requires WellFormed(p, u) && Faithful(u, g) && ClosedAbove(u, g, last)
    requires InGraph(g, c) && target.round > last && Linked(u, c, target)
    ensures LinkedIn(g, c, target)
    decreases c.round
  {
    if c != target {
      LinkedRounds(u, c, target);
      var i := NextOnPath(u, c, target);
      ParentInGraph(p, u, g, last, c, i);
      LinkedIsLinkedIn(p, u, g, last, u[i], target);
      LinkedInStep(g, c, u[i].author, target);
    }
  }

  lemma {:induction false} LinkedInGraph(g: Graph, c: Certificate, target: Certificate)
    requires Filed(g) && InGraph(g, c) && LinkedIn(g, c, target)
    ensures InGraph(g, target)
    decreases c.round
  {
    if c != target {
      var a :| RefersTo(g, c, a) && LinkedIn(g, g[c.round - 1][a], target);
      LinkedInGraph(g, g[c.round - 1][a], target);
    }
  }

  /** The walk of `commit_leader_certificate`, on the validator's own graph, oldest anchor first. */
  ghost function LocalWalk(p: Protocol, g: Graph, current: Certificate, round: int, floor: nat): seq<Certificate>
    requires floor >= 2
    decreases round
  {
    if round < floor then []
    else
      match CertificateWithAuthor(g, round, p.leader(round))
      case Some(leader) =>
        if LinkedIn(g, current, leader)
        then LocalWalk(p, g, leader, round - 2, floor) + [leader]
        else LocalWalk(p, g, current, round - 2, floor)
      case None => LocalWalk(p, g, current, round - 2, floor)
  }

  /** What the local walk looks at in one round is what the walk on the universe looks at. */
  lemma SameChoice(p: Protocol, u: Universe, g: Graph, last: nat, current: Certificate, round: nat)
    requires WellFormed(p, u) && Faithful(u, g) && ClosedAbove(u, g, last)
    requires InGraph(g, current) && round > last && round >= 2 && round % 2 == 0
    ensures var local := CertificateWithAuthor(g, round, p.leader(round));
            var global := LeaderAt(p, u, round);
            && (local.Some? ==> local == global)
            && (global.Some? && Linked(u, current, global.value) ==> local == global)
            && (global.Some? ==> (LinkedIn(g, current, global.value) <==> Linked(u, current, global.value)))
  {
    var local := CertificateWithAuthor(g, round, p.leader(round));
    var global := LeaderAt(p, u, round);
    if local.Some? {
      assert InGraph(g, local.value);
      LeaderAtIs(p, u, local.value);
    }
    if global.Some? {
      if Linked(u, current, global.value) {
        LinkedIsLinkedIn(p, u, g, last, current, global.value);
        LinkedInGraph(g, current, global.value);
      }
      if LinkedIn(g, current, global.value) {
        LinkedInIsLinked(u, g, current, global.value);
      }
    }
  }

  lemma LocalWalkTakes(p: Protocol, g: Graph, current: Certificate, round: int, floor: nat, leader: Certificate)
    requires round >= floor >= 2 && CertificateWithAuthor(g, round, p.leader(round)) == Some(leader) && LinkedIn(g, current, leader)
    ensures LocalWalk(p, g, current, round, floor) == LocalWalk(p, g, leader, round - 2, floor) + [leader]
  {
  }

  lemma LocalWalkSkips(p: Protocol, g: Graph, current: Certificate, round: int, floor: nat)
    requires round >= floor >= 2
    requires var leader := CertificateWithAuthor(g, round, p.leader(round)); leader.None? || !LinkedIn(g, current, leader.value)
    ensures LocalWalk(p, g, current, round, floor) == LocalWalk(p, g, current, round - 2, floor)
  {
  }

  lemma WalksEnd(p: Protocol, u: Universe, g: Graph, current: Certificate, round: int, floor: nat)
    requires round < floor && floor >= 2
    ensures LocalWalk(p, g, current, round, floor) == [] == WalkBack(p, u, current, round, floor)
  {
  }

  lemma {:induction false} LocalWalkIsWalkBack(
    p: Protocol, u: Universe, g: Graph, last: nat, current: Certificate, round: int)
    requires WellFormed(p, u) && Faithful(u, g) && ClosedAbove(u, g, last)
    requires InGraph(g, current) && round % 2 == 0 && last % 2 == 0
    ensures LocalWalk(p, g, current, round, last + 2) == WalkBack(p, u, current, round, last + 2)
    decreases round
  {
    hide Linked, LinkedIn, LeaderAt, WellFormed, ClosedAbove, Filed, LocalWalk, WalkBack;
    if round < last + 2 {
      WalksEnd(p, u, g, current, round, last + 2);
    } else {
      SameChoice(p, u, g, last, current, round);
      var leader := CertificateWithAuthor(g, round, p.leader(round));
      if leader.Some? && LinkedIn(g, current, leader.value) {
        WalkBackTakes(p, u, current, round, last + 2, leader.value);
        LocalWalkTakes(p, g, current, round, last + 2, leader.value);
        LocalWalkIsWalkBack(p, u, g, last, leader.value, round - 2);
      } else {
        WalkBackSkips(p, u, current, round, last + 2);
        LocalWalkSkips(p, g, current, round, last + 2);
        LocalWalkIsWalkBack(p, u, g, last, current, round - 2);
      }
    }
  }

  /** Each of these leaders but the last is in the graph, with a path from the next one. */
  ghost predicate PathsKept(g: Graph, leaders: seq<Certificate>) {
    forall k :: 0 < k < |leaders| ==> HasPath(g, leaders[k], leaders[k - 1])
  }

  ghost predicate HasPath(g: Graph, upper: Certificate, lower: Certificate) {
    InGraph(g, lower) && LinkedIn(g, upper, lower)
  }

  lemma PathsExtend(g: Graph, leaders: seq<Certificate>, l: Certificate, current: Certificate)
    ensures PathsKept(g, leaders + [l] + [current]) <==>
            PathsKept(g, leaders + [l]) && HasPath(g, current, l)
  {
    hide HasPath;
    var s, n := leaders + [l], |leaders|;
    var t := s + [current];
    if PathsKept(g, t) {
      assert HasPath(g, t[n + 1], t[n + 1 - 1]);
      forall k | 0 < k < |s| ensures HasPath(g, s[k], s[k - 1]) {
        assert HasPath(g, t[k], t[k - 1]);
      }
    }
  }

  lemma {:induction false} LocalWalkKeepsPaths(p: Protocol, g: Graph, current: Certificate, round: int, floor: nat)
    requires floor >= 2 && Filed(g)
    ensures PathsKept(g, LocalWalk(p, g, current, round, floor) + [current])
    decreases round
  {
    hide LinkedIn, Filed, PathsKept, InGraph;
    if round < floor {
      assert PathsKept(g, [] + [current]) by { PathOfOne(g, current); }
    } else {
      var leader := CertificateWithAuthor(g, round, p.leader(round));
      if leader.Some? && LinkedIn(g, current, leader.value) {
        LocalWalkKeepsPaths(p, g, leader.value, round - 2, floor);
        PathsExtend(g, LocalWalk(p, g, leader.value, round - 2, floor), leader.value, current);
        LeaderIsInGraph(g, round, p.leader(round));
      } else {
        LocalWalkKeepsPaths(p, g, current, round - 2, floor);
      }
    }
  }

  lemma PathOfOne(g: Graph, current: Certificate)
    ensures PathsKept(g, [] + [current])
  {
  }

  lemma LeaderIsInGraph(g: Graph, round: nat, author: Address)
    requires Filed(g) && CertificateWithAuthor(g, round, author).Some?
    ensures var c := CertificateWithAuthor(g, round, author).value; InGraph(g, c) && c.round == round && c.author == author
  {
  }

  lemma InGraphIsFound(g: Graph, c: Certificate)
    requires Filed(g) && InGraph(g, c)
    ensures CertificateWithAuthor(g, c.round, c.author) == Some(c)
  {
  }

  /** If no leader of the walk over all certificates has lost its path in the graph, the graph yields the same walk. */
  lemma {:induction false} LocalWalkFollows(p: Protocol, u: Universe, g: Graph, current: Certificate, round: int, floor: nat)
    requires WellFormed(p, u) && Faithful(u, g) && floor >= 2 && round % 2 == 0
    requires PathsKept(g, WalkBack(p, u, current, round, floor) + [current])
    ensures LocalWalk(p, g, current, round, floor) == WalkBack(p, u, current, round, floor)
    decreases round
  {
    hide Linked, LinkedIn, LeaderAt, CertificateValid, Filed, LocalWalk, WalkBack, PathsKept, InGraph, CertificateWithAuthor;
    if round < floor {
      WalksEnd(p, u, g, current, round, floor);
    } else {
      var global, local := LeaderAt(p, u, round), CertificateWithAuthor(g, round, p.leader(round));
      if global.Some? && Linked(u, current, global.value) {
        var leader := global.value;
        WalkBackTakes(p, u, current, round, floor, leader);
        PathsExtend(g, WalkBack(p, u, leader, round - 2, floor), leader, current);
        InGraphIsFound(g, leader);
        LocalWalkTakes(p, g, current, round, floor, leader);
        LocalWalkFollows(p, u, g, leader, round - 2, floor);
      } else {
        WalkBackSkips(p, u, current, round, floor);
        if local.Some? && LinkedIn(g, current, local.value) {
          LeaderIsInGraph(g, round, p.leader(round));
          LeaderAtIs(p, u, local.value);
          LinkedInIsLinked(u, g, current, local.value);
        }
        LocalWalkSkips(p, g, current, round, floor);
        LocalWalkFollows(p, u, g, current, round - 2, floor);
      }
    }
  }

  /** No round between the last committed one and that of a certificate of the graph is missing. */
  lemma {:induction false} NoRoundMissing(p: Protocol, u: Universe, g: Graph, last: nat, c: Certificate, round: nat)
    requires WellFormed(p, u) && Faithful(u, g) && ClosedAbove(u, g, last)
    requires InGraph(g, c) && last < round <= c.round
    ensures round in g
    decreases c.round
  {
    if round < c.round {
      var i := SomeParent(p, u, c);
      NoRoundMissing(p, u, g, last, u[i], round);
    }
  }
}
