/**
 Anchors: which leader certificates are committed, and why all validators commit the same ones.
 The chain of a leader is what walking back from it selects; it is defined on the universe of
 certificates, independently of any validator's view.
 */
module Anchors {
  import opened Types
  import opened Committees
  import opened CertificateGraph

  ghost predicate IsLeader(p: Protocol, u: Universe, c: Certificate) {
    Member(u, c) && c.round >= 2 && c.round % 2 == 0 && c.author == p.leader(c.round)
  }

  /** A leader certificate with `f + 1` votes: what `add_new_certificate` demands of an anchor. */
  ghost predicate Direct(p: Protocol, u: Universe, c: Certificate) {
    IsLeader(p, u, c) && p.committee(c.round + 1).IsAvailable(Votes(u, c))
  }

  /** The certificate of the elected leader of a round, if there is one. */
  ghost function LeaderAt(p: Protocol, u: Universe, round: nat): (r: Option<Certificate>)
    ensures r.Some? ==> IsLeader(p, u, r.value) && r.value.round == round
  {
    if exists i :: i in u && IsLeader(p, u, u[i]) && u[i].round == round then
      var i :| i in u && IsLeader(p, u, u[i]) && u[i].round == round;
      Some(u[i])
    else None
  }

  lemma LeaderAtIs(p: Protocol, u: Universe, c: Certificate)
    requires NonEquivocating(u) && IsLeader(p, u, c)
    ensures LeaderAt(p, u, c.round) == Some(c)
  {
    var l := LeaderAt(p, u, c.round);
    assert u[c.id] == c;
    assert SameSlot(u, c.id, l.value.id);
  }

  /** The anchors selected by walking back from `current` over the even rounds from `round` down to `floor`. */
  ghost function WalkBack(p: Protocol, u: Universe, current: Certificate, round: int, floor: nat): (s: seq<Certificate>)
    requires floor >= 2
    decreases round
  {
    if round < floor then []
    else
      match LeaderAt(p, u, round)
      case Some(leader) =>
        if Linked(u, current, leader)
        then WalkBack(p, u, leader, round - 2, floor) + [leader]
        else WalkBack(p, u, current, round - 2, floor)
      case None => WalkBack(p, u, current, round - 2, floor)
  }

  /** All the anchors that committing `c` entails, oldest first. */
  ghost function Chain(p: Protocol, u: Universe, c: Certificate): seq<Certificate> {
    WalkBack(p, u, c, c.round as int - 2, 2) + [c]
  }

  ghost predicate Ascending(s: seq<Certificate>) {
    forall i, j :: 0 <= i < j < |s| ==> s[i].round < s[j].round
  }

  lemma {:induction false} WalkBackShape(p: Protocol, u: Universe, current: Certificate, round: int, floor: nat)
    requires floor >= 2
    ensures var s := WalkBack(p, u, current, round, floor);
            && Ascending(s)
            && forall i :: 0 <= i < |s| ==> IsLeader(p, u, s[i]) && floor <= s[i].round <= round
    decreases round
  {
    hide Linked, LeaderAt, IsLeader;
    if round >= floor {
      var leader := LeaderAt(p, u, round);
      if leader.Some? && Linked(u, current, leader.value) {
        WalkBackShape(p, u, leader.value, round - 2, floor);
      } else {
        WalkBackShape(p, u, current, round - 2, floor);
      }
    }
  }

  lemma ChainShape(p: Protocol, u: Universe, c: Certificate)
    requires IsLeader(p, u, c)
    ensures var s := Chain(p, u, c);
            && s != [] && s[|s| - 1] == c
            && Ascending(s)
            && forall i :: 0 <= i < |s| ==> IsLeader(p, u, s[i]) && s[i].round <= c.round
  {
    WalkBackShape(p, u, c, c.round as int - 2, 2);
  }

  /** Every later leader has a path to `c`. */
  ghost predicate Unavoidable(p: Protocol, u: Universe, c: Certificate) {
    forall q {:trigger IsLeader(p, u, q)} :: IsLeader(p, u, q) && q.round >= c.round + 2 ==> Linked(u, q, c)
  }

  lemma DirectIsUnavoidable(p: Protocol, u: Universe, direct: Certificate)
    requires WellFormed(p, u) && Direct(p, u, direct)
    ensures Unavoidable(p, u, direct)
  {
    forall q | IsLeader(p, u, q) && q.round >= direct.round + 2 ensures Linked(u, q, direct) {
      VotesMakeUnavoidable(p, u, direct, q);
    }
  }

  lemma WalkBackTakes(p: Protocol, u: Universe, current: Certificate, round: int, floor: nat, leader: Certificate)
    requires round >= floor >= 2 && LeaderAt(p, u, round) == Some(leader) && Linked(u, current, leader)
    ensures WalkBack(p, u, current, round, floor) == WalkBack(p, u, leader, round - 2, floor) + [leader]
  {
  }

  lemma WalkBackSkips(p: Protocol, u: Universe, current: Certificate, round: int, floor: nat)
    requires round >= floor >= 2
    requires LeaderAt(p, u, round).None? || !Linked(u, current, LeaderAt(p, u, round).value)
    ensures WalkBack(p, u, current, round, floor) == WalkBack(p, u, current, round - 2, floor)
  {
  }

  /** Walking back from a certificate that has a path to an unavoidable leader passes through that leader. */
  lemma {:induction false} WalkBackPassesThrough(
    p: Protocol, u: Universe, leader: Certificate, current: Certificate, round: int)
    returns (rest: seq<Certificate>)
    requires NonEquivocating(u) && IsLeader(p, u, leader) && Unavoidable(p, u, leader)
    requires Linked(u, current, leader)
    requires round >= leader.round && round % 2 == 0
    ensures WalkBack(p, u, current, round, 2) == Chain(p, u, leader) + rest
    decreases round
  {
    hide WalkBack, Linked, LeaderAt;
    if round == leader.round {
      LeaderAtIs(p, u, leader);
      WalkBackTakes(p, u, current, round, 2, leader);
      rest := [];
    } else {
      var next := LeaderAt(p, u, round);
      if next.Some? && Linked(u, current, next.value) {
        rest := WalkBackPassesThrough(p, u, leader, next.value, round - 2);
        WalkBackTakes(p, u, current, round, 2, next.value);
        rest := rest + [next.value];
      } else {
        rest := WalkBackPassesThrough(p, u, leader, current, round - 2);
        WalkBackSkips(p, u, current, round, 2);
      }
    }
  }

  /** The chains of two directly committed leaders extend one another. */
  lemma DirectChainsNest(p: Protocol, u: Universe, lower: Certificate, upper: Certificate)
    requires WellFormed(p, u) && Direct(p, u, lower) && Direct(p, u, upper)
    requires lower.round <= upper.round
    ensures Chain(p, u, lower) <= Chain(p, u, upper)
  {
    hide WalkBack, Linked, Votes, CertificateValid;
    if lower.round == upper.round {
      LeaderAtIs(p, u, lower);
      LeaderAtIs(p, u, upper);
    } else {
      DirectIsUnavoidable(p, u, lower);
      var rest := WalkBackPassesThrough(p, u, lower, upper, upper.round - 2);
      assert Chain(p, u, upper) == Chain(p, u, lower) + (rest + [upper]);
    }
  }

  /** A sequence of anchors that some validator may have committed. */
  ghost predicate Committable(p: Protocol, u: Universe, anchors: seq<Certificate>) {
    anchors == [] || exists l :: Direct(p, u, l) && anchors <= Chain(p, u, l)
  }

  /** No fork: any two committable sequences of anchors are prefixes of one another. */
  lemma CommittableAgree(p: Protocol, u: Universe, a: seq<Certificate>, b: seq<Certificate>)
    requires WellFormed(p, u) && Committable(p, u, a) && Committable(p, u, b)
    ensures PrefixComparable(a, b)
  {
    if a != [] && b != [] {
      var l :| Direct(p, u, l) && a <= Chain(p, u, l);
      var m :| Direct(p, u, m) && b <= Chain(p, u, m);
      if l.round <= m.round {
        DirectChainsNest(p, u, l, m);
        PrefixTransitive(a, Chain(p, u, l), Chain(p, u, m));
        PrefixesOfOneCompare(a, b, Chain(p, u, m));
      } else {
        DirectChainsNest(p, u, m, l);
        PrefixTransitive(b, Chain(p, u, m), Chain(p, u, l));
        PrefixesOfOneCompare(a, b, Chain(p, u, l));
      }
    }
  }

  /** The round of the newest of a sequence of anchors; zero before the first. */
  ghost function LastRound(anchors: seq<Certificate>): nat {
    if anchors == [] then 0 else anchors[|anchors| - 1].round
  }

  /** A walk down to round 2 is a walk down to `floor`, resumed from wherever that one ended. */
  lemma {:induction false} WalkBackSplits(p: Protocol, u: Universe, current: Certificate, round: int, floor: nat)
    returns (resumed: Certificate)
    requires floor >= 2 && round >= floor - 2 && (round - floor) % 2 == 0
    ensures WalkBack(p, u, current, round, 2)
            == WalkBack(p, u, resumed, floor - 2, 2) + WalkBack(p, u, current, round, floor)
    decreases round
  {
    hide Linked, LeaderAt;
    if round == floor - 2 {
      resumed := current;
    } else {
      var leader := LeaderAt(p, u, round);
      if leader.Some? && Linked(u, current, leader.value) {
        resumed := WalkBackSplits(p, u, leader.value, round - 2, floor);
      } else {
        resumed := WalkBackSplits(p, u, current, round - 2, floor);
      }
    }
  }

  /** An ascending sequence is cut in one way at a given round. */
  lemma AscendingCut(whole: seq<Certificate>, s: seq<Certificate>, low: seq<Certificate>, high: seq<Certificate>)
    requires Ascending(whole) && s <= whole && whole == low + high
    requires forall i :: 0 <= i < |low| ==> 1 <= low[i].round <= LastRound(s)
    requires forall i :: 0 <= i < |high| ==> high[i].round > LastRound(s)
    ensures s == low
  {
    var bound := LastRound(s);
    assert s != [] ==> whole[|s| - 1] == s[|s| - 1];
    forall k | 0 <= k < |whole| ensures k < |s| <==> whole[k].round <= bound {
      assert |low| <= k ==> whole[k] == high[k - |low|];
    }
    assert |s| < |whole| ==> whole[|s|].round > bound;
    assert |low| < |whole| ==> whole[|low|] == high[0];
    assert s == whole[..|low|] == low;
  }

  /** A committable sequence that ends below a directly committed leader is a prefix of its chain. */
  lemma CommittableBelowDirect(p: Protocol, u: Universe, anchors: seq<Certificate>, direct: Certificate)
    requires WellFormed(p, u) && Committable(p, u, anchors) && Direct(p, u, direct)
    requires LastRound(anchors) <= direct.round
    ensures anchors <= Chain(p, u, direct)
  {
    if anchors != [] {
      var l :| Direct(p, u, l) && anchors <= Chain(p, u, l);
      var whole := Chain(p, u, l);
      if l.round <= direct.round {
        DirectChainsNest(p, u, l, direct);
        PrefixTransitive(anchors, whole, Chain(p, u, direct));
      } else {
        DirectChainsNest(p, u, direct, l);
        ChainShape(p, u, l);
        ChainShape(p, u, direct);
        ShorterByRound(whole, anchors, Chain(p, u, direct));
      }
    }
  }

  /** Of two prefixes of an ascending sequence, the one that ends lower is the shorter. */
  lemma ShorterByRound(whole: seq<Certificate>, a: seq<Certificate>, b: seq<Certificate>)
    requires Ascending(whole) && a <= whole && b <= whole && a != [] && b != []
    requires LastRound(a) <= LastRound(b)
    ensures a <= b
  {
    assert a[|a| - 1] == whole[|a| - 1] && b[|b| - 1] == whole[|b| - 1];
    assert |a| <= |b|;
    assert a == b[..|a|];
  }

  /**
   The walk of one commit call, from a directly committed leader down to just above the last committed
   round, resumes exactly where the anchors committed so far end.
   */
  lemma ChainResumes(p: Protocol, u: Universe, anchors: seq<Certificate>, direct: Certificate)
    requires WellFormed(p, u) && Committable(p, u, anchors) && Direct(p, u, direct)
    requires LastRound(anchors) < direct.round && LastRound(anchors) % 2 == 0
    ensures Chain(p, u, direct)
            == anchors + (WalkBack(p, u, direct, direct.round as int - 2, LastRound(anchors) + 2) + [direct])
  {
    CommittableBelowDirect(p, u, anchors, direct);
    ChainCutAt(p, u, anchors, direct);
  }

  lemma ChainCutAt(p: Protocol, u: Universe, anchors: seq<Certificate>, c: Certificate)
    requires IsLeader(p, u, c) && anchors <= Chain(p, u, c)
    requires LastRound(anchors) < c.round && LastRound(anchors) % 2 == 0
    ensures Chain(p, u, c) == anchors + (WalkBack(p, u, c, c.round as int - 2, LastRound(anchors) + 2) + [c])
  {
    hide WalkBack, Chain, Linked, LeaderAt;
    var low := WalkSplitAt(p, u, c, LastRound(anchors) + 2);
    ChainShape(p, u, c);
    AscendingCut(Chain(p, u, c), anchors, low, WalkBack(p, u, c, c.round as int - 2, LastRound(anchors) + 2) + [c]);
  }

  lemma WalkSplitAt(p: Protocol, u: Universe, c: Certificate, floor: nat) returns (low: seq<Certificate>)
    requires IsLeader(p, u, c) && 2 <= floor <= c.round && floor % 2 == 0
    ensures Chain(p, u, c) == low + (WalkBack(p, u, c, c.round as int - 2, floor) + [c])
    ensures forall i :: 0 <= i < |low| ==> 1 <= low[i].round <= floor - 2
    ensures var high := WalkBack(p, u, c, c.round as int - 2, floor) + [c];
            forall i :: 0 <= i < |high| ==> high[i].round >= floor
  {
    var resumed := WalkBackSplits(p, u, c, c.round as int - 2, floor);
    low := WalkBack(p, u, resumed, floor - 2, 2);
    WalkBackShape(p, u, resumed, floor - 2, 2);
    WalkBackShape(p, u, c, c.round as int - 2, floor);
    assert low + WalkBack(p, u, c, c.round as int - 2, floor) + [c]
        == low + (WalkBack(p, u, c, c.round as int - 2, floor) + [c]);
  }
}
