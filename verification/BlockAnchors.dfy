/**
 The anchors of blocks that a peer hands over. Blocks wait until one of them has its votes in later ones, and are then
 taken one after the other. When that yields the anchors that every validator commits, and that a validator's own
 blocks pass the checks of others.
 */
module BlockAnchors {
  import opened Types
  import opened Committees
  import opened CertificateGraph
  import opened Anchors
  import opened Dags
  import opened Ordering
  import opened Subdags
  import opened Blocks
  import opened SubdagChecks
  import opened BlockChecks

  /** A path from the anchor to `l` goes through a certificate that was in a block when the subdag was checked. */
  ghost predicate ThroughKnown(u: Universe, x: Pending, l: Certificate) {
    exists y: Certificate :: y.id in x.known && Linked(u, x.block.anchor, y) && Linked(u, y, l)
  }

  /**
   A leader between a last anchor and this one that is linked to this one, though the checks on the subdag do not notice:
   they begin above it, or the path to it leaves the block where references are not looked up, or leads into the blocks
   that the subdag was checked against.
   */
  ghost predicate Escapes(p: Protocol, u: Universe, last: nat, x: Pending, l: Certificate) {
    && IsLeader(p, u, l) && last < l.round < x.block.anchor.round && Linked(u, x.block.anchor, l)
    && (l.round < x.last + 2 || l.round + MAX_ROUNDS <= x.round + 1 || ThroughKnown(u, x, l))
  }

  lemma {:induction false} PathIsWithin(p: Protocol, u: Universe, x: Pending, c: Certificate, l: Certificate)
    requires WellFormed(p, u) && SubdagChecked(p, u, x) && InSubdag(x.block.subdag, c)
    requires Linked(u, x.block.anchor, c) && Linked(u, c, l)
    requires !ThroughKnown(u, x, l) && l.round + MAX_ROUNDS > x.round + 1
    ensures InSubdag(x.block.subdag, l) && LinkedWithin(x.block.subdag, c, l)
    decreases c.round
  {
    hide CertificateValid, Passes, Atomic;
    if c != l {
      var i := NextOnPath(u, c, l);
      ParentInUniverse(p, u, c, i);
      LinkedRounds(u, u[i], l);
      LinkedExtends(u, x.block.anchor, c, u[i]);
      InIdsOf(u, x.block.subdag, i);
      PathIsWithin(p, u, x, u[i], l);
      assert StepsWithin(x.block.subdag, c, u[i]);
    }
  }

  /** A leader between the last anchor and this one is not linked to this one unless it escapes the checks. */
  lemma NoLeaderBetween(p: Protocol, u: Universe, last: nat, x: Pending, l: Certificate)
    requires WellFormed(p, u) && SubdagChecked(p, u, x) && IsLeader(p, u, l) && last < l.round < x.block.anchor.round
    ensures Linked(u, x.block.anchor, l) <==> Escapes(p, u, last, x, l)
  {
    hide WellFormed, SubdagChecked, Linked, LinkedWithin, ThroughKnown;
    IsKeyed(p, u);
    AnchorIsTaken(p, u, x);
    if Linked(u, x.block.anchor, l) && !Escapes(p, u, last, x, l) {
      LinkedToItself(u, x.block.anchor);
      PathIsWithin(p, u, x, x.block.anchor, l);
      AtomicExcludes(p, u, x, l);
    }
  }

  lemma AtomicExcludes(p: Protocol, u: Universe, x: Pending, l: Certificate)
    requires SubdagChecked(p, u, x) && InSubdag(x.block.subdag, l) && IsLeader(p, u, l)
    requires x.last + 2 <= l.round < x.block.anchor.round
    ensures !LinkedWithin(x.block.subdag, x.block.anchor, l)
  {
    hide LinkedWithin, IsPartOf, LeavesKnown;
    assert LeadsBetween(p, x.last, l, x.block.anchor.round);
  }

  /* Blocks that wait for votes. */

  ghost function BlocksIn(pending: seq<Pending>): seq<Block> {
    seq(|pending|, m requires 0 <= m < |pending| => pending[m].block)
  }

  ghost predicate AllSubdagsChecked(p: Protocol, u: Universe, pending: seq<Pending>) {
    forall m :: 0 <= m < |pending| ==> SubdagChecked(p, u, pending[m])
  }

  /** The authors in later blocks who reference an anchor from the next round. */
  ghost function VotersAmong(anchor: Certificate, successors: seq<Block>): set<Address> {
    set b, c | b in successors && c in RoundOf(b.subdag, anchor.round + 1) && anchor.id in c.previous :: c.author
  }

  /** What `is_block_availability_threshold_reached` decides. */
  ghost predicate HasVotes(p: Protocol, anchor: Certificate, successors: seq<Block>) {
    p.committee(anchor.round + 1).IsAvailable(VotersAmong(anchor, successors))
  }

  /**
   All that has been checked when the first of some waiting blocks is taken on top of a last block of round `last`: that
   one altogether, of the others their subdags, and that the one at `k` has its votes in those after it.
   */
  ghost predicate MayBeTaken(p: Protocol, u: Universe, last: nat, pending: seq<Pending>, k: nat) {
    && k < |pending| && AllSubdagsChecked(p, u, pending) && Authorized(p, last, pending[0])
    && HasVotes(p, pending[k].block.anchor, BlocksIn(pending[k + 1..]))
  }

  /** The anchor leads its round, lies above the last one, and no leader in between escapes the checks. */
  ghost predicate Succeeds(p: Protocol, u: Universe, last: nat, x: Pending) {
    && x.block.anchor.author == p.leader(x.block.anchor.round) && x.block.anchor.round > last
    && forall l :: !Escapes(p, u, last, x, l)
  }

  /** The round of the anchor before the block at `k`. */
  function RoundBefore(last: nat, pending: seq<Pending>, k: nat): nat
    requires k <= |pending|
  {
    if k == 0 then last else pending[k - 1].block.anchor.round
  }

  /** Each anchor has a path to the one before it. */
  ghost predicate LinkedInOrder(u: Universe, anchors: seq<Certificate>) {
    forall k :: 0 < k < |anchors| ==> Linked(u, anchors[k], anchors[k - 1])
  }

  /** The anchors succeed one another from a last one of round `last` on, each with a path to the one before it. */
  ghost predicate InSuccession(p: Protocol, u: Universe, last: nat, pending: seq<Pending>) {
    && (forall k :: 0 <= k < |pending| ==> Succeeds(p, u, RoundBefore(last, pending, k), pending[k]))
    && LinkedInOrder(u, AnchorsOf(BlocksIn(pending)))
  }

  /** Votes in waiting blocks are votes, so that the block that has enough is directly committed if it leads its round. */
  lemma VotedIsDirectIff(p: Protocol, u: Universe, pending: seq<Pending>, k: nat)
    requires Keyed(u) && AllSubdagsChecked(p, u, pending) && k < |pending|
    requires HasVotes(p, pending[k].block.anchor, BlocksIn(pending[k + 1..]))
    ensures Direct(p, u, pending[k].block.anchor) <==> IsLeader(p, u, pending[k].block.anchor)
  {
    hide SubdagChecked, Stake, Votes, IsPartOf;
    var anchor, successors := pending[k].block.anchor, BlocksIn(pending[k + 1..]);
    forall m | 0 <= m < |successors| ensures IsPartOf(u, successors[m].subdag) {
      assert SubdagChecked(p, u, pending[k + 1 + m]);
      CheckedIsPart(p, u, pending[k + 1 + m]);
    }
    VotersVote(u, anchor, successors);
    StakeMonotone(p.committee(anchor.round + 1).members, VotersAmong(anchor, successors), Votes(u, anchor));
  }

  lemma CheckedIsPart(p: Protocol, u: Universe, x: Pending)
    requires SubdagChecked(p, u, x)
    ensures IsPartOf(u, x.block.subdag)
  {
  }

  lemma VotersVote(u: Universe, anchor: Certificate, successors: seq<Block>)
    requires Keyed(u) && forall m :: 0 <= m < |successors| ==> IsPartOf(u, successors[m].subdag)
    ensures VotersAmong(anchor, successors) <= Votes(u, anchor)
  {
    forall a | a in VotersAmong(anchor, successors) ensures a in Votes(u, anchor) {
      var b, c :| b in successors && c in RoundOf(b.subdag, anchor.round + 1) && anchor.id in c.previous && c.author == a;
      assert IsPartOf(u, b.subdag) && c.round == anchor.round + 1 && InSubdag(b.subdag, c);
      assert u[c.id] == c;
    }
  }

  /** All certificates that vote for the anchor are in blocks that wait behind it. */
  ghost predicate VotesArrived(u: Universe, anchor: Certificate, successors: seq<Block>) {
    forall i :: i in u && u[i].round == anchor.round + 1 && anchor.id in u[i].previous ==> IsHeld(successors, u[i])
  }

  ghost predicate IsHeld(blocks: seq<Block>, c: Certificate) {
    exists b :: b in blocks && InSubdag(b.subdag, c)
  }

  /** An anchor that can be committed directly has its votes once the blocks with all the votes for it have arrived. */
  lemma DirectGetsVotes(p: Protocol, u: Universe, anchor: Certificate, successors: seq<Block>)
    requires Direct(p, u, anchor) && VotesArrived(u, anchor, successors)
    ensures HasVotes(p, anchor, successors)
  {
    hide Stake, VotesArrived, Votes, VotersAmong;
    ArrivedVote(u, anchor, successors);
    StakeMonotone(p.committee(anchor.round + 1).members, Votes(u, anchor), VotersAmong(anchor, successors));
  }

  lemma ArrivedVote(u: Universe, anchor: Certificate, successors: seq<Block>)
    requires VotesArrived(u, anchor, successors)
    ensures Votes(u, anchor) <= VotersAmong(anchor, successors)
  {
    hide VotersAmong, IsHeld;
    forall a | a in Votes(u, anchor) ensures a in VotersAmong(anchor, successors) {
      var i :| i in u && u[i].round == anchor.round + 1 && anchor.id in u[i].previous && u[i].author == a;
      HeldVotes(anchor, successors, u[i]);
    }
  }

  lemma HeldVotes(anchor: Certificate, successors: seq<Block>, c: Certificate)
    requires IsHeld(successors, c) && c.round == anchor.round + 1 && anchor.id in c.previous
    ensures c.author in VotersAmong(anchor, successors)
  {
    var b :| b in successors && InSubdag(b.subdag, c);
    assert c in RoundOf(b.subdag, anchor.round + 1);
  }

  /** Walking back from the anchor of a block passes over everything down to the last anchor. */
  lemma {:induction false} WalkPassesOver(p: Protocol, u: Universe, last: nat, x: Pending, round: nat, floor: nat)
    requires WellFormed(p, u) && SubdagChecked(p, u, x) && Succeeds(p, u, last, x)
    requires last % 2 == 0 && round % 2 == 0 && 2 <= floor <= last + 2 && last <= round < x.block.anchor.round
    ensures WalkBack(p, u, x.block.anchor, round, floor) == WalkBack(p, u, x.block.anchor, last, floor)
    decreases round
  {
    hide WellFormed, SubdagChecked, Linked, Escapes, IsLeader, WalkBack, LeaderAt;
    if round > last {
      var leader := LeaderAt(p, u, round);
      if leader.Some? {
        NoLeaderBetween(p, u, last, x, leader.value);
      }
      WalkBackSkips(p, u, x.block.anchor, round, floor);
      WalkPassesOver(p, u, last, x, round - 2, floor);
    }
  }

  /** Blocks whose subdags are checked and whose anchors succeed one another. */
  ghost predicate Waiting(p: Protocol, u: Universe, last: nat, pending: seq<Pending>) {
    last % 2 == 0 && AllSubdagsChecked(p, u, pending) && InSuccession(p, u, last, pending)
  }

  lemma AnchorLeads(p: Protocol, u: Universe, last: nat, pending: seq<Pending>, k: nat)
    requires Keyed(u) && Waiting(p, u, last, pending) && k < |pending|
    ensures IsLeader(p, u, pending[k].block.anchor) && pending[k].block.anchor.round > RoundBefore(last, pending, k)
    ensures SubdagChecked(p, u, pending[k]) && Succeeds(p, u, RoundBefore(last, pending, k), pending[k])
  {
    hide Linked, Escapes, SubdagChecked, LinkedInOrder;
    assert Succeeds(p, u, RoundBefore(last, pending, k), pending[k]) && SubdagChecked(p, u, pending[k]);
    AnchorIsTaken(p, u, pending[k]);
  }

  lemma {:induction false} RoundsRise(p: Protocol, u: Universe, last: nat, pending: seq<Pending>, k: nat)
    requires Keyed(u) && Waiting(p, u, last, pending) && k <= |pending|
    ensures last <= RoundBefore(last, pending, k) && RoundBefore(last, pending, k) % 2 == 0
  {
    hide Waiting, Succeeds, SubdagChecked;
    if k == 0 {
      WaitingIsEven(p, u, last, pending);
    } else {
      RoundsRise(p, u, last, pending, k - 1);
      AnchorLeads(p, u, last, pending, k - 1);
    }
  }

  lemma WalkFrom(p: Protocol, u: Universe, last: nat, pending: seq<Pending>, k: nat)
    requires WellFormed(p, u) && Waiting(p, u, last, pending) && k < |pending|
    ensures var anchor := pending[k].block.anchor;
            WalkBack(p, u, anchor, anchor.round as int - 2, last + 2)
            == WalkBack(p, u, anchor, RoundBefore(last, pending, k), last + 2)
  {
    hide WellFormed, Waiting, WalkBack, Succeeds, SubdagChecked;
    IsKeyed(p, u);
    assert last % 2 == 0 by { WaitingIsEven(p, u, last, pending); }
    RoundsRise(p, u, last, pending, k);
    AnchorLeads(p, u, last, pending, k);
    WalkPassesOver(p, u, RoundBefore(last, pending, k), pending[k], pending[k].block.anchor.round - 2, last + 2);
  }

  lemma WaitingIsEven(p: Protocol, u: Universe, last: nat, pending: seq<Pending>)
    requires Waiting(p, u, last, pending)
    ensures last % 2 == 0
  {
  }

  /** The walk takes the anchor before. */
  lemma WalkTakesPrevious(p: Protocol, u: Universe, last: nat, pending: seq<Pending>, k: nat)
    requires WellFormed(p, u) && Waiting(p, u, last, pending) && 0 < k < |pending|
    ensures var anchor, previous := pending[k].block.anchor, pending[k - 1].block.anchor;
            WalkBack(p, u, anchor, anchor.round as int - 2, last + 2)
            == WalkBack(p, u, previous, previous.round as int - 2, last + 2) + [previous]
  {
    hide CertificateValid, Linked, WalkBack, LeaderAt, Waiting, Succeeds, SubdagChecked;
    var previous := pending[k - 1].block.anchor;
    IsKeyed(p, u);
    RoundsRise(p, u, last, pending, k - 1);
    AnchorLeads(p, u, last, pending, k - 1);
    LinkedAt(p, u, last, pending, k);
    WalkFrom(p, u, last, pending, k);
    WaitingIsEven(p, u, last, pending);
    LeaderAtIs(p, u, previous);
    hide WellFormed, IsLeader;
    WalkBackTakes(p, u, pending[k].block.anchor, previous.round, last + 2, previous);
  }

  lemma LinkedAt(p: Protocol, u: Universe, last: nat, pending: seq<Pending>, k: nat)
    requires Waiting(p, u, last, pending) && 0 < k < |pending|
    ensures Linked(u, pending[k].block.anchor, pending[k - 1].block.anchor)
  {
    hide Linked, Succeeds, SubdagChecked;
    var anchors := AnchorsOf(BlocksIn(pending));
    assert Linked(u, anchors[k], anchors[k - 1]);
  }

  /** Walking back from an anchor selects all anchors before it. */
  lemma {:induction false} WalkSelects(p: Protocol, u: Universe, last: nat, pending: seq<Pending>, k: nat)
    requires WellFormed(p, u) && Waiting(p, u, last, pending) && k < |pending|
    ensures var anchor := pending[k].block.anchor;
            WalkBack(p, u, anchor, anchor.round as int - 2, last + 2) == AnchorsOf(BlocksIn(pending))[..k]
  {
    hide WellFormed, Waiting, WalkBack;
    if k == 0 {
      WalkFrom(p, u, last, pending, 0);
      WalkIsOver(p, u, pending[0].block.anchor, last, last + 2);
    } else {
      WalkTakesPrevious(p, u, last, pending, k);
      WalkSelects(p, u, last, pending, k - 1);
      var anchors := AnchorsOf(BlocksIn(pending));
      assert anchors[..k] == anchors[..k - 1] + [anchors[k - 1]];
    }
  }

  lemma WalkIsOver(p: Protocol, u: Universe, current: Certificate, round: nat, floor: nat)
    requires round < floor && floor >= 2
    ensures WalkBack(p, u, current, round, floor) == []
  {
  }

  /** What a walk selects is linked in order. */
  lemma {:induction false} WalkIsLinked(p: Protocol, u: Universe, current: Certificate, round: int, floor: nat)
    requires floor >= 2
    ensures LinkedInOrder(u, WalkBack(p, u, current, round, floor) + [current])
    decreases round
  {
    hide Linked, LeaderAt;
    if round >= floor {
      var leader := LeaderAt(p, u, round);
      if leader.Some? && Linked(u, current, leader.value) {
        WalkIsLinked(p, u, leader.value, round - 2, floor);
      } else {
        WalkIsLinked(p, u, current, round - 2, floor);
      }
    }
  }

  /** Anchors that succeed one another, the last of them with its votes, can be committed. */
  lemma SuccessionIsCommittable(p: Protocol, u: Universe, anchors: seq<Certificate>, pending: seq<Pending>)
    requires WellFormed(p, u) && Committable(p, u, anchors) && pending != [] && Waiting(p, u, LastRound(anchors), pending)
    requires Direct(p, u, pending[|pending| - 1].block.anchor)
    ensures Committable(p, u, anchors + AnchorsOf(BlocksIn(pending)))
  {
    hide WellFormed, Committable, WalkBack, Waiting, Direct, Chain;
    var last, k, added := LastRound(anchors), |pending| - 1, AnchorsOf(BlocksIn(pending));
    var direct := pending[k].block.anchor;
    IsKeyed(p, u);
    WaitingIsEven(p, u, last, pending);
    RoundsRise(p, u, last, pending, k);
    AnchorLeads(p, u, last, pending, k);
    ChainResumes(p, u, anchors, direct);
    WalkSelects(p, u, last, pending, k);
    assert added == added[..k] + [direct];
    ChainPrefix(p, u, anchors + added, direct);
  }

  lemma ChainPrefix(p: Protocol, u: Universe, anchors: seq<Certificate>, direct: Certificate)
    requires Direct(p, u, direct) && anchors <= Chain(p, u, direct)
    ensures Committable(p, u, anchors)
  {
  }

  /** A beginning of what a walk selects is the chain of its last anchor. */
  lemma {:induction false} BeginningIsChain(p: Protocol, u: Universe, current: Certificate, round: int, s: seq<Certificate>)
    requires s <= WalkBack(p, u, current, round, 2) && s != []
    ensures s == Chain(p, u, s[|s| - 1])
    decreases round
  {
    hide Linked, LeaderAt;
    if round >= 2 {
      var leader := LeaderAt(p, u, round);
      if leader.Some? && Linked(u, current, leader.value) {
        var lower := WalkBack(p, u, leader.value, round - 2, 2);
        if |s| <= |lower| {
          assert s == lower[..|s|];
          BeginningIsChain(p, u, leader.value, round - 2, s);
        } else {
          assert s == lower + [leader.value];
        }
      } else {
        BeginningIsChain(p, u, current, round - 2, s);
      }
    }
  }

  lemma CommittableIsChain(p: Protocol, u: Universe, anchors: seq<Certificate>)
    requires Committable(p, u, anchors) && anchors != []
    ensures anchors == Chain(p, u, anchors[|anchors| - 1])
  {
    var l :| Direct(p, u, l) && anchors <= Chain(p, u, l);
    hide WalkBack, Direct;
    var lower := WalkBack(p, u, l, l.round as int - 2, 2);
    if |anchors| <= |lower| {
      assert anchors == lower[..|anchors|];
      BeginningIsChain(p, u, l, l.round as int - 2, anchors);
    } else {
      assert anchors == lower + [l];
    }
  }

  /** A walk that comes past a leader it is linked to selects that one, or another above it. */
  lemma {:induction false} WalkStopsAbove(p: Protocol, u: Universe, current: Certificate, round: int, l: Certificate)
    requires NonEquivocating(u) && IsLeader(p, u, l) && Linked(u, current, l) && l.round <= round && round % 2 == 0
    ensures LastRound(WalkBack(p, u, current, round, 2)) >= l.round
    decreases round
  {
    hide Linked, LeaderAt, IsLeader, NonEquivocating;
    var leader := LeaderAt(p, u, round);
    if round == l.round {
      LeaderAtIs(p, u, l);
    } else if !(leader.Some? && Linked(u, current, leader.value)) {
      assert l.round % 2 == 0 by { LeaderIsEven(p, u, l); }
      WalkStopsAbove(p, u, current, round - 2, l);
    }
  }

  lemma LeaderIsEven(p: Protocol, u: Universe, l: Certificate)
    requires IsLeader(p, u, l)
    ensures l.round >= 2 && l.round % 2 == 0
  {
  }

  /** In a sequence that can be committed, no leader between an anchor and the one before it is linked to it. */
  lemma NothingBetween(p: Protocol, u: Universe, anchors: seq<Certificate>, anchor: Certificate, l: Certificate)
    requires WellFormed(p, u) && Committable(p, u, anchors + [anchor]) && IsLeader(p, u, l)
    requires LastRound(anchors) < l.round < anchor.round
    ensures !Linked(u, anchor, l)
  {
    hide CertificateValid, SoundCommittees, NonEquivocating, Committable, Linked, WalkBack, Ascending;
    CommittableIsChain(p, u, anchors + [anchor]);
    CommittableShape(p, u, anchors + [anchor]);
    assert IsLeader(p, u, (anchors + [anchor])[|anchors|]);
    var walk := WalkBack(p, u, anchor, anchor.round as int - 2, 2);
    assert anchors == (anchors + [anchor])[..|anchors|] == (walk + [anchor])[..|walk|] == walk;
    if Linked(u, anchor, l) {
      WalkStopsAbove(p, u, anchor, anchor.round as int - 2, l);
    }
  }

  lemma CommittablePrefix(p: Protocol, u: Universe, anchors: seq<Certificate>, n: nat)
    requires Committable(p, u, anchors) && n <= |anchors|
    ensures Committable(p, u, anchors[..n])
  {
    hide Chain, Direct;
    if anchors != [] {
      var l :| Direct(p, u, l) && anchors <= Chain(p, u, l);
      assert anchors[..n] <= Chain(p, u, l);
    }
  }

  /** An anchor of a sequence that can be committed, and those before it. */
  lemma AnchorAt(p: Protocol, u: Universe, anchors: seq<Certificate>, n: nat)
    requires n < |anchors| && Committable(p, u, anchors)
    ensures Committable(p, u, anchors[..n] + [anchors[n]]) && IsLeader(p, u, anchors[n])
    ensures LastRound(anchors[..n]) < anchors[n].round
  {
    CommittableShape(p, u, anchors);
    AscendPrefix(p, u, anchors, n);
    CommittablePrefix(p, u, anchors, n + 1);
    hide Committable, Ascending;
    assert anchors[..n + 1] == anchors[..n] + [anchors[n]];
  }

  /** The anchors before the one at `k` of those that follow `anchors`. */
  lemma AnchorsBefore(anchors: seq<Certificate>, pending: seq<Pending>, k: nat)
    requires k < |pending|
    ensures var all, n := anchors + AnchorsOf(BlocksIn(pending)), |anchors| + k;
            && |all| == |anchors| + |pending| && all[n] == pending[k].block.anchor
            && LastRound(all[..n]) == RoundBefore(LastRound(anchors), pending, k)
  {
    var added := AnchorsOf(BlocksIn(pending));
    var all, n := anchors + added, |anchors| + k;
    if k == 0 {
      assert all[..n] == anchors;
    } else {
      assert all[..n][n - 1] == added[k - 1] == pending[k - 1].block.anchor;
    }
  }

  lemma CommittableSucceeds(p: Protocol, u: Universe, anchors: seq<Certificate>, pending: seq<Pending>, k: nat)
    requires WellFormed(p, u) && k < |pending| && Committable(p, u, anchors + AnchorsOf(BlocksIn(pending)))
    ensures Succeeds(p, u, RoundBefore(LastRound(anchors), pending, k), pending[k])
  {
    hide WellFormed, Committable, Linked, ThroughKnown, AnchorsOf, BlocksIn;
    var all, n := anchors + AnchorsOf(BlocksIn(pending)), |anchors| + k;
    AnchorsBefore(anchors, pending, k);
    AnchorAt(p, u, all, n);
    var before := all[..n];
    forall l ensures !Escapes(p, u, LastRound(before), pending[k], l) {
      if Escapes(p, u, LastRound(before), pending[k], l) {
        NothingBetween(p, u, before, pending[k].block.anchor, l);
      }
    }
  }

  lemma CommittableIsLinked(p: Protocol, u: Universe, anchors: seq<Certificate>, added: seq<Certificate>)
    requires Committable(p, u, anchors + added)
    ensures LinkedInOrder(u, added)
  {
    hide Committable, Linked;
    var all := anchors + added;
    if added != [] {
      CommittableIsChain(p, u, all);
      var top := all[|all| - 1];
      WalkIsLinked(p, u, top, top.round as int - 2, 2);
      forall k | 0 < k < |added| ensures Linked(u, added[k], added[k - 1]) {
        assert added[k] == all[|anchors| + k] && added[k - 1] == all[|anchors| + k - 1];
      }
    }
  }

  /**
   Exactly when the anchors of waiting blocks up to the one with the votes are those that every validator commits: each
   leads its round, lies above the one before, has a path to it, and no leader in between escapes the checks. When the
   first of the blocks is taken, this has been checked of no path, and otherwise of the first block alone.
   */
  lemma AnchorsCommittableIff(p: Protocol, u: Universe, anchors: seq<Certificate>, pending: seq<Pending>, k: nat)
    requires WellFormed(p, u) && Committable(p, u, anchors) && k < |pending| && AllSubdagsChecked(p, u, pending)
    requires HasVotes(p, pending[k].block.anchor, BlocksIn(pending[k + 1..]))
    ensures Committable(p, u, anchors + AnchorsOf(BlocksIn(pending[..k + 1]))) <==>
            InSuccession(p, u, LastRound(anchors), pending[..k + 1])
  {
    hide WellFormed, Committable, Direct, IsLeader, HasVotes, SubdagChecked, Succeeds, LinkedInOrder;
    var last, some := LastRound(anchors), pending[..k + 1];
    IsKeyed(p, u);
    VotedIsDirectIff(p, u, pending, k);
    assert some[k] == pending[k];
    if InSuccession(p, u, last, some) {
      CommittableShape(p, u, anchors);
      AnchorLeads(p, u, last, some, k);
      SuccessionIsCommittable(p, u, anchors, some);
    }
    if Committable(p, u, anchors + AnchorsOf(BlocksIn(some))) {
      forall m | 0 <= m <= k ensures Succeeds(p, u, RoundBefore(last, some, m), some[m]) {
        CommittableSucceeds(p, u, anchors, some, m);
      }
      CommittableIsLinked(p, u, anchors, AnchorsOf(BlocksIn(some)));
    }
  }

  /* Blocks that pass all checks in turn. */

  /** Done certificates are not above the last anchor. */
  ghost predicate DoneBelow(u: Universe, before: seq<Block>) {
    forall i :: i in DoneIds(before) && i in u ==> u[i].round <= LastRound(AnchorsOf(before))
  }

  /** Blocks that each pass all checks on top of the ones before. */
  ghost predicate ChecksOut(p: Protocol, u: Universe, before: seq<Block>, blocks: seq<Block>) {
    forall k :: 0 <= k < |blocks| ==> Checked(p, u, before + blocks[..k], blocks[k])
  }

  /** Blocks as they wait if each was checked on top of the ones before. */
  ghost function InTurn(before: seq<Block>, blocks: seq<Block>): seq<Pending> {
    seq(|blocks|, k requires 0 <= k < |blocks| => OnTopOf(before + blocks[..k], blocks[k]))
  }

  /**
   From a block that passes all checks on top of the blocks before it no leader escapes. For the first block that takes
   a complete one; for others the rounds that have to be present bring the last anchor close enough.
   */
  lemma NothingEscapes(p: Protocol, u: Universe, before: seq<Block>, b: Block, l: Certificate)
    requires Keyed(u) && Checked(p, u, before, b) && DoneBelow(u, before) && p.maxGcRounds >= 1
    requires LastRound(AnchorsOf(before)) % 2 == 0
    requires LastRound(AnchorsOf(before)) == 0 ==> Complete(u, PastOf(before, p.maxGcRounds), OnTopOf(before, b))
    ensures !Escapes(p, u, LastRound(AnchorsOf(before)), OnTopOf(before, b), l)
  {
    hide Linked, Checked, AnchorsOf, DoneIds, Complete;
    var last := LastRound(AnchorsOf(before));
    if Escapes(p, u, last, OnTopOf(before, b), l) {
      if last != 0 {
        LastIsClose(p, u, before, b);
      } else {
        FirstLeaderIsClose(p, u, before, b, l);
      }
      var y: Certificate :| y.id in DoneIds(before) && Linked(u, b.anchor, y) && Linked(u, y, l);
      CheckedIs(p, u, before, b);
      AnchorIsTaken(p, u, OnTopOf(before, b));
      LinkedMember(u, b.anchor, y);
      LinkedRounds(u, y, l);
    }
  }

  lemma {:induction false} LinkedMember(u: Universe, c: Certificate, y: Certificate)
    requires Keyed(u) && Member(u, c) && Linked(u, c, y)
    ensures Member(u, y)
    decreases c.round
  {
    if c != y {
      var i := NextOnPath(u, c, y);
      LinkedMember(u, u[i], y);
    }
  }

  /** A leader that is linked to the first anchor and would lie deep is in a complete block, and so does not lie deep. */
  lemma FirstLeaderIsClose(p: Protocol, u: Universe, before: seq<Block>, b: Block, l: Certificate)
    requires Checked(p, u, before, b) && DoneBelow(u, before) && p.maxGcRounds >= 1
    requires LastRound(AnchorsOf(before)) == 0 && Complete(u, PastOf(before, p.maxGcRounds), OnTopOf(before, b))
    requires IsLeader(p, u, l) && Linked(u, b.anchor, l)
    ensures l.round + MAX_ROUNDS > b.anchor.round + 1
  {
    hide Linked, AnchorsOf, DoneIds, IsPartOf, LeavesKnown, RoundsPresent, Atomic;
    if l.round + MAX_ROUNDS <= b.anchor.round + 1 {
      assert LiesDeep(u, PastOf(before, p.maxGcRounds), b.anchor, l);
      RowsAreClose(b.subdag, b.anchor.round, l.round);
    }
  }

  lemma LastOf(before: seq<Block>, blocks: seq<Block>, k: nat)
    requires 0 < k <= |blocks|
    ensures LastRound(AnchorsOf(before + blocks[..k])) == blocks[k - 1].anchor.round
  {
  }

  /** What the blocks hold stays below the last anchor. */
  lemma {:induction false} StillBelow(p: Protocol, u: Universe, before: seq<Block>, blocks: seq<Block>, k: nat)
    requires Keyed(u) && DoneBelow(u, before) && ChecksOut(p, u, before, blocks) && k <= |blocks|
    ensures DoneBelow(u, before + blocks[..k])
  {
    hide DoneIds, AnchorsOf, Checked;
    if k == 0 {
      assert before + blocks[..0] == before;
    } else {
      StillBelow(p, u, before, blocks, k - 1);
      var earlier, b := before + blocks[..k - 1], blocks[k - 1];
      assert before + blocks[..k] == earlier + [b];
      assert Checked(p, u, earlier, b);
      PastOfExtended(earlier, b, 0);
      BlockIsBelow(p, u, earlier, b);
    }
  }

  lemma BlockIsBelow(p: Protocol, u: Universe, before: seq<Block>, b: Block)
    requires Keyed(u) && Checked(p, u, before, b)
    ensures b.anchor.round > LastRound(AnchorsOf(before)) && b.anchor.round % 2 == 0
    ensures forall i :: i in IdsOf(b.subdag) ==> i in u && u[i].round <= b.anchor.round
  {
    hide Atomic, LeavesKnown, RoundsPresent, AnchorsOf, DoneIds;
    forall i | i in IdsOf(b.subdag) ensures i in u && u[i].round <= b.anchor.round {
      InIdsOf(u, b.subdag, i);
    }
  }

  /** The anchor of a block that passes all checks in turn succeeds the one before. */
  lemma CheckedSucceeds(p: Protocol, u: Universe, before: seq<Block>, b: Block)
    requires Keyed(u) && Checked(p, u, before, b) && DoneBelow(u, before) && p.maxGcRounds >= 1
    requires LastRound(AnchorsOf(before)) % 2 == 0
    requires LastRound(AnchorsOf(before)) == 0 ==> Complete(u, PastOf(before, p.maxGcRounds), OnTopOf(before, b))
    ensures SubdagChecked(p, u, OnTopOf(before, b)) && Succeeds(p, u, LastRound(AnchorsOf(before)), OnTopOf(before, b))
  {
    hide SubdagChecked, RoundsPresent, Escapes, AnchorsOf, DoneIds, Complete;
    forall l ensures !Escapes(p, u, LastRound(AnchorsOf(before)), OnTopOf(before, b), l) {
      NothingEscapes(p, u, before, b, l);
    }
  }

  lemma InTurnSucceeds(p: Protocol, u: Universe, before: seq<Block>, blocks: seq<Block>, k: nat)
    requires Keyed(u) && ChecksOut(p, u, before, blocks) && DoneBelow(u, before) && p.maxGcRounds >= 1 && k < |blocks|
    requires LastRound(AnchorsOf(before)) % 2 == 0
    requires LastRound(AnchorsOf(before)) == 0 ==> Complete(u, PastOf(before, p.maxGcRounds), OnTopOf(before, blocks[0]))
    ensures var x, last := InTurn(before, blocks)[k], RoundBefore(LastRound(AnchorsOf(before)), InTurn(before, blocks), k);
            SubdagChecked(p, u, x) && Succeeds(p, u, last, x)
  {
    hide SubdagChecked, Succeeds, DoneBelow, Complete, Checked, AnchorsOf, DoneIds;
    var earlier := before + blocks[..k];
    StillBelow(p, u, before, blocks, k);
    assert Checked(p, u, earlier, blocks[k]);
    if k == 0 {
      assert earlier == before;
    } else {
      LastOf(before, blocks, k);
      BlockIsBelow(p, u, before + blocks[..k - 1], blocks[k - 1]);
    }
    CheckedSucceeds(p, u, earlier, blocks[k]);
  }

  /**
   If each block has passed all checks on top of the ones before it, a path from each anchor to the one before it is all
   that is left to ask for. No check looks for that path.
   */
  lemma LinkedSufficesIff(p: Protocol, u: Universe, before: seq<Block>, blocks: seq<Block>, k: nat)
    requires WellFormed(p, u) && ChecksOut(p, u, before, blocks) && DoneBelow(u, before) && p.maxGcRounds >= 1
    requires Committable(p, u, AnchorsOf(before)) && k < |blocks| && HasVotes(p, blocks[k].anchor, blocks[k + 1..])
    requires before == [] ==> Complete(u, PastOf(before, p.maxGcRounds), OnTopOf(before, blocks[0]))
    ensures Committable(p, u, AnchorsOf(before) + AnchorsOf(blocks[..k + 1])) <==>
            LinkedInOrder(u, AnchorsOf(blocks[..k + 1]))
  {
    hide WellFormed, ChecksOut, DoneBelow, Complete, HasVotes, Committable, SubdagChecked, Succeeds, LinkedInOrder, OnTopOf, PastOf;
    var pending, last := InTurn(before, blocks), LastRound(AnchorsOf(before));
    IsKeyed(p, u);
    CommittableShape(p, u, AnchorsOf(before));
    LaterIsPositive(p, u, before);
    forall m | 0 <= m < |blocks| ensures SubdagChecked(p, u, pending[m]) && Succeeds(p, u, RoundBefore(last, pending, m), pending[m]) {
      InTurnSucceeds(p, u, before, blocks, m);
    }
    InTurnBlocks(before, blocks, k);
    AnchorsCommittableIff(p, u, AnchorsOf(before), pending, k);
    SucceedsUpTo(p, u, last, pending, k + 1);
  }

  lemma SucceedsUpTo(p: Protocol, u: Universe, last: nat, pending: seq<Pending>, n: nat)
    requires n <= |pending|
    requires forall m :: 0 <= m < |pending| ==> Succeeds(p, u, RoundBefore(last, pending, m), pending[m])
    ensures forall m :: 0 <= m < n ==> Succeeds(p, u, RoundBefore(last, pending[..n], m), pending[..n][m])
  {
    hide Succeeds;
  }

  lemma LaterIsPositive(p: Protocol, u: Universe, before: seq<Block>)
    requires LeadersAscend(p, u, AnchorsOf(before))
    ensures before != [] ==> LastRound(AnchorsOf(before)) > 0
  {
    assert before != [] ==> IsLeader(p, u, AnchorsOf(before)[|before| - 1]);
  }

  lemma InTurnBlocks(before: seq<Block>, blocks: seq<Block>, k: nat)
    requires k < |blocks|
    ensures var pending := InTurn(before, blocks);
            && BlocksIn(pending[..k + 1]) == blocks[..k + 1] && BlocksIn(pending[k + 1..]) == blocks[k + 1..]
            && pending[k].block == blocks[k]
  {
    hide OnTopOf;
    assert forall m :: 0 <= m < |blocks| ==> InTurn(before, blocks)[m].block == blocks[m] by { OnTopIsBlock(before, blocks); }
  }

  lemma OnTopIsBlock(before: seq<Block>, blocks: seq<Block>)
    ensures forall m :: 0 <= m < |blocks| ==> InTurn(before, blocks)[m].block == blocks[m]
  {
  }

  /* The checks on an own block. */

  lemma OwnIsAtomic(p: Protocol, u: Universe, before: seq<Block>, b: Block)
    requires WellFormed(p, u) && IsPartOf(u, b.subdag) && Committable(p, u, AnchorsOf(before) + [b.anchor])
    requires b.anchor.round % 2 == 0 && Member(u, b.anchor)
    ensures Atomic(p, LastRound(AnchorsOf(before)), b)
  {
    hide CertificateValid, Committable, Linked, LinkedWithin, AnchorsOf;
    var anchors := AnchorsOf(before);
    forall l | InSubdag(b.subdag, l) && LeadsBetween(p, LastRound(anchors), l, b.anchor.round)
      ensures !LinkedWithin(b.subdag, b.anchor, l)
    {
      if LinkedWithin(b.subdag, b.anchor, l) {
        WithinIsLinked(u, b.subdag, b.anchor, l);
        NothingBetween(p, u, anchors, b.anchor, l);
      }
    }
  }

  lemma {:induction false} WithinIsLinked(u: Universe, s: Subdag, c: Certificate, l: Certificate)
    requires Keyed(u) && IsPartOf(u, s) && LinkedWithin(s, c, l)
    ensures Linked(u, c, l)
    decreases c.round
  {
    if c != l {
      var y :| StepsWithin(s, c, y) && LinkedWithin(s, y, l);
      WithinIsLinked(u, s, y, l);
      assert InSubdag(s, y) && u[y.id] == y;
    }
  }

  lemma OwnLeavesKnown(p: Protocol, u: Universe, before: seq<Block>, b: Block)
    requires WellFormed(p, u) && Member(u, b.anchor) && p.maxGcRounds + 1 >= MAX_ROUNDS
    requires b.anchor.round > LastRound(AnchorsOf(before)) && Exact(u, PastOf(before, p.maxGcRounds), b.anchor, b.subdag)
    ensures LeavesKnown(OnTopOf(before, b))
  {
    hide CertificateValid, Reaches, AnchorsOf, DoneIds;
    var past := PastOf(before, p.maxGcRounds);
    forall c, i | InSubdag(b.subdag, c) && i in c.previous && c.round + MAX_ROUNDS > b.anchor.round + 2
      ensures i in IdsOf(b.subdag) || i in past.done
    {
      ReachesMember(u, past, b.anchor, c);
      ParentInUniverse(p, u, c, i);
      if i !in past.done {
        assert Follows(u, past, c, i);
        ReachesExtends(u, past, b.anchor, c, i);
        IdsOfExact(u, past, b.anchor, b.subdag, i);
      }
    }
  }

  /**
   The block that a validator makes itself passes the checks of others just when its subdag passes and, from the second
   block on, it adds something of the round of the last anchor.
   */
  lemma OwnIsCheckedIff(p: Protocol, u: Universe, before: seq<Block>, anchor: Certificate)
    requires WellFormed(p, u) && Keyed(u) && p.maxGcRounds + 1 >= MAX_ROUNDS
    requires Committable(p, u, AnchorsOf(before) + [anchor])
    ensures var b, last := Block(anchor, SubdagOf(u, before, p.maxGcRounds, anchor)), LastRound(AnchorsOf(before));
            Checked(p, u, before, b) <==> Passes(b.subdag, anchor.round) && (last != 0 ==> last in b.subdag)
  {
    hide CertificateValid, Committable, Passes, Atomic, LeavesKnown, OrderDag, Exact, NonEquivocating, SoundCommittees;
    var anchors := AnchorsOf(before);
    CommittableShape(p, u, anchors + [anchor]);
    assert IsLeader(p, u, (anchors + [anchor])[|anchors|]);
    assert anchors != [] ==> (anchors + [anchor])[|anchors| - 1] == anchors[|anchors| - 1];
    var past := PastOf(before, p.maxGcRounds);
    OrderDagIsExact(p, u, past, anchor);
    var b := Block(anchor, SubdagOf(u, before, p.maxGcRounds, anchor));
    ExactIsPart(u, past, anchor, b.subdag);
    TopRow(u, past, anchor, b.subdag);
    OwnIsAtomic(p, u, before, b);
    OwnLeavesKnown(p, u, before, b);
    OwnRounds(p, u, past, anchor, b.subdag, LastRound(anchors));
  }

  lemma OwnRounds(p: Protocol, u: Universe, past: Past, anchor: Certificate, s: Subdag, last: nat)
    requires WellFormed(p, u) && Member(u, anchor) && Exact(u, past, anchor, s) && last <= anchor.round
    ensures RoundsPresent(last, Block(anchor, s)) <==> (last != 0 ==> last in s)
  {
    hide WellFormed, Exact;
    if last != 0 && last in s {
      forall r | last <= r <= anchor.round ensures r in s {
        RowsUpward(p, u, past, anchor, s, last, r);
      }
    }
  }

  lemma ExactIsPart(u: Universe, past: Past, anchor: Certificate, s: Subdag)
    requires Keyed(u) && Member(u, anchor) && Exact(u, past, anchor, s)
    ensures IsPartOf(u, s)
  {
    hide Reaches;
    forall c | InSubdag(s, c) ensures Member(u, c) {
      ReachesMember(u, past, anchor, c);
    }
  }
}
