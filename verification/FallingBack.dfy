/**
 Exactly how far primaries may fall back when they restart, for a committee that does not change. One of two honest members
 takes part up to some round, starts again far below it, catches up with the commits but not yet with the round, and signs
 a batch whose references it does not check any more. It is the only honest signer, and the batch references nothing.
 */
module FallingBack {
  import opened Types
  import opened Committees
  import opened CertificateGraph
  import opened Storages
  import opened Sync
  import opened PrimaryEvents
  import opened PrimaryRuns
  import opened Blocks
  import opened Certification
  import opened TwoAuthors
  import opened Arrivals
  import CommitRuns

  /** The round up to which the signer has collected. */
  const LOW: nat := 2

  function Top(depth: nat): nat {
    LOW + depth
  }

  /** A batch that references nothing that exists. */
  function Bogus(low: nat): Certificate {
    Certificate(0, 0, low + 1, [2], [])
  }

  function Other(i: Address): Address {
    if i == 1 then 2 else 1
  }

  /* The rounds that both take part in: propose, sign, move on. */

  function EventAt(i: Address, q: nat, j: nat): Event {
    if j == 0 then Propose(Link(q + 1, i), [], Links(2 * q))
    else if j == 1 then Sign(Link(q + 1, Other(i)), Links(2 * q), 0)
    else Move(q + 2)
  }

  function SignedAt(i: Address, q: nat): map<Address, (nat, CertificateId)> {
    if q == 0 then map[] else map[Other(i) := (q, Link(q, Other(i)).id)]
  }

  function StateAt(i: Address, q: nat, j: nat): PrimaryState {
    if j == 0 then
      PrimaryState(q + 1, if q == 0 then None else Some(q), if q == 0 then None else Some(Proposal(Link(q, i), [], {})),
                   SignedAt(i, q))
    else
      PrimaryState(q + 1, Some(q + 1), Some(Proposal(Link(q + 1, i), [], {})), SignedAt(i, if j == 1 then q else q + 1))
  }

  /** Two certificates of the round before that are a quorum are references that hold. */
  lemma TwoReferences(depth: nat, u: Universe, h: Certificate, a: CertificateId, b: CertificateId)
    requires h.round >= 2 && h.previous == [a, b] && a != b && a in u && b in u
    requires u[a].round + 1 == h.round && u[b].round + 1 == h.round && u[a].author == 1 && u[b].author == 2
    ensures ReferencesHold(Uneven(depth).committee, u, h)
  {
    hide Stake, Committee.Sound;
    UnevenIsSound();
    TwoAuthorsOf(u, a, b);
    FourMembers();
    assert h.previous[0] == a && h.previous[1] == b;
  }

  lemma FourMembers()
    ensures |UNEVEN.members| == 4
  {
    assert UNEVEN.members.Keys == {0, 1, 2, 3};
    assert |UNEVEN.members.Keys| == 4;
  }

  lemma OwnTwoReferences(depth: nat, u: Universe, h: Certificate, a: CertificateId, b: CertificateId)
    requires h.round >= 2 && h.previous == [a, b] && a != b && a in u && b in u
    requires u[a].round + 1 == h.round && u[b].round + 1 == h.round && u[a].author == 1 && u[b].author == 2
    requires forall i :: i in u && u[i].round + 1 == h.round ==> i == a || i == b
    ensures ReferencesForRound(Uneven(depth).committee, u, h.round, h.previous)
  {
    hide Stake, Committee.Sound;
    UnevenIsSound();
    TwoAuthorsOf(u, a, b);
    assert h.previous[0] == a && h.previous[1] == b;
  }

  /** The round before holds the two certificates that are referenced, and they are a quorum. */
  lemma ReferencesFound(depth: nat, q: nat, h: Certificate)
    requires q >= 1 && h.round == q + 1 && h.previous == [2 * q + 1, 2 * q + 2]
    ensures ReferencesHold(Uneven(depth).committee, Links(2 * q), h)
    ensures ReferencesForRound(Uneven(depth).committee, Links(2 * q), q + 1, h.previous)
  {
    hide Links, ReferencesHold, ReferencesForRound;
    var n, a, b := 2 * q, Link(q, 1), Link(q, 2);
    AmongLinks(n, a);
    AmongLinks(n, b);
    RoundHas(q);
    TwoReferences(depth, Links(n), h, a.id, b.id);
    OwnTwoReferences(depth, Links(n), h, a.id, b.id);
  }

  lemma RoundHas(q: nat)
    requires q >= 1
    ensures forall i :: i in Links(2 * q) && Links(2 * q)[i].round == q ==> i == 2 * q + 1 || i == 2 * q + 2
  {
  }

  lemma RegularOccurs(depth: nat, i: Address, q: nat, j: nat)
    requires (i == 1 || i == 2) && j < 3
    ensures Occurs(Uneven(depth).committee, i, StateAt(i, q, j), EventAt(i, q, j),
                   if j < 2 then StateAt(i, q, j + 1) else StateAt(i, q + 1, 0))
  {
    hide ReferencesHold, ReferencesForRound, Links;
    if j == 0 {
      if q > 0 {
        ReferencesFound(depth, q, Link(q + 1, i));
      } else {
        FirstNeedsNone(depth, Links(0));
      }
    } else if j == 1 {
      SignsOther(depth, i, q);
    }
  }

  lemma SignsOther(depth: nat, i: Address, q: nat)
    requires i == 1 || i == 2
    ensures Occurs(Uneven(depth).committee, i, StateAt(i, q, 1), EventAt(i, q, 1), StateAt(i, q, 2))
  {
    hide ReferencesHold, Links, Occurs;
    var h := Link(q + 1, Other(i));
    if q > 0 {
      ReferencesFound(depth, q, h);
    }
    SignsNext(i, q);
    hide SignedAt;
    Signs(depth, i, StateAt(i, q, 1), h, Links(2 * q));
  }

  lemma SignsNext(i: Address, q: nat)
    ensures var other := Other(i);
            && SignedAt(i, q)[other := (q + 1, Link(q + 1, other).id)] == SignedAt(i, q + 1)
            && (other in SignedAt(i, q) ==> SignedAt(i, q)[other].0 < q + 1)
  {
  }

  /** Signing a header whose references hold, for an author whose last signed round is lower. */
  lemma Signs(depth: nat, self: Address, s: PrimaryState, h: Certificate, stored: Universe)
    requires h.author != self && h.author < 4 && HeaderIsSound(h) && s.round <= h.round + 1 && h.round >= 1
    requires h.author in s.signed ==> s.signed[h.author].0 < h.round
    requires h.round > 1 ==> ReferencesHold(Uneven(depth).committee, stored, h)
    ensures Occurs(Uneven(depth).committee, self, s, Sign(h, stored, 0), Recorded(s, h))
  {
    hide ReferencesHold, HeaderIsSound;
  }

  lemma FirstNeedsNone(depth: nat, stored: Universe)
    ensures ReferencesForRound(Uneven(depth).committee, stored, 1, [])
  {
  }

  function Regular(i: Address, top: nat): seq<Event> {
    seq(3 * top, k requires 0 <= k < 3 * top => EventAt(i, k / 3, k % 3))
  }

  function RegularStates(i: Address, top: nat): seq<PrimaryState> {
    seq(3 * top, k requires 0 <= k < 3 * top => StateAt(i, k / 3, k % 3))
  }

  /* What comes after. */

  function FirstTail(top: nat, low: nat): seq<Event> {
    [Sign(Link(top + 1, 2), Links(2 * top), 0), Sign(Vote(top), Links(2 * top), 0), Restart(low + 2),
     Sign(Bogus(low), KeptAbove(Everything(top), low), low)]
  }

  function FirstTailStates(top: nat, low: nat): seq<PrimaryState> {
    var s0 := StateAt(1, top, 0);
    var s1 := Recorded(s0, Link(top + 1, 2));
    var s2 := Recorded(s1, Vote(top));
    var s3 := Loaded(Saved(s2, 1), low + 2);
    [s0, s1, s2, s3, Recorded(s3, Bogus(low))]
  }

  function SecondTail(top: nat): seq<Event> {
    [Propose(Link(top + 1, 2), [], Links(2 * top)), Sign(Vote(top), Links(2 * top), 0)]
  }

  function SecondTailStates(top: nat): seq<PrimaryState> {
    var s0 := StateAt(2, top, 0);
    var s1 := Proposed(Expired(s0), Link(top + 1, 2), []);
    [s0, s1, Recorded(s1, Vote(top))]
  }

  lemma FirstTailOccurs(depth: nat, top: nat, low: nat, k: nat)
    requires top >= 1 && low >= 1 && k < 4
    ensures |FirstTail(top, low)| == 4 && |FirstTailStates(top, low)| == 5
    ensures Occurs(Uneven(depth).committee, 1, FirstTailStates(top, low)[k], FirstTail(top, low)[k], FirstTailStates(top, low)[k + 1])
  {
    hide ReferencesHold, ReferencesForRound, Links, Everything, KeptAbove;
    var states := FirstTailStates(top, low);
    if k == 0 {
      ReferencesFound(depth, top, Link(top + 1, 2));
      Signs(depth, 1, states[0], Link(top + 1, 2), Links(2 * top));
    } else if k == 1 {
      ReferencesFound(depth, top, Vote(top));
      Signs(depth, 1, states[1], Vote(top), Links(2 * top));
    } else if k == 3 {
      SignsUnchecked(depth, low, states[3], KeptAbove(Everything(top), low));
    }
  }

  /** The references of the batch are not checked: the round before has been collected. */
  lemma SignsUnchecked(depth: nat, low: nat, s: PrimaryState, stored: Universe)
    requires low >= 1 && s.round == low + 2 && 0 !in s.signed
    ensures Occurs(Uneven(depth).committee, 1, s, Sign(Bogus(low), stored, low), Recorded(s, Bogus(low)))
  {
    hide ReferencesHold;
  }

  lemma SecondTailOccurs(depth: nat, top: nat, k: nat)
    requires top >= 1 && k < 2
    ensures |SecondTail(top)| == 2 && |SecondTailStates(top)| == 3
    ensures Occurs(Uneven(depth).committee, 2, SecondTailStates(top)[k], SecondTail(top)[k], SecondTailStates(top)[k + 1])
  {
    hide ReferencesHold, ReferencesForRound, Links;
    if k == 0 {
      ReferencesFound(depth, top, Link(top + 1, 2));
    } else {
      ReferencesFound(depth, top, Vote(top));
      Signs(depth, 2, SecondTailStates(top)[1], Vote(top), Links(2 * top));
    }
  }

  function TailOf(i: Address, top: nat, low: nat): seq<Event> {
    if i == 1 then FirstTail(top, low) else SecondTail(top)
  }

  function TailStatesOf(i: Address, top: nat, low: nat): (s: seq<PrimaryState>)
    ensures |s| == |TailOf(i, top, low)| + 1 && s[0] == StateAt(if i == 1 then 1 else 2, top, 0)
  {
    if i == 1 then FirstTailStates(top, low) else SecondTailStates(top)
  }

  function LifeOf(i: Address, top: nat, low: nat): Life {
    Life(Regular(i, top) + TailOf(i, top, low), RegularStates(i, top) + TailStatesOf(i, top, low))
  }

  lemma LifeIsLife(depth: nat, i: Address, top: nat, low: nat)
    requires (i == 1 || i == 2) && top >= 1 && low >= 1
    ensures IsLife(Uneven(depth), i, LifeOf(i, top, low))
  {
    hide Occurs, EventAt, StateAt, FirstTail, FirstTailStates, SecondTail, SecondTailStates;
    var life := LifeOf(i, top, low);
    FirstTailOccurs(depth, top, low, 0);
    SecondTailOccurs(depth, top, 0);
    assert StartsFresh(life.states[0]) by { FirstState(i); }
    forall k | 0 <= k < |life.events|
      ensures Occurs(Uneven(depth).committee, i, life.states[k], life.events[k], life.states[k + 1])
    {
      if k < 3 * top {
        RegularOccurs(depth, i, k / 3, k % 3);
        NextState(i, top, low, k);
      } else if i == 1 {
        FirstTailOccurs(depth, top, low, k - 3 * top);
      } else {
        SecondTailOccurs(depth, top, k - 3 * top);
      }
    }
  }

  ghost predicate StartsFresh(s: PrimaryState) {
    s.latest.None? && s.proposal.None? && s.signed == map[]
  }

  lemma FirstState(i: Address)
    ensures StartsFresh(StateAt(i, 0, 0))
  {
  }

  lemma NextState(i: Address, top: nat, low: nat, k: nat)
    requires (i == 1 || i == 2) && k < 3 * top
    ensures LifeOf(i, top, low).states[k] == StateAt(i, k / 3, k % 3) && LifeOf(i, top, low).events[k] == EventAt(i, k / 3, k % 3)
    ensures LifeOf(i, top, low).states[k + 1] == if k % 3 < 2 then StateAt(i, k / 3, k % 3 + 1) else StateAt(i, k / 3 + 1, 0)
  {
    hide EventAt, StateAt, FirstTail, FirstTailStates, SecondTail, SecondTailStates;
    if k + 1 < 3 * top {
      assert (k + 1) / 3 == (if k % 3 < 2 then k / 3 else k / 3 + 1);
      assert (k + 1) % 3 == (if k % 3 < 2 then k % 3 + 1 else 0);
    } else {
      assert k / 3 + 1 == top && k % 3 == 2;
    }
  }

  /* The world. */

  function SignersOf(i: CertificateId): set<Address> {
    if i == 0 then {0, 1, 3} else if i == 1 then {1, 2, 3} else {1, 2}
  }

  function Clock(n: nat): seq<nat> {
    seq(n, k requires 0 <= k < n => k)
  }

  function FallenWorld(top: nat, low: nat): World {
    var certificates := Everything(top)[0 := Bogus(low)];
    World(certificates, map i | i in certificates :: SignersOf(i), {0, 3},
          map[1 := LifeOf(1, top, low), 2 := LifeOf(2, top, low)],
          map[1 := Clock(3 * top + 4), 2 := Clock(3 * top + 2)])
  }

  /** When the honest sign a certificate. */
  ghost function SignedWhen(top: nat, a: Address, c: Certificate): nat {
    if c.id == 0 then 3 * top + 3
    else if c.id == 1 then 3 * top + 1
    else if c.round > top || c.round == 0 then 3 * top
    else if c.author == a then 3 * (c.round - 1)
    else 3 * (c.round - 1) + 1
  }

  lemma WorldHolds(top: nat, low: nat, c: Certificate)
    requires Member(FallenWorld(top, low).certificates, c)
    ensures c == Bogus(low) || Exists(top, c)
  {
    hide Exists, Everything;
    if c != Bogus(low) {
      assert Member(Everything(top), c);
      ExistsIff(top, c);
    }
  }

  lemma Lengths(i: Address, top: nat, low: nat)
    requires i == 1 || i == 2
    ensures |LifeOf(i, top, low).events| == 3 * top + (if i == 1 then 4 else 2)
    ensures |TailOf(i, top, low)| == if i == 1 then 4 else 2
  {
    hide EventAt, StateAt, FirstTailStates, SecondTailStates;
  }

  lemma RegularIs(i: Address, top: nat, low: nat, q: nat, j: nat)
    requires (i == 1 || i == 2) && q < top && j < 3
    ensures 3 * q + j < |LifeOf(i, top, low).events| && LifeOf(i, top, low).events[3 * q + j] == EventAt(i, q, j)
  {
    hide EventAt, StateAt, LifeOf;
    var k := 3 * q + j;
    assert k / 3 == q && k % 3 == j;
    Lengths(i, top, low);
    NextState(i, top, low, k);
  }

  lemma TailIs(i: Address, top: nat, low: nat, m: nat)
    requires (i == 1 || i == 2) && m < |TailOf(i, top, low)|
    ensures 3 * top + m < |LifeOf(i, top, low).events| && LifeOf(i, top, low).events[3 * top + m] == TailOf(i, top, low)[m]
  {
    hide EventAt, StateAt, FirstTailStates, SecondTailStates, FirstTail, SecondTail;
  }

  lemma Signed(top: nat, low: nat, a: Address, c: Certificate)
    requires Exists(top, c) || (a == 1 && c == Bogus(low))
    requires (a == 1 || a == 2) && top >= 1
    ensures Vouches(a, LifeOf(a, top, low), SignedWhen(top, a, c), c)
  {
    hide LifeOf, Links, StateAt, Everything, KeptAbove;
    Lengths(a, top, low);
    if c == Bogus(low) {
      TailIs(a, top, low, 3);
    } else if c == Vote(top) {
      TailIs(a, top, low, 1);
    } else if c == Link(top + 1, 2) {
      TailIs(a, top, low, 0);
    } else {
      RegularIs(a, top, low, c.round - 1, 0);
      RegularIs(a, top, low, c.round - 1, 1);
    }
  }

  lemma SignedInTime(top: nat, low: nat, c: Certificate, t: nat)
    requires top >= 1 && Exists(top, c) && SignedWhen(top, 1, c) < t && SignedWhen(top, 2, c) < t
    ensures ExistsBefore(FallenWorld(top, low), t, c)
  {
    hide LifeOf, Everything, Exists;
    var w := FallenWorld(top, low);
    forall a | c.id in w.signers && a in w.signers[c.id] && a !in w.faulty
      ensures exists k: nat :: VouchesBefore(w, t, a, k, c)
    {
      var k := SignedWhen(top, a, c);
      Signed(top, low, a, c);
      Lengths(a, top, low);
      assert VouchesBefore(w, t, a, k, c);
    }
  }

  /** What is referenced at a time exists by then. */
  lemma LinksExist(top: nat, low: nat, q: nat, t: nat)
    requires 1 <= top && q <= top && 3 * q <= t
    ensures PartOf(Links(2 * q), Known(FallenWorld(top, low), t))
  {
    hide ExistsBefore, Everything;
    var w := FallenWorld(top, low);
    forall i | i in Links(2 * q) ensures i in Known(w, t) && Known(w, t)[i] == Links(2 * q)[i] {
      var c := Links(2 * q)[i];
      LinksAreKeyed(2 * q);
      AmongLinks(2 * q, c);
      assert IsAmong(2 * top, c);
      ExistsIff(top, c);
      SignedInTime(top, low, c, t);
    }
  }

  /** When the signer starts again and when it signs the batch, everything else exists, and the batch does not. */
  lemma AllButBogus(top: nat, low: nat, t: nat)
    requires top >= 1 && 3 * top + 2 <= t <= 3 * top + 3
    ensures Known(FallenWorld(top, low), t) == Everything(top)
  {
    hide ExistsBefore, Everything, Exists, LifeOf;
    var w := FallenWorld(top, low);
    EverythingIsKeyed(top);
    forall i | i in Everything(top) ensures i in Known(w, t) && Known(w, t)[i] == Everything(top)[i] {
      var c := Everything(top)[i];
      ExistsIff(top, c);
      SignedEarly(top, c);
      SignedInTime(top, low, c, t);
      NotZero(top, i);
    }
    BogusIsLate(top, low, t);
  }

  lemma NotZero(top: nat, i: CertificateId)
    requires i in Everything(top)
    ensures i != 0 && i != 2
  {
    if i in Links(2 * top) {
      LinksInRange(2 * top, i);
    }
  }

  lemma SignedEarly(top: nat, c: Certificate)
    requires Exists(top, c)
    ensures SignedWhen(top, 1, c) < 3 * top + 2 && SignedWhen(top, 2, c) < 3 * top + 2
  {
  }

  lemma BogusIsLate(top: nat, low: nat, t: nat)
    requires t <= 3 * top + 3
    ensures !ExistsBefore(FallenWorld(top, low), t, Bogus(low))
  {
    hide LifeOf, Everything;
    var w, c := FallenWorld(top, low), Bogus(low);
    assert c.id in w.signers && 1 in w.signers[c.id] && 1 !in w.faulty;
    if ExistsBefore(w, t, c) {
      var k: nat :| VouchesBefore(w, t, 1, k, c);
      NotYet(top, low, k);
    }
  }

  lemma NotYet(top: nat, low: nat, k: nat)
    requires k < 3 * top + 3
    ensures !Vouches(1, LifeOf(1, top, low), k, Bogus(low))
  {
    hide LifeOf, Links, StateAt, Everything, KeptAbove;
    Lengths(1, top, low);
    if k < 3 * top {
      NextState(1, top, low, k);
    } else {
      TailIs(1, top, low, k - 3 * top);
    }
  }

  lemma LinksReached(depth: nat, top: nat, low: nat, q: nat, t: nat)
    requires 1 <= top && q <= top && 3 * q <= t
    ensures Reached(Uneven(depth), Known(FallenWorld(top, low), t), Links(2 * q), 0)
  {
    hide Known, Links, CommitRuns.IsRun, HasArrived;
    LinksExist(top, low, q, t);
    var actions, v := LinksArrive(Uneven(depth), Known(FallenWorld(top, low), t), 2 * q);
    ArrivedIs(Links(2 * q), v);
  }

  lemma RegularSeesState(depth: nat, a: Address, q: nat, j: nat)
    requires (a == 1 || a == 2) && q < Top(depth) && j < 3
    ensures SeesState(Uneven(depth), FallenWorld(Top(depth), LOW), 3 * q + j, EventAt(a, q, j))
  {
    hide Known, Links, Reached, FallenWorld, LastBlockIsOf;
    LinksReached(depth, Top(depth), LOW, q, 3 * q + j);
  }

  lemma TailSeesState(depth: nat, a: Address, m: nat)
    requires (a == 1 || a == 2) && depth >= 2 && depth % 2 == 0 && m < |TailOf(a, Top(depth), LOW)|
    ensures SeesState(Uneven(depth), FallenWorld(Top(depth), LOW), 3 * Top(depth) + m, TailOf(a, Top(depth), LOW)[m])
  {
    hide Known, Links, Reached, Everything, KeptAbove, FallenWorld, LastBlockIsOf;
    var top := Top(depth);
    if a == 1 && m == 2 {
      RestartSeesState(depth);
    } else if m == 3 {
      BogusSeesState(depth);
    } else {
      LinksReached(depth, top, LOW, top, 3 * top + m);
    }
  }

  lemma EverySeesState(depth: nat, a: Address, k: nat)
    requires (a == 1 || a == 2) && depth >= 2 && depth % 2 == 0 && k < |LifeOf(a, Top(depth), LOW).events|
    ensures SeesState(Uneven(depth), FallenWorld(Top(depth), LOW), k, LifeOf(a, Top(depth), LOW).events[k])
  {
    hide LifeOf, FallenWorld, SeesState, EventAt, FirstTail, SecondTail, StateAt;
    var top := Top(depth);
    Lengths(a, top, LOW);
    if k < 3 * top {
      NextState(a, top, LOW, k);
      RegularSeesState(depth, a, k / 3, k % 3);
    } else {
      TailIs(a, top, LOW, k - 3 * top);
      TailSeesState(depth, a, k - 3 * top);
    }
  }

  /** The signer starts again with the blocks of two leaders in its ledger. */
  lemma RestartSeesState(depth: nat)
    requires depth >= 2 && depth % 2 == 0
    ensures LastBlockIsOf(Uneven(depth), Known(FallenWorld(Top(depth), LOW), 3 * Top(depth) + 2), LOW + 2)
  {
    hide Known, Everything, FallenWorld, CommitRuns.IsRun;
    var top := Top(depth);
    AllButBogus(top, LOW, 3 * top + 2);
    var actions, v := Commits(depth, top, 2);
    EvensAt(2, 1);
    assert CommitRuns.StartingRound(v.accepted) == 4;
  }

  lemma BogusSeesState(depth: nat)
    requires depth >= 2 && depth % 2 == 0
    ensures var top, low := Top(depth), LOW;
            Reached(Uneven(depth), Known(FallenWorld(top, low), 3 * top + 3), KeptAbove(Everything(top), low), low)
  {
    hide Known, Everything, KeptAbove, FallenWorld, CommitRuns.IsRun;
    var top, low := Top(depth), LOW;
    AllButBogus(top, low, 3 * top + 3);
    var actions, v := Collects(depth, top);
  }

  lemma FallenHasQuorum(depth: nat, top: nat, low: nat, c: Certificate)
    requires Member(FallenWorld(top, low).certificates, c) && top >= 1
    ensures HasQuorum(Uneven(depth), FallenWorld(top, low), c)
  {
    hide Everything, LifeOf, Stake, Committee.Sound;
    UnevenIsSound();
    WorldHolds(top, low, c);
    SignersAre(top, low, c);
  }

  lemma SignersAre(top: nat, low: nat, c: Certificate)
    requires c == Bogus(low) || Exists(top, c)
    ensures c.author in SignersOf(c.id) && c.round >= 1
  {
  }

  lemma FallenFaults(depth: nat, top: nat, low: nat)
    ensures FaultsBounded(Uneven(depth), FallenWorld(top, low))
  {
    hide Everything, LifeOf, Stake, Committee.Sound;
    UnevenIsSound();
  }

  lemma FallenIsBacked(top: nat, low: nat, c: Certificate, a: Address)
    requires top >= 1 && Member(FallenWorld(top, low).certificates, c)
    requires c.id in FallenWorld(top, low).signers && a in FallenWorld(top, low).signers[c.id] && a !in FallenWorld(top, low).faulty
    ensures IsBacked(FallenWorld(top, low), a, c)
  {
    hide Everything, LifeOf, Exists;
    WorldHolds(top, low, c);
    if Exists(top, c) {
      BogusId(top, c);
    }
    Signed(top, low, a, c);
    assert Vouches(a, FallenWorld(top, low).lives[a], SignedWhen(top, a, c), c);
  }

  lemma BogusId(top: nat, c: Certificate)
    requires Exists(top, c)
    ensures c.id != 0
  {
  }

  lemma FallenTimes(top: nat, low: nat)
    ensures TimesRise(FallenWorld(top, low))
  {
    hide Everything, LifeOf;
    Lengths(1, top, low);
    Lengths(2, top, low);
  }

  lemma FallenIsKeyed(top: nat, low: nat)
    ensures Keyed(FallenWorld(top, low).certificates)
  {
    hide Everything, LifeOf;
    EverythingIsKeyed(top);
  }

  lemma FallenLives(depth: nat, a: Address)
    requires depth >= 2 && depth % 2 == 0 && a in FallenWorld(Top(depth), LOW).lives
    ensures var w := FallenWorld(Top(depth), LOW);
            && a !in w.faulty && IsLife(Uneven(depth), a, w.lives[a])
            && a in w.times && |w.times[a]| == |w.lives[a].events|
            && forall k :: 0 <= k < |w.lives[a].events| ==> SeesState(Uneven(depth), w, w.times[a][k], w.lives[a].events[k])
  {
    hide Everything, LifeOf, IsLife, SeesState;
    var top, low := Top(depth), LOW;
    var w := FallenWorld(top, low);
    LifeIsLife(depth, a, top, low);
    Lengths(a, top, low);
    forall k | 0 <= k < |w.lives[a].events| ensures SeesState(Uneven(depth), w, w.times[a][k], w.lives[a].events[k]) {
      EverySeesState(depth, a, k);
    }
  }

  lemma FallenIsWorld(depth: nat)
    requires depth >= 2 && depth % 2 == 0
    ensures IsWorld(Uneven(depth), FallenWorld(Top(depth), LOW))
  {
    hide FallenWorld, IsLife, Stake, HasQuorum, IsBacked, TimesRise, SeesState, FaultsBounded, Vouches, Keyed;
    var p, top, low := Uneven(depth), Top(depth), LOW;
    var w := FallenWorld(top, low);
    FallenIsKeyed(top, low);
    FallenFaults(depth, top, low);
    FallenTimes(top, low);
    forall c | Member(w.certificates, c) ensures HasQuorum(p, w, c) {
      FallenHasQuorum(depth, top, low, c);
    }
    forall c, a | Member(w.certificates, c) && c.id in w.signers && a in w.signers[c.id] && a !in w.faulty
      ensures IsBacked(w, a, c)
    {
      FallenIsBacked(top, low, c, a);
    }
    forall a | a in w.lives
      ensures a !in w.faulty && IsLife(p, a, w.lives[a]) && a in w.times && |w.times[a]| == |w.lives[a].events|
      ensures forall k :: 0 <= k < |w.lives[a].events| ==> SeesState(p, w, w.times[a][k], w.lives[a].events[k])
    {
      FallenLives(depth, a);
    }
  }

  lemma FallenFallsBack(depth: nat, back: nat)
    requires depth <= back + 2
    ensures FallsBackAtMost(FallenWorld(Top(depth), LOW), back)
  {
    hide Everything, LifeOf, Links, KeptAbove, StateAt;
    var top, low := Top(depth), LOW;
    var w := FallenWorld(top, low);
    forall a, k | a in w.lives && 0 <= k < |w.lives[a].events| && k < |w.lives[a].states| && w.lives[a].events[k].Restart?
      ensures LatestRound(w.lives[a].states[k]) <= w.lives[a].events[k].round + back
    {
      Lengths(a, top, low);
      if k < 3 * top {
        NextState(a, top, low, k);
      } else {
        TailIs(a, top, low, k - 3 * top);
        RestartState(top, low);
      }
    }
  }

  lemma RestartState(top: nat, low: nat)
    requires top >= 1
    ensures LifeOf(1, top, low).states[3 * top + 2] == FirstTailStates(top, low)[2]
    ensures LatestRound(FirstTailStates(top, low)[2]) == top
  {
    hide EventAt;
  }

  lemma FallenIsNotWellFormed(depth: nat)
    requires depth >= 1
    ensures !WellFormed(Uneven(depth), FallenWorld(Top(depth), LOW).certificates)
  {
    hide LifeOf;
    var top, low := Top(depth), LOW;
    var u := FallenWorld(top, low).certificates;
    assert Member(u, Bogus(low));
    assert 2 !in u by {
      if 2 in Everything(top) {
        NotZero(top, 2);
      }
    }
    assert 2 in Bogus(low).previous;
    assert !CertificateValid(Uneven(depth), u, Bogus(low));
  }

  /**
   With this committee, certificates are well-formed in every world, whoever is faulty, if and only if no restart takes a
   primary back by more than three rounds less than the depth of collection. The depth is even, as it is in the source.
   */
  lemma ReliableIff(depth: nat, back: nat)
    requires depth >= 2 && depth % 2 == 0
    ensures (forall w :: IsWorld(Uneven(depth), w) && FallsBackAtMost(w, back) ==> WellFormed(Uneven(depth), w.certificates)) <==>
            back + 3 <= depth
  {
    hide IsWorld, FallsBackAtMost, WellFormed, FallenWorld, Overlap;
    var p := Uneven(depth);
    if back + 3 <= depth {
      forall w | IsWorld(p, w) && FallsBackAtMost(w, back) ensures WellFormed(p, w.certificates) {
        WorldFaults(p, w);
        OneCommitteeOverlapsIff(p, w, back);
        CertificatesWellFormed(p, w, back);
      }
    } else {
      FallenIsWorld(depth);
      FallenFallsBack(depth, back);
      FallenIsNotWellFormed(depth);
    }
  }

  lemma WorldFaults(p: Protocol, w: World)
    requires IsWorld(p, w)
    ensures FaultsBounded(p, w)
  {
  }
}
