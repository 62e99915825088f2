/**
 What is checked of a block that a peer hands over, before the ledger takes it (snarkVM/ledger/src/check_next_block.rs,
 snarkVM/ledger/block/src/verify.rs), what that says about the block, and what it leaves open.
 */
module BlockChecks {
  import opened Types
  import opened Committees
  import opened CertificateGraph
  import opened Anchors
  import opened Dags
  import opened Ordering
  import opened Subdags
  import opened Blocks
  import opened SubdagChecks

  /** A subdag made of certificates, filed by round: what the signatures on them are checked for. */
  ghost predicate IsPartOf(u: Universe, s: Subdag) {
    FiledByRound(s) && forall c :: InSubdag(s, c) ==> Member(u, c)
  }

  /** A path of references from `c` back to `target`, whose certificates below `c` are in the subdag. */
  ghost predicate LinkedWithin(s: Subdag, c: Certificate, target: Certificate)
    decreases c.round
  {
    c == target || exists y :: StepsWithin(s, c, y) && LinkedWithin(s, y, target)
  }

  ghost predicate StepsWithin(s: Subdag, c: Certificate, y: Certificate) {
    y.round + 1 == c.round && y in RoundOf(s, y.round) && y.id in c.previous
  }

  /** A leader of a round that is an even number of rounds below `top`, and at least two above `last`. */
  ghost predicate LeadsBetween(p: Protocol, last: nat, l: Certificate, top: nat) {
    last + 2 <= l.round && l.round + 2 <= top && l.round % 2 == top % 2 && l.author == p.leader(l.round)
  }

  /** No elected leader between the last block and this one is linked to the anchor. */
  ghost predicate Atomic(p: Protocol, last: nat, b: Block) {
    forall l :: InSubdag(b.subdag, l) && LeadsBetween(p, last, l, b.anchor.round) ==> !LinkedWithin(b.subdag, b.anchor, l)
  }

  /**
   A block from a peer that waits until it may be taken, with the round that its header states and with what its subdag was
   checked against: the round stated in the header of the block before it, and the certificates in the blocks before it.
   The header of a waiting block has not been verified, and the blocks before it may be others by the time it is taken.
   */
  datatype Pending = Pending(block: Block, round: nat, last: nat, known: set<CertificateId>)

  /** What the block references outside of itself is in an earlier block, unless it lies 99 or more rounds below the stated round. */
  ghost predicate LeavesKnown(x: Pending) {
    forall c, i :: InSubdag(x.block.subdag, c) && i in c.previous && c.round + MAX_ROUNDS > x.round + 2 ==>
      i in IdsOf(x.block.subdag) || i in x.known
  }

  /** From the second block on, no round between the last anchor and this one is missing. */
  ghost predicate RoundsPresent(last: nat, b: Block) {
    last != 0 ==> forall r :: last <= r <= b.anchor.round ==> r in b.subdag
  }

  /** What is checked of a block before it waits for votes, its subdag's own shape included. */
  ghost predicate SubdagChecked(p: Protocol, u: Universe, x: Pending) {
    var b := x.block;
    && IsPartOf(u, b.subdag)
    && Passes(b.subdag, b.anchor.round) && b.subdag[b.anchor.round] == [b.anchor]
    && Atomic(p, x.last, b)
    && LeavesKnown(x)
  }

  /** What is checked of a block only when it is taken, on top of a last block of round `last`. */
  ghost predicate Authorized(p: Protocol, last: nat, x: Pending) {
    var b := x.block;
    && x.round == b.anchor.round && b.anchor.round > last
    && b.anchor.author == p.leader(b.anchor.round)
    && RoundsPresent(last, b)
  }

  /** A block that states the round of its anchor and whose subdag is checked on top of the blocks `before`. */
  ghost function OnTopOf(before: seq<Block>, b: Block): Pending {
    Pending(b, b.anchor.round, LastRound(AnchorsOf(before)), DoneIds(before))
  }

  /** All checks at once, on top of the blocks `before`. */
  ghost predicate Checked(p: Protocol, u: Universe, before: seq<Block>, b: Block) {
    SubdagChecked(p, u, OnTopOf(before, b)) && Authorized(p, LastRound(AnchorsOf(before)), OnTopOf(before, b))
  }

  /* What the checks say. */

  /** A row of a subdag that passes is less than 100 rounds below the top. */
  lemma RowsAreClose(s: Subdag, top: nat, round: nat)
    requires Passes(s, top) && round in s
    ensures round <= top < round + MAX_ROUNDS
  {
    if round + MAX_ROUNDS <= top {
      var keys: set<nat> := s.Keys;
      assert |keys| == |s|;
      var span := Interval(round, MAX_ROUNDS + 1);
      forall r | r in span ensures r in keys {
        RowsAbove(s, top, round, r);
      }
      SubsetSize(span, keys);
    }
  }

  lemma {:induction false} RowsAbove(s: Subdag, top: nat, low: nat, round: nat)
    requires Passes(s, top) && low in s && low <= round <= top
    ensures round in s
    decreases round
  {
    if low < round {
      RowsAbove(s, top, low, round - 1);
    }
  }

  lemma {:induction false} WithinExtends(s: Subdag, a: Certificate, y: Certificate, c: Certificate)
    requires LinkedWithin(s, a, y) && StepsWithin(s, y, c)
    ensures LinkedWithin(s, a, c)
    decreases a.round
  {
    if a == y {
      assert LinkedWithin(s, c, c);
    } else {
      var z :| StepsWithin(s, a, z) && LinkedWithin(s, z, y);
      WithinExtends(s, z, y, c);
    }
  }

  lemma {:induction false} WithinFrom(s: Subdag, a: Certificate, c: Certificate) returns (y: Certificate)
    requires LinkedWithin(s, a, c) && a != c
    ensures StepsWithin(s, y, c) && (y == a || y in RoundOf(s, y.round))
    decreases a.round
  {
    var z :| StepsWithin(s, a, z) && LinkedWithin(s, z, c);
    if z == c {
      y := a;
    } else {
      y := WithinFrom(s, z, c);
    }
  }

  /** A certificate alone in its even round, with nothing but its history below it, as far as the bound reaches. */
  ghost predicate Heads(s: Subdag, top: nat, anchor: Certificate) {
    && top % 2 == 0 && top in s && s[top] == [anchor]
    && forall c :: InSubdag(s, c) ==> c.round <= top && c.round + MAX_ROUNDS > top && LinkedWithin(s, anchor, c)
  }

  lemma {:induction false} PassedIsLinked(s: Subdag, top: nat, anchor: Certificate, c: Certificate)
    requires FiledByRound(s) && Passes(s, top) && s[top] == [anchor] && InSubdag(s, c)
    ensures LinkedWithin(s, anchor, c)
    decreases top - c.round
  {
    if c.round < top {
      assert AllReferenced(RoundOf(s, c.round), RoundOf(s, c.round + 1));
      var y :| y in RoundOf(s, c.round + 1) && c.id in y.previous;
      assert y.round == c.round + 1;
      PassedIsLinked(s, top, anchor, y);
      WithinExtends(s, anchor, y, c);
    } else {
      assert c == anchor;
    }
  }

  lemma HeadsReferenced(s: Subdag, top: nat, anchor: Certificate, r: nat)
    requires FiledByRound(s) && Heads(s, top, anchor) && r in s && r < top
    ensures r + 1 in s && AllReferenced(RoundOf(s, r), RoundOf(s, r + 1))
  {
    hide LinkedWithin;
    assert anchor in s[top];
    forall c | c in s[r] ensures r + 1 in s && exists y :: y in RoundOf(s, r + 1) && c.id in y.previous {
      assert InSubdag(s, c);
      var y := WithinFrom(s, anchor, c);
      assert y in RoundOf(s, r + 1);
    }
    assert s[r][0] in s[r];
  }

  lemma HeadsFit(s: Subdag, top: nat, anchor: Certificate)
    requires FiledByRound(s) && Heads(s, top, anchor)
    ensures |s| <= MAX_ROUNDS && forall r :: r in s ==> r <= top
  {
    hide LinkedWithin;
    forall r | r in s ensures r <= top && r + MAX_ROUNDS > top {
      assert InSubdag(s, s[r][0]);
    }
    var keys: set<nat> := s.Keys;
    assert |keys| == |s|;
    var low := if top < MAX_ROUNDS then 0 else top - (MAX_ROUNDS - 1);
    SubsetSize(keys, Interval(low, top + 1 - low));
  }

  /**
   What the checks on a subdag ask for, of whatever a peer may send: that one certificate of an even round heads it, that
   all else in it is history of that certificate within it, and that it spans no more rounds than allowed.
   */
  lemma PassesIffHeaded(s: Subdag, top: nat)
    requires FiledByRound(s)
    ensures Passes(s, top) <==> exists anchor :: Heads(s, top, anchor)
  {
    hide LinkedWithin;
    if Passes(s, top) {
      var anchor := s[top][0];
      assert s[top] == [anchor];
      forall c | InSubdag(s, c) ensures c.round <= top && c.round + MAX_ROUNDS > top && LinkedWithin(s, anchor, c) {
        RowsAreClose(s, top, c.round);
        PassedIsLinked(s, top, anchor, c);
      }
      assert Heads(s, top, anchor);
    }
    if anchor :| Heads(s, top, anchor) {
      HeadsFit(s, top, anchor);
      forall r | r in s && r < top ensures r + 1 in s && AllReferenced(RoundOf(s, r), RoundOf(s, r + 1)) {
        HeadsReferenced(s, top, anchor, r);
      }
    }
  }

  /** Whatever is in the block is in the history of its anchor. */
  lemma {:induction false} TakenIsHistory(u: Universe, b: Block, x: Certificate)
    requires Keyed(u) && IsPartOf(u, b.subdag) && Passes(b.subdag, b.anchor.round)
    requires b.subdag[b.anchor.round] == [b.anchor] && InSubdag(b.subdag, x)
    ensures Linked(u, b.anchor, x)
    decreases b.anchor.round - x.round
  {
    if x.round < b.anchor.round {
      assert x in RoundOf(b.subdag, x.round);
      var y :| y in RoundOf(b.subdag, x.round + 1) && x.id in y.previous;
      assert InSubdag(b.subdag, y) && Member(u, x);
      TakenIsHistory(u, b, y);
      LinkedExtends(u, b.anchor, y, x);
    }
  }

  lemma {:induction false} LinkedExtends(u: Universe, c: Certificate, y: Certificate, x: Certificate)
    requires Linked(u, c, y) && Member(u, x) && x.id in y.previous && x.round < y.round
    ensures Linked(u, c, x)
    decreases c.round
  {
    if c == y {
      assert Linked(u, u[x.id], x);
    } else {
      var i := NextOnPath(u, c, y);
      LinkedExtends(u, u[i], y, x);
    }
  }

  /** A certificate of the anchor's history that no block holds yet, above the cutoff of the search. */
  ghost predicate IsNew(u: Universe, past: Past, anchor: Certificate, c: Certificate) {
    Linked(u, anchor, c) && c.id !in past.done && AboveCutoff(past, c)
  }

  /** One of those that lies so far down that references to it are not looked up. */
  ghost predicate LiesDeep(u: Universe, past: Past, anchor: Certificate, c: Certificate) {
    IsNew(u, past, anchor, c) && c.round + MAX_ROUNDS <= anchor.round + 1
  }

  /** The block leaves out none of those, and none that was in a block when its subdag was checked and is in none now. */
  ghost predicate Complete(u: Universe, past: Past, x: Pending) {
    forall c :: IsNew(u, past, x.block.anchor, c) && (LiesDeep(u, past, x.block.anchor, c) || c.id in x.known) ==>
      InSubdag(x.block.subdag, c)
  }

  /** From a complete block, following references that are neither committed nor below the cutoff stays in the block. */
  lemma {:induction false} ReachedIsTaken(p: Protocol, u: Universe, past: Past, x: Pending, c: Certificate, y: Certificate)
    requires WellFormed(p, u) && SubdagChecked(p, u, x) && x.round == x.block.anchor.round && Complete(u, past, x)
    requires InSubdag(x.block.subdag, c) && Linked(u, x.block.anchor, c) && Reaches(u, past, c, y)
    ensures InSubdag(x.block.subdag, y)
    decreases c.round
  {
    hide CertificateValid, Passes, Atomic, Linked;
    if c != y {
      var i :| Follows(u, past, c, i) && Reaches(u, past, u[i], y);
      ParentInUniverse(p, u, c, i);
      LinkedExtends(u, x.block.anchor, c, u[i]);
      assert IsNew(u, past, x.block.anchor, u[i]);
      InIdsOf(u, x.block.subdag, i);
      ReachedIsTaken(p, u, past, x, u[i], y);
    }
  }

  /** What a block holds that no earlier one does. */
  ghost function NewIds(done: set<CertificateId>, s: Subdag): set<CertificateId> {
    IdsOf(s) - done
  }

  lemma InIdsOf(u: Universe, s: Subdag, i: CertificateId)
    requires Keyed(u) && IsPartOf(u, s)
    ensures i in IdsOf(s) <==> i in u && InSubdag(s, u[i])
  {
    if i in IdsOf(s) {
      var r, c :| r in s && c in s[r] && c.id == i;
      assert InSubdag(s, c);
    }
  }

  lemma AnchorIsTaken(p: Protocol, u: Universe, x: Pending)
    requires SubdagChecked(p, u, x) && Keyed(u)
    ensures var anchor := x.block.anchor; InSubdag(x.block.subdag, anchor) && Member(u, anchor) && anchor.round % 2 == 0
  {
    hide Atomic, LeavesKnown;
    assert x.block.anchor in x.block.subdag[x.block.anchor.round];
  }

  /** Whatever the block adds, the search would find. */
  lemma TakenIsFound(p: Protocol, u: Universe, past: Past, x: Pending, i: CertificateId)
    requires WellFormed(p, u) && SubdagChecked(p, u, x) && past.maxGcRounds + 1 >= MAX_ROUNDS && past.last < x.block.anchor.round
    requires PastValid(u, past) && i in NewIds(past.done, x.block.subdag)
    ensures i in u && Reaches(u, past, x.block.anchor, u[i])
  {
    hide CertificateValid, Passes, Linked, Reaches, DoneClosed, Atomic, LeavesKnown;
    var b := x.block;
    InIdsOf(u, b.subdag, i);
    AnchorIsTaken(p, u, x);
    TakenIsHistory(u, b, u[i]);
    RowsAreClose(b.subdag, b.anchor.round, u[i].round);
    ReachesIffHistory(u, past, b.anchor, u[i]);
  }

  /** Whatever the search would find, a complete block adds. */
  lemma FoundIsTaken(p: Protocol, u: Universe, past: Past, x: Pending, i: CertificateId)
    requires WellFormed(p, u) && SubdagChecked(p, u, x) && x.round == x.block.anchor.round && past.last < x.round
    requires PastValid(u, past) && Complete(u, past, x) && i in u && Reaches(u, past, x.block.anchor, u[i])
    ensures i in NewIds(past.done, x.block.subdag)
  {
    hide CertificateValid, Passes, Linked, Reaches, DoneClosed, Atomic, LeavesKnown, Complete;
    var b := x.block;
    InIdsOf(u, b.subdag, i);
    AnchorIsTaken(p, u, x);
    LinkedToItself(u, b.anchor);
    ReachedIsTaken(p, u, past, x, b.anchor, u[i]);
    ReachesIffHistory(u, past, b.anchor, u[i]);
  }

  lemma LinkedToItself(u: Universe, c: Certificate)
    ensures Linked(u, c, c)
  {
  }

  lemma NewIsReached(p: Protocol, u: Universe, past: Past, anchor: Certificate, c: Certificate)
    requires WellFormed(p, u) && Member(u, anchor) && DoneClosed(u, past) && IsNew(u, past, anchor, c)
    ensures Member(u, c) && Reaches(u, past, anchor, c)
  {
    hide CertificateValid, Linked, Reaches, DoneClosed;
    ReachesIffHistory(u, past, anchor, c);
    ReachesMember(u, past, anchor, c);
  }

  /**
   A block that passes the checks adds what the search would find just when it is complete. Its subdag may have been
   checked on top of other blocks than it is taken.
   */
  lemma TakenIsFoundIff(p: Protocol, u: Universe, before: seq<Block>, x: Pending)
    requires WellFormed(p, u) && SubdagChecked(p, u, x) && Authorized(p, LastRound(AnchorsOf(before)), x)
    requires PastValid(u, PastOf(before, p.maxGcRounds)) && p.maxGcRounds + 1 >= MAX_ROUNDS
    ensures NewIds(DoneIds(before), x.block.subdag) == IdsOf(SubdagOf(u, before, p.maxGcRounds, x.block.anchor)) <==>
            Complete(u, PastOf(before, p.maxGcRounds), x)
  {
    var past, b := PastOf(before, p.maxGcRounds), x.block;
    var found := SubdagOf(u, before, p.maxGcRounds, b.anchor);
    IsKeyed(p, u);
    AnchorIsTaken(p, u, x);
    OrderDagIsExact(p, u, past, b.anchor);
    assert IsPartOf(u, b.subdag) && past.last < b.anchor.round && x.round == b.anchor.round;
    hide WellFormed, SubdagChecked, Authorized, OrderDag, IsNew, LiesDeep, Reaches, PastValid, IsPartOf;
    forall i ensures i in IdsOf(found) <==> i in u && Reaches(u, past, b.anchor, u[i]) {
      IdsOfExact(u, past, b.anchor, found, i);
    }
    if Complete(u, past, x) {
      forall i ensures i in NewIds(past.done, b.subdag) <==> i in IdsOf(found) {
        if i in NewIds(past.done, b.subdag) {
          TakenIsFound(p, u, past, x, i);
        }
        if i in IdsOf(found) {
          FoundIsTaken(p, u, past, x, i);
        }
      }
    }
    if NewIds(past.done, b.subdag) == IdsOf(found) {
      forall c | IsNew(u, past, b.anchor, c) ensures InSubdag(b.subdag, c) {
        assert DoneClosed(u, past) by { ValidIsClosed(u, past); }
        NewIsReached(p, u, past, b.anchor, c);
        assert c.id in NewIds(past.done, b.subdag);
        InIdsOf(u, b.subdag, c.id);
      }
    }
  }

  lemma ValidIsClosed(u: Universe, past: Past)
    requires PastValid(u, past)
    ensures DoneClosed(u, past)
  {
  }

  /** The block without its rows 99 or more rounds below the anchor. */
  ghost function Truncated(b: Block): Block {
    Block(b.anchor, map r | r in b.subdag && r + MAX_ROUNDS > b.anchor.round + 1 :: b.subdag[r])
  }

  /** From the second block on, the rows that are cut off lie below the last anchor. */
  lemma LastIsClose(p: Protocol, u: Universe, before: seq<Block>, b: Block)
    requires Checked(p, u, before, b) && LastRound(AnchorsOf(before)) != 0 && LastRound(AnchorsOf(before)) % 2 == 0
    ensures b.anchor.round + 2 <= LastRound(AnchorsOf(before)) + MAX_ROUNDS
  {
    hide Atomic, LeavesKnown, IsPartOf, AnchorsOf, DoneIds;
    RowsAreClose(b.subdag, b.anchor.round, LastRound(AnchorsOf(before)));
  }

  lemma TruncatedPasses(b: Block)
    requires Passes(b.subdag, b.anchor.round)
    ensures Passes(Truncated(b).subdag, b.anchor.round)
    ensures Truncated(b).subdag[b.anchor.round] == b.subdag[b.anchor.round]
  {
    hide AllReferenced;
    var s, t := b.subdag, Truncated(b).subdag;
    var all: set<nat>, kept: set<nat> := s.Keys, t.Keys;
    assert |all| == |s| && |kept| == |t|;
    SubsetSize(kept, all);
    forall r | r in t && r < b.anchor.round ensures r + 1 in t && AllReferenced(RoundOf(t, r), RoundOf(t, r + 1)) {
      assert RoundOf(t, r) == RoundOf(s, r) && RoundOf(t, r + 1) == RoundOf(s, r + 1);
    }
  }

  lemma {:induction false} TruncatedLinks(b: Block, c: Certificate, l: Certificate)
    requires LinkedWithin(Truncated(b).subdag, c, l)
    ensures LinkedWithin(b.subdag, c, l)
    decreases c.round
  {
    if c != l {
      var y :| StepsWithin(Truncated(b).subdag, c, y) && LinkedWithin(Truncated(b).subdag, y, l);
      TruncatedLinks(b, y, l);
      assert StepsWithin(b.subdag, c, y);
    }
  }

  /** The checks let a block through that leaves out its deepest row. */
  lemma TruncatedIsChecked(p: Protocol, u: Universe, before: seq<Block>, b: Block)
    requires WellFormed(p, u) && Checked(p, u, before, b) && LastRound(AnchorsOf(before)) % 2 == 0
    ensures Checked(p, u, before, Truncated(b))
  {
    var last, t := LastRound(AnchorsOf(before)), Truncated(b);
    hide CertificateValid, Passes, AnchorsOf, DoneIds, LinkedWithin;
    TruncatedPasses(b);
    if last != 0 {
      LastIsClose(p, u, before, b);
    }
    forall l | InSubdag(t.subdag, l) && LeadsBetween(p, last, l, b.anchor.round)
      ensures !LinkedWithin(t.subdag, b.anchor, l)
    {
      if LinkedWithin(t.subdag, b.anchor, l) {
        TruncatedLinks(b, b.anchor, l);
      }
    }
    TruncatedLeaves(p, u, OnTopOf(before, b));
  }

  lemma TruncatedLeaves(p: Protocol, u: Universe, x: Pending)
    requires WellFormed(p, u) && IsPartOf(u, x.block.subdag) && LeavesKnown(x) && x.round == x.block.anchor.round
    ensures LeavesKnown(x.(block := Truncated(x.block)))
  {
    hide CertificateValid;
    var b, t := x.block, Truncated(x.block);
    forall c, i | InSubdag(t.subdag, c) && i in c.previous && c.round + MAX_ROUNDS > b.anchor.round + 2
      ensures i in IdsOf(t.subdag) || i in x.known
    {
      assert InSubdag(b.subdag, c);
      ParentInUniverse(p, u, c, i);
      if i in IdsOf(b.subdag) {
        InIdsOf(u, b.subdag, i);
        assert u[i] in t.subdag[u[i].round];
      }
    }
  }

  /**
   Exactly when the checks determine what a block adds: just when nothing of the anchor's history that is new and
   recent lies 99 or more rounds below the anchor.
   */
  lemma ChecksDetermineIff(p: Protocol, u: Universe, before: seq<Block>, b: Block)
    requires WellFormed(p, u) && Checked(p, u, before, b) && LastRound(AnchorsOf(before)) % 2 == 0
    requires PastValid(u, PastOf(before, p.maxGcRounds)) && p.maxGcRounds + 1 >= MAX_ROUNDS
    ensures (forall other :: Checked(p, u, before, other) && other.anchor == b.anchor ==>
               NewIds(DoneIds(before), other.subdag) == IdsOf(SubdagOf(u, before, p.maxGcRounds, b.anchor))) <==>
            !exists c :: LiesDeep(u, PastOf(before, p.maxGcRounds), b.anchor, c)
  {
    hide WellFormed, Checked, IsNew, SubdagOf, NewIds, PastValid, DoneIds, AnchorsOf, SubdagChecked, Authorized, InSubdag;
    var past := PastOf(before, p.maxGcRounds);
    IsKeyed(p, u);
    if !exists c :: LiesDeep(u, past, b.anchor, c) {
      forall other | Checked(p, u, before, other) && other.anchor == b.anchor
        ensures NewIds(DoneIds(before), other.subdag) == IdsOf(SubdagOf(u, before, p.maxGcRounds, b.anchor))
      {
        CheckedIs(p, u, before, other);
        TakenIsFoundIff(p, u, before, OnTopOf(before, other));
        assert Complete(u, past, OnTopOf(before, other)) by { NewIsNotDone(u, past, b.anchor); }
      }
    } else {
      var c :| LiesDeep(u, past, b.anchor, c);
      TruncatedIsChecked(p, u, before, b);
      CheckedIs(p, u, before, Truncated(b));
      TakenIsFoundIff(p, u, before, OnTopOf(before, Truncated(b)));
      assert !InSubdag(Truncated(b).subdag, c) by { DeepIsCutOff(u, past, b, c); }
      assert !Complete(u, past, OnTopOf(before, Truncated(b)));
    }
  }

  lemma CheckedIs(p: Protocol, u: Universe, before: seq<Block>, b: Block)
    requires Checked(p, u, before, b)
    ensures var x := OnTopOf(before, b); SubdagChecked(p, u, x) && Authorized(p, LastRound(AnchorsOf(before)), x)
  {
  }

  lemma NewIsNotDone(u: Universe, past: Past, anchor: Certificate)
    ensures forall c :: IsNew(u, past, anchor, c) ==> c.id !in past.done
  {
  }

  lemma DeepIsCutOff(u: Universe, past: Past, b: Block, c: Certificate)
    requires LiesDeep(u, past, b.anchor, c)
    ensures !InSubdag(Truncated(b).subdag, c)
  {
  }

  /** The same certificates in every row, in whatever order. */
  ghost predicate SameRows(s: Subdag, t: Subdag) {
    && s.Keys == t.Keys
    && forall r :: r in s ==> |s[r]| == |t[r]| && NoDuplicates(t[r]) && forall c :: c in s[r] <==> c in t[r]
  }

  /** The order of a row is not checked: any other order passes as well. */
  lemma OrderIsNotChecked(p: Protocol, u: Universe, before: seq<Block>, b: Block, other: Block)
    requires Checked(p, u, before, b) && other.anchor == b.anchor && SameRows(b.subdag, other.subdag)
    ensures Checked(p, u, before, other)
  {
    var s, t := b.subdag, other.subdag;
    hide AnchorsOf, DoneIds, LinkedWithin, LeadsBetween;
    assert forall c :: InSubdag(s, c) <==> InSubdag(t, c);
    assert Passes(t, b.anchor.round) by { ReorderedPasses(s, t, b.anchor.round); }
    assert t[b.anchor.round] == [b.anchor] by { assert b.anchor in s[b.anchor.round]; }
    assert IsPartOf(u, t) by { ReorderedIsFiled(s, t); }
    assert IdsOf(s) == IdsOf(t);
    forall l | LinkedWithin(t, b.anchor, l) ensures LinkedWithin(s, b.anchor, l) {
      ReorderedLinks(s, t, b.anchor, l);
    }
  }

  lemma ReorderedIsFiled(s: Subdag, t: Subdag)
    requires FiledByRound(s) && SameRows(s, t)
    ensures FiledByRound(t)
  {
  }

  lemma ReorderedPasses(s: Subdag, t: Subdag, top: nat)
    requires Passes(s, top) && SameRows(s, t)
    ensures Passes(t, top)
  {
    assert |s| == |s.Keys| && |t| == |t.Keys|;
    forall r | r in t && r < top ensures AllReferenced(RoundOf(t, r), RoundOf(t, r + 1)) {
      assert AllReferenced(RoundOf(s, r), RoundOf(s, r + 1));
      forall c | c in RoundOf(t, r) ensures exists y :: y in RoundOf(t, r + 1) && c.id in y.previous {
        var y :| y in RoundOf(s, r + 1) && c.id in y.previous;
        assert y in RoundOf(t, r + 1);
      }
    }
  }

  lemma {:induction false} ReorderedLinks(s: Subdag, t: Subdag, c: Certificate, l: Certificate)
    requires SameRows(s, t) && LinkedWithin(t, c, l)
    ensures LinkedWithin(s, c, l)
    decreases c.round
  {
    if c != l {
      var y :| StepsWithin(t, c, y) && LinkedWithin(t, y, l);
      ReorderedLinks(s, t, y, l);
      assert StepsWithin(s, c, y);
    }
  }
}
