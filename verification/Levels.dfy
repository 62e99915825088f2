/**
 The order of a subdag, independently of the stack that the search works with: the leader is a level of its own, and
 each level below lists what the one above references, from left to right, each certificate where it is first
 referenced. The search goes depth first, and yields just these levels.
 */
module Levels {
  import opened Types
  import opened Committees
  import opened CertificateGraph
  import opened Dags
  import opened Ordering
  import opened Subdags

  /** The first `k` references of a certificate that are followed, in their order. */
  ghost function Followed(u: Universe, past: Past, c: Certificate, k: nat): seq<Certificate>
    requires k <= |c.previous|
  {
    if k == 0 then []
    else
      var i := c.previous[k - 1];
      Followed(u, past, c, k - 1) + if Follows(u, past, c, i) then [u[i]] else []
  }

  /** What a row of certificates references, one certificate after the other. */
  ghost function Referenced(u: Universe, past: Past, row: seq<Certificate>): seq<Certificate> {
    if row == [] then []
    else
      var c := row[|row| - 1];
      Referenced(u, past, row[..|row| - 1]) + Followed(u, past, c, |c.previous|)
  }

  /** Each element where it first occurs. */
  ghost function Firsts(s: seq<Certificate>): seq<Certificate> {
    if s == [] then []
    else
      var n := |s| - 1;
      var firsts := Firsts(s[..n]);
      if s[n] in firsts then firsts else firsts + [s[n]]
  }

  /** The level below a row. */
  ghost function Below(u: Universe, past: Past, row: seq<Certificate>): seq<Certificate> {
    Firsts(Referenced(u, past, row))
  }

  ghost function Level(u: Universe, past: Past, leader: Certificate, round: nat): seq<Certificate>
    decreases leader.round - round
  {
    if round > leader.round then []
    else if round == leader.round then [leader]
    else Below(u, past, Level(u, past, leader, round + 1))
  }

  /* One more row. */

  /** Of the first `k` references that are followed, those that are not among `seen`. */
  ghost function Fresh(u: Universe, past: Past, c: Certificate, k: nat, seen: seq<Certificate>): seq<Certificate>
    requires k <= |c.previous|
  {
    if k == 0 then []
    else
      var i := c.previous[k - 1];
      Fresh(u, past, c, k - 1, seen) + if Follows(u, past, c, i) && u[i] !in seen then [u[i]] else []
  }

  lemma {:induction false} FollowedIs(u: Universe, past: Past, c: Certificate, k: nat, x: Certificate)
    requires k <= |c.previous| && Keyed(u) && x in Followed(u, past, c, k)
    ensures x.id in c.previous[..k] && Follows(u, past, c, x.id) && u[x.id] == x
  {
    if k > 0 {
      assert c.previous[..k] == c.previous[..k - 1] + [c.previous[k - 1]];
      if x in Followed(u, past, c, k - 1) {
        FollowedIs(u, past, c, k - 1, x);
      }
    }
  }

  lemma OneMore(s: seq<Certificate>, x: Certificate)
    ensures Firsts(s + [x]) == if x in Firsts(s) then Firsts(s) else Firsts(s) + [x]
  {
    assert (s + [x])[..|s|] == s;
  }

  lemma {:induction false} FirstsExtend(u: Universe, past: Past, s: seq<Certificate>, c: Certificate, k: nat)
    requires k <= |c.previous| && Keyed(u) && NoDuplicates(c.previous)
    ensures Firsts(s + Followed(u, past, c, k)) == Firsts(s) + Fresh(u, past, c, k, Firsts(s))
  {
    hide Firsts;
    if k == 0 {
      assert s + [] == s;
    } else {
      FirstsExtend(u, past, s, c, k - 1);
      var i, before := c.previous[k - 1], s + Followed(u, past, c, k - 1);
      if Follows(u, past, c, i) {
        assert s + Followed(u, past, c, k) == before + [u[i]];
        OneMore(before, u[i]);
        NotFreshTwice(u, past, c, k, Firsts(s));
      } else {
        assert s + Followed(u, past, c, k) == before;
      }
    }
  }

  lemma {:induction false} FreshIsFollowed(u: Universe, past: Past, c: Certificate, k: nat, seen: seq<Certificate>, x: Certificate)
    requires k <= |c.previous|
    ensures x in Fresh(u, past, c, k, seen) ==> x in Followed(u, past, c, k)
  {
    if k > 0 {
      FreshIsFollowed(u, past, c, k - 1, seen, x);
    }
  }

  lemma NotFreshTwice(u: Universe, past: Past, c: Certificate, k: nat, seen: seq<Certificate>)
    requires 0 < k <= |c.previous| && Keyed(u) && NoDuplicates(c.previous) && Follows(u, past, c, c.previous[k - 1])
    ensures u[c.previous[k - 1]] !in Fresh(u, past, c, k - 1, seen)
  {
    var x := u[c.previous[k - 1]];
    if x in Fresh(u, past, c, k - 1, seen) {
      FreshIsFollowed(u, past, c, k - 1, seen, x);
      FollowedIs(u, past, c, k - 1, x);
    }
  }

  /** A row that is one certificate longer has, below it, what that one adds. */
  lemma BelowExtends(u: Universe, past: Past, row: seq<Certificate>, c: Certificate)
    requires Keyed(u) && NoDuplicates(c.previous)
    ensures Below(u, past, row + [c]) == Below(u, past, row) + Fresh(u, past, c, |c.previous|, Below(u, past, row))
  {
    assert (row + [c])[..|row|] == row;
    FirstsExtend(u, past, Referenced(u, past, row), c, |c.previous|);
  }

  /* The stack. */

  /** What is on the stack of a round, from the top down. */
  ghost function Stacked(buffer: seq<Certificate>, round: nat): seq<Certificate> {
    if buffer == [] then []
    else
      var n := |buffer| - 1;
      (if buffer[n].round == round then [buffer[n]] else []) + Stacked(buffer[..n], round)
  }

  ghost function Reversed(s: seq<Certificate>): seq<Certificate> {
    if s == [] then [] else [s[|s| - 1]] + Reversed(s[..|s| - 1])
  }

  /** Certificates of one round that are pushed last to first come off first to last. */
  lemma {:induction false} StackedAfterPush(buffer: seq<Certificate>, pushed: seq<Certificate>, at: nat, round: nat)
    requires forall x :: x in pushed ==> x.round == at
    ensures Stacked(buffer + Reversed(pushed), round) == (if round == at then pushed else []) + Stacked(buffer, round)
    decreases |pushed|
  {
    if pushed == [] {
      assert buffer + Reversed(pushed) == buffer;
    } else {
      var n := |pushed| - 1;
      var last := pushed[n];
      assert pushed == pushed[..n] + [last];
      StackedAfterPush(buffer + [last], pushed[..n], at, round);
      assert buffer + Reversed(pushed) == (buffer + [last]) + Reversed(pushed[..n]);
      assert (buffer + [last])[..|buffer|] == buffer;
    }
  }

  /** Rounds fall from the bottom of the stack to the top. */
  ghost predicate Falling(buffer: seq<Certificate>) {
    forall i, j :: 0 <= i < j < |buffer| ==> buffer[i].round >= buffer[j].round
  }

  lemma {:induction false} NothingStacked(buffer: seq<Certificate>, round: nat)
    requires forall x :: x in buffer ==> x.round > round
    ensures Stacked(buffer, round) == []
    decreases |buffer|
  {
    if buffer != [] {
      var n := |buffer| - 1;
      assert buffer[n] in buffer;
      NothingStacked(buffer[..n], round);
    }
  }

  /* The search. */

  /**
   Of each round, what is ordered and then what is on the stack is the level below what is ordered of the round above.
   */
  ghost predicate ByLevel(u: Universe, past: Past, leader: Certificate, s: Search) {
    && Falling(s.buffer)
    && forall r: nat :: r < leader.round ==>
         RoundOf(s.commit, r) + Stacked(s.buffer, r) == Below(u, past, RoundOf(s.commit, r + 1))
  }

  /** What becomes of one reference, with all certificates at hand. */
  lemma ExpandOne(p: Protocol, u: Universe, past: Past, c: Certificate, k: nat, s: Search)
    requires WellFormed(p, u) && Member(u, c) && 0 < k <= |c.previous| && !BelowCutoff(UniverseEnv(u, past), c)
    ensures var env, i := UniverseEnv(u, past), c.previous[k - 1];
            && i in u && u[i].round + 1 == c.round && (Follows(u, past, c, i) <==> i !in past.done)
            && Expand(env, c, k, s) == Expand(env, c, k - 1, if i in s.ordered || i in past.done then s else Pushed(u, s, i))
  {
    var i := c.previous[k - 1];
    ParentInUniverse(p, u, c, i);
    UniverseLookup(u, past, PreviousRound(c), i);
    hide WellFormed, Lookup, AlreadyCommitted;
  }

  lemma ReversedOneMore(s: seq<Certificate>, x: Certificate)
    ensures Reversed(s + [x]) == [x] + Reversed(s)
  {
    assert (s + [x])[..|s|] == s;
  }

  /** The references of one certificate come on the stack last to first, but for those marked already. */
  lemma {:induction false} ExpandPushes(p: Protocol, u: Universe, past: Past, c: Certificate, k: nat, s: Search, seen: seq<Certificate>)
    requires WellFormed(p, u) && Member(u, c) && k <= |c.previous| && !BelowCutoff(UniverseEnv(u, past), c)
    requires NoDuplicates(c.previous)
    requires forall j :: 0 <= j < k && Follows(u, past, c, c.previous[j]) ==>
               (c.previous[j] in s.ordered <==> u[c.previous[j]] in seen)
    ensures var r := Expand(UniverseEnv(u, past), c, k, s);
            r.Ok? && r.value.buffer == s.buffer + Reversed(Fresh(u, past, c, k, seen))
    decreases k
  {
    hide WellFormed, Follows, BelowCutoff, Reversed;
    if k == 0 {
      assert s.buffer + Reversed([]) == s.buffer by { NothingReversed(); }
    } else {
      hide Expand;
      var i, rest := c.previous[k - 1], Fresh(u, past, c, k - 1, seen);
      ExpandOne(p, u, past, c, k, s);
      if i in s.ordered || i in past.done {
        ExpandPushes(p, u, past, c, k - 1, s, seen);
        assert Fresh(u, past, c, k, seen) == rest;
      } else {
        ExpandPushes(p, u, past, c, k - 1, Pushed(u, s, i), seen);
        assert Fresh(u, past, c, k, seen) == rest + [u[i]];
        ReversedOneMore(rest, u[i]);
      }
    }
  }

  lemma NothingReversed()
    ensures Reversed([]) == []
  {
  }

  /** On the stack nothing is of a round below that of its top. */
  lemma TopIsLowest(buffer: seq<Certificate>, x: Certificate)
    requires Falling(buffer) && x in buffer
    ensures x.round >= buffer[|buffer| - 1].round
  {
    var i :| 0 <= i < |buffer| && buffer[i] == x;
  }

  /** What is marked of the round below the top of the stack is ordered. */
  lemma MarkedIsOrdered(u: Universe, past: Past, leader: Certificate, s: Search, i: CertificateId)
    requires Keyed(u) && SearchShape(u, past, leader, s) && Falling(s.buffer) && s.buffer != [] && i in u
    requires u[i].round < s.buffer[|s.buffer| - 1].round <= leader.round
    ensures i in s.ordered <==> u[i] in RoundOf(s.commit, u[i].round)
  {
    hide Reaches, NoDuplicates;
    if i in s.ordered {
      assert Collected(s, u[i]);
      if u[i] in s.buffer {
        TopIsLowest(s.buffer, u[i]);
      }
    }
    if u[i] in RoundOf(s.commit, u[i].round) {
      assert InSubdag(s.commit, u[i]) && Collected(s, u[i]);
    }
  }

  /** What one step makes of a search: the top of the stack is ordered, and what it references comes on the stack. */
  ghost predicate StepsTo(u: Universe, past: Past, s: Search, c: Certificate, next: Search) {
    && s.buffer != [] && c == s.buffer[|s.buffer| - 1] && Member(u, c) && c.round >= 1 && NoDuplicates(c.previous)
    && !InSubdag(s.commit, c) && next.commit == Popped(s).commit
    && next.buffer == Popped(s).buffer + Reversed(Fresh(u, past, c, |c.previous|, RoundOf(s.commit, c.round - 1)))
  }

  lemma TopIsMember(p: Protocol, u: Universe, past: Past, leader: Certificate, s: Search, c: Certificate)
    requires WellFormed(p, u) && s.buffer != [] && SearchShape(u, past, leader, s) && c == s.buffer[|s.buffer| - 1]
    ensures c.round <= leader.round && Member(u, c) && c.round >= 1 && NoDuplicates(c.previous) && !InSubdag(s.commit, c)
  {
    assert Collected(s, c) && CertificateValid(p, u, c);
    hide FiledByRound;
    ReachesLower(u, past, leader, c);
  }

  lemma MarkedBelow(p: Protocol, u: Universe, past: Past, leader: Certificate, s: Search, c: Certificate)
    requires WellFormed(p, u) && s.buffer != [] && SearchShape(u, past, leader, s) && Falling(s.buffer)
    requires c == s.buffer[|s.buffer| - 1] && Member(u, c) && 1 <= c.round <= leader.round
    ensures forall j :: 0 <= j < |c.previous| ==>
              c.previous[j] in u && (c.previous[j] in s.ordered <==> u[c.previous[j]] in RoundOf(s.commit, c.round - 1))
  {
    hide WellFormed, SearchShape, Falling, RoundOf;
    IsKeyed(p, u);
    forall j | 0 <= j < |c.previous|
      ensures c.previous[j] in u && (c.previous[j] in s.ordered <==> u[c.previous[j]] in RoundOf(s.commit, c.round - 1))
    {
      ParentInUniverse(p, u, c, c.previous[j]);
      MarkedIsOrdered(u, past, leader, s, c.previous[j]);
    }
  }

  lemma StepPushes(p: Protocol, u: Universe, past: Past, leader: Certificate, s: Search, c: Certificate)
    requires WellFormed(p, u) && s.buffer != [] && SearchShape(u, past, leader, s) && Falling(s.buffer)
    requires c == s.buffer[|s.buffer| - 1]
    ensures var r := Step(UniverseEnv(u, past), s); r.Ok? && StepsTo(u, past, s, c, r.value)
  {
    hide WellFormed, SearchShape, Reversed, Falling, Expand, Follows, AddToRound, InSubdag, RoundOf, NoDuplicates;
    TopIsMember(p, u, past, leader, s, c);
    var popped, row := Popped(s), RoundOf(s.commit, c.round - 1);
    MarkedBelow(p, u, past, leader, s, c);
    if BelowCutoff(UniverseEnv(u, past), c) {
      NothingFollowed(p, u, past, c, |c.previous|, row);
      NothingReversed();
    } else {
      ExpandPushes(p, u, past, c, |c.previous|, popped, row);
    }
  }

  lemma {:induction false} NothingFollowed(p: Protocol, u: Universe, past: Past, c: Certificate, k: nat, seen: seq<Certificate>)
    requires WellFormed(p, u) && Member(u, c) && k <= |c.previous| && BelowCutoff(UniverseEnv(u, past), c)
    ensures Fresh(u, past, c, k, seen) == []
  {
    if k > 0 {
      NothingFollowed(p, u, past, c, k - 1, seen);
      ParentInUniverse(p, u, c, c.previous[k - 1]);
    }
  }

  lemma {:induction false} FreshIsLower(p: Protocol, u: Universe, past: Past, c: Certificate, k: nat, seen: seq<Certificate>)
    requires WellFormed(p, u) && Member(u, c) && k <= |c.previous|
    ensures forall x :: x in Fresh(u, past, c, k, seen) ==> x.round + 1 == c.round
  {
    hide WellFormed;
    if k > 0 {
      FreshIsLower(p, u, past, c, k - 1, seen);
      ParentInUniverse(p, u, c, c.previous[k - 1]);
    }
  }

  lemma {:induction false} InReversed(s: seq<Certificate>, x: Certificate)
    ensures x in Reversed(s) <==> x in s
  {
    if s != [] {
      var n := |s| - 1;
      InReversed(s[..n], x);
      assert s == s[..n] + [s[n]];
    }
  }

  lemma PushKeepsFalling(buffer: seq<Certificate>, pushed: seq<Certificate>, at: nat)
    requires Falling(buffer) && (forall x :: x in buffer ==> x.round > at) && forall x :: x in pushed ==> x.round == at
    ensures Falling(buffer + Reversed(pushed))
  {
    hide Reversed;
    var s := buffer + Reversed(pushed);
    forall i | 0 <= i < |s| ensures if i < |buffer| then s[i] == buffer[i] && s[i].round > at else s[i].round == at {
      if i >= |buffer| {
        assert s[i] in Reversed(pushed);
        InReversed(pushed, s[i]);
      }
    }
  }

  /** What is taken off the stack. */
  lemma PopStacked(s: Search, round: nat)
    requires s.buffer != []
    ensures var c := s.buffer[|s.buffer| - 1];
            Stacked(s.buffer, round) == (if c.round == round then [c] else []) + Stacked(Popped(s).buffer, round)
  {
  }

  lemma PopRows(s: Search, round: nat)
    requires s.buffer != [] && !InSubdag(s.commit, s.buffer[|s.buffer| - 1])
    ensures var c := s.buffer[|s.buffer| - 1];
            RoundOf(Popped(s).commit, round) == if round == c.round then RoundOf(s.commit, round) + [c] else RoundOf(s.commit, round)
  {
  }

  lemma NothingLower(s: Search, r: nat)
    requires s.buffer != [] && Falling(s.buffer) && r < s.buffer[|s.buffer| - 1].round
    ensures Stacked(Popped(s).buffer, r) == [] && Falling(Popped(s).buffer)
    ensures forall x :: x in Popped(s).buffer ==> x.round > r
  {
    hide Stacked;
    var b := Popped(s).buffer;
    forall x | x in b ensures x.round > r {
      TopIsLowest(s.buffer, x);
    }
    NothingStacked(b, r);
  }

  lemma StepRow(u: Universe, past: Past, s: Search, c: Certificate, next: Search, round: nat)
    requires StepsTo(u, past, s, c, next)
    ensures RoundOf(next.commit, round) == if round == c.round then RoundOf(s.commit, round) + [c] else RoundOf(s.commit, round)
    ensures s.buffer != [] && c == s.buffer[|s.buffer| - 1] && NoDuplicates(c.previous)
  {
    hide Fresh, Reversed;
    PopRows(s, round);
  }

  lemma StackAfterStep(p: Protocol, u: Universe, past: Past, s: Search, c: Certificate, next: Search, r: nat)
    requires WellFormed(p, u) && StepsTo(u, past, s, c, next)
    ensures Stacked(next.buffer, r) ==
            (if r + 1 == c.round then Fresh(u, past, c, |c.previous|, RoundOf(s.commit, r)) else []) + Stacked(Popped(s).buffer, r)
  {
    hide WellFormed, Reversed, Stacked, Fresh, RoundOf, InSubdag, NoDuplicates, Popped;
    var above := RoundOf(s.commit, c.round - 1);
    FreshIsLower(p, u, past, c, |c.previous|, above);
    StackedAfterPush(Popped(s).buffer, Fresh(u, past, c, |c.previous|, above), c.round - 1, r);
  }

  /** What is ordered and what is on the stack of a round after one step, put together. */
  lemma RowAfterStep(p: Protocol, u: Universe, past: Past, s: Search, c: Certificate, next: Search, r: nat)
    requires WellFormed(p, u) && StepsTo(u, past, s, c, next) && Falling(s.buffer)
    ensures var row := RoundOf(s.commit, r);
            RoundOf(next.commit, r) + Stacked(next.buffer, r) ==
              if r + 1 == c.round then row + Fresh(u, past, c, |c.previous|, row) else row + Stacked(s.buffer, r)
    ensures r + 1 == c.round ==> Stacked(s.buffer, r) == []
  {
    hide WellFormed, StepsTo, Stacked, Falling, Fresh, RoundOf, Popped;
    StepRow(u, past, s, c, next, r);
    StackAfterStep(p, u, past, s, c, next, r);
    PopStacked(s, r);
    var row, rest := RoundOf(s.commit, r), Stacked(Popped(s).buffer, r);
    if r == c.round {
      assert row + ([c] + rest) == (row + [c]) + rest;
    } else if r + 1 == c.round {
      NothingLower(s, r);
    }
  }

  lemma RowBelow(u: Universe, past: Past, leader: Certificate, s: Search, r: nat)
    requires ByLevel(u, past, leader, s) && r < leader.round
    ensures Falling(s.buffer)
    ensures RoundOf(s.commit, r) + Stacked(s.buffer, r) == Below(u, past, RoundOf(s.commit, r + 1))
  {
  }

  lemma LevelAfterStep(p: Protocol, u: Universe, past: Past, leader: Certificate, s: Search, c: Certificate, next: Search, r: nat)
    requires WellFormed(p, u) && StepsTo(u, past, s, c, next) && ByLevel(u, past, leader, s) && r < leader.round
    ensures RoundOf(next.commit, r) + Stacked(next.buffer, r) == Below(u, past, RoundOf(next.commit, r + 1))
  {
    hide WellFormed, StepsTo, ByLevel, Below, Stacked, Falling, Fresh, RoundOf;
    RowBelow(u, past, leader, s, r);
    RowAfterStep(p, u, past, s, c, next, r);
    StepRow(u, past, s, c, next, r + 1);
    var row := RoundOf(s.commit, r);
    if r + 1 == c.round {
      assert row + [] == row;
      IsKeyed(p, u);
      BelowExtends(u, past, RoundOf(s.commit, c.round), c);
    }
  }

  lemma StepKeepsFalling(p: Protocol, u: Universe, past: Past, s: Search, c: Certificate, next: Search)
    requires WellFormed(p, u) && StepsTo(u, past, s, c, next) && Falling(s.buffer)
    ensures Falling(next.buffer)
  {
    hide WellFormed, Reversed, Stacked, Falling, NoDuplicates, InSubdag, RoundOf;
    var below := RoundOf(s.commit, c.round - 1);
    FreshIsLower(p, u, past, c, |c.previous|, below);
    NothingLower(s, c.round - 1);
    PushKeepsFalling(Popped(s).buffer, Fresh(u, past, c, |c.previous|, below), c.round - 1);
  }

  lemma StepByLevel(p: Protocol, u: Universe, past: Past, leader: Certificate, s: Search)
    requires WellFormed(p, u) && s.buffer != [] && SearchShape(u, past, leader, s) && ByLevel(u, past, leader, s)
    ensures var r := Step(UniverseEnv(u, past), s); r.Ok? && ByLevel(u, past, leader, r.value)
  {
    hide WellFormed, SearchShape, Step, Below, Stacked, RoundOf, StepsTo, Falling;
    var c := s.buffer[|s.buffer| - 1];
    IsKeyed(p, u);
    StepPushes(p, u, past, leader, s, c);
    var next := Step(UniverseEnv(u, past), s).value;
    StepKeepsFalling(p, u, past, s, c, next);
    forall r: nat | r < leader.round
      ensures RoundOf(next.commit, r) + Stacked(next.buffer, r) == Below(u, past, RoundOf(next.commit, r + 1))
    {
      LevelAfterStep(p, u, past, leader, s, c, next, r);
    }
  }

  lemma StartByLevel(u: Universe, past: Past, leader: Certificate)
    ensures ByLevel(u, past, leader, Start(leader))
  {
  }

  lemma {:induction false} RunByLevel(p: Protocol, u: Universe, past: Past, leader: Certificate, s: Search, any: Certificate, r: nat)
    requires WellFormed(p, u) && r < leader.round && ByLevel(u, past, leader, s)
    requires SearchShape(u, past, leader, s) && SearchClosed(u, past, s, any, 0)
    ensures var m := Run(UniverseEnv(u, past), s); m.Ok? && RoundOf(m.value, r) == Below(u, past, RoundOf(m.value, r + 1))
    decreases KnownIds(UniverseEnv(u, past)) - s.ordered, |s.buffer|
  {
    hide SearchShape, SearchClosed, Step, CertificateValid, KnownIds, Below;
    if s.buffer == [] {
      assert RoundOf(s.commit, r) + Stacked(s.buffer, r) == RoundOf(s.commit, r);
    } else {
      hide ByLevel;
      StepInv(p, u, past, leader, s, any);
      StepByLevel(p, u, past, leader, s);
      StepProgress(UniverseEnv(u, past), s);
      RunByLevel(p, u, past, leader, Step(UniverseEnv(u, past), s).value, s.buffer[|s.buffer| - 1], r);
    }
  }

  /** The rows of the subdag that the search finds are the levels of the leader, in their order. */
  lemma {:induction false} OrderDagIsByLevel(p: Protocol, u: Universe, past: Past, leader: Certificate, round: nat)
    requires WellFormed(p, u) && Member(u, leader) && AboveCutoff(past, leader)
    ensures var r := OrderDag(UniverseEnv(u, past), leader); r.Ok? && RoundOf(r.value, round) == Level(u, past, leader, round)
    decreases leader.round - round
  {
    hide WellFormed, Run, OrderDag, Exact, Below, SearchShape, SearchClosed, ByLevel;
    IsKeyed(p, u);
    OrderDagIsExact(p, u, past, leader);
    var m := OrderDag(UniverseEnv(u, past), leader).value;
    if round < leader.round {
      StartInv(u, past, leader);
      StartByLevel(u, past, leader);
      RunByLevel(p, u, past, leader, Start(leader), leader, round);
      OrderDagIsByLevel(p, u, past, leader, round + 1);
    } else {
      TopIsLeader(u, past, leader, m, round);
    }
  }

  lemma TwoDiffer(row: seq<Certificate>)
    requires NoDuplicates(row) && |row| > 1
    ensures row[0] in row && row[1] in row && row[0] != row[1]
  {
  }

  lemma TopIsLeader(u: Universe, past: Past, leader: Certificate, m: Subdag, round: nat)
    requires Keyed(u) && Exact(u, past, leader, m) && round >= leader.round
    ensures RoundOf(m, round) == if round == leader.round then [leader] else []
  {
    var row := RoundOf(m, round);
    assert Reaches(u, past, leader, leader);
    assert InSubdag(m, leader);
    hide Reaches;
    forall c | c in row ensures c == leader {
      assert InSubdag(m, c);
      ReachesLower(u, past, leader, c);
    }
    if |row| > 1 {
      TwoDiffer(row);
    }
    assert row != [] ==> row[0] in row;
  }
}
