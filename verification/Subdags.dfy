/**
 What a subdag is, independently of the search that finds it: the part of an anchor's causal history that
 lies above the garbage-collection cutoff and is not committed yet. The search yields exactly that.
 */
module Subdags {
  import opened Types
  import opened Committees
  import opened CertificateGraph
  import opened Dags
  import opened Ordering

  /** What was committed before an anchor: the IDs, and the round of the previous anchor. */
  datatype Past = Past(done: set<CertificateId>, last: nat, maxGcRounds: nat)

  ghost predicate AboveCutoff(past: Past, c: Certificate) {
    c.round + past.maxGcRounds > past.last
  }

  /** `i` is a reference of `c` that is neither committed nor below the cutoff. */
  ghost predicate Follows(u: Universe, past: Past, c: Certificate, i: CertificateId) {
    i in c.previous && i in u && u[i].round < c.round && i !in past.done && AboveCutoff(past, u[i])
  }

  /** `x` is reached from `c` by following references. */
  ghost predicate Reaches(u: Universe, past: Past, c: Certificate, x: Certificate)
    decreases c.round
  {
    c == x || exists i :: Follows(u, past, c, i) && Reaches(u, past, u[i], x)
  }

  predicate InSubdag(s: Subdag, c: Certificate) {
    c.round in s && c in s[c.round]
  }

  /** The search with all certificates at hand. */
  ghost function UniverseEnv(u: Universe, past: Past): Env {
    Env(DagState(map[], map[], past.last), u, past.done, past.maxGcRounds)
  }

  lemma {:induction false} ReachesExtends(u: Universe, past: Past, c: Certificate, x: Certificate, i: CertificateId)
    requires Reaches(u, past, c, x) && Follows(u, past, x, i)
    ensures Reaches(u, past, c, u[i])
    decreases c.round
  {
    if c == x {
      assert Reaches(u, past, u[i], u[i]);
    } else {
      var j :| Follows(u, past, c, j) && Reaches(u, past, u[j], x);
      ReachesExtends(u, past, u[j], x, i);
    }
  }

  lemma {:induction false} ReachesLower(u: Universe, past: Past, c: Certificate, x: Certificate)
    requires Keyed(u) && Reaches(u, past, c, x)
    ensures x != c ==> x.round < c.round && x.id !in past.done && AboveCutoff(past, x)
    decreases c.round
  {
    if c != x {
      var j :| Follows(u, past, c, j) && Reaches(u, past, u[j], x);
      ReachesLower(u, past, u[j], x);
    }
  }

  ghost predicate Collected(s: Search, c: Certificate) {
    InSubdag(s.commit, c) || c in s.buffer
  }

  ghost predicate FiledByRound(commit: Subdag) {
    forall r :: r in commit ==>
      commit[r] != [] && NoDuplicates(commit[r]) && forall c :: c in commit[r] ==> c.round == r
  }

  /** Everything collected is reached from the leader, is collected once, and is marked as ordered. */
  ghost predicate SearchShape(u: Universe, past: Past, leader: Certificate, s: Search) {
    && FiledByRound(s.commit)
    && Collected(s, leader)
    && (forall d :: Collected(s, d) ==> Member(u, d) && Reaches(u, past, leader, d))
    && (forall d :: Collected(s, d) ==> d == leader || d.id in s.ordered)
    && (forall i :: i in s.ordered ==> i in u && Collected(s, u[i]) && i != leader.id)
    && NoDuplicates(s.buffer)
    && (forall d :: d in s.buffer ==> !InSubdag(s.commit, d))
  }

  /** What an ordered certificate refers to is marked as ordered, but for the references of `c` below index `k`. */
  ghost predicate SearchClosed(u: Universe, past: Past, s: Search, c: Certificate, k: nat) {
    forall d, i :: InSubdag(s.commit, d) && Follows(u, past, d, i) ==> i in s.ordered || Remaining(d, i, c, k)
  }

  /** `i` is one of the references of `c` at an index below `k`, and `d` is `c`. */
  ghost predicate Remaining(d: Certificate, i: CertificateId, c: Certificate, k: nat) {
    d == c && exists j :: 0 <= j < k && j < |c.previous| && c.previous[j] == i
  }

  ghost function Popped(s: Search): Search
    requires s.buffer != []
  {
    Search(AddToRound(s.commit, s.buffer[|s.buffer| - 1]), s.ordered, s.buffer[..|s.buffer| - 1])
  }

  ghost function Pushed(u: Universe, s: Search, i: CertificateId): Search
    requires i in u
  {
    s.(ordered := s.ordered + {i}, buffer := s.buffer + [u[i]])
  }

  lemma PoppedCollects(s: Search, d: Certificate)
    requires s.buffer != []
    ensures InSubdag(Popped(s).commit, d) <==> InSubdag(s.commit, d) || d == s.buffer[|s.buffer| - 1]
    ensures Collected(Popped(s), d) <==> Collected(s, d)
  {
    assert s.buffer == Popped(s).buffer + [s.buffer[|s.buffer| - 1]];
  }

  /** Taking a certificate off the stack files it under its round. */
  lemma PopShape(u: Universe, past: Past, leader: Certificate, s: Search)
    requires SearchShape(u, past, leader, s) && s.buffer != []
    ensures SearchShape(u, past, leader, Popped(s))
  {
    var c := s.buffer[|s.buffer| - 1];
    assert !InSubdag(s.commit, c);
    assert FiledByRound(Popped(s).commit);
    hide Reaches, Member, FiledByRound;
    forall d ensures InSubdag(Popped(s).commit, d) <==> InSubdag(s.commit, d) || d == c
             ensures Collected(Popped(s), d) <==> Collected(s, d)
    {
      PoppedCollects(s, d);
    }
    hide Collected, InSubdag;
  }

  lemma PopClosed(u: Universe, past: Past, s: Search, any: Certificate)
    requires SearchClosed(u, past, s, any, 0) && s.buffer != []
    ensures var c := s.buffer[|s.buffer| - 1]; SearchClosed(u, past, Popped(s), c, |c.previous|)
  {
    var c := s.buffer[|s.buffer| - 1];
    forall d, i | InSubdag(Popped(s).commit, d) && Follows(u, past, d, i)
      ensures i in s.ordered || Remaining(d, i, c, |c.previous|)
    {
      PoppedCollects(s, d);
      assert !Remaining(d, i, any, 0);
    }
  }

  /** A reference that is ordered already, or not to be followed, needs nothing. */
  lemma SkipClosed(u: Universe, past: Past, s: Search, c: Certificate, k: nat)
    requires 0 < k <= |c.previous| && SearchClosed(u, past, s, c, k)
    requires c.previous[k - 1] in s.ordered || !Follows(u, past, c, c.previous[k - 1])
    ensures SearchClosed(u, past, s, c, k - 1)
  {
    hide Follows, InSubdag;
    forall d, i | InSubdag(s.commit, d) && Follows(u, past, d, i)
      ensures i in s.ordered || Remaining(d, i, c, k - 1)
    {
      if Remaining(d, i, c, k) {
        var j :| 0 <= j < k && j < |c.previous| && c.previous[j] == i;
        assert j == k - 1 || Remaining(d, i, c, k - 1);
      }
    }
  }

  /** A reference that is followed is pushed on the stack once. */
  lemma PushShape(u: Universe, past: Past, leader: Certificate, s: Search, c: Certificate, i: CertificateId)
    requires Keyed(u) && SearchShape(u, past, leader, s) && InSubdag(s.commit, c)
    requires i !in s.ordered && Follows(u, past, c, i)
    ensures SearchShape(u, past, leader, Pushed(u, s, i))
  {
    assert Collected(s, c);
    ReachesExtends(u, past, leader, c, i);
    ReachesLower(u, past, leader, c);
    hide Reaches, InSubdag, FiledByRound;
    assert !Collected(s, u[i]);
    assert forall d :: Collected(Pushed(u, s, i), d) <==> Collected(s, d) || d == u[i];
    hide Collected;
  }

  lemma PushClosed(u: Universe, past: Past, s: Search, c: Certificate, k: nat)
    requires 0 < k <= |c.previous| && SearchClosed(u, past, s, c, k) && c.previous[k - 1] in u
    ensures SearchClosed(u, past, Pushed(u, s, c.previous[k - 1]), c, k - 1)
  {
    var pushed := Pushed(u, s, c.previous[k - 1]);
    assert SearchClosed(u, past, pushed, c, k);
    SkipClosed(u, past, pushed, c, k);
  }

  /** With all certificates at hand, following the references of one never fails, and keeps the invariant. */
  lemma {:induction false} ExpandInv(
    p: Protocol, u: Universe, past: Past, leader: Certificate, c: Certificate, k: nat, s: Search)
    requires WellFormed(p, u) && k <= |c.previous|
    requires SearchShape(u, past, leader, s) && SearchClosed(u, past, s, c, k)
    requires InSubdag(s.commit, c) && !BelowCutoff(UniverseEnv(u, past), c)
    ensures var r := Expand(UniverseEnv(u, past), c, k, s);
            r.Ok? && SearchShape(u, past, leader, r.value) && SearchClosed(u, past, r.value, c, 0)
    decreases k
  {
    hide SearchClosed, Reaches;
    if k > 0 {
      var i := c.previous[k - 1];
      assert Collected(s, c) && Member(u, c);
      hide SearchShape;
      ParentInUniverse(p, u, c, i);
      if i in s.ordered || i in past.done {
        SkipClosed(u, past, s, c, k);
        ExpandInv(p, u, past, leader, c, k - 1, s);
      } else {
        PushShape(u, past, leader, s, c, i);
        PushClosed(u, past, s, c, k);
        ExpandInv(p, u, past, leader, c, k - 1, Pushed(u, s, i));
      }
    }
  }

  lemma StepInv(p: Protocol, u: Universe, past: Past, leader: Certificate, s: Search, any: Certificate)
    requires WellFormed(p, u) && s.buffer != []
    requires SearchShape(u, past, leader, s) && SearchClosed(u, past, s, any, 0)
    ensures var r := Step(UniverseEnv(u, past), s);
            && r.Ok? && SearchShape(u, past, leader, r.value)
            && SearchClosed(u, past, r.value, s.buffer[|s.buffer| - 1], 0)
  {
    var c := s.buffer[|s.buffer| - 1];
    var popped := Popped(s);
    PopShape(u, past, leader, s);
    PopClosed(u, past, s, any);
    PoppedCollects(s, c);
    hide SearchClosed, Reaches, SearchShape, InSubdag;
    if BelowCutoff(UniverseEnv(u, past), c) {
      CutoffClosed(p, u, past, leader, popped, c);
    } else {
      ExpandInv(p, u, past, leader, c, |c.previous|, popped);
    }
  }

  /** No reference of a certificate at the cutoff is to be followed. */
  lemma CutoffClosed(p: Protocol, u: Universe, past: Past, leader: Certificate, s: Search, c: Certificate)
    requires WellFormed(p, u) && BelowCutoff(UniverseEnv(u, past), c) && InSubdag(s.commit, c)
    requires SearchShape(u, past, leader, s) && SearchClosed(u, past, s, c, |c.previous|)
    ensures SearchClosed(u, past, s, c, 0)
  {
    assert Collected(s, c) && Member(u, c);
    hide SearchShape;
    forall i | i in c.previous ensures !Follows(u, past, c, i) {
      ParentInUniverse(p, u, c, i);
    }
  }

  /** `m` holds each certificate reached from the leader once, and nothing else. */
  ghost predicate Exact(u: Universe, past: Past, leader: Certificate, m: Subdag) {
    FiledByRound(m) && forall x :: InSubdag(m, x) <==> Reaches(u, past, leader, x)
  }

  lemma {:induction false} ClosedUnderReaching(u: Universe, past: Past, leader: Certificate, s: Search, any: Certificate,
                                               c: Certificate, x: Certificate)
    requires SearchShape(u, past, leader, s) && SearchClosed(u, past, s, any, 0) && s.buffer == []
    requires InSubdag(s.commit, c) && Reaches(u, past, c, x)
    ensures InSubdag(s.commit, x)
    decreases c.round
  {
    if c != x {
      var i :| Follows(u, past, c, i) && Reaches(u, past, u[i], x);
      hide Reaches;
      assert !Remaining(c, i, any, 0);
      assert i in s.ordered && Collected(s, u[i]);
      ClosedUnderReaching(u, past, leader, s, any, u[i], x);
    }
  }

  lemma FinishedIsExact(u: Universe, past: Past, leader: Certificate, s: Search, any: Certificate)
    requires SearchShape(u, past, leader, s) && SearchClosed(u, past, s, any, 0) && s.buffer == []
    ensures Exact(u, past, leader, s.commit)
  {
    assert Collected(s, leader);
    forall x ensures InSubdag(s.commit, x) <==> Reaches(u, past, leader, x) {
      if InSubdag(s.commit, x) {
        assert Collected(s, x);
      }
      if Reaches(u, past, leader, x) {
        ClosedUnderReaching(u, past, leader, s, any, leader, x);
      }
    }
  }

  lemma {:induction false} RunIsExact(p: Protocol, u: Universe, past: Past, leader: Certificate, s: Search, any: Certificate)
    requires WellFormed(p, u)
    requires SearchShape(u, past, leader, s) && SearchClosed(u, past, s, any, 0)
    ensures var r := Run(UniverseEnv(u, past), s); r.Ok? && Exact(u, past, leader, r.value)
    decreases KnownIds(UniverseEnv(u, past)) - s.ordered, |s.buffer|
  {
    hide SearchShape, SearchClosed, Step, Exact, CertificateValid, KnownIds;
    if s.buffer == [] {
      FinishedIsExact(u, past, leader, s, any);
    } else {
      StepInv(p, u, past, leader, s, any);
      StepProgress(UniverseEnv(u, past), s);
      RunIsExact(p, u, past, leader, Step(UniverseEnv(u, past), s).value, s.buffer[|s.buffer| - 1]);
    }
  }

  /** The final `retain` drops nothing: what was collected is above the cutoff, and so is the leader. */
  lemma RetainKeepsAll(u: Universe, past: Past, leader: Certificate, m: Subdag)
    requires Keyed(u) && Exact(u, past, leader, m) && AboveCutoff(past, leader)
    ensures RetainRounds(m, past.maxGcRounds, past.last) == m
  {
    forall r | r in m ensures r + past.maxGcRounds > past.last {
      var c := m[r][0];
      assert InSubdag(m, c);
      ReachesLower(u, past, leader, c);
    }
  }

  /** The search started at a member of the universe finds exactly what the leader reaches. */
  lemma OrderDagIsExact(p: Protocol, u: Universe, past: Past, leader: Certificate)
    requires WellFormed(p, u) && Member(u, leader) && AboveCutoff(past, leader)
    ensures var r := OrderDag(UniverseEnv(u, past), leader);
            && r.Ok? && Exact(u, past, leader, r.value)
            && r == Run(UniverseEnv(u, past), Start(leader))
  {
    StartInv(u, past, leader);
    RunIsExact(p, u, past, leader, Start(leader), leader);
    RetainKeepsAll(u, past, leader, Run(UniverseEnv(u, past), Start(leader)).value);
  }

  lemma StartInv(u: Universe, past: Past, leader: Certificate)
    requires Member(u, leader)
    ensures SearchShape(u, past, leader, Start(leader)) && SearchClosed(u, past, Start(leader), leader, 0)
  {
  }

  ghost predicate Stored(env: Env, c: Certificate) {
    c.id in env.storage && env.storage[c.id] == c
  }

  /** A validator that can look up what the search will ask for, and knows what is committed of it. */
  ghost predicate Serves(u: Universe, past: Past, env: Env) {
    && env.dag.lastCommittedRound == past.last && env.maxGcRounds == past.maxGcRounds
    && Keyed(env.storage)
    && (forall c, i :: Stored(env, c) && i in c.previous && !BelowCutoff(env, c) ==> Answers(u, past, env, c, i))
  }

  ghost predicate Answers(u: Universe, past: Past, env: Env, c: Certificate, i: CertificateId)
    requires Keyed(env.storage)
  {
    && i in u
    && (AlreadyCommitted(env, PreviousRound(c), i) <==> i in past.done)
    && (i !in past.done ==> Lookup(env, PreviousRound(c), i) == Some(u[i]) && Stored(env, u[i]))
  }

  ghost predicate AllStored(env: Env, s: seq<Certificate>) {
    forall c :: c in s ==> Stored(env, c)
  }

  lemma {:induction false} ExpandAgrees(u: Universe, past: Past, env: Env, c: Certificate, k: nat, s: Search)
    requires Keyed(u) && Serves(u, past, env) && Stored(env, c) && !BelowCutoff(env, c) && k <= |c.previous|
    requires AllStored(env, s.buffer)
    ensures var r := Expand(env, c, k, s);
            && r == Expand(UniverseEnv(u, past), c, k, s)
            && (r.Ok? ==> AllStored(env, r.value.buffer))
    decreases k
  {
    if k > 0 {
      var i := c.previous[k - 1];
      assert Answers(u, past, env, c, i);
      hide Serves, Lookup;
      UniverseLookup(u, past, PreviousRound(c), i);
      if i in s.ordered || i in past.done {
        ExpandAgrees(u, past, env, c, k - 1, s);
      } else {
        ExpandAgrees(u, past, env, c, k - 1, Pushed(u, s, i));
      }
    }
  }

  lemma UniverseLookup(u: Universe, past: Past, round: nat, i: CertificateId)
    requires Keyed(u) && i in u
    ensures Lookup(UniverseEnv(u, past), round, i) == Some(u[i])
    ensures AlreadyCommitted(UniverseEnv(u, past), round, i) <==> i in past.done
  {
  }

  /** The search of a validator that serves it is the search with all certificates at hand. */
  lemma {:induction false} RunAgrees(u: Universe, past: Past, env: Env, s: Search)
    requires Keyed(u) && Serves(u, past, env) && AllStored(env, s.buffer)
    ensures Run(env, s) == Run(UniverseEnv(u, past), s)
    decreases KnownIds(env) - s.ordered, |s.buffer|
  {
    if s.buffer != [] {
      var c := s.buffer[|s.buffer| - 1];
      assert Stored(env, c);
      StepAgrees(u, past, env, s);
      hide Serves, Step, KnownIds;
      if Step(env, s).Ok? {
        StepProgress(env, s);
        RunAgrees(u, past, env, Step(env, s).value);
      }
    }
  }

  lemma StepAgrees(u: Universe, past: Past, env: Env, s: Search)
    requires Keyed(u) && Serves(u, past, env) && AllStored(env, s.buffer) && s.buffer != []
    ensures var r := Step(env, s);
            r == Step(UniverseEnv(u, past), s) && (r.Ok? ==> AllStored(env, r.value.buffer))
  {
    var c := s.buffer[|s.buffer| - 1];
    assert Stored(env, c);
    if !BelowCutoff(env, c) {
      ExpandAgrees(u, past, env, c, |c.previous|, Popped(s));
    }
  }

  /**
   The missing-certificate error is not reachable, and two validators that serve the search for the same past
   order the same subdag, certificate by certificate.
   */
  lemma OrderDagAgrees(p: Protocol, u: Universe, past: Past, env: Env, leader: Certificate)
    requires WellFormed(p, u) && Serves(u, past, env) && Stored(env, leader)
    requires Member(u, leader) && AboveCutoff(past, leader)
    ensures OrderDag(env, leader) == OrderDag(UniverseEnv(u, past), leader)
    ensures OrderDag(env, leader).Ok?
  {
    hide CertificateValid;
    assert AllStored(env, [leader]);
    OrderDagIsExact(p, u, past, leader);
    RunAgrees(u, past, env, Start(leader));
  }

  /** What is committed is closed under references, as far down as the cutoff. */
  ghost predicate DoneClosed(u: Universe, past: Past) {
    forall i, j :: i in past.done && i in u && j in u[i].previous && j in u && AboveCutoff(past, u[j]) ==> j in past.done
  }

  lemma {:induction false} DoneDownward(u: Universe, past: Past, c: Certificate, x: Certificate)
    requires Keyed(u) && DoneClosed(u, past) && Member(u, c) && c.id in past.done
    requires Linked(u, c, x) && AboveCutoff(past, x)
    ensures x.id in past.done
    decreases c.round
  {
    if c != x {
      var i := NextOnPath(u, c, x);
      LinkedRounds(u, u[i], x);
      assert i in past.done;
      DoneDownward(u, past, u[i], x);
    }
  }

  /** Committed certificates hide nothing: what is reached is the whole causal history, less what is committed. */
  lemma {:induction false} ReachesIffHistory(u: Universe, past: Past, c: Certificate, x: Certificate)
    requires Keyed(u) && DoneClosed(u, past) && Member(u, c)
    ensures Reaches(u, past, c, x) <==> c == x || (Linked(u, c, x) && x.id !in past.done && AboveCutoff(past, x))
    decreases c.round
  {
    if Reaches(u, past, c, x) && c != x {
      ReachesLower(u, past, c, x);
      var i :| Follows(u, past, c, i) && Reaches(u, past, u[i], x);
      ReachesIffHistory(u, past, u[i], x);
      assert Linked(u, u[i], x);
    }
    if Linked(u, c, x) && x.id !in past.done && AboveCutoff(past, x) && c != x {
      var i := NextOnPath(u, c, x);
      LinkedRounds(u, u[i], x);
      if i in past.done {
        DoneDownward(u, past, u[i], x);
      }
      ReachesIffHistory(u, past, u[i], x);
      assert Follows(u, past, c, i);
    }
  }
}
