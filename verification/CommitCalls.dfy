/**
 What a commit call achieves: exactly when it commits all anchors up to the leader that it was made for, and what it leaves
 behind then.
 */
module CommitCalls {
  import opened Types
  import opened Committees
  import opened CertificateGraph
  import opened Anchors
  import opened Dags
  import opened DagCommits
  import opened Views
  import opened Ordering
  import opened Subdags
  import opened Blocks
  import opened Storages
  import opened SubdagChecks
  import opened Transmissions
  import opened CommitRuns
  import opened Safety
  import opened Bfts
  import opened SubdagShapes

  /** Nothing stands in the way of the block after these anchors: it is not too long, its contents are there, it is accepted. */
  ghost predicate IsGranted(p: Protocol, u: Universe, before: seq<Certificate>, anchor: Certificate, a: Answers) {
    && Keyed(u) && a.accept
    && var blocks := BlocksOf(u, p.maxGcRounds, before);
       && (forall x :: !TooDeep(u, PastOf(blocks, p.maxGcRounds), anchor, x))
       && Extractable(AllTransmissions(Flatten(SubdagOf(u, blocks, p.maxGcRounds, anchor), anchor.round + 1)), a.inLedger, a.stored)
  }

  ghost predicate AllGranted(
    p: Protocol, u: Universe, before: seq<Certificate>, remaining: seq<Certificate>, answers: nat -> Answers, k: nat)
  {
    forall j :: 0 <= j < |remaining| ==> IsGranted(p, u, before + remaining[..j], remaining[j], answers(k + j))
  }

  lemma GrantedStep(
    p: Protocol, u: Universe, before: seq<Certificate>, remaining: seq<Certificate>, answers: nat -> Answers, k: nat)
    requires remaining != []
    ensures AllGranted(p, u, before, remaining, answers, k) <==>
            && IsGranted(p, u, before, remaining[0], answers(k))
            && AllGranted(p, u, before + [remaining[0]], remaining[1..], answers, k + 1)
  {
    hide IsGranted;
    var rest := remaining[1..];
    assert before + remaining[..0] == before;
    forall j | 0 <= j < |rest| ensures before + [remaining[0]] + rest[..j] == before + remaining[..j + 1] && rest[j] == remaining[j + 1] {
    }
    if AllGranted(p, u, before, remaining, answers, k) {
      forall j | 0 <= j < |rest| ensures IsGranted(p, u, before + [remaining[0]] + rest[..j], rest[j], answers(k + 1 + j)) {
        assert IsGranted(p, u, before + remaining[..j + 1], remaining[j + 1], answers(k + (j + 1)));
      }
    }
    if IsGranted(p, u, before, remaining[0], answers(k)) && AllGranted(p, u, before + [remaining[0]], rest, answers, k + 1) {
      forall j | 0 <= j < |remaining| ensures IsGranted(p, u, before + remaining[..j], remaining[j], answers(k + j)) {
        if j > 0 {
          assert IsGranted(p, u, before + [remaining[0]] + rest[..j - 1], rest[j - 1], answers(k + 1 + (j - 1)));
        }
      }
    }
  }

  /** In a state of a run, the next anchor gets as far as consensus and is accepted just when that is granted. */
  lemma AcceptsIffGranted(p: Protocol, u: Universe, actions: seq<Action>, v: Validator, a: Answers)
    requires WellFormed(p, u) && p.maxGcRounds >= 1 && IsRun(p, u, actions, v)
    requires v.flight.Some? && v.flight.value.remaining != [] && a.ledger <= DoneIds(v.accepted) && Keyed(v.storage)
    ensures Submits(p, v, a) && a.accept <==> IsGranted(p, u, AnchorsOf(v.accepted), v.flight.value.remaining[0], a)
    ensures OrderDag(Env(v.dag, v.storage, a.ledger, p.maxGcRounds), v.flight.value.remaining[0]).Ok?
  {
    hide WellFormed, IsRun, OrderDag, Passes, TooDeep, BlocksOf, Extractable, AllTransmissions, Flatten, DoneIds, SameDone, Shaped, Committable,
         StorageInv, GraphInv, IdsInv, GcInv, ReadyInv, FlightInv;
    IsKeyed(p, u);
    RunsKeepInv(p, u, actions, v);
    SubdagPasses(p, u, actions, v, a.ledger);
    SearchSucceeds(p, u, v, a.ledger);
    SameDoneAll(v.accepted, BlocksOf(u, p.maxGcRounds, AnchorsOf(v.accepted)), p.maxGcRounds);
  }

  /** What one granted step does to the state. */
  lemma GrantedGoesOn(p: Protocol, v: Validator, a: Answers)
    requires v.flight.Some? && v.flight.value.remaining != [] && !v.flight.value.skipConsensus && Keyed(v.storage)
    requires Submits(p, v, a) && a.accept
    ensures var next := Decided(p, v, a.ledger, a.accept);
            && next.flight == Some(v.flight.value.(remaining := v.flight.value.remaining[1..]))
            && AnchorsOf(next.accepted) == AnchorsOf(v.accepted) + [v.flight.value.remaining[0]]
            && next.storage == v.storage && next.gcRound == v.gcRound
  {
    hide OrderDag, Passes, Extractable, AllTransmissions, Flatten, CommittedAll;
    var anchor := v.flight.value.remaining[0];
    var r := OrderDag(Env(v.dag, v.storage, a.ledger, p.maxGcRounds), anchor);
    AnchorsExtend(v.accepted, Block(anchor, r.value));
  }

  /** What is not granted ends the call without a further block. */
  lemma NotGrantedEnds(p: Protocol, v: Validator, answers: nat -> Answers, k: nat)
    requires v.flight.Some? && v.flight.value.remaining != [] && !v.flight.value.skipConsensus && Keyed(v.storage)
    requires !(Submits(p, v, answers(k)) && answers(k).accept)
    ensures Call(p, v, answers, k).accepted == v.accepted
  {
    hide OrderDag, Passes, Submits, Flatten, CommittedAll;
  }

  /** The call has come to its end: garbage is collected up to the depth below the leader, or not at all. */
  lemma EndCollects(p: Protocol, u: Universe, v: Validator)
    requires Inv(p, u, v) && v.flight.Some? && v.flight.value.remaining == [] && !v.flight.value.skipConsensus
    ensures var w := Finished(p, v);
            && AnchorsOf(w.accepted) == Chain(p, u, v.flight.value.latest)
            && w.dag.lastCommittedRound == v.flight.value.latest.round
            && w.gcRound == Max(v.gcRound, SaturatingSub(v.flight.value.latest.round, p.maxGcRounds))
            && w.storage == KeptAbove(v.storage, w.gcRound)
  {
    hide GraphInv, IdsInv, GcInv, ReadyInv, LedgerInv, Chain, Direct;
    FlightDone(p, u, v);
    assert AnchorsOf(v.accepted) + [] == AnchorsOf(v.accepted);
    assert KeptAbove(v.storage, v.gcRound) == v.storage;
  }

  lemma NotYetWhole(p: Protocol, u: Universe, v: Validator)
    requires FlightInv(p, u, v) && v.flight.Some? && v.flight.value.remaining != [] && !v.flight.value.skipConsensus
    ensures AnchorsOf(v.accepted) != Chain(p, u, v.flight.value.latest)
  {
    hide Chain, Direct;
    var anchors, rest := AnchorsOf(v.accepted), v.flight.value.remaining;
    assert |anchors + rest| > |anchors|;
  }

  /**
   A commit call commits all anchors up to its leader if and only if each of them is granted in turn. Then the leader's round is
   the last committed one, and garbage is collected up to the depth below it.
   */
  lemma {:induction false} CallCommitsAllIff(
    p: Protocol, u: Universe, actions: seq<Action>, v: Validator, answers: nat -> Answers, k: nat)
    requires WellFormed(p, u) && p.maxGcRounds >= 1 && IsRun(p, u, actions, v)
    requires v.flight.Some? && !v.flight.value.skipConsensus && Keyed(v.storage) && Truthful(p, v, answers, k)
    ensures var w, f := Call(p, v, answers, k), v.flight.value;
            var granted := AllGranted(p, u, AnchorsOf(v.accepted), f.remaining, answers, k);
            && (AnchorsOf(w.accepted) == Chain(p, u, f.latest) <==> granted)
            && (granted ==>
                  && w.dag.lastCommittedRound == f.latest.round
                  && w.gcRound == Max(v.gcRound, SaturatingSub(f.latest.round, p.maxGcRounds))
                  && w.storage == KeptAbove(v.storage, w.gcRound))
    decreases |v.flight.value.remaining|
  {
    hide WellFormed, IsRun, StorageInv, GraphInv, IdsInv, GcInv, ReadyInv, LedgerInv, FlightInv, Submits, Decided, Finished, Chain, IsGranted,
         AllGranted, AnchorsOf, KeptAbove, DoneIds, SaturatingSub, Max;
    RunsKeepInv(p, u, actions, v);
    var f, a := v.flight.value, answers(k);
    if f.remaining == [] {
      EndCollects(p, u, v);
      assert AllGranted(p, u, AnchorsOf(v.accepted), [], answers, k) by { NothingToGrant(p, u, AnchorsOf(v.accepted), answers, k); }
    } else {
      GrantedStep(p, u, AnchorsOf(v.accepted), f.remaining, answers, k);
      AcceptsIffGranted(p, u, actions, v, a);
      if Submits(p, v, a) && a.accept {
        var next := Decided(p, v, a.ledger, a.accept);
        GrantedGoesOn(p, v, a);
        RunExtends(p, u, actions, v, Decide(a.ledger, a.accept), next);
        CallCommitsAllIff(p, u, actions + [Decide(a.ledger, a.accept)], next, answers, k + 1);
      } else {
        NotGrantedEnds(p, v, answers, k);
        NotYetWhole(p, u, v);
      }
    }
  }

  /**
   So it is for the call that a ready leader leads to: it commits just the rest of the leader's chain, unless its round is
   committed already, in which case nothing is added.
   */
  lemma LeaderCommitsIff(
    p: Protocol, u: Universe, actions: seq<Action>, v: Validator, leader: Certificate, answers: nat -> Answers)
    requires WellFormed(p, u) && p.maxGcRounds >= 1 && IsRun(p, u, actions, v) && Keyed(v.storage)
    requires Enabled(v, Lock(leader)) && LocksInTime(p, u, v, leader) && leader.round >= v.dag.lastCommittedRound
    requires Truthful(p, Locked(p, v, leader), answers, 0)
    ensures var w, n := Call(p, Locked(p, v, leader), answers, 0), |v.accepted|;
            if leader.round == v.dag.lastCommittedRound then w.accepted == v.accepted
            else
              && n <= |Chain(p, u, leader)|
              && (AnchorsOf(w.accepted) == Chain(p, u, leader) <==>
                  AllGranted(p, u, AnchorsOf(v.accepted), Chain(p, u, leader)[n..], answers, 0))
              && (AnchorsOf(w.accepted) == Chain(p, u, leader) ==> w.dag.lastCommittedRound == leader.round)
  {
    hide WellFormed, IsRun, StorageInv, GraphInv, IdsInv, GcInv, ReadyInv, LedgerInv, LocksInTime, Truthful, Call, Chain, AllGranted, LocalWalk,
         Direct;
    var locked := Locked(p, v, leader);
    RunExtends(p, u, actions, v, Lock(leader), locked);
    RunsKeepInv(p, u, actions + [Lock(leader)], locked);
    if leader.round == v.dag.lastCommittedRound {
      RepeatsAddNothing(p, locked, answers, 0);
    } else {
      CallCommitsAllIff(p, u, actions + [Lock(leader)], locked, answers, 0);
      var anchors, rest := AnchorsOf(v.accepted), locked.flight.value.remaining;
      assert anchors + rest == Chain(p, u, leader);
      assert rest == Chain(p, u, leader)[|v.accepted|..];
    }
  }

  lemma {:induction false} RepeatsAddNothing(p: Protocol, v: Validator, answers: nat -> Answers, k: nat)
    requires v.flight.Some? && v.flight.value.skipConsensus && Keyed(v.storage)
    ensures Call(p, v, answers, k).accepted == v.accepted
    decreases |v.flight.value.remaining|
  {
    hide OrderDag, Passes, Submits, Flatten, CommittedAll;
    if v.flight.value.remaining != [] && Submits(p, v, answers(k)) {
      var next := Decided(p, v, answers(k).ledger, answers(k).accept);
      if next.flight.Some? {
        RepeatsAddNothing(p, next, answers, k + 1);
      }
    }
  }

  lemma NothingToGrant(p: Protocol, u: Universe, before: seq<Certificate>, answers: nat -> Answers, k: nat)
    ensures AllGranted(p, u, before, [], answers, k)
  {
  }
}
