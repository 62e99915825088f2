/**
 The bound on the rounds of a subdag, over all runs: exactly when the next anchor is refused, and what follows. A
 refused anchor is in the way of every validator: whoever gets that far gets no further.
 */
module SubdagShapes {
  import opened Types
  import opened Committees
  import opened CertificateGraph
  import opened Anchors
  import opened Dags
  import opened DagCommits
  import opened Views
  import opened Ordering
  import opened Subdags
  import opened Blocks
  import opened SubdagChecks
  import opened BlockChecks
  import opened BlockAnchors
  import opened CommitRuns
  import opened Safety
  import opened Bfts

  lemma AnchorIsLeader(p: Protocol, u: Universe, v: Validator)
    requires FlightInv(p, u, v) && v.flight.Some? && v.flight.value.remaining != []
    ensures IsLeader(p, u, v.flight.value.remaining[0])
  {
    hide Chain;
    var f := v.flight.value;
    ChainShape(p, u, f.latest);
    if !f.skipConsensus {
      assert (AnchorsOf(v.accepted) + f.remaining)[|v.accepted|] == f.remaining[0];
    }
  }

  lemma LedgerPastIsClosed(p: Protocol, u: Universe, v: Validator)
    requires WellFormed(p, u) && p.maxGcRounds >= 1 && LedgerInv(p, u, v)
    ensures DoneClosed(u, PastOf(v.accepted, p.maxGcRounds))
  {
    hide WellFormed, LedgerInv, DoneClosed;
    LedgerPast(p, u, v);
  }

  /**
   In every reachable state the subdag of the next anchor is non-empty, sequential, connected and headed by the
   anchor alone in its round. It is refused just when the anchor's history holds a certificate that is in no block,
   above the cutoff, and `MAX_ROUNDS` or more rounds below the anchor.
   */
  lemma SubdagPasses(p: Protocol, u: Universe, actions: seq<Action>, v: Validator, ledger: set<CertificateId>)
    requires WellFormed(p, u) && p.maxGcRounds >= 1 && IsRun(p, u, actions, v)
    requires v.flight.Some? && v.flight.value.remaining != [] && ledger <= DoneIds(v.accepted) && Keyed(v.storage)
    ensures var anchor := v.flight.value.remaining[0];
            var r := OrderDag(Env(v.dag, v.storage, ledger, p.maxGcRounds), anchor);
            && r.Ok?
            && (Passes(r.value, anchor.round) <==>
                !exists x :: TooDeep(u, PastOf(v.accepted, p.maxGcRounds), anchor, x))
  {
    hide CertificateValid, IsRun, Committable, BlocksOf, OrderDag, DoneIds, Exact, Chain, Passes, StorageInv, GraphInv, IdsInv,
         GcInv, ReadyInv, WellFormed, LedgerInv, TooDeep, DoneClosed;
    RunsKeepInv(p, u, actions, v);
    SearchSucceeds(p, u, v, ledger);
    NextAnchor(p, u, v);
    AnchorIsLeader(p, u, v);
    LedgerPastIsClosed(p, u, v);
    var anchor := v.flight.value.remaining[0];
    RefusedIff(p, u, PastOf(v.accepted, p.maxGcRounds), anchor,
               OrderDag(Env(v.dag, v.storage, ledger, p.maxGcRounds), anchor).value);
  }

  /** Whoever accepts a block has an anchor whose history is not too deep, whether the block is its own or a peer's. */
  lemma AcceptedIsNotDeep(p: Protocol, u: Universe, actions: seq<Action>, v: Validator, k: nat, x: Certificate)
    requires WellFormed(p, u) && p.maxGcRounds >= 1 && IsRun(p, u, actions, v) && k < |v.accepted|
    ensures !TooDeep(u, PastOf(v.accepted[..k], p.maxGcRounds), v.accepted[k].anchor, x)
  {
    hide WellFormed, IsRun, Linked, Passes, DoneIds, StorageInv, GraphInv, IdsInv, GcInv, ReadyInv, FlightInv, LedgerInv;
    var past, b := PastOf(v.accepted[..k], p.maxGcRounds), v.accepted[k];
    if TooDeep(u, past, b.anchor, x) {
      RunsKeepInv(p, u, actions, v);
      LedgerIsShaped(p, u, v);
      assert IsShaped(u, b);
      LinkedIsMember(u, b.anchor, x);
      AcceptedIsHistory(p, u, actions, v, k, x.id);
      InIdsOf(u, b.subdag, x.id);
      AcceptedPass(p, u, actions, v, k);
      RowsAreClose(b.subdag, b.anchor.round, x.round);
    }
  }

  lemma {:induction false} LinkedIsMember(u: Universe, c: Certificate, x: Certificate)
    requires Keyed(u) && Member(u, c) && Linked(u, c, x)
    ensures Member(u, x)
    decreases c.round
  {
    if c != x {
      var i := NextOnPath(u, c, x);
      LinkedIsMember(u, u[i], x);
    }
  }

  /**
   If the anchor that follows a committable sequence is too deep, no validator ever accepts more blocks than that
   sequence has, in any run: the network does not get past it.
   */
  lemma NobodyGetsPast(
    p: Protocol, u: Universe, anchors: seq<Certificate>, next: Certificate, x: Certificate, actions: seq<Action>, v: Validator)
    requires WellFormed(p, u) && p.maxGcRounds >= 1 && Committable(p, u, anchors + [next])
    requires TooDeep(u, PastOf(BlocksOf(u, p.maxGcRounds, anchors), p.maxGcRounds), next, x)
    requires IsRun(p, u, actions, v)
    ensures |v.accepted| <= |anchors|
  {
    hide WellFormed, IsRun, Committable, TooDeep, BlocksOf, StorageInv, GraphInv, IdsInv, GcInv, ReadyInv, FlightInv, SameDone, Shaped,
         DoneIds;
    RunsKeepInv(p, u, actions, v);
    var mine, n := AnchorsOf(v.accepted), |anchors|;
    if |mine| > n {
      CommittableAgree(p, u, anchors + [next], mine);
      assert mine[..n] == anchors && mine[n] == next;
      SameDonePast(v.accepted, BlocksOf(u, p.maxGcRounds, mine), n, p.maxGcRounds);
      BlocksBefore(u, p.maxGcRounds, mine, n);
      AcceptedIsNotDeep(p, u, actions, v, n, x);
      assert false;
    }
  }

  lemma BlocksBefore(u: Universe, maxGcRounds: nat, anchors: seq<Certificate>, k: nat)
    requires Keyed(u) && k < |anchors|
    ensures BlocksOf(u, maxGcRounds, anchors)[..k] == BlocksOf(u, maxGcRounds, anchors[..k])
  {
    hide BlocksOf, SubdagOf;
    AnchorsCount(BlocksOf(u, maxGcRounds, anchors));
    BlockAt(u, maxGcRounds, anchors, k);
  }

  /** Once a validator is refused, no validator ever gets further than that validator then was. */
  lemma RefusedForAll(
    p: Protocol, u: Universe, actions: seq<Action>, v: Validator, ledger: set<CertificateId>,
    others: seq<Action>, w: Validator)
    requires WellFormed(p, u) && p.maxGcRounds >= 1 && IsRun(p, u, actions, v) && IsRun(p, u, others, w)
    requires v.flight.Some? && v.flight.value.remaining != [] && !v.flight.value.skipConsensus
    requires ledger <= DoneIds(v.accepted) && Keyed(v.storage)
    requires var anchor := v.flight.value.remaining[0];
             var r := OrderDag(Env(v.dag, v.storage, ledger, p.maxGcRounds), anchor);
             r.Ok? && !Passes(r.value, anchor.round)
    ensures |w.accepted| <= |v.accepted|
  {
    hide WellFormed, IsRun, TooDeep, Passes, BlocksOf, StorageInv, GraphInv, IdsInv, GcInv, ReadyInv, OrderDag, DoneIds, SameDone, Shaped;
    var f := v.flight.value;
    SubdagPasses(p, u, actions, v, ledger);
    var x :| TooDeep(u, PastOf(v.accepted, p.maxGcRounds), f.remaining[0], x);
    RunsKeepInv(p, u, actions, v);
    var anchors := AnchorsOf(v.accepted);
    assert Committable(p, u, anchors + [f.remaining[0]]) by {
      hide Chain, Direct;
      assert anchors + [f.remaining[0]] <= anchors + f.remaining;
    }
    SameDoneAll(v.accepted, BlocksOf(u, p.maxGcRounds, anchors), p.maxGcRounds);
    NobodyGetsPast(p, u, anchors, f.remaining[0], x, others, w);
  }

  lemma {:induction false} CallGrows(p: Protocol, v: Validator, answers: nat -> Answers, k: nat)
    requires v.flight.Some? && Keyed(v.storage)
    ensures v.accepted <= Call(p, v, answers, k).accepted
    decreases |v.flight.value.remaining|
  {
    hide Submits, OrderDag, CommittedAll, Flatten, Passes;
    if v.flight.value.remaining != [] && Submits(p, v, answers(k)) {
      var next := Decided(p, v, answers(k).ledger, answers(k).accept);
      if next.flight.Some? {
        CallGrows(p, next, answers, k + 1);
      }
    }
  }

  /** In front of a refused anchor every commit call, for whatever leader is ready, accepts nothing. */
  lemma CallsAcceptNothing(
    p: Protocol, u: Universe, next: Certificate, x: Certificate,
    actions: seq<Action>, v: Validator, leader: Certificate, answers: nat -> Answers)
    requires WellFormed(p, u) && p.maxGcRounds >= 1 && IsRun(p, u, actions, v)
    requires Committable(p, u, AnchorsOf(v.accepted) + [next])
    requires TooDeep(u, PastOf(v.accepted, p.maxGcRounds), next, x)
    requires Enabled(v, Lock(leader)) && Locked(p, v, leader).flight.Some? && Keyed(v.storage) && LocksInTime(p, u, v, leader)
    requires Truthful(p, Locked(p, v, leader), answers, 0)
    ensures Call(p, Locked(p, v, leader), answers, 0).accepted == v.accepted
  {
    hide WellFormed, IsRun, Committable, TooDeep, BlocksOf, StorageInv, GraphInv, IdsInv, GcInv, ReadyInv, FlightInv, LocalWalk,
         Call, Truthful, LocksInTime, SameDone, Shaped, DoneIds;
    RunsKeepInv(p, u, actions, v);
    var locked := Locked(p, v, leader);
    RunExtends(p, u, actions, v, Lock(leader), locked);
    var more := CallIsRun(p, u, actions + [Lock(leader)], locked, answers, 0);
    CallGrows(p, locked, answers, 0);
    assert |AnchorsOf(v.accepted)| == |v.accepted|;
    SameDoneAll(v.accepted, BlocksOf(u, p.maxGcRounds, AnchorsOf(v.accepted)), p.maxGcRounds);
    NobodyGetsPast(p, u, AnchorsOf(v.accepted), next, x, more, Call(p, locked, answers, 0));
  }
}
