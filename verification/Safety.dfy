/**
 What holds of every run: no two validators fork, no certificate is committed twice, and the error paths of
 the commit procedure that would stop a validator for good are not reachable.
 */
module Safety {
  import opened Types
  import opened Committees
  import opened CertificateGraph
  import opened Anchors
  import opened Dags
  import opened Views
  import opened Ordering
  import opened Subdags
  import opened Levels
  import opened Blocks
  import opened SubdagChecks
  import opened BlockChecks
  import opened BlockAnchors
  import opened Storages
  import opened CommitRuns

  /** Two validators, however their runs interleave, commit the same anchors as far as both have got. */
  lemma AnchorAgreement(
    p: Protocol, u: Universe, actions: seq<Action>, v: Validator, actions': seq<Action>, v': Validator)
    requires WellFormed(p, u) && p.maxGcRounds >= 1
    requires IsRun(p, u, actions, v) && IsRun(p, u, actions', v')
    ensures PrefixComparable(AnchorsOf(v.accepted), AnchorsOf(v'.accepted))
  {
    hide WellFormed, IsRun, Committable, BlocksOf, SameDone, Shaped;
    RunsKeepInv(p, u, actions, v);
    RunsKeepInv(p, u, actions', v');
    CommittableAgree(p, u, AnchorsOf(v.accepted), AnchorsOf(v'.accepted));
  }

  /** A block adds just what the block of its anchor holds. */
  lemma NewIsFound(p: Protocol, u: Universe, v: Validator, k: nat)
    requires WellFormed(p, u) && p.maxGcRounds >= 1 && LedgerInv(p, u, v) && k < |v.accepted|
    ensures var blocks := BlocksOf(u, p.maxGcRounds, AnchorsOf(v.accepted));
            && |blocks| == |v.accepted| && DoneIds(v.accepted[..k]) == DoneIds(blocks[..k])
            && NewIds(DoneIds(v.accepted[..k]), v.accepted[k].subdag) == IdsOf(blocks[k].subdag)
  {
    hide WellFormed, BlocksOf, DoneIds, IdsOf, AnchorsOf, Shaped, Committable;
    var anchors := AnchorsOf(v.accepted);
    var blocks := BlocksOf(u, p.maxGcRounds, anchors);
    CommittableShape(p, u, anchors);
    assert DoneIds(v.accepted[..k]) == DoneIds(blocks[..k]) && DoneIds(v.accepted[..k + 1]) == DoneIds(blocks[..k + 1]);
    assert v.accepted[..k + 1] == v.accepted[..k] + [v.accepted[k]] && blocks[..k + 1] == blocks[..k] + [blocks[k]];
    DoneExtended(v.accepted[..k], v.accepted[k]);
    DoneExtended(blocks[..k], blocks[k]);
    FoundIsNew(p, u, anchors, k) by { assert |anchors| == |v.accepted| by { AnchorsCount(v.accepted); } }
  }

  lemma AnchorsCount(blocks: seq<Block>)
    ensures |AnchorsOf(blocks)| == |blocks|
  {
  }

  /** The block of an anchor holds nothing that an earlier one does. */
  lemma FoundIsNew(p: Protocol, u: Universe, anchors: seq<Certificate>, k: nat)
    requires WellFormed(p, u) && p.maxGcRounds >= 1 && LeadersAscend(p, u, anchors) && k < |anchors|
    ensures var blocks := BlocksOf(u, p.maxGcRounds, anchors);
            |blocks| == |anchors| && IdsOf(blocks[k].subdag) !! DoneIds(blocks[..k])
  {
    hide WellFormed, BlocksOf, DoneIds, IdsOf, LeadersAscend;
    IsKeyed(p, u);
    var blocks := BlocksOf(u, p.maxGcRounds, anchors);
    AnchorsCount(blocks);
    forall i | i in DoneIds(blocks[..k]) ensures i !in IdsOf(blocks[k].subdag) {
      var j := DoneSomewhere(blocks[..k], i);
      BlocksDisjoint(p, u, p.maxGcRounds, anchors, j, k);
    }
  }

  /**
   Two validators agree on each block that both have: its anchor, what was committed before it, and what it adds. If
   both found it themselves, they agree on all of it: the same certificates in the same order in every round.
   */
  ghost predicate AgreeAt(p: Protocol, u: Universe, a: seq<Block>, b: seq<Block>, k: nat)
    requires Keyed(u) && k < |a| && k < |b|
  {
    && a[k].anchor == b[k].anchor
    && DoneIds(a[..k]) == DoneIds(b[..k])
    && NewIds(DoneIds(a[..k]), a[k].subdag) == NewIds(DoneIds(b[..k]), b[k].subdag)
    && (IsOwn(p, u, a, k) && IsOwn(p, u, b, k) ==> a[k] == b[k])
  }

  lemma BlockAgreement(
    p: Protocol, u: Universe, actions: seq<Action>, v: Validator, actions': seq<Action>, v': Validator, k: nat)
    requires WellFormed(p, u) && p.maxGcRounds >= 1 && Keyed(u)
    requires IsRun(p, u, actions, v) && IsRun(p, u, actions', v') && k < |v.accepted| && k < |v'.accepted|
    ensures AgreeAt(p, u, v.accepted, v'.accepted, k)
  {
    hide WellFormed, IsRun, StorageInv, GraphInv, IdsInv, LedgerInv, ReadyInv, GcInv, FlightInv, BlocksOf, DoneIds, IdsOf, OrderDag;
    RunsKeepInv(p, u, actions, v);
    RunsKeepInv(p, u, actions', v');
    AnchorAgreement(p, u, actions, v, actions', v');
    NewIsFound(p, u, v, k);
    NewIsFound(p, u, v', k);
    var anchors, anchors' := AnchorsOf(v.accepted), AnchorsOf(v'.accepted);
    assert anchors[..k + 1] == anchors'[..k + 1];
    assert anchors[..k] == anchors[..k + 1][..k] == anchors'[..k];
    SameBlockAt(u, p.maxGcRounds, anchors, anchors', k);
    assert anchors[..k + 1][k] == anchors[k] && anchors'[..k + 1][k] == anchors'[k];
    assert AnchorsOf(v.accepted[..k]) == anchors[..k] && AnchorsOf(v'.accepted[..k]) == anchors'[..k];
    assert PastOf(v.accepted[..k], p.maxGcRounds) == PastOf(v'.accepted[..k], p.maxGcRounds);
  }

  lemma SameBlockAt(u: Universe, maxGcRounds: nat, a: seq<Certificate>, b: seq<Certificate>, k: nat)
    requires Keyed(u) && k < |a| && k < |b| && a[..k + 1] == b[..k + 1]
    ensures var x, y := BlocksOf(u, maxGcRounds, a), BlocksOf(u, maxGcRounds, b);
            |x| == |a| && |y| == |b| && x[..k] == y[..k] && x[k] == y[k]
  {
    hide BlocksOf, SubdagOf;
    assert a[..k] == a[..k + 1][..k] && b[..k] == b[..k + 1][..k];
    assert a[k] == a[..k + 1][k] && b[k] == b[..k + 1][k];
    AnchorsCount(BlocksOf(u, maxGcRounds, a));
    AnchorsCount(BlocksOf(u, maxGcRounds, b));
    BlockAt(u, maxGcRounds, a, k);
    BlockAt(u, maxGcRounds, b, k);
  }

  ghost predicate TakesNoBlock(actions: seq<Action>) {
    forall a :: a in actions ==> !a.CommitBlock?
  }

  /** Validators that take no block from a peer agree on their blocks to the last detail. */
  lemma OwnBlockAgreement(
    p: Protocol, u: Universe, actions: seq<Action>, v: Validator, actions': seq<Action>, v': Validator)
    requires WellFormed(p, u) && p.maxGcRounds >= 1
    requires IsRun(p, u, actions, v) && IsRun(p, u, actions', v') && TakesNoBlock(actions) && TakesNoBlock(actions')
    ensures PrefixComparable(v.accepted, v'.accepted)
  {
    hide CertificateValid, IsRun, DoneIds, IsOwn;
    forall k | 0 <= k < |v.accepted| && k < |v'.accepted| ensures v.accepted[k] == v'.accepted[k] {
      OwnUnlessTaken(p, u, actions, v, k);
      OwnUnlessTaken(p, u, actions', v', k);
      BlockAgreement(p, u, actions, v, actions', v', k);
    }
  }

  /** Blocks are never revoked. */
  lemma AcceptedGrows(p: Protocol, u: Universe, w: Validator, a: Action, v: Validator)
    requires Moves(p, u, w, a, v)
    ensures w.accepted <= v.accepted
  {
    hide OrderDag, LocalWalk;
  }

  /** Anchors have strictly increasing even rounds, and a block that a validator found itself holds nothing that an earlier one does. */
  lemma AcceptedAtMostOnce(p: Protocol, u: Universe, actions: seq<Action>, v: Validator)
    requires WellFormed(p, u) && p.maxGcRounds >= 1 && IsRun(p, u, actions, v) && Keyed(u)
    ensures forall j, k :: 0 <= j < k < |v.accepted| ==> v.accepted[j].anchor.round < v.accepted[k].anchor.round
    ensures forall k :: 0 <= k < |v.accepted| ==> v.accepted[k].anchor.round % 2 == 0
    ensures forall k :: 0 <= k < |v.accepted| && IsOwn(p, u, v.accepted, k) ==>
              IdsOf(v.accepted[k].subdag) !! DoneIds(v.accepted[..k])
  {
    hide WellFormed, IsRun, Committable, BlocksOf, IdsOf, DoneIds, SubdagOf, SameDone, Shaped;
    RunsKeepInv(p, u, actions, v);
    var anchors := AnchorsOf(v.accepted);
    CommittableShape(p, u, anchors);
    forall j, k | 0 <= j < k < |v.accepted| ensures v.accepted[j].anchor.round < v.accepted[k].anchor.round {
      assert anchors[j].round < anchors[k].round;
    }
    forall k | 0 <= k < |v.accepted| ensures v.accepted[k].anchor.round % 2 == 0 {
      assert IsLeader(p, u, anchors[k]);
    }
    forall k | 0 <= k < |v.accepted| && IsOwn(p, u, v.accepted, k)
      ensures IdsOf(v.accepted[k].subdag) !! DoneIds(v.accepted[..k])
    {
      OwnIsFound(p, u, v, k);
      FoundIsNew(p, u, anchors, k);
    }
  }

  lemma OwnIsFound(p: Protocol, u: Universe, v: Validator, k: nat)
    requires WellFormed(p, u) && p.maxGcRounds >= 1 && LedgerInv(p, u, v) && k < |v.accepted| && IsOwn(p, u, v.accepted, k)
    ensures var blocks := BlocksOf(u, p.maxGcRounds, AnchorsOf(v.accepted));
            |blocks| == |v.accepted| && DoneIds(v.accepted[..k]) == DoneIds(blocks[..k]) && v.accepted[k] == blocks[k]
  {
    hide WellFormed, BlocksOf, DoneIds, OrderDag, Shaped, Committable;
    var anchors := AnchorsOf(v.accepted);
    var blocks := BlocksOf(u, p.maxGcRounds, anchors);
    NewIsFound(p, u, v, k);
    BlockAt(u, p.maxGcRounds, anchors, k);
    SameDonePast(v.accepted, blocks, k, p.maxGcRounds);
  }

  /** A block adds its anchor and exactly the rest of the anchor's history that is recent enough and in no earlier block. */
  lemma AcceptedIsHistory(p: Protocol, u: Universe, actions: seq<Action>, v: Validator, k: nat, i: CertificateId)
    requires WellFormed(p, u) && p.maxGcRounds >= 1 && IsRun(p, u, actions, v) && k < |v.accepted|
    ensures var anchor := v.accepted[k].anchor;
            var past := PastOf(v.accepted[..k], p.maxGcRounds);
            i in NewIds(past.done, v.accepted[k].subdag) <==>
              i in u && (u[i] == anchor || (Linked(u, anchor, u[i]) && i !in past.done && AboveCutoff(past, u[i])))
  {
    hide CertificateValid, IsRun, Committable, BlocksOf, Linked, DoneIds, IdsOf, StorageInv, GraphInv, IdsInv, ReadyInv, GcInv, FlightInv,
         Shaped, FiledByRound;
    RunsKeepInv(p, u, actions, v);
    var anchors := AnchorsOf(v.accepted);
    var blocks := BlocksOf(u, p.maxGcRounds, anchors);
    CommittableShape(p, u, anchors);
    NewIsFound(p, u, v, k);
    SameDonePast(v.accepted, blocks, k, p.maxGcRounds);
    IdsOfBlock(p, u, anchors, k, i);
    if i in u {
      BlockIsHistory(p, u, p.maxGcRounds, anchors, k, u[i]);
    }
  }

  lemma IdsOfBlock(p: Protocol, u: Universe, anchors: seq<Certificate>, k: nat, i: CertificateId)
    requires WellFormed(p, u) && p.maxGcRounds >= 1 && LeadersAscend(p, u, anchors) && k < |anchors|
    ensures var blocks := BlocksOf(u, p.maxGcRounds, anchors);
            |blocks| == |anchors| && (i in IdsOf(blocks[k].subdag) <==> i in u && InSubdag(blocks[k].subdag, u[i]))
  {
    hide CertificateValid, OrderDag, Reaches, Exact, NonEquivocating, SoundCommittees;
    var before := BlocksOf(u, p.maxGcRounds, anchors[..k]);
    var past := PastOf(before, p.maxGcRounds);
    AscendPrefix(p, u, anchors, k);
    PastIsValid(p, u, p.maxGcRounds, anchors[..k]);
    BlockAt(u, p.maxGcRounds, anchors, k);
    AnchorsCount(BlocksOf(u, p.maxGcRounds, anchors));
    assert IsLeader(p, u, anchors[k]);
    OrderDagIsExact(p, u, past, anchors[k]);
    var m := SubdagOf(u, before, p.maxGcRounds, anchors[k]);
    ExactIsPart(u, past, anchors[k], m);
    InIdsOf(u, m, i);
  }

  /** In a block that a validator found itself, each row lists what the row above references, from left to right. */
  lemma OwnIsByLevel(p: Protocol, u: Universe, actions: seq<Action>, v: Validator, k: nat, round: nat)
    requires WellFormed(p, u) && p.maxGcRounds >= 1 && Keyed(u) && IsRun(p, u, actions, v)
    requires k < |v.accepted| && IsOwn(p, u, v.accepted, k)
    ensures RoundOf(v.accepted[k].subdag, round)
            == Level(u, PastOf(v.accepted[..k], p.maxGcRounds), v.accepted[k].anchor, round)
  {
    hide WellFormed, IsRun, StorageInv, GraphInv, IdsInv, ReadyInv, GcInv, FlightInv, BlocksOf, SameDone, Shaped, Committable, OrderDag,
         Level, DoneIds;
    RunsKeepInv(p, u, actions, v);
    var anchors := AnchorsOf(v.accepted);
    CommittableShape(p, u, anchors);
    AscendPrefix(p, u, anchors, k);
    assert IsLeader(p, u, anchors[k]);
    assert AnchorsOf(v.accepted[..k]) == anchors[..k];
    OrderDagIsByLevel(p, u, PastOf(v.accepted[..k], p.maxGcRounds), v.accepted[k].anchor, round);
  }

  /** The search for the next anchor never misses a certificate, whatever the ledger answers or fails to answer. */
  lemma SearchNeverFails(p: Protocol, u: Universe, actions: seq<Action>, v: Validator, ledger: set<CertificateId>)
    requires WellFormed(p, u) && p.maxGcRounds >= 1 && IsRun(p, u, actions, v)
    requires v.flight.Some? && v.flight.value.remaining != [] && ledger <= DoneIds(v.accepted)
    ensures Keyed(v.storage)
    ensures OrderDag(Env(v.dag, v.storage, ledger, p.maxGcRounds), v.flight.value.remaining[0]).Ok?
  {
    hide CertificateValid, IsRun, Committable, BlocksOf, OrderDag, DoneIds, Exact, Chain, Direct;
    RunsKeepInv(p, u, actions, v);
    SearchSucceeds(p, u, v, ledger);
  }

  /** No round is missing between the last committed one and a leader about to be committed, so no path search fails. */
  lemma WalkNeverFails(p: Protocol, u: Universe, actions: seq<Action>, v: Validator, leader: Certificate, round: nat)
    requires WellFormed(p, u) && p.maxGcRounds >= 1 && IsRun(p, u, actions, v)
    requires leader in v.ready && v.dag.lastCommittedRound < round <= leader.round && AllFiled(v)
    ensures round in v.dag.graph
  {
    hide WellFormed, IsRun, Committable, BlocksOf, Direct, ClosedAbove;
    RunsKeepInv(p, u, actions, v);
    ViewIsClosed(p, u, v);
    LeaderIsRecent(p, u, v, leader);
    StoredIsInGraph(p, u, v, leader);
    NoRoundMissing(p, u, v.dag.graph, v.dag.lastCommittedRound, leader, round);
  }

  /** Garbage collection at the end of a chunk never tries to move backwards. */
  lemma CollectionNeverDecreases(p: Protocol, u: Universe, actions: seq<Action>, v: Validator)
    requires WellFormed(p, u) && p.maxGcRounds >= 1 && IsRun(p, u, actions, v)
    requires v.flight.Some? && v.flight.value.remaining == []
    ensures SaturatingSub(v.flight.value.latest.round, p.maxGcRounds) >= v.gcRound
  {
    hide WellFormed, IsRun, Committable, BlocksOf;
    RunsKeepInv(p, u, actions, v);
    FlightDone(p, u, v);
  }
}
