/**
 The commit procedure of node/bft/src/bft.rs, in the imperative form of the source. Each method is proved to
 compute the function of the state that the runs of CommitRuns.dfy are made of, so what is proved of runs holds
 of these methods.
 */
module Bfts {
  import opened Types
  import opened Committees
  import opened CertificateGraph
  import opened Anchors
  import opened Dags
  import opened Views
  import opened Ordering
  import opened Subdags
  import opened Blocks
  import opened DagCommits
  import opened SubdagChecks
  import opened BlockChecks
  import opened Rebuilds
  import opened Storages
  import opened CommitRuns
  import opened Transmissions

  /**
   What one anchor's commit learns from outside: the certificates the ledger confirms, the transmissions that the
   ledger has (or cannot look up) and that storage holds, and whether consensus accepts the subdag.
   */
  datatype Answers = Answers(
    ledger: set<CertificateId>, inLedger: set<TransmissionId>, stored: set<TransmissionId>, accept: bool)

  /** The next anchor's subdag is found, its transmissions are at hand, and it is well-shaped. */
  ghost predicate Submits(p: Protocol, v: Validator, a: Answers)
    requires v.flight.Some? && v.flight.value.remaining != [] && Keyed(v.storage)
  {
    var anchor := v.flight.value.remaining[0];
    var r := OrderDag(Env(v.dag, v.storage, a.ledger, p.maxGcRounds), anchor);
    && r.Ok?
    && Extractable(AllTransmissions(Flatten(r.value, anchor.round + 1)), a.inLedger, a.stored)
    && Passes(r.value, anchor.round)
  }

  /** What a commit call that holds the lock makes of the state. */
  ghost function Call(p: Protocol, v: Validator, answers: nat -> Answers, k: nat): (w: Validator)
    requires v.flight.Some? && Keyed(v.storage)
    ensures w.flight.None?
    decreases |v.flight.value.remaining|
  {
    if v.flight.value.remaining == [] then Finished(p, v)
    else if !Submits(p, v, answers(k)) then v.(flight := None)
    else
      var next := Decided(p, v, answers(k).ledger, answers(k).accept);
      if next.flight.None? then next else Call(p, next, answers, k + 1)
  }

  /** The ledger confirms only certificates that are in blocks. */
  ghost predicate Truthful(p: Protocol, v: Validator, answers: nat -> Answers, k: nat)
    requires v.flight.Some? && Keyed(v.storage)
    decreases |v.flight.value.remaining|
  {
    v.flight.value.remaining != [] ==>
      && answers(k).ledger <= DoneIds(v.accepted)
      && var next := Decided(p, v, answers(k).ledger, answers(k).accept);
         (Submits(p, v, answers(k)) && next.flight.Some? ==> Truthful(p, next, answers, k + 1))
  }

  /** Block sync stores the certificates of a block, but for those that are collected or stored already. */
  function StoredIfMissing(v: Validator, c: Certificate): Validator {
    if c.round <= v.gcRound || c.id in v.storage then v else WithStored(v, c)
  }

  function MissingStored(v: Validator, cs: seq<Certificate>): Validator {
    if cs == [] then v else StoredIfMissing(MissingStored(v, cs[..|cs| - 1]), cs[|cs| - 1])
  }

  /** Then it files all of them. */
  function SyncedAll(v: Validator, cs: seq<Certificate>): Validator {
    if cs == [] then v else WithSynced(SyncedAll(v, cs[..|cs| - 1]), cs[|cs| - 1])
  }

  /** Storage then has what it had and all of them that are not collected, and nothing else changes. */
  lemma {:induction false} MissingStoredIs(v: Validator, cs: seq<Certificate>, i: CertificateId)
    ensures var w := MissingStored(v, cs);
            && w == v.(storage := w.storage)
            && (i in w.storage <==> i in v.storage || exists c :: c in cs && c.id == i && c.round > v.gcRound)
            && (i in w.storage ==> if i in v.storage then w.storage[i] == v.storage[i] else w.storage[i] in cs && w.storage[i].id == i)
    decreases |cs|
  {
    if cs != [] {
      var n := |cs| - 1;
      MissingStoredIs(v, cs[..n], i);
      assert cs == cs[..n] + [cs[n]];
      if i in MissingStored(v, cs[..n]).storage && i !in v.storage {
        var c :| c in cs[..n] && c.id == i && c.round > v.gcRound;
        assert c in cs;
      }
    }
  }

  /** The DAG then has what it had and all of them that are not committed, and nothing else changes. */
  lemma {:induction false} SyncedAllIs(p: Protocol, u: Universe, v: Validator, cs: seq<Certificate>)
    requires WellFormed(p, u) && Faithful(u, v.dag.graph) && forall c :: c in cs ==> Member(u, c)
    ensures var w := SyncedAll(v, cs);
            && w == v.(dag := v.dag.(graph := w.dag.graph)) && Faithful(u, w.dag.graph)
            && forall x :: InGraph(w.dag.graph, x) <==>
                 InGraph(v.dag.graph, x) || (x in cs && !IsRecentlyCommitted(v.dag, x.round, x.id))
    decreases |cs|
  {
    hide WellFormed, Faithful, InGraph, Inserted;
    if cs != [] {
      var n := |cs| - 1;
      var before := SyncedAll(v, cs[..n]);
      SyncedAllIs(p, u, v, cs[..n]);
      InsertKeepsRest(before.dag, cs[n]);
      assert forall x :: x in cs <==> x in cs[..n] || x == cs[n] by { assert cs == cs[..n] + [cs[n]]; }
      if IsRecentlyCommitted(before.dag, cs[n].round, cs[n].id) {
        SameIfCommitted(before.dag, cs[n]);
      } else {
        InsertKeepsGraph(p, u, before.dag, cs[n]);
      }
    }
  }

  /** A commit call is a stretch of a run, so whatever holds of every run holds before and after it. */
  lemma {:induction false} CallIsRun(
    p: Protocol, u: Universe, actions: seq<Action>, v: Validator, answers: nat -> Answers, k: nat)
    returns (more: seq<Action>)
    requires IsRun(p, u, actions, v) && v.flight.Some? && Keyed(v.storage) && Truthful(p, v, answers, k)
    ensures IsRun(p, u, more, Call(p, v, answers, k))
    decreases |v.flight.value.remaining|
  {
    hide IsRun, Submits, Decided, Finished, DoneIds;
    var w := Call(p, v, answers, k);
    if v.flight.value.remaining == [] {
      RunExtends(p, u, actions, v, Finish, w);
      more := actions + [Finish];
    } else if !Submits(p, v, answers(k)) {
      RunExtends(p, u, actions, v, Abort, w);
      more := actions + [Abort];
    } else {
      var a := Decide(answers(k).ledger, answers(k).accept);
      var next := Decided(p, v, answers(k).ledger, answers(k).accept);
      RunExtends(p, u, actions, v, a, next);
      if next.flight.None? {
        more := actions + [a];
      } else {
        DecidedKeeps(p, v, answers(k).ledger, answers(k).accept);
        more := CallIsRun(p, u, actions + [a], next, answers, k + 1);
      }
    }
  }

  lemma DecidedKeeps(p: Protocol, v: Validator, ledger: set<CertificateId>, accept: bool)
    requires v.flight.Some? && v.flight.value.remaining != [] && Keyed(v.storage)
    ensures var w := Decided(p, v, ledger, accept);
            && w.storage == v.storage
            && (w.flight.Some? ==> |w.flight.value.remaining| < |v.flight.value.remaining|)
  {
  }

  /** Certificate IDs are hashes: within a round they do not repeat. */
  ghost predicate IdsDistinct(g: Graph) {
    forall x, y :: InGraph(g, x) && InGraph(g, y) && x.id == y.id ==> x == y
  }

  datatype CommitOutcome = Superseded | LinkFailed(error: LinkError) | SearchFailed | NotSubmitted | Rejected | Done

  class Bft {
    const p: Protocol
    const dag: Dag
    const storage: Storage
    var accepted: seq<Block>

    /** Before the rounds of the committee exceed the depth of collection, this is the start of a run. */
    constructor (p: Protocol, startingRound: nat)
      ensures Valid() && View({}) == GENESIS.(gcRound := SaturatingSub(if startingRound == 0 then 1 else startingRound, p.maxGcRounds))
      ensures 1 <= p.maxGcRounds && startingRound <= p.maxGcRounds ==> View({}) == GENESIS
      ensures this.p == p && fresh(dag) && fresh(storage)
    {
      this.p := p;
      accepted := [];
      dag := new Dag();
      storage := new Storage(p.committee, p.maxGcRounds, startingRound);
    }

    ghost predicate Valid()
      reads this, dag, storage
    {
      && dag.Valid() && storage.Valid()
      && storage.committee == p.committee && storage.maxGcRounds == p.maxGcRounds
      && IdsDistinct(dag.graph)
    }

    /** The state as a run sees it, between commit calls. */
    ghost function View(ready: set<Certificate>): Validator
      reads this, dag, storage
    {
      Validator(dag.View(), storage.certificates, storage.gcRound, ready, None, accepted)
    }

    /** Inserts a certificate into the DAG, and says which leader is ready to be committed. */
    method AddNewCertificate(c: Certificate) returns (elected: Option<Certificate>)
      requires Valid()
      requires forall x :: InGraph(dag.graph, x) && x.id == c.id ==> x == c
      modifies dag
      ensures Valid()
      ensures dag.View() == Inserted(old(dag.View()), c)
      ensures elected == Elected(p, dag.View(), c)
    {
      hide Storage.Valid, Stake;
      dag.Insert(c);
      assert IdsDistinct(dag.graph) by { InsertKeepsDistinct(old(dag.View()), c); }
      elected := None;
      var commitRound := if c.round == 0 then 0 else c.round - 1;
      if commitRound % 2 != 0 || commitRound < 2 {
        return;
      }
      if commitRound <= dag.lastCommittedRound {
        return;
      }
      var leader := CertificateWithAuthor(dag.graph, commitRound, p.leader(commitRound));
      if leader.None? {
        return;
      }
      var authors := VotersIn(dag.graph, c.round, leader.value);
      var available := IsAvailabilityThresholdReached(p.committee(c.round), authors);
      if available {
        elected := leader;
      }
    }

    /** Stores a certificate, and passes it on to the DAG if storage takes it. */
    method ReceiveCertificate(c: Certificate, endorsers: set<Address>, admissible: bool,
                              ghost ready: set<Certificate>, ghost u: Universe, ghost actions: seq<Action>)
      returns (r: Result<Option<Certificate>, StorageError>)
      requires Valid()
      requires forall x :: InGraph(dag.graph, x) && x.id == c.id ==> x == c
      modifies dag, storage
      ensures Valid()
      ensures r.Ok? <==> old(storage.Accepts(c, endorsers, admissible))
      ensures r.Err? ==> View(ready) == old(View(ready))
      ensures r.Ok? ==> Insertable(old(View(ready)), c)
      ensures r.Ok? ==> View(ready + if r.value.Some? then {r.value.value} else {}) == Received(p, old(View(ready)), c)
      ensures r.Ok? && IsRun(p, u, actions, old(View(ready))) && Member(u, c) ==>
                IsRun(p, u, actions + [Store(c)] + [File(c)], View(ready + if r.value.Some? then {r.value.value} else {}))
    {
      hide Storage.Valid, IdsDistinct, Dag.Valid, Inserted, Elected, SignersHold, IsRun;
      ghost var before := View(ready);
      var stored := storage.InsertCertificate(c, endorsers, admissible);
      if stored.Err? {
        return Err(stored.error);
      }
      var elected := AddNewCertificate(c);
      assert ready + {} == ready;
      if IsRun(p, u, actions, before) && Member(u, c) {
        ReceiveIsRun(p, u, actions, before, c);
      }
      r := Ok(elected);
    }

    /** Walks back over the earlier leaders that the newest one has a path to; the anchors come oldest first. */
    method WalkBackLeaders(leader: Certificate) returns (r: Result<seq<Certificate>, LinkError>)
      requires dag.Valid()
      ensures r.Ok? ==> r.value == LocalWalk(p, dag.graph, leader, leader.round as int - 2, dag.lastCommittedRound + 2) + [leader]
      ensures r.Err? ==> exists k :: dag.lastCommittedRound < k < leader.round && k !in dag.graph
    {
      hide LinkedIn;
      var floor := dag.lastCommittedRound + 2;
      var anchors := [leader];
      var current := leader;
      var round: int := leader.round as int - 2;
      while round >= floor
        invariant round < current.round <= leader.round
        invariant LocalWalk(p, dag.graph, leader, leader.round as int - 2, floor) + [leader]
               == LocalWalk(p, dag.graph, current, round, floor) + anchors
      {
        var previous := CertificateWithAuthor(dag.graph, round, p.leader(round));
        if previous.Some? {
          var linked := dag.IsLinked(previous.value, current);
          if linked.Err? {
            return Err(linked.error);
          }
          if linked.value {
            assert LocalWalk(p, dag.graph, previous.value, round - 2, floor) + [previous.value] + anchors
                == LocalWalk(p, dag.graph, previous.value, round - 2, floor) + ([previous.value] + anchors);
            anchors := [previous.value] + anchors;
            current := previous.value;
          }
        }
        round := round - 2;
      }
      assert LocalWalk(p, dag.graph, current, round, floor) + anchors == anchors;
      r := Ok(anchors);
    }

    /** Looks a certificate up in the DAG, then in storage. */
    method FindCertificate(round: nat, id: CertificateId, ghost env: Env) returns (r: Option<Certificate>)
      requires Valid() && Keyed(storage.certificates)
      requires env.dag == dag.View() && env.storage == storage.certificates
      ensures r == Lookup(env, round, id)
    {
      hide Storage.Valid;
      var row := Row(dag.graph, round);
      if a :| a in row && row[a].id == id {
        RowLookup(env, round, id, a);
        return Some(row[a]);
      }
      r := if id in storage.certificates then Some(storage.certificates[id]) else None;
    }

    /** The explicit-stack search for what a leader commits. */
    method OrderDagWithDfs(leader: Certificate, ledger: set<CertificateId>) returns (r: Result<Subdag, CertificateId>)
      requires Valid() && Keyed(storage.certificates)
      ensures r == OrderDag(Env(dag.View(), storage.certificates, ledger, p.maxGcRounds), leader)
    {
      hide Storage.Valid, IdsDistinct, Lookup, KnownIds, Dag.Valid, Expand, Run, Step;
      ghost var env := Env(dag.View(), storage.certificates, ledger, p.maxGcRounds);
      var commit: Subdag := map[];
      var ordered: set<CertificateId> := {};
      var buffer := [leader];
      while buffer != []
        invariant Run(env, Start(leader)) == Run(env, Search(commit, ordered, buffer))
        decreases KnownIds(env) - ordered, |buffer|
      {
        ghost var before := Search(commit, ordered, buffer);
        var c := buffer[|buffer| - 1];
        buffer := buffer[..|buffer| - 1];
        commit := AddToRound(commit, c);
        if PreviousRound(c) + storage.maxGcRounds <= dag.lastCommittedRound {
          StepBelowCutoff(env, before);
          RunStep(env, before);
          continue;
        }
        StepExpands(env, before);
        for k := |c.previous| downto 0
          invariant Step(env, before) == Expand(env, c, k, Search(commit, ordered, buffer))
        {
          var id := c.previous[k];
          ExpandStep(env, c, k + 1, Search(commit, ordered, buffer));
          if id in ordered || IsRecentlyCommitted(dag.View(), PreviousRound(c), id) || id in ledger {
            continue;
          }
          var previous := FindCertificate(PreviousRound(c), id, env);
          if previous.None? {
            RunFails(env, before);
            return Err(id);
          }
          ordered := ordered + {previous.value.id};
          buffer := buffer + [previous.value];
        }
        ExpandDone(env, c, Search(commit, ordered, buffer));
        RunStep(env, before);
      }
      RunDone(env, Search(commit, ordered, buffer));
      r := Ok(RetainRounds(commit, storage.maxGcRounds, dag.lastCommittedRound));
    }

    /** Commits the certificates of a subdag to the DAG, by round and then in order. */
    method CommitSubdag(subdag: Subdag, top: nat)
      requires Valid()
      modifies dag
      ensures Valid()
      ensures dag.View() == CommittedAll(old(dag.View()), Flatten(subdag, top + 1), p.maxGcRounds)
    {
      hide Storage.Valid, Filed, Committed;
      var cs := Flatten(subdag, top + 1);
      for i := 0 to |cs|
        invariant dag.Valid()
        invariant dag.View() == CommittedAll(old(dag.View()), cs[..i], p.maxGcRounds)
      {
        dag.Commit(cs[i], storage.maxGcRounds);
        assert cs[..i + 1][..i] == cs[..i];
      }
      assert cs[..|cs|] == cs;
      CommitKeepsDistinct(old(dag.View()), cs, p.maxGcRounds);
    }

    /** Finds the subdag of one anchor, hands it to consensus, and commits it to the DAG. */
    method CommitAnchor(anchor: Certificate, skipConsensus: bool, answers: Answers, ghost v: Validator)
      returns (outcome: CommitOutcome)
      requires Valid() && Keyed(storage.certificates)
      requires v.flight.Some? && v.flight.value.remaining != [] && Keyed(v.storage)
      requires v.flight.value.remaining[0] == anchor && v.flight.value.skipConsensus == skipConsensus
      requires v == View(v.ready).(flight := v.flight)
      modifies dag, this`accepted
      ensures Valid()
      ensures !outcome.Superseded? && !outcome.LinkFailed?
      ensures outcome.Done? <==> Submits(p, v, answers) && Decided(p, v, answers.ledger, answers.accept).flight.Some?
      ensures outcome.Done? ==>
                View(v.ready) == Decided(p, v, answers.ledger, answers.accept).(flight := None)
      ensures !outcome.Done? ==> View(v.ready) == v.(flight := None)
    {
      hide Storage.Valid, IdsDistinct, Extractable, Dag.Valid, OrderDag, Passes, CommittedAll, Flatten, Decided;
      var found := OrderDagWithDfs(anchor, answers.ledger);
      if found.Err? {
        return SearchFailed;
      }
      var subdag := found.value;
      DecidedIs(p, v, answers.ledger, answers.accept, subdag);
      var transmissions := ExtractTransmissions(Flatten(subdag, anchor.round + 1), answers.inLedger, answers.stored);
      if transmissions.Err? {
        return NotSubmitted;
      }
      if !Passes(subdag, anchor.round) {
        return NotSubmitted;
      }
      if !skipConsensus {
        if !answers.accept {
          return Rejected;
        }
        accepted := accepted + [Block(anchor, subdag)];
      }
      CommitSubdag(subdag, anchor.round);
      outcome := Done;
    }

    /** Commits the anchors of one call, oldest first, until one of them is not accepted, and then collects garbage. */
    method CommitAnchors(anchors: seq<Certificate>, leader: Certificate, skipConsensus: bool, answers: nat -> Answers,
                         ghost ready: set<Certificate>, ghost start: Validator)
      returns (outcome: CommitOutcome)
      requires Valid() && Keyed(storage.certificates)
      requires start == View(ready).(flight := Some(Flight(anchors, leader, skipConsensus)))
      modifies dag, storage, this`accepted
      ensures Valid() && !outcome.Superseded? && !outcome.LinkFailed?
      ensures View(ready) == Call(p, start, answers, 0)
    {
      hide Indexed, NonEquivocating, Closed, IdsDistinct, Dag.Valid, Submits, Decided;
      ghost var v := start;
      assert anchors[0..] == anchors;
      for k := 0 to |anchors|
        invariant Valid() && Keyed(storage.certificates)
        invariant v == View(ready).(flight := Some(Flight(anchors[k..], leader, skipConsensus)))
        invariant Call(p, start, answers, 0) == Call(p, v, answers, k)
      {
        assert anchors[k..][0] == anchors[k] && anchors[k..][1..] == anchors[k + 1..];
        outcome := CommitAnchor(anchors[k], skipConsensus, answers(k), v);
        CallStep(p, v, answers, k);
        if !outcome.Done? {
          return;
        }
        v := Decided(p, v, answers(k).ledger, answers(k).accept);
      }
      var collected := storage.GarbageCollect(leader.round);
      CollectedIsFinished(p, v);
      outcome := Done;
    }

    /** One commit call, from the moment it holds the lock. */
    method CommitLeaderCertificate(leader: Certificate, answers: nat -> Answers,
                                   ghost ready: set<Certificate>, ghost u: Universe, ghost actions: seq<Action>)
      returns (outcome: CommitOutcome, ghost more: seq<Action>)
      requires Valid() && Keyed(storage.certificates) && leader in ready
      modifies dag, storage, this`accepted
      ensures Valid()
      ensures outcome.Superseded? <==> leader.round < old(dag.lastCommittedRound)
      ensures outcome.LinkFailed? ==> exists k :: old(dag.lastCommittedRound) < k < leader.round && k !in old(dag.graph)
      ensures outcome.Superseded? || outcome.LinkFailed? ==> View(ready) == old(View(ready))
      ensures !outcome.Superseded? && !outcome.LinkFailed? ==>
                View(ready) == Call(p, Locked(p, old(View(ready)), leader), answers, 0)
      ensures var before := old(View(ready));
              && IsRun(p, u, actions, before) && LocksInTime(p, u, before, leader)
              && (leader.round >= before.dag.lastCommittedRound ==> Truthful(p, Locked(p, before, leader), answers, 0)) ==>
                IsRun(p, u, more, View(ready))
    {
      hide Storage.Valid, IdsDistinct, Dag.Valid, Submits, Decided, LocalWalk, IsRun, Truthful, Call, LocksInTime;
      more := actions;
      if leader.round < dag.lastCommittedRound {
        return Superseded, more;
      }
      var skipConsensus := leader.round == dag.lastCommittedRound;
      var walk := WalkBackLeaders(leader);
      if walk.Err? {
        return LinkFailed(walk.error), more;
      }
      var anchors := walk.value;
      ghost var start := Locked(p, View(ready), leader);
      if IsRun(p, u, actions, View(ready)) && LocksInTime(p, u, View(ready), leader) && Truthful(p, start, answers, 0) {
        more := CommitCallIsRun(p, u, actions, View(ready), leader, answers);
      }
      outcome := CommitAnchors(anchors, leader, skipConsensus, answers, ready, start);
    }

    /** Stores a certificate of a block from a peer, unless it is collected or stored already. */
    method SyncCertificate(c: Certificate, endorsers: set<Address>, admissible: bool,
                           ghost ready: set<Certificate>, ghost u: Universe, ghost actions: seq<Action>)
      returns (ok: bool, ghost more: seq<Action>)
      requires Valid()
      modifies storage
      ensures Valid()
      ensures ok <==> old(c.round <= storage.gcRound || c.id in storage.certificates || storage.Accepts(c, endorsers, admissible))
      ensures View(ready) == if ok then StoredIfMissing(old(View(ready)), c) else old(View(ready))
      ensures ok ==> c.round <= storage.gcRound || c.id in storage.certificates
      ensures IsRun(p, u, actions, old(View(ready))) && Member(u, c) ==> IsRun(p, u, more, View(ready))
    {
      hide Storage.Valid, IdsDistinct, Dag.Valid, SignersHold, IsRun;
      more := actions;
      ghost var before := View(ready);
      if c.round > storage.gcRound && c.id !in storage.certificates {
        var stored := storage.InsertCertificate(c, endorsers, admissible);
        if stored.Err? {
          return false, more;
        }
        if IsRun(p, u, actions, before) && Member(u, c) {
          RunExtends(p, u, actions, before, Store(c), WithStored(before, c));
          more := actions + [Store(c)];
        }
      }
      ok := true;
    }

    /** Files a certificate of a block from a peer, without looking for a leader. */
    method AddCertificateFromSync(c: Certificate, ghost ready: set<Certificate>, ghost u: Universe, ghost actions: seq<Action>)
      requires Valid()
      requires forall x :: InGraph(dag.graph, x) && x.id == c.id ==> x == c
      modifies dag
      ensures Valid() && View(ready) == WithSynced(old(View(ready)), c)
      ensures IsRun(p, u, actions, old(View(ready))) && Member(u, c) && (c.round <= storage.gcRound || c.id in storage.certificates) ==>
                IsRun(p, u, actions + [FileSynced(c)], View(ready))
    {
      hide Storage.Valid, IdsDistinct, Dag.Valid, Inserted, IsRun;
      ghost var before := View(ready);
      InsertKeepsDistinct(dag.View(), c) by { DagIsFiled(); }
      dag.Insert(c);
      if IsRun(p, u, actions, before) && Member(u, c) && (c.round <= storage.gcRound || c.id in storage.certificates) {
        RunExtends(p, u, actions, before, FileSynced(c), WithSynced(before, c));
      }
    }

    /** Stores the certificates of a block from a peer, up to the first that is refused. */
    method SyncCertificates(cs: seq<Certificate>, endorsers: CertificateId -> set<Address>, admissible: CertificateId -> bool,
                            ghost ready: set<Certificate>, ghost u: Universe, ghost actions: seq<Action>)
      returns (ok: bool, ghost more: seq<Action>)
      requires Valid() && forall c :: c in cs ==> Member(u, c)
      modifies storage
      ensures Valid()
      ensures ok ==> View(ready) == MissingStored(old(View(ready)), cs)
      ensures !ok ==> exists n :: 0 <= n < |cs| && View(ready) == MissingStored(old(View(ready)), cs[..n])
      ensures ok ==> forall c :: c in cs ==> c.round <= storage.gcRound || c.id in storage.certificates
      ensures IsRun(p, u, actions, old(View(ready))) ==> IsRun(p, u, more, View(ready))
    {
      hide Storage.Valid, IdsDistinct, Dag.Valid, IsRun, StoredIfMissing, Storage.Accepts;
      more := actions;
      ghost var before := View(ready);
      for n := 0 to |cs|
        invariant Valid() && View(ready) == MissingStored(before, cs[..n])
        invariant IsRun(p, u, actions, before) ==> IsRun(p, u, more, View(ready))
        invariant forall k :: 0 <= k < n ==> cs[k].round <= storage.gcRound || cs[k].id in storage.certificates
      {
        ghost var w := View(ready);
        ok, more := SyncCertificate(cs[n], endorsers(cs[n].id), admissible(cs[n].id), ready, u, more);
        if !ok {
          return;
        }
        StoringKeeps(w, cs[n]);
        assert cs[..n + 1][..n] == cs[..n];
      }
      assert cs[..|cs|] == cs;
      ok := true;
    }

    /** Takes the certificates of a block over from a peer: all into storage first, and then all into the DAG. */
    method AddBlockSubdag(cs: seq<Certificate>, endorsers: CertificateId -> set<Address>, admissible: CertificateId -> bool,
                          ghost ready: set<Certificate>, ghost u: Universe, ghost actions: seq<Action>)
      returns (ok: bool, ghost more: seq<Action>)
      requires Valid() && Keyed(u) && Knows(u, dag.graph) && forall c :: c in cs ==> Member(u, c)
      modifies dag, storage
      ensures Valid()
      ensures ok ==> View(ready) == SyncedAll(MissingStored(old(View(ready)), cs), cs)
      ensures !ok ==> exists n :: 0 <= n < |cs| && View(ready) == MissingStored(old(View(ready)), cs[..n])
      ensures IsRun(p, u, actions, old(View(ready))) ==> IsRun(p, u, more, View(ready))
    {
      hide Storage.Valid, IdsDistinct, Dag.Valid, IsRun, WithSynced, MissingStored, Knows, Storage.Accepts;
      ghost var before := View(ready);
      ok, more := SyncCertificates(cs, endorsers, admissible, ready, u, actions);
      if !ok {
        return;
      }
      ghost var stored := View(ready);
      for n := 0 to |cs|
        invariant Valid() && View(ready) == SyncedAll(stored, cs[..n]) && Knows(u, dag.graph)
        invariant IsRun(p, u, actions, before) ==> IsRun(p, u, more, View(ready))
        modifies dag
      {
        ghost var d := dag.View();
        KnownOnce(u, d.graph, cs[n]);
        InsertedIsKnown(u, d, cs[n]) by { DagIsFiled(); }
        AddCertificateFromSync(cs[n], ready, u, more);
        SyncedDag(SyncedAll(stored, cs[..n]), cs[n]);
        more := more + [FileSynced(cs[n])];
        assert cs[..n + 1][..n] == cs[..n];
      }
      assert cs[..|cs|] == cs;
    }

    /** Files committed certificates into an empty DAG, each marked as committed at once. */
    method RefillDag(cs: seq<Certificate>, ghost u: Universe)
      requires Valid() && dag.View() == EMPTY_DAG && forall c :: c in cs ==> Member(u, c)
      modifies dag
      ensures Valid() && dag.View() == Refilled(EMPTY_DAG, cs, p.maxGcRounds)
    {
      hide Storage.Valid, IdsDistinct, Dag.Valid, Inserted, Committed, Knows;
      assert Knows(u, dag.graph) by { NothingKnown(u); }
      for n := 0 to |cs|
        invariant Valid() && dag.View() == Refilled(EMPTY_DAG, cs[..n], p.maxGcRounds) && Knows(u, dag.graph)
      {
        assert cs[..n + 1][..n] == cs[..n];
        KnownOnce(u, dag.graph, cs[n]);
        InsertKeepsDistinct(dag.View(), cs[n]) by { DagIsFiled(); }
        InsertedIsKnown(u, dag.View(), cs[n]) by { DagIsFiled(); }
        dag.Insert(cs[n]);
        CommitKeepsDistinctOne(dag.View(), cs[n], p.maxGcRounds) by { DagIsFiled(); }
        CommitKeepsKnown(u, dag.View(), cs[n], p.maxGcRounds) by { DagIsFiled(); }
        dag.Commit(cs[n], storage.maxGcRounds);
      }
      assert cs[..|cs|] == cs;
    }

    /**
     Stores certificates in order, but for those that are collected or stored already, and stops at the first that is
     refused. If they are the recent ones of a state `v` of a run, none is refused just when all are presentable.
     */
    method ReloadStorage(
      cs: seq<Certificate>, endorsers: CertificateId -> set<Address>, admissible: CertificateId -> bool, ghost u: Universe,
      ghost v: Validator)
      returns (ok: bool)
      requires Valid() && storage.certificates == map[] && forall c :: c in cs ==> Member(u, c)
      modifies storage
      ensures Valid() && storage.gcRound == old(storage.gcRound)
      ensures ok ==> storage.certificates == Reloaded(storage.gcRound, cs)
      ensures WellFormed(p, u) && p.maxGcRounds >= 1 && LedgerInv(p, u, v) && AreRecent(p, v, storage.gcRound, cs) ==>
                (ok <==> AllPresentable(p, cs, storage.gcRound, endorsers, admissible))
    {
      hide Storage.Valid, IdsDistinct, Dag.Valid, Storage.Accepts, WellFormed, LedgerInv, Presentable, AreRecent;
      ghost var known := WellFormed(p, u) && p.maxGcRounds >= 1 && LedgerInv(p, u, v) && AreRecent(p, v, storage.gcRound, cs);
      for n := 0 to |cs|
        invariant Valid() && storage.gcRound == old(storage.gcRound)
        invariant storage.certificates == Reloaded(storage.gcRound, cs[..n])
        invariant known ==> AllPresentable(p, cs[..n], storage.gcRound, endorsers, admissible)
      {
        assert cs[..n + 1] == cs[..n] + [cs[n]];
        if known {
          LoadsJustPresentable(p, u, v, storage, cs, n, endorsers, admissible);
        }
        if cs[n].round > storage.gcRound && cs[n].id !in storage.certificates {
          var stored := storage.InsertCertificate(cs[n], endorsers(cs[n].id), admissible(cs[n].id));
          if stored.Err? {
            return false;
          }
        }
      }
      assert cs[..|cs|] == cs;
      ok := true;
    }

    /**
     Rebuilds storage and DAG from the recent blocks of the ledger. If these are the blocks of a state `v` of a run, it
     succeeds just when each certificate that it stores is presentable, and it is the step of a run.
     */
    method SyncStorageWithLedger(
      endorsers: CertificateId -> set<Address>, admissible: CertificateId -> bool, ghost u: Universe, ghost v: Validator,
      ghost actions: seq<Action>)
      returns (ok: bool)
      requires Valid() && dag.View() == EMPTY_DAG && storage.certificates == map[]
      requires storage.gcRound <= Rebooted(p, View({})).gcRound
      requires forall c :: c in CertificatesOf(Recent(accepted, p.maxGcRounds)) ==> Member(u, c)
      modifies dag, storage
      ensures Valid()
      ensures ok ==> View({}) == Rebooted(p, old(View({})))
      ensures !ok ==> dag.View() == EMPTY_DAG && accepted == old(accepted)
      ensures WellFormed(p, u) && p.maxGcRounds >= 1 && IsRun(p, u, actions, v) && v.accepted == accepted ==>
                (ok <==> AllPresentable(p, CertificatesOf(Recent(accepted, p.maxGcRounds)), Rebooted(p, v).gcRound, endorsers, admissible))
      ensures ok && IsRun(p, u, actions, v) && v.accepted == accepted ==> IsRun(p, u, actions + [Reboot], View({}))
    {
      hide Storage.Valid, IdsDistinct, Dag.Valid, CertificatesOf, Recent, Knows, WellFormed, IsRun, AllPresentable, Refilled, Reloaded,
           LedgerInv, StorageInv, GraphInv, IdsInv, GcInv, ReadyInv, FlightInv;
      var last := if accepted == [] then 0 else accepted[|accepted| - 1].anchor.round;
      assert last == LastRound(AnchorsOf(accepted));
      hide AnchorsOf;
      var cs := CertificatesOf(Recent(accepted, p.maxGcRounds));
      var collected := storage.GarbageCollect(last);
      ok := ReloadStorage(cs, endorsers, admissible, u, v);
      if WellFormed(p, u) && p.maxGcRounds >= 1 && IsRun(p, u, actions, v) && v.accepted == accepted {
        RunsKeepInv(p, u, actions, v);
      }
      if ok {
        RefillDag(cs, u);
        if IsRun(p, u, actions, v) && v.accepted == accepted {
          RunExtends(p, u, actions, v, Reboot, Rebooted(p, v));
        }
      }
    }

    lemma DagIsFiled()
      requires dag.Valid()
      ensures Filed(dag.graph)
    {
    }

    /** Commits the certificates of a block that the ledger has taken from a peer. */
    method CommitSyncedBlock(b: Block, ghost ready: set<Certificate>, ghost u: Universe, ghost actions: seq<Action>)
      requires Valid()
      modifies dag, this`accepted
      ensures Valid()
      ensures View(ready) == BlockCommitted(p, old(View(ready)), b)
      ensures IsRun(p, u, actions, old(View(ready))) && IsNextBlock(p, u, old(View(ready)), b) ==>
                IsRun(p, u, actions + [CommitBlock(b)], View(ready))
    {
      hide Storage.Valid, IdsDistinct, Dag.Valid, CommittedAll, Flatten, IsRun, IsNextBlock;
      ghost var before := View(ready);
      accepted := accepted + [b];
      CommitSubdag(b.subdag, b.anchor.round);
      if IsRun(p, u, actions, before) && IsNextBlock(p, u, before, b) {
        RunExtends(p, u, actions, before, CommitBlock(b), BlockCommitted(p, before, b));
      }
    }
  }

  /** A commit call that comes to the lock in some state of a run leaves a state of a run. */
  lemma CommitCallIsRun(
    p: Protocol, u: Universe, actions: seq<Action>, v: Validator, leader: Certificate, answers: nat -> Answers)
    returns (more: seq<Action>)
    requires IsRun(p, u, actions, v) && v.flight.None? && leader in v.ready && Keyed(v.storage) && LocksInTime(p, u, v, leader)
    requires leader.round >= v.dag.lastCommittedRound && Truthful(p, Locked(p, v, leader), answers, 0)
    ensures IsRun(p, u, more, Call(p, Locked(p, v, leader), answers, 0))
  {
    hide IsRun, LocalWalk, Truthful, Call, LocksInTime;
    RunExtends(p, u, actions, v, Lock(leader), Locked(p, v, leader));
    more := CallIsRun(p, u, actions + [Lock(leader)], Locked(p, v, leader), answers, 0);
  }

  lemma StoringKeeps(v: Validator, c: Certificate)
    ensures v.storage.Keys <= StoredIfMissing(v, c).storage.Keys && StoredIfMissing(v, c).gcRound == v.gcRound
  {
  }

  lemma SyncedDag(v: Validator, c: Certificate)
    ensures WithSynced(v, c).dag == Inserted(v.dag, c)
  {
  }

  /** The graph holds certificates only. */
  ghost predicate Knows(u: Universe, g: Graph) {
    forall x :: InGraph(g, x) ==> Member(u, x)
  }

  lemma NothingKnown(u: Universe)
    ensures Knows(u, EMPTY_DAG.graph)
  {
  }

  lemma CommitKeepsKnown(u: Universe, d: DagState, c: Certificate, gc: nat)
    requires Filed(d.graph) && Knows(u, d.graph)
    ensures Knows(u, Committed(d, c, gc).graph)
  {
    CommitGraph(d, c, gc);
    hide Committed, InGraph, Filed;
  }

  lemma CommitKeepsDistinctOne(d: DagState, c: Certificate, gc: nat)
    requires Filed(d.graph) && IdsDistinct(d.graph)
    ensures IdsDistinct(Committed(d, c, gc).graph)
  {
    CommitGraph(d, c, gc);
    hide Committed, InGraph, Filed;
  }

  lemma KnownOnce(u: Universe, g: Graph, c: Certificate)
    requires Knows(u, g) && Member(u, c)
    ensures forall x :: InGraph(g, x) && x.id == c.id ==> x == c
  {
    hide InGraph;
  }

  lemma InsertedIsKnown(u: Universe, d: DagState, c: Certificate)
    requires Filed(d.graph) && Member(u, c) && Knows(u, d.graph)
    ensures Knows(u, Inserted(d, c).graph)
  {
    if !IsRecentlyCommitted(d, c.round, c.id) {
      InsertGraph(d, c);
      hide Inserted, InGraph, Filed;
    }
  }

  lemma RowLookup(env: Env, round: nat, id: CertificateId, a: Address)
    requires Keyed(env.storage) && Filed(env.dag.graph) && IdsDistinct(env.dag.graph)
    requires a in Row(env.dag.graph, round) && Row(env.dag.graph, round)[a].id == id
    ensures Lookup(env, round, id) == Some(Row(env.dag.graph, round)[a])
  {
    var row := Row(env.dag.graph, round);
    forall b | b in row && row[b].id == id ensures row[b] == row[a] {
      assert InGraph(env.dag.graph, row[a]) && InGraph(env.dag.graph, row[b]);
    }
  }

  lemma InsertKeepsDistinct(d: DagState, c: Certificate)
    requires Filed(d.graph) && IdsDistinct(d.graph)
    requires forall x :: InGraph(d.graph, x) && x.id == c.id ==> x == c
    ensures IdsDistinct(Inserted(d, c).graph)
  {
    if !IsRecentlyCommitted(d, c.round, c.id) {
      InsertGraph(d, c);
      hide Inserted, InGraph, Filed;
    }
  }

  lemma CommitKeepsDistinct(d: DagState, cs: seq<Certificate>, gc: nat)
    requires Filed(d.graph) && IdsDistinct(d.graph)
    ensures IdsDistinct(CommittedAll(d, cs, gc).graph)
  {
    CommittedAllEffect(d, cs, gc);
    hide InGraph, Filed, CommittedAll;
  }

  lemma StepBelowCutoff(env: Env, s: Search)
    requires Keyed(env.storage) && s.buffer != [] && BelowCutoff(env, s.buffer[|s.buffer| - 1])
    ensures Step(env, s) == Ok(Popped(s))
  {
  }

  lemma StepExpands(env: Env, s: Search)
    requires Keyed(env.storage) && s.buffer != [] && !BelowCutoff(env, s.buffer[|s.buffer| - 1])
    ensures var c := s.buffer[|s.buffer| - 1]; Step(env, s) == Expand(env, c, |c.previous|, Popped(s))
  {
  }

  lemma RunStep(env: Env, s: Search)
    requires Keyed(env.storage) && s.buffer != [] && Step(env, s).Ok?
    ensures var next := Step(env, s).value;
            && Run(env, s) == Run(env, next)
            && (|| KnownIds(env) - next.ordered < KnownIds(env) - s.ordered
                || (KnownIds(env) - next.ordered == KnownIds(env) - s.ordered && |next.buffer| < |s.buffer|))
  {
    StepProgress(env, s);
  }

  lemma RunFails(env: Env, s: Search)
    requires Keyed(env.storage) && s.buffer != [] && Step(env, s).Err?
    ensures Run(env, s) == Err(Step(env, s).error)
  {
  }

  lemma RunDone(env: Env, s: Search)
    requires Keyed(env.storage) && s.buffer == []
    ensures Run(env, s) == Ok(s.commit)
  {
  }

  lemma ExpandStep(env: Env, c: Certificate, k: nat, s: Search)
    requires Keyed(env.storage) && 1 <= k <= |c.previous|
    ensures var id := c.previous[k - 1];
            var previous := Lookup(env, PreviousRound(c), id);
            Expand(env, c, k, s) ==
              if id in s.ordered || AlreadyCommitted(env, PreviousRound(c), id) then Expand(env, c, k - 1, s)
              else if previous.None? then Err(id)
              else Expand(env, c, k - 1, s.(ordered := s.ordered + {previous.value.id}, buffer := s.buffer + [previous.value]))
  {
  }

  lemma ExpandDone(env: Env, c: Certificate, s: Search)
    requires Keyed(env.storage)
    ensures Expand(env, c, 0, s) == Ok(s)
  {
  }

  lemma CallStep(p: Protocol, v: Validator, answers: nat -> Answers, k: nat)
    requires v.flight.Some? && v.flight.value.remaining != [] && Keyed(v.storage)
    ensures var next := Decided(p, v, answers(k).ledger, answers(k).accept);
            && (Submits(p, v, answers(k)) && next.flight.Some? ==>
                  && Call(p, v, answers, k) == Call(p, next, answers, k + 1)
                  && next.flight == Some(v.flight.value.(remaining := v.flight.value.remaining[1..])))
            && (!(Submits(p, v, answers(k)) && next.flight.Some?) ==> Call(p, v, answers, k) == v.(flight := None))
  {
    hide Submits;
  }

  lemma CollectedIsFinished(p: Protocol, v: Validator)
    requires v.flight.Some? && v.flight.value.remaining == [] && Keyed(v.storage)
    requires forall i :: i in v.storage ==> v.storage[i].round > v.gcRound
    ensures Finished(p, v) ==
              var gcRound := SaturatingSub(v.flight.value.latest.round, p.maxGcRounds);
              if gcRound >= v.gcRound
              then v.(storage := KeptAbove(v.storage, gcRound), gcRound := gcRound, flight := None)
              else v.(storage := KeptAbove(v.storage, v.gcRound), flight := None)
  {
    assert KeptAbove(v.storage, v.gcRound) == v.storage;
  }

  /* A start from the ledger. */

  /** Signatures, contents and number of references of a certificate are as storage demands. */
  ghost predicate Presentable(p: Protocol, gcRound: nat, c: Certificate, endorsers: set<Address>, admissible: bool) {
    && c.author in p.committee(c.round).members && admissible && SignersHold(p.committee(c.round), c.author, endorsers)
    && (c.round > gcRound + 1 ==> |c.previous| <= |p.committee(c.round - 1).members|)
  }

  ghost predicate AllPresentable(
    p: Protocol, cs: seq<Certificate>, gcRound: nat, endorsers: CertificateId -> set<Address>, admissible: CertificateId -> bool)
  {
    forall n :: 0 <= n < |cs| && cs[n].round > gcRound ==> Presentable(p, gcRound, cs[n], endorsers(cs[n].id), admissible(cs[n].id))
  }

  /** What has been loaded is a part of the universe. */
  lemma LoadedIs(u: Universe, gcRound: nat, cs: seq<Certificate>, i: CertificateId)
    requires Keyed(u) && i in Reloaded(gcRound, cs) && forall c :: c in cs ==> Member(u, c)
    ensures i in u && Reloaded(gcRound, cs)[i] == u[i]
  {
    ReloadedEffect(gcRound, cs, i);
  }

  lemma LoadedReferences(p: Protocol, u: Universe, stored: Universe, c: Certificate)
    requires WellFormed(p, u) && Member(u, c) && c.round > 1
    requires forall i :: i in c.previous ==> i in stored && i in u && stored[i] == u[i]
    ensures ReferencesFit(stored, c.previous, c.round - 1) && p.committee(c.round - 1).IsQuorum(Authors(stored, c.previous))
  {
    hide Stake;
    assert CertificateValid(p, u, c);
    assert Authors(stored, c.previous) == Authors(u, c.previous);
    forall j, k | 0 <= j < k < |c.previous| ensures stored[c.previous[j]].author != stored[c.previous[k]].author {
      assert c.previous[j] in c.previous && c.previous[k] in c.previous;
      SlotsDiffer(u, c.previous[j], c.previous[k]);
    }
  }

  /** The certificates that a validator loads when it starts from its ledger, with what it has collected then. */
  ghost predicate AreRecent(p: Protocol, v: Validator, gcRound: nat, cs: seq<Certificate>) {
    cs == CertificatesOf(Recent(v.accepted, p.maxGcRounds)) && gcRound == Rebooted(p, v).gcRound
  }

  /** Of what is loaded next, storage accepts just what is presentable: references and slots are in order. */
  lemma LoadsJustPresentable(
    p: Protocol, u: Universe, v: Validator, storage: Storage, cs: seq<Certificate>, n: nat,
    endorsers: CertificateId -> set<Address>, admissible: CertificateId -> bool)
    requires WellFormed(p, u) && p.maxGcRounds >= 1 && LedgerInv(p, u, v) && AreRecent(p, v, storage.gcRound, cs)
    requires n < |cs| && storage.committee == p.committee && forall c :: c in cs ==> Member(u, c)
    requires storage.certificates == Reloaded(storage.gcRound, cs[..n])
    requires AllPresentable(p, cs[..n], storage.gcRound, endorsers, admissible)
    ensures var c := cs[n];
            c.round > storage.gcRound ==>
              (c.id in storage.certificates || storage.Accepts(c, endorsers(c.id), admissible(c.id)) <==>
               Presentable(p, storage.gcRound, c, endorsers(c.id), admissible(c.id)))
  {
    hide WellFormed, LedgerInv, Reloaded, AreRecent, AllPresentable, Presentable, Storage.Accepts;
    var c, gcRound := cs[n], storage.gcRound;
    if c.round > gcRound {
      if c.id in storage.certificates {
        IsKeyed(p, u);
        StoredIsPresentable(p, u, gcRound, cs[..n], c, endorsers, admissible);
      } else {
        SlotIsFree(p, u, gcRound, cs[..n], c);
        if c.round > gcRound + 1 {
          ReferencesAreLoaded(p, u, v, gcRound, cs, n);
        }
        AcceptsIff(p, storage, c, endorsers(c.id), admissible(c.id));
      }
    }
  }

  /** What has been stored before was presentable then. */
  lemma StoredIsPresentable(
    p: Protocol, u: Universe, gcRound: nat, cs: seq<Certificate>, c: Certificate, endorsers: CertificateId -> set<Address>,
    admissible: CertificateId -> bool)
    requires Keyed(u) && Member(u, c) && c.id in Reloaded(gcRound, cs) && forall x :: x in cs ==> Member(u, x)
    requires c.round > gcRound && AllPresentable(p, cs, gcRound, endorsers, admissible)
    ensures Presentable(p, gcRound, c, endorsers(c.id), admissible(c.id))
  {
    hide Reloaded, Presentable;
    ReloadedEffect(gcRound, cs, c.id);
    LoadedIs(u, gcRound, cs, c.id);
    var m :| 0 <= m < |cs| && cs[m] == c;
  }

  /** If slot and references are in order, the rest decides. */
  lemma AcceptsIff(p: Protocol, storage: Storage, c: Certificate, endorsers: set<Address>, admissible: bool)
    requires storage.committee == p.committee && c.round > storage.gcRound && c.id !in storage.certificates
    requires forall i :: i in storage.certificates ==>
               !(storage.certificates[i].round == c.round && storage.certificates[i].author == c.author)
    requires c.round > storage.gcRound + 1 ==>
               && ReferencesFit(storage.certificates, c.previous, c.round - 1)
               && p.committee(c.round - 1).IsQuorum(Authors(storage.certificates, c.previous))
    ensures storage.Accepts(c, endorsers, admissible) <==> Presentable(p, storage.gcRound, c, endorsers, admissible)
  {
    hide SignersHold, ReferencesFit, Authors, Stake;
  }

  lemma ReferencesAreLoaded(p: Protocol, u: Universe, v: Validator, gcRound: nat, cs: seq<Certificate>, n: nat)
    requires WellFormed(p, u) && p.maxGcRounds >= 1 && LedgerInv(p, u, v) && AreRecent(p, v, gcRound, cs)
    requires n < |cs| && cs[n].round > gcRound + 1 && forall c :: c in cs ==> Member(u, c)
    ensures var c, stored := cs[n], Reloaded(gcRound, cs[..n]);
            && ReferencesFit(stored, c.previous, c.round - 1)
            && p.committee(c.round - 1).IsQuorum(Authors(stored, c.previous))
  {
    hide WellFormed, LedgerInv, CertificatesOf, Recent, Refilled, Reloaded, AnchorsOf, ReferencesFit;
    var c, stored := cs[n], Reloaded(gcRound, cs[..n]);
    IsKeyed(p, u);
    forall i | i in c.previous ensures i in stored && i in u && stored[i] == u[i] {
      ReferencesComeFirst(p, u, v, n, i);
      LoadedIs(u, gcRound, cs[..n], i);
    }
    LoadedReferences(p, u, stored, c);
  }

  lemma SlotIsFree(p: Protocol, u: Universe, gcRound: nat, cs: seq<Certificate>, c: Certificate)
    requires WellFormed(p, u) && Member(u, c) && c.id !in Reloaded(gcRound, cs) && forall x :: x in cs ==> Member(u, x)
    ensures var stored := Reloaded(gcRound, cs);
            forall i :: i in stored ==> !(stored[i].round == c.round && stored[i].author == c.author)
  {
    hide CertificateValid, Reloaded, NonEquivocating;
    var stored := Reloaded(gcRound, cs);
    forall i | i in stored ensures !(stored[i].round == c.round && stored[i].author == c.author) {
      LoadedIs(u, gcRound, cs, i);
      SlotsDiffer(u, i, c.id);
    }
  }

  lemma SlotsDiffer(u: Universe, i: CertificateId, j: CertificateId)
    requires NonEquivocating(u) && i in u && j in u && i != j
    ensures !(u[i].round == u[j].round && u[i].author == u[j].author)
  {
    assert !SameSlot(u, i, j);
  }
}
