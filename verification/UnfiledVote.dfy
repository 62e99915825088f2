/**
 What happens if a caller takes the commit lock while a stored certificate is not yet in the DAG. The leader of round 2
 has two votes, which is enough, and the leader of round 4 has a path to it over one of them only. A validator that has
 stored that one and not filed it walks past the leader of round 2, and its first block is not that of anybody else.
 */
module UnfiledVote {
  import opened Types
  import opened Committees
  import opened FourMembers
  import opened CertificateGraph
  import opened Anchors
  import opened Dags
  import opened DagCommits
  import opened Views
  import opened Ordering
  import opened Subdags
  import opened Blocks
  import opened SubdagChecks
  import opened Rebuilds
  import opened CommitRuns

  const SIZE: nat := 16

  function RoundAt(i: nat): nat {
    if i < 3 then 1 else if i < 7 then 2 else if i < 11 then 3 else if i < 14 then 4 else 5
  }

  function AuthorAt(i: nat): Address {
    if i < 3 then i else if i < 7 then i - 3 else if i < 11 then i - 7 else if i < 14 then i - 11 else i - 14
  }

  function ReferencesAt(i: nat): seq<CertificateId> {
    if i < 3 then [] else if i < 7 then [0, 1, 2] else if i < 9 then [3, 4, 5] else if i < 11 then [4, 5, 6]
    else if i < 14 then [8, 9, 10] else [11, 12, 13]
  }

  function At(i: nat): Certificate {
    Certificate(i, AuthorAt(i), RoundAt(i), ReferencesAt(i), [])
  }

  const EVERYTHING: Universe := Upto(At, SIZE)

  const VOTED := At(3)
  const UNFILED := At(8)
  const NEXT := At(11)

  lemma IsEntryAt(i: nat)
    requires i < SIZE
    ensures IsEntry(At, i)
  {
    if i >= 3 {
      assert Cites(At, At(i), ReferencesAt(i)[0]);
    }
  }

  lemma AllAreEntries()
    ensures IsTable(At, SIZE)
  {
    hide IsEntry;
    forall i: nat | i < SIZE ensures IsEntry(At, i) {
      IsEntryAt(i);
    }
    hide ReferencesAt;
  }

  lemma IsAt(i: nat)
    requires i < SIZE
    ensures i in EVERYTHING && EVERYTHING[i] == At(i) && Member(EVERYTHING, At(i))
  {
  }

  lemma EverythingIsWellFormed()
    ensures WellFormed(FIRST_LEADS, EVERYTHING)
  {
    hide At;
    AllAreEntries();
    TableIsWellFormed(FIRST_LEADS, At, SIZE);
  }

  ghost predicate IsFiled(n: nat, x: Certificate) {
    x.id < n && x == At(x.id) && x.id != UNFILED.id
  }

  /** The first `n` certificates are stored, and filed but for one. */
  ghost predicate HasArrived(n: nat, v: Validator) {
    && v.storage == Upto(At, n) && v.gcRound == 0 && v.flight.None? && v.accepted == []
    && v.dag.recentCommittedIds == map[] && v.dag.lastCommittedRound == 0
    && Dags.Filed(v.dag.graph)
    && (forall x :: InGraph(v.dag.graph, x) <==> IsFiled(n, x))
    && (n == SIZE ==> NEXT in v.ready)
  }

  lemma FilesNext(n: nat, v: Validator, v': Validator)
    requires n < SIZE && HasArrived(n, v) && n != UNFILED.id
    requires v' == Received(FIRST_LEADS, v, At(n))
    ensures HasArrived(n + 1, v')
  {
    var c := At(n);
    UptoNext(At, n);
    GraphNext(n, v.dag, c);
    hide ReferencesAt, AuthorAt, RoundAt, Elected, Dags.Filed, Upto, InGraph, IsFiled, Inserted;
    InsertKeepsRest(v.dag, c);
    if n + 1 == SIZE {
      NextIsElected(v'.dag);
    }
  }

  /** Slots are taken once, so filing displaces nothing. */
  lemma GraphNext(n: nat, d: DagState, c: Certificate)
    requires n < SIZE && n != UNFILED.id && c == At(n) && d.recentCommittedIds == map[] && Dags.Filed(d.graph)
    requires forall x :: InGraph(d.graph, x) <==> IsFiled(n, x)
    ensures Dags.Filed(Inserted(d, c).graph) && forall x :: InGraph(Inserted(d, c).graph, x) <==> IsFiled(n + 1, x)
  {
    InsertGraph(d, c);
    hide ReferencesAt, Dags.Filed, InGraph, Inserted;
    forall x | IsFiled(n, x) ensures x.round != c.round || x.author != c.author {
      SlotsDiffer(x.id, n);
    }
  }

  lemma SlotsDiffer(i: nat, j: nat)
    requires i < j < SIZE
    ensures RoundAt(i) != RoundAt(j) || AuthorAt(i) != AuthorAt(j)
  {
  }

  lemma NextIsElected(d: DagState)
    requires d.lastCommittedRound == 0 && Dags.Filed(d.graph)
    requires forall x :: InGraph(d.graph, x) <==> IsFiled(SIZE, x)
    ensures Elected(FIRST_LEADS, d, At(15)) == Some(NEXT)
  {
    hide Stake, IsFiled;
    assert InGraph(d.graph, NEXT) && InGraph(d.graph, At(14)) && InGraph(d.graph, At(15)) by { FiledAt(); }
    var voters := VotersIn(d.graph, 5, NEXT);
    assert 0 in voters && 1 in voters;
    forall a | a in voters ensures a in {0, 1} {
      RoundFive(Row(d.graph, 5)[a]);
    }
    assert voters == {0, 1};
    Thresholds(voters);
  }

  lemma FiledAt()
    ensures IsFiled(SIZE, NEXT) && IsFiled(SIZE, At(14)) && IsFiled(SIZE, At(15)) && IsFiled(SIZE, VOTED) && !IsFiled(SIZE, UNFILED)
  {
  }

  lemma RoundFive(c: Certificate)
    ensures IsFiled(SIZE, c) && c.round == 5 ==> c.author in {0, 1}
  {
    hide ReferencesAt;
  }

  lemma StoresNext(n: nat, v: Validator)
    requires n < SIZE && HasArrived(n, v)
    ensures Insertable(v, At(n)) && Member(EVERYTHING, At(n)) && v.storage[n := At(n)] == Upto(At, n + 1)
  {
    UptoNext(At, n);
    IsAt(n);
    IsEntryAt(n);
    hide ReferencesAt, AuthorAt, RoundAt, InGraph, IsFiled, Dags.Filed;
  }

  /** All are stored, and all but one are filed. This is a run like any other. */
  lemma {:induction false} AllArrive(n: nat) returns (actions: seq<Action>, v: Validator)
    requires n <= SIZE
    ensures IsRun(FIRST_LEADS, EVERYTHING, actions, v) && HasArrived(n, v)
  {
    if n == 0 {
      actions, v := [], GENESIS;
      assert Upto(At, 0) == map[];
    } else {
      hide IsRun, HasArrived, Insertable, At;
      var before, w := AllArrive(n - 1);
      var c := At(n - 1);
      StoresNext(n - 1, w);
      if n - 1 == 8 {
        v := WithStored(w, c);
        RunExtends(FIRST_LEADS, EVERYTHING, before, w, Store(c), v);
        actions := before + [Store(c)];
        StaysUnfiled(n - 1, w, v);
      } else {
        v := Received(FIRST_LEADS, w, c);
        ReceiveIsRun(FIRST_LEADS, EVERYTHING, before, w, c);
        actions := before + [Store(c)] + [File(c)];
        FilesNext(n - 1, w, v);
      }
    }
  }

  lemma StaysUnfiled(n: nat, v: Validator, v': Validator)
    requires n == UNFILED.id && HasArrived(n, v) && v' == WithStored(v, At(n)) && v.storage[n := At(n)] == Upto(At, n + 1)
    ensures HasArrived(n + 1, v')
  {
    hide ReferencesAt, Dags.Filed, InGraph;
    assert forall x :: IsFiled(n, x) <==> IsFiled(n + 1, x);
  }

  /** Without the one that is not filed there is no path. */
  lemma NotLinked(v: Validator)
    requires HasArrived(SIZE, v)
    ensures !LinkedIn(v.dag.graph, NEXT, VOTED)
  {
    hide Upto, HasArrived;
    var g := v.dag.graph;
    if LinkedIn(g, NEXT, VOTED) {
      var a := StepDown(g, NEXT, VOTED);
      var y := g[3][a];
      assert IsFiled(SIZE, y) by { RowIsFiled(v, 3, a); }
      var b := StepDown(g, y, VOTED);
      var z := g[2][b];
      ReferencesOfNext(y, z);
      hide LinkedIn;
      LinkedInRounds(g, z, VOTED);
    }
  }

  lemma RowIsFiled(v: Validator, r: nat, a: Address)
    requires HasArrived(SIZE, v) && r in v.dag.graph && a in v.dag.graph[r]
    ensures IsFiled(SIZE, v.dag.graph[r][a])
  {
    hide IsFiled;
    assert InGraph(v.dag.graph, v.dag.graph[r][a]);
  }

  lemma ReferencesOfNext(y: Certificate, z: Certificate)
    requires IsFiled(SIZE, y) && y.id in NEXT.previous && z.id in y.previous
    ensures z.id != VOTED.id
  {
    assert NEXT.previous == [8, 9, 10];
    assert y.id == 9 || y.id == 10;
    assert y.previous == [4, 5, 6];
  }

  lemma WalksPast(v: Validator)
    requires HasArrived(SIZE, v)
    ensures Locked(FIRST_LEADS, v, NEXT) == v.(flight := Some(Flight([NEXT], NEXT, false)))
  {
    NotLinked(v);
    FiledAt();
    var g := v.dag.graph;
    assert InGraph(g, VOTED);
    hide LinkedIn, Upto, IsFiled;
    assert LocalWalk(FIRST_LEADS, g, NEXT, 2, 2) == LocalWalk(FIRST_LEADS, g, NEXT, 0, 2) == [];
    assert [] + [NEXT] == [NEXT];
  }

  lemma VotesAt(l: Certificate)
    requires l == VOTED || l == NEXT
    ensures Direct(FIRST_LEADS, EVERYTHING, l)
  {
    hide Stake, Votes;
    IsAt(l.id);
    VotersAt(l);
    Thresholds({0, 1});
  }

  lemma VotersAt(l: Certificate)
    requires l == VOTED || l == NEXT
    ensures Votes(EVERYTHING, l) == {0, 1}
  {
    hide Upto;
    var i: nat := if l == VOTED then 7 else 14;
    assert l.id in At(i).previous && l.id in At(i + 1).previous;
    IsAt(i);
    IsAt(i + 1);
    assert EVERYTHING[i].author in Votes(EVERYTHING, l) && EVERYTHING[i + 1].author in Votes(EVERYTHING, l);
    forall j | j in EVERYTHING && EVERYTHING[j].round == l.round + 1 && l.id in EVERYTHING[j].previous
      ensures EVERYTHING[j].author in {0, 1}
    {
      IdsAreKeys(j);
      VoterIs(l, j);
    }
  }

  lemma IdsAreKeys(j: CertificateId)
    requires j in EVERYTHING
    ensures j < SIZE && EVERYTHING[j] == At(j)
  {
  }

  lemma VoterIs(l: Certificate, j: nat)
    requires (l == VOTED || l == NEXT) && j < SIZE && RoundAt(j) == l.round + 1 && l.id in ReferencesAt(j)
    ensures AuthorAt(j) in {0, 1}
  {
    if l == VOTED {
      assert ReferencesAt(j) == if j < 9 then [3, 4, 5] else [4, 5, 6];
    }
  }

  /** Everyone who commits at all commits the leader of round 2 first. */
  lemma OthersCommitVoted(actions: seq<Action>, v: Validator)
    requires IsRun(FIRST_LEADS, EVERYTHING, actions, v) && v.accepted != []
    ensures v.accepted[0].anchor == VOTED
  {
    EverythingIsWellFormed();
    VotedIsFirst();
    hide WellFormed, IsRun, Upto, Committable, BlocksOf, SameDone, Shaped;
    RunsKeepInv(FIRST_LEADS, EVERYTHING, actions, v);
    hide StorageInv, GraphInv, IdsInv, GcInv, ReadyInv, FlightInv, At;
    CommittableAgree(FIRST_LEADS, EVERYTHING, [VOTED], AnchorsOf(v.accepted));
    assert AnchorsOf(v.accepted)[0] == v.accepted[0].anchor;
  }

  lemma VotedIsFirst()
    ensures Committable(FIRST_LEADS, EVERYTHING, [VOTED])
  {
    VotesAt(VOTED);
    hide Direct, Upto;
    assert VOTED.round == 2;
    assert Chain(FIRST_LEADS, EVERYTHING, VOTED) == [] + [VOTED] == [VOTED];
  }

  /** What is found for the leader of round 4 passes. */
  lemma FoundPasses(actions: seq<Action>, v: Validator)
    requires IsRun(FIRST_LEADS, EVERYTHING, actions, v) && HasArrived(SIZE, v) && Keyed(v.storage)
    ensures var r := OrderDag(Env(v.dag, v.storage, {}, 100), NEXT); r.Ok? && Passes(r.value, NEXT.round)
  {
    EverythingIsWellFormed();
    IsAt(NEXT.id);
    assert AnchorsOf([]) == [] && DoneIds([]) == {};
    hide WellFormed, IsRun, OrderDag, Passes, Exact, Serves, Linked, Upto, IsFiled, InGraph;
    RunsKeepInv(FIRST_LEADS, EVERYTHING, actions, v);
    hide StorageInv, GraphInv, IdsInv, GcInv, ReadyInv, FlightInv, LedgerInv;
    var past := PastOf([], 100);
    SearchIsServed(FIRST_LEADS, EVERYTHING, v, {});
    OrderDagIsExact(FIRST_LEADS, EVERYTHING, past, NEXT);
    OrderDagAgrees(FIRST_LEADS, EVERYTHING, past, Env(v.dag, v.storage, {}, 100), NEXT);
    RefusedIff(FIRST_LEADS, EVERYTHING, past, NEXT, OrderDag(Env(v.dag, v.storage, {}, 100), NEXT).value);
  }

  /**
   A run, and then a caller that takes the lock while one certificate is stored and not filed: its block is accepted, and
   its anchor is not the one that everybody else commits first.
   */
  lemma LockTooEarly() returns (actions: seq<Action>, v: Validator, locked: Validator, after: Validator)
    ensures WellFormed(FIRST_LEADS, EVERYTHING) && IsRun(FIRST_LEADS, EVERYTHING, actions, v)
    ensures MovesFreely(FIRST_LEADS, EVERYTHING, v, Lock(NEXT), locked) && !LocksInTime(FIRST_LEADS, EVERYTHING, v, NEXT)
    ensures MovesFreely(FIRST_LEADS, EVERYTHING, locked, Decide({}, true), after)
    ensures |after.accepted| == 1 && after.accepted[0].anchor == NEXT && NEXT != VOTED
  {
    hide WellFormed, IsRun, OrderDag, Passes, AllFiled, Upto, HasArrived, Locked, Decided, DoneIds, ReferencesAt, AuthorAt, RoundAt,
         Rebooted, Finished, BlockCommitted, WithStored, WithFiled, WithSynced, IsNextBlock, Insertable, Keyed, LocksInTime;
    EverythingIsWellFormed();
    actions, v := AllArrive(SIZE);
    WalksPast(v);
    NotAllFiled(v);
    NotInTime(v);
    FoundPasses(actions, v);
    locked := Locked(FIRST_LEADS, v, NEXT);
    after := Decided(FIRST_LEADS, locked, {}, true);
    IsAccepted(v, locked, after);
    Differ();
  }

  lemma IsAccepted(v: Validator, locked: Validator, after: Validator)
    requires Keyed(v.storage) && v.accepted == [] && locked == v.(flight := Some(Flight([NEXT], NEXT, false)))
    requires var r := OrderDag(Env(v.dag, v.storage, {}, 100), NEXT); r.Ok? && Passes(r.value, NEXT.round)
    requires after == Decided(FIRST_LEADS, locked, {}, true)
    ensures |after.accepted| == 1 && after.accepted[0].anchor == NEXT
  {
    hide OrderDag, Passes, CommittedAll, Flatten, Decided, At;
    DecidedIs(FIRST_LEADS, locked, {}, true, OrderDag(Env(v.dag, v.storage, {}, 100), NEXT).value);
  }

  /** The walk over all certificates selects the leader of round 2, and its path is lost. */
  lemma NotInTime(v: Validator)
    requires HasArrived(SIZE, v)
    ensures !LocksInTime(FIRST_LEADS, EVERYTHING, v, NEXT)
  {
    hide LinkedIn, Linked, Upto, IsFiled, LeaderAt, AllFiled, InGraph, Dags.Filed;
    NotAllFiled(v);
    NotLinked(v);
    WalkTakesVoted();
    var leaders := [VOTED] + [NEXT];
    assert leaders[1] == NEXT && leaders[1 - 1] == VOTED;
    assert !HasPath(v.dag.graph, leaders[1], leaders[1 - 1]);
  }

  lemma WalkTakesVoted()
    ensures WalkBack(FIRST_LEADS, EVERYTHING, NEXT, 2, 2) == [VOTED]
  {
    hide Upto, LeaderAt, WalkBack, CertificateValid;
    EverythingIsWellFormed();
    IsAt(3);
    IsAt(8);
    LeaderAtIs(FIRST_LEADS, EVERYTHING, VOTED);
    assert UNFILED.id in NEXT.previous && VOTED.id in UNFILED.previous by { assert NEXT.previous[0] == 8 && UNFILED.previous[0] == 3; }
    assert Linked(EVERYTHING, VOTED, VOTED);
    assert Linked(EVERYTHING, UNFILED, VOTED);
    assert Linked(EVERYTHING, NEXT, VOTED);
    hide Linked;
    WalkBackTakes(FIRST_LEADS, EVERYTHING, NEXT, 2, 2, VOTED);
    WalksEnd(FIRST_LEADS, EVERYTHING, map[], VOTED, 0, 2);
    assert [] + [VOTED] == [VOTED];
  }

  lemma Differ()
    ensures NEXT != VOTED
  {
  }

  lemma NotAllFiled(v: Validator)
    requires HasArrived(SIZE, v)
    ensures !AllFiled(v) && Keyed(v.storage) && v.flight.None? && NEXT in v.ready && v.accepted == []
  {
    FiledAt();
    hide IsFiled, ReferencesAt;
    assert StoredIn(v, UNFILED) && !InGraph(v.dag.graph, UNFILED);
  }
}
