/**
 The runs of CommitRuns.dfy do commit: four members, of which three have certificates in two rounds and two in the third,
 and one anchor whose block is accepted. What is proved of all runs is therefore not proved of nothing.
 */
module Witness {
  import opened Types
  import opened Committees
  import opened FourMembers
  import opened CertificateGraph
  import opened Anchors
  import opened Dags
  import opened DagCommits
  import opened Views
  import opened Ordering
  import opened Subdags
  import opened Blocks
  import opened CommitRuns
  import opened Arrivals
  import opened SubdagChecks
  import opened BlockChecks
  import opened SubdagShapes
  import opened Safety

  const SIZE: nat := 8

  function At(i: nat): Certificate {
    if i < 3 then Certificate(i, i, 1, [], [])
    else if i < 6 then Certificate(i, i - 3, 2, [0, 1, 2], [])
    else Certificate(i, i - 6, 3, [3, 4, 5], [])
  }

  const CERTIFICATES: Universe := Upto(At, SIZE)
  const FIRST := At(0)
  const LEADER := At(3)

  lemma AllAreEntries()
    ensures IsTable(At, SIZE)
  {
    forall i: nat | i < SIZE ensures IsEntry(At, i) {
      if i >= 3 {
        assert Cites(At, At(i), At(i).previous[0]);
      }
    }
  }

  lemma CertificatesAreWellFormed()
    ensures WellFormed(FIRST_LEADS, CERTIFICATES)
  {
    hide At;
    AllAreEntries();
    TableIsWellFormed(FIRST_LEADS, At, SIZE);
  }

  lemma GraphHolds(v: Validator, c: Certificate)
    requires HasArrived(CERTIFICATES, v)
    ensures InGraph(v.dag.graph, c) <==> c.id < SIZE && c == At(c.id)
  {
    hide At, InGraph, Dags.Filed;
    AllAreEntries();
    UptoIff(At, SIZE, SIZE, c);
  }

  /** The last two certificates vote for the leader, and with them it has all the votes it needs. */
  lemma LeaderIsElected(v: Validator)
    requires HasArrived(CERTIFICATES, v)
    ensures Elected(FIRST_LEADS, v.dag, At(7)) == Some(LEADER)
  {
    hide Stake, Upto;
    var g := v.dag.graph;
    GraphHolds(v, LEADER);
    GraphHolds(v, At(6));
    GraphHolds(v, At(7));
    assert LEADER.id in At(6).previous && LEADER.id in At(7).previous;
    var voters := VotersIn(g, 3, LEADER);
    assert 0 in voters && 1 in voters;
    forall a | a in voters ensures a in {0, 1} {
      GraphHolds(v, Dags.Row(g, 3)[a]);
    }
    assert voters == {0, 1};
    Thresholds(voters);
  }

  /** A run that receives all certificates. */
  lemma AllArrive() returns (actions: seq<Action>, v: Validator)
    ensures IsRun(FIRST_LEADS, CERTIFICATES, actions, v) && HasArrived(CERTIFICATES, v) && LEADER in v.ready
  {
    hide At, IsRun, HasArrived, Elected, Inserted;
    AllAreEntries();
    var w;
    actions, w, v := TableArrives(FIRST_LEADS, At, SIZE, SIZE);
    LeaderIsElected(v);
  }

  lemma LocksLeader(v: Validator)
    requires HasArrived(CERTIFICATES, v)
    ensures Locked(FIRST_LEADS, v, LEADER) == v.(flight := Some(Flight([LEADER], LEADER, false)))
  {
    hide HasArrived;
    ArrivedIs(CERTIFICATES, v);
    assert LocalWalk(FIRST_LEADS, v.dag.graph, LEADER, 0, 2) == [];
    assert [] + [LEADER] == [LEADER];
  }

  /** The run goes on to commit: one block is accepted, and its anchor is the leader of the second round. */
  lemma SomeRunCommits() returns (actions: seq<Action>, v: Validator)
    ensures WellFormed(FIRST_LEADS, CERTIFICATES) && IsRun(FIRST_LEADS, CERTIFICATES, actions, v)
    ensures |v.accepted| == 1 && v.accepted[0].anchor == LEADER
    ensures FIRST.id in IdsOf(v.accepted[0].subdag)
  {
    hide WellFormed, IsRun, OrderDag, Passes, AllFiled, HasArrived, At, Upto, Locked, CommittedAll, Flatten, Linked;
    CertificatesAreWellFormed();
    actions, v := AllArrive();
    ArrivedIs(CERTIFICATES, v);
    LocksLeader(v);
    var locked := Locked(FIRST_LEADS, v, LEADER);
    RunExtends(FIRST_LEADS, CERTIFICATES, actions, v, Lock(LEADER), locked);
    actions := actions + [Lock(LEADER)];
    NothingIsTooDeep(actions, locked);
    RunExtends(FIRST_LEADS, CERTIFICATES, actions, locked, Decide({}, true), Decided(FIRST_LEADS, locked, {}, true));
    actions := actions + [Decide({}, true)];
    v := Decided(FIRST_LEADS, locked, {}, true);
    FirstIsInHistory();
    AcceptedIsHistory(FIRST_LEADS, CERTIFICATES, actions, v, 0, FIRST.id);
  }

  lemma NothingIsTooDeep(actions: seq<Action>, locked: Validator)
    requires IsRun(FIRST_LEADS, CERTIFICATES, actions, locked) && WellFormed(FIRST_LEADS, CERTIFICATES) && Keyed(locked.storage)
    requires locked.flight == Some(Flight([LEADER], LEADER, false)) && locked.accepted == []
    ensures var r := OrderDag(Env(locked.dag, locked.storage, {}, 100), LEADER); r.Ok? && Passes(r.value, 2)
  {
    hide WellFormed, IsRun, OrderDag, Passes, Linked;
    SubdagPasses(FIRST_LEADS, CERTIFICATES, actions, locked, {});
  }

  lemma FirstIsInHistory()
    ensures Linked(CERTIFICATES, LEADER, FIRST) && FIRST.id in CERTIFICATES && CERTIFICATES[FIRST.id] == FIRST
    ensures LEADER.round == 2 && FIRST.round == 1
  {
    assert LEADER.previous[0] == 0;
    assert Linked(CERTIFICATES, CERTIFICATES[0], FIRST);
  }
}
