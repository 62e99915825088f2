/**
 The DAG a validator keeps in memory (node/bft/src/helpers/dag.rs): a map from rounds to the
 certificates of their authors, the IDs committed recently, and the last committed round.
 */
module Dags {
  import opened Types

  type Graph = map<nat, map<Address, Certificate>>

  datatype DagState = DagState(graph: Graph, recentCommittedIds: map<nat, set<CertificateId>>, lastCommittedRound: nat)

  const EMPTY_DAG := DagState(map[], map[], 0)

  /** Certificates are filed under their own round and author, and no round is kept empty. */
  ghost predicate Filed(g: Graph) {
    && (forall r, a :: r in g && a in g[r] ==> g[r][a].round == r && g[r][a].author == a)
    && (forall r :: r in g ==> g[r] != map[])
  }

  predicate InGraph(g: Graph, c: Certificate) {
    c.round in g && c.author in g[c.round] && g[c.round][c.author] == c
  }

  predicate IsRecentlyCommitted(d: DagState, round: nat, id: CertificateId) {
    round in d.recentCommittedIds && id in d.recentCommittedIds[round]
  }

  function CertificateWithAuthor(g: Graph, round: nat, author: Address): Option<Certificate> {
    if round in g && author in g[round] then Some(g[round][author]) else None
  }

  function Row(g: Graph, round: nat): map<Address, Certificate> {
    if round in g then g[round] else map[]
  }

  function Inserted(d: DagState, c: Certificate): DagState {
    if IsRecentlyCommitted(d, c.round, c.id) then d
    else d.(graph := d.graph[c.round := Row(d.graph, c.round)[c.author := c]])
  }

  function Max(a: nat, b: nat): nat {
    if a < b then b else a
  }

  function CommittedAt(d: DagState, round: nat): set<CertificateId> {
    if round in d.recentCommittedIds then d.recentCommittedIds[round] else {}
  }

  /** Drops the rounds at or below the garbage-collection cutoff. */
  function RetainRounds<T>(m: map<nat, T>, gc: nat, last: nat): map<nat, T> {
    map r | r in m && r + gc > last :: m[r]
  }

  /** Drops one author's certificates at or below a round, and the rounds left empty. */
  function RemoveAuthor(g: Graph, author: Address, round: nat): Graph {
    map r | r in g && (r > round || g[r] - {author} != map[]) :: if r > round then g[r] else g[r] - {author}
  }

  function Committed(d: DagState, c: Certificate, gc: nat): DagState {
    var last := Max(d.lastCommittedRound, c.round);
    var ids := d.recentCommittedIds[c.round := CommittedAt(d, c.round) + {c.id}];
    DagState(RemoveAuthor(RetainRounds(d.graph, gc, last), c.author, c.round), RetainRounds(ids, gc, last), last)
  }

  /** A path of references from `c` back to `target` through certificates of the graph. */
  ghost predicate LinkedIn(g: Graph, c: Certificate, target: Certificate)
    decreases c.round
  {
    c == target ||
    exists a :: RefersTo(g, c, a) && LinkedIn(g, g[c.round - 1][a], target)
  }

  /** The certificate of author `a` in the round before `c` is one that `c` references. */
  predicate RefersTo(g: Graph, c: Certificate, a: Address) {
    && c.round >= 1 && c.round - 1 in g && a in g[c.round - 1]
    && g[c.round - 1][a].round + 1 == c.round && g[c.round - 1][a].id in c.previous
  }

  lemma {:induction false} LinkedInRounds(g: Graph, c: Certificate, target: Certificate)
    requires LinkedIn(g, c, target)
    ensures c == target || target.round < c.round
    decreases c.round
  {
    if c != target {
      var a :| RefersTo(g, c, a) && LinkedIn(g, g[c.round - 1][a], target);
      LinkedInRounds(g, g[c.round - 1][a], target);
    }
  }

  lemma LinkedInStep(g: Graph, c: Certificate, a: Address, target: Certificate)
    requires RefersTo(g, c, a) && LinkedIn(g, g[c.round - 1][a], target)
    ensures LinkedIn(g, c, target)
  {
  }

  /** The certificates of a round that some certificate of the traversal references. */
  function Referenced(row: map<Address, Certificate>, traversal: set<Certificate>): set<Certificate> {
    set a | a in row && (exists t :: t in traversal && row[a].id in t.previous) :: row[a]
  }

  ghost predicate SomeLinked(g: Graph, traversal: set<Certificate>, target: Certificate) {
    exists t :: t in traversal && LinkedIn(g, t, target)
  }

  /** One step of the search keeps every path, and adds none. */
  lemma SearchStep(g: Graph, traversal: set<Certificate>, round: nat, target: Certificate)
    requires Filed(g) && target.round < round && round - 1 in g
    requires forall t :: t in traversal ==> t.round == round
    ensures SomeLinked(g, traversal, target) <==> SomeLinked(g, Referenced(g[round - 1], traversal), target)
  {
    hide LinkedIn, Filed, Referenced;
    var next := Referenced(g[round - 1], traversal);
    if SomeLinked(g, traversal, target) {
      var t :| t in traversal && LinkedIn(g, t, target);
      var a := StepDown(g, t, target);
      assert g[round - 1][a] in next by { ReferencedBy(g[round - 1], traversal, a, t); }
    }
    if SomeLinked(g, next, target) {
      var n :| n in next && LinkedIn(g, n, target);
      var a, t := ReferencedFrom(g[round - 1], traversal, n);
      assert RefersTo(g, t, a) by { RowRound(g, round - 1, a); }
      LinkedInStep(g, t, a, target);
    }
  }

  lemma StepDown(g: Graph, c: Certificate, target: Certificate) returns (a: Address)
    requires LinkedIn(g, c, target) && c != target
    ensures RefersTo(g, c, a) && LinkedIn(g, g[c.round - 1][a], target)
  {
    a :| RefersTo(g, c, a) && LinkedIn(g, g[c.round - 1][a], target);
  }

  lemma ReferencedBy(row: map<Address, Certificate>, traversal: set<Certificate>, a: Address, t: Certificate)
    requires a in row && t in traversal && row[a].id in t.previous
    ensures row[a] in Referenced(row, traversal)
  {
  }

  lemma ReferencedFrom(row: map<Address, Certificate>, traversal: set<Certificate>, n: Certificate)
    returns (a: Address, t: Certificate)
    requires n in Referenced(row, traversal)
    ensures a in row && row[a] == n && t in traversal && n.id in t.previous
  {
    a :| a in row && (exists t :: t in traversal && row[a].id in t.previous) && n == row[a];
    t :| t in traversal && row[a].id in t.previous;
  }

  lemma RowRound(g: Graph, round: nat, a: Address)
    requires Filed(g) && round in g && a in g[round]
    ensures g[round][a].round == round
  {
  }

  /** Why a path could not be searched. */
  datatype LinkError = RoundsOutOfOrder | MissingRound(round: nat)

  class Dag {
    var graph: Graph
    var recentCommittedIds: map<nat, set<CertificateId>>
    var lastCommittedRound: nat

    constructor ()
      ensures View() == EMPTY_DAG && Valid()
    {
      graph, recentCommittedIds, lastCommittedRound := map[], map[], 0;
    }

    function View(): DagState
      reads this
    {
      DagState(graph, recentCommittedIds, lastCommittedRound)
    }

    ghost predicate Valid()
      reads this
    {
      Filed(graph)
    }

    method Insert(c: Certificate)
      requires Valid()
      modifies this
      ensures Valid()
      ensures View() == Inserted(old(View()), c)
    {
      if !IsRecentlyCommitted(View(), c.round, c.id) {
        var row := Row(graph, c.round);
        assert c.author in row[c.author := c];
        graph := graph[c.round := row[c.author := c]];
      }
    }

    /** Commits a certificate, and forgets what is now below the garbage-collection cutoff. */
    method Commit(c: Certificate, maxGcRounds: nat)
      requires Valid()
      modifies this
      ensures Valid()
      ensures View() == Committed(old(View()), c, maxGcRounds)
    {
      recentCommittedIds := recentCommittedIds[c.round := CommittedAt(View(), c.round) + {c.id}];
      if lastCommittedRound < c.round {
        lastCommittedRound := c.round;
      }
      recentCommittedIds := RetainRounds(recentCommittedIds, maxGcRounds, lastCommittedRound);
      graph := RetainRounds(graph, maxGcRounds, lastCommittedRound);
      graph := RemoveAuthor(graph, c.author, c.round);
    }

    /** Whether the graph holds a path from `current` back to `previous`, searched round by round. */
    method IsLinked(previous: Certificate, current: Certificate) returns (r: Result<bool, LinkError>)
      requires Valid()
      ensures r.Ok? <==> previous.round < current.round
                         && forall k :: previous.round <= k < current.round ==> k in graph
      ensures r.Ok? ==> (r.value <==> LinkedIn(graph, current, previous))
    {
      if previous.round >= current.round {
        return Err(RoundsOutOfOrder);
      }
      var traversal := {current};
      var round := current.round;
      while round > previous.round
        invariant previous.round <= round <= current.round
        invariant forall t :: t in traversal ==> t.round == round
        invariant forall k :: round <= k < current.round ==> k in graph
        invariant LinkedIn(graph, current, previous) <==> SomeLinked(graph, traversal, previous)
      {
        if round - 1 !in graph {
          return Err(MissingRound(round - 1));
        }
        SearchStep(graph, traversal, round, previous);
        traversal := Referenced(graph[round - 1], traversal);
        round := round - 1;
      }
      forall t | t in traversal && LinkedIn(graph, t, previous) ensures t == previous {
        LinkedInRounds(graph, t, previous);
      }
      r := Ok(previous in traversal);
    }
  }
}
