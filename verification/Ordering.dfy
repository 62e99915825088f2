/**
 `order_dag_with_dfs` (node/bft/src/bft.rs): the explicit-stack search that linearises what an anchor
 commits. The search is first given as a function of what the validator can look up; the method in
 Bft.dfy is proved to compute that function, and the lemmas say what the function yields.
 */
module Ordering {
  import opened Types
  import opened CertificateGraph
  import opened Dags

  /** Certificates by round, each round in the order of insertion. */
  type Subdag = map<nat, seq<Certificate>>

  /** All that the search consults. `ledger` holds the IDs the ledger confirms as already in a block. */
  datatype Env = Env(dag: DagState, storage: map<CertificateId, Certificate>, ledger: set<CertificateId>, maxGcRounds: nat)

  datatype Search = Search(commit: Subdag, ordered: set<CertificateId>, buffer: seq<Certificate>)

  function PreviousRound(c: Certificate): nat {
    if c.round == 0 then 0 else c.round - 1
  }

  predicate AlreadyCommitted(env: Env, round: nat, id: CertificateId) {
    IsRecentlyCommitted(env.dag, round, id) || id in env.ledger
  }

  ghost predicate IdInRow(row: map<Address, Certificate>, id: CertificateId) {
    exists a :: a in row && row[a].id == id
  }

  /** The DAG is asked first, then the storage. */
  ghost function Lookup(env: Env, round: nat, id: CertificateId): (r: Option<Certificate>)
    requires Keyed(env.storage)
    ensures r.Some? ==> r.value.id == id && id in KnownIds(env)
  {
    var row := Row(env.dag.graph, round);
    if IdInRow(row, id) then
      var a :| a in row && row[a].id == id;
      assert env.dag.graph[round][a].id == id;
      Some(row[a])
    else if id in env.storage then Some(env.storage[id])
    else None
  }

  ghost function KnownIds(env: Env): set<CertificateId> {
    env.storage.Keys + set r, a | r in env.dag.graph && a in env.dag.graph[r] :: env.dag.graph[r][a].id
  }

  function RoundOf(commit: Subdag, round: nat): seq<Certificate> {
    if round in commit then commit[round] else []
  }

  function AddToRound(commit: Subdag, c: Certificate): Subdag {
    var row := RoundOf(commit, c.round);
    commit[c.round := if c in row then row else row + [c]]
  }

  /** The references of `c` are at or below the garbage-collection cutoff, and are not followed. */
  predicate BelowCutoff(env: Env, c: Certificate) {
    PreviousRound(c) + env.maxGcRounds <= env.dag.lastCommittedRound
  }

  /** Pushes the references of `c` still to be ordered, from index `k - 1` down to 0. */
  ghost function Expand(env: Env, c: Certificate, k: nat, s: Search): (r: Result<Search, CertificateId>)
    requires Keyed(env.storage) && k <= |c.previous|
    ensures r.Ok? ==> s.ordered <= r.value.ordered <= s.ordered + KnownIds(env)
    ensures r.Ok? ==> r.value.commit == s.commit
    ensures r.Ok? && r.value.ordered == s.ordered ==> r.value.buffer == s.buffer
    decreases k
  {
    if k == 0 then Ok(s)
    else
      var id := c.previous[k - 1];
      if id in s.ordered || AlreadyCommitted(env, PreviousRound(c), id) then Expand(env, c, k - 1, s)
      else
        match Lookup(env, PreviousRound(c), id)
        case None => Err(id)
        case Some(previous) =>
          Expand(env, c, k - 1, s.(ordered := s.ordered + {previous.id}, buffer := s.buffer + [previous]))
  }

  /** Orders the certificate on top of the stack. */
  ghost function Step(env: Env, s: Search): (r: Result<Search, CertificateId>)
    requires Keyed(env.storage) && s.buffer != []
  {
    var c := s.buffer[|s.buffer| - 1];
    var popped := Search(AddToRound(s.commit, c), s.ordered, s.buffer[..|s.buffer| - 1]);
    if BelowCutoff(env, c) then Ok(popped) else Expand(env, c, |c.previous|, popped)
  }

  ghost function Run(env: Env, s: Search): (r: Result<Subdag, CertificateId>)
    requires Keyed(env.storage)
    decreases KnownIds(env) - s.ordered, |s.buffer|
  {
    if s.buffer == [] then Ok(s.commit)
    else
      match Step(env, s)
      case Err(id) => Err(id)
      case Ok(next) =>
        StepProgress(env, s);
        Run(env, next)
  }

  lemma StepProgress(env: Env, s: Search)
    requires Keyed(env.storage) && s.buffer != [] && Step(env, s).Ok?
    ensures var next := Step(env, s).value;
            || KnownIds(env) - next.ordered < KnownIds(env) - s.ordered
            || (KnownIds(env) - next.ordered == KnownIds(env) - s.ordered && |next.buffer| < |s.buffer|)
  {
    var next := Step(env, s).value;
    if next.ordered != s.ordered {
      var id :| id in next.ordered && id !in s.ordered;
      assert id in KnownIds(env) - s.ordered && id !in KnownIds(env) - next.ordered;
    }
  }

  function Start(leader: Certificate): Search {
    Search(map[], {}, [leader])
  }

  /** The subdag of a leader: what the search orders, less what is below the cutoff. */
  ghost function OrderDag(env: Env, leader: Certificate): Result<Subdag, CertificateId>
    requires Keyed(env.storage)
  {
    match Run(env, Start(leader))
    case Err(id) => Err(id)
    case Ok(commit) => Ok(RetainRounds(commit, env.maxGcRounds, env.dag.lastCommittedRound))
  }
}
