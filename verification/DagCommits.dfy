/** What committing a whole subdag does to the DAG, certificate by certificate, seen as one change. */
module DagCommits {
  import opened Types
  import opened Dags

  /** Commits certificates in order. */
  function CommittedAll(d: DagState, cs: seq<Certificate>, gc: nat): DagState {
    if cs == [] then d
    else Committed(CommittedAll(d, cs[..|cs| - 1], gc), cs[|cs| - 1], gc)
  }

  /** The last committed round is the highest seen. */
  ghost predicate LastRises(d: DagState, d': DagState, cs: seq<Certificate>) {
    && d.lastCommittedRound <= d'.lastCommittedRound
    && (forall c :: c in cs ==> c.round <= d'.lastCommittedRound)
    && (d.lastCommittedRound == d'.lastCommittedRound || exists c :: c in cs && c.round == d'.lastCommittedRound)
  }

  ghost predicate CommitsNow(cs: seq<Certificate>, round: nat, id: CertificateId) {
    exists c :: c in cs && c.round == round && c.id == id
  }

  /** The IDs remembered are the old and the new ones that are above the cutoff. */
  ghost predicate IdsRecorded(d: DagState, d': DagState, cs: seq<Certificate>, gc: nat) {
    forall r: nat, id: CertificateId :: IsRecentlyCommitted(d', r, id) <==>
      r + gc > d'.lastCommittedRound && (IsRecentlyCommitted(d, r, id) || CommitsNow(cs, r, id))
  }

  /** The graph loses only certificates at or below the last committed round. */
  ghost predicate GraphShrinks(d: DagState, d': DagState) {
    && Filed(d'.graph)
    && (forall x :: InGraph(d'.graph, x) ==> InGraph(d.graph, x))
    && (forall x :: InGraph(d.graph, x) && x.round > d'.lastCommittedRound ==> InGraph(d'.graph, x))
  }

  /** Inserting a certificate displaces at most one of the same round and author. */
  lemma InsertGraph(d: DagState, c: Certificate)
    requires Filed(d.graph) && !IsRecentlyCommitted(d, c.round, c.id)
    ensures var g := Inserted(d, c).graph;
            && Filed(g)
            && forall x :: InGraph(g, x) <==>
                 x == c || (InGraph(d.graph, x) && (x.round != c.round || x.author != c.author))
  {
    assert c.author in Inserted(d, c).graph[c.round];
  }

  lemma RetainGraph(g: Graph, gc: nat, last: nat)
    requires Filed(g)
    ensures var kept := RetainRounds(g, gc, last);
            Filed(kept) && forall x :: InGraph(kept, x) <==> InGraph(g, x) && x.round + gc > last
  {
  }

  lemma RemoveAuthorGraph(g: Graph, author: Address, round: nat)
    requires Filed(g)
    ensures var kept := RemoveAuthor(g, author, round);
            Filed(kept) && forall x :: InGraph(kept, x) <==> InGraph(g, x) && (x.round > round || x.author != author)
  {
    var kept := RemoveAuthor(g, author, round);
    forall x | InGraph(g, x) && (x.round > round || x.author != author) ensures InGraph(kept, x) {
      assert x.author in g[x.round] - {author} || x.round > round;
    }
  }

  lemma CommitGraph(d: DagState, c: Certificate, gc: nat)
    requires Filed(d.graph)
    ensures GraphShrinks(d, Committed(d, c, gc))
  {
    var last := Max(d.lastCommittedRound, c.round);
    RetainGraph(d.graph, gc, last);
    RemoveAuthorGraph(RetainRounds(d.graph, gc, last), c.author, c.round);
    hide Filed, InGraph, RetainRounds, RemoveAuthor;
  }

  lemma CommitIds(d: DagState, c: Certificate, gc: nat)
    ensures IdsRecorded(d, Committed(d, c, gc), [c], gc)
  {
    var d' := Committed(d, c, gc);
    forall r: nat, id: CertificateId ensures IsRecentlyCommitted(d', r, id) <==>
      r + gc > d'.lastCommittedRound && (IsRecentlyCommitted(d, r, id) || CommitsNow([c], r, id))
    {
      assert CommitsNow([c], r, id) <==> c.round == r && c.id == id by {
        if c.round == r && c.id == id {
          assert c in [c];
        }
      }
    }
  }

  lemma {:induction false} CommittedAllEffect(d: DagState, cs: seq<Certificate>, gc: nat)
    requires Filed(d.graph)
    ensures var d' := CommittedAll(d, cs, gc);
            LastRises(d, d', cs) && GraphShrinks(d, d') && (cs != [] ==> IdsRecorded(d, d', cs, gc))
    decreases |cs|
  {
    if cs != [] {
      var n := |cs| - 1;
      var mid := CommittedAll(d, cs[..n], gc);
      CommittedAllEffect(d, cs[..n], gc);
      CommitGraph(mid, cs[n], gc);
      CommitIds(mid, cs[n], gc);
      CommitLast(mid, cs[n], gc);
      hide Committed, Filed, InGraph, IdsRecorded, LastRises;
      var d' := Committed(mid, cs[n], gc);
      assert cs == cs[..n] + [cs[n]];
      LastCompose(d, mid, d', cs[..n], cs[n]);
      IdsCompose(d, mid, d', cs[..n], cs[n], gc);
    }
  }

  /** Some committed certificate of the same author is of this round or above it. */
  ghost predicate IsOvertaken(cs: seq<Certificate>, x: Certificate) {
    exists c :: c in cs && c.author == x.author && x.round <= c.round
  }

  /** What is left of the graph: what is above the cutoff and has not been overtaken. */
  lemma {:induction false} CommittedAllLeaves(d: DagState, cs: seq<Certificate>, gc: nat, x: Certificate)
    requires Filed(d.graph) && cs != []
    ensures var d' := CommittedAll(d, cs, gc);
            InGraph(d'.graph, x) <==>
              InGraph(d.graph, x) && x.round + gc > d'.lastCommittedRound && !IsOvertaken(cs, x)
    decreases |cs|
  {
    var n := |cs| - 1;
    var mid, c := CommittedAll(d, cs[..n], gc), cs[n];
    CommittedAllEffect(d, cs[..n], gc);
    CommitLeaves(mid, c, gc, x);
    CommitLast(mid, c, gc);
    assert IsOvertaken(cs, x) <==> IsOvertaken(cs[..n], x) || (c.author == x.author && x.round <= c.round) by {
      hide Committed, CommittedAll;
      assert cs == cs[..n] + [c];
    }
    hide Committed, Filed, InGraph, IsOvertaken;
    if n > 0 {
      CommittedAllLeaves(d, cs[..n], gc, x);
    } else {
      assert !IsOvertaken(cs[..n], x) by { NothingOvertakes(x); }
    }
  }

  lemma NothingOvertakes(x: Certificate)
    ensures !IsOvertaken([], x)
  {
  }

  lemma CommitLeaves(d: DagState, c: Certificate, gc: nat, x: Certificate)
    requires Filed(d.graph)
    ensures var d' := Committed(d, c, gc);
            InGraph(d'.graph, x) <==>
              && InGraph(d.graph, x) && x.round + gc > d'.lastCommittedRound
              && (x.round > c.round || x.author != c.author)
  {
    var last := Max(d.lastCommittedRound, c.round);
    RetainGraph(d.graph, gc, last);
    RemoveAuthorGraph(RetainRounds(d.graph, gc, last), c.author, c.round);
    hide Filed, InGraph, RetainRounds, RemoveAuthor;
  }

  lemma LastCompose(d: DagState, mid: DagState, d': DagState, cs: seq<Certificate>, c: Certificate)
    requires LastRises(d, mid, cs)
    requires d'.lastCommittedRound == Max(mid.lastCommittedRound, c.round)
    ensures LastRises(d, d', cs + [c])
    ensures mid.lastCommittedRound <= d'.lastCommittedRound
  {
    if mid.lastCommittedRound < c.round {
      assert c in cs + [c];
    } else if d.lastCommittedRound != mid.lastCommittedRound {
      var x :| x in cs && x.round == mid.lastCommittedRound;
      assert x in cs + [c];
    }
  }

  lemma CommitLast(d: DagState, c: Certificate, gc: nat)
    ensures Committed(d, c, gc).lastCommittedRound == Max(d.lastCommittedRound, c.round)
  {
  }

  lemma IdsCompose(d: DagState, mid: DagState, d': DagState, cs: seq<Certificate>, c: Certificate, gc: nat)
    requires cs != [] ==> IdsRecorded(d, mid, cs, gc)
    requires cs == [] ==> mid == d
    requires IdsRecorded(mid, d', [c], gc) && mid.lastCommittedRound <= d'.lastCommittedRound
    ensures IdsRecorded(d, d', cs + [c], gc)
  {
    hide IsRecentlyCommitted;
    forall r: nat, id: CertificateId ensures CommitsNow(cs + [c], r, id) <==> CommitsNow(cs, r, id) || CommitsNow([c], r, id) {
      if CommitsNow(cs, r, id) {
        var x :| x in cs && x.round == r && x.id == id;
        assert x in cs + [c];
      }
      if CommitsNow([c], r, id) {
        assert c in cs + [c];
      }
    }
  }
}
