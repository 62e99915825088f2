/** Validators to which certificates have come and nothing else has happened. Concrete runs elsewhere begin like this. */
module Arrivals {
  import opened Types
  import opened CertificateGraph
  import opened Dags
  import opened DagCommits
  import opened Rebuilds
  import opened FourMembers
  import opened CommitRuns

  /** A state in which nothing has been committed, and just the certificates of the universe are stored and filed. */
  ghost predicate HasArrived(u: Universe, v: Validator) {
    && v.storage == u && Keyed(u) && v.gcRound == 0 && v.flight.None? && v.accepted == []
    && v.dag.recentCommittedIds == map[] && v.dag.lastCommittedRound == 0
    && Dags.Filed(v.dag.graph) && forall x :: InGraph(v.dag.graph, x) <==> Member(u, x)
  }

  lemma NothingArrived()
    ensures HasArrived(map[], GENESIS)
  {
  }

  lemma NextArrives(p: Protocol, u: Universe, v: Validator, c: Certificate)
    requires HasArrived(u, v) && c.id !in u && forall x :: Member(u, x) ==> x.round != c.round || x.author != c.author
    ensures HasArrived(u[c.id := c], Received(p, v, c))
  {
    NextIsFiled(u, v.dag, c);
    hide InGraph, Dags.Filed, Elected, Inserted, Member;
    InsertKeepsRest(v.dag, c);
  }

  lemma NextIsFiled(u: Universe, d: DagState, c: Certificate)
    requires d.recentCommittedIds == map[] && Dags.Filed(d.graph) && forall x :: InGraph(d.graph, x) <==> Member(u, x)
    requires c.id !in u && forall x :: Member(u, x) ==> x.round != c.round || x.author != c.author
    ensures Dags.Filed(Inserted(d, c).graph) && forall x :: InGraph(Inserted(d, c).graph, x) <==> Member(u[c.id := c], x)
  {
    InsertGraph(d, c);
    hide InGraph, Dags.Filed, Inserted;
    assert forall x :: Member(u[c.id := c], x) <==> Member(u, x) || x == c;
  }

  lemma ArrivedIs(u: Universe, v: Validator)
    requires HasArrived(u, v)
    ensures v.storage == u && v.gcRound == 0 && v.flight.None? && v.accepted == [] && v.dag.lastCommittedRound == 0
    ensures AllFiled(v) && Keyed(v.storage)
  {
    hide InGraph, Dags.Filed;
  }

  lemma RunStarts(p: Protocol, u: Universe)
    ensures IsRun(p, u, [], GENESIS)
  {
  }

  lemma NextOfTable(at: nat -> Certificate, size: nat, n: nat, v: Validator)
    requires IsTable(at, size) && n < size && HasArrived(Upto(at, n), v)
    ensures Insertable(v, at(n)) && at(n).id == n && n !in Upto(at, n)
    ensures forall x :: Member(Upto(at, n), x) ==> x.round != at(n).round || x.author != at(n).author
  {
    ArrivedIs(Upto(at, n), v);
    hide HasArrived;
    assert IsEntry(at, n);
    forall x | Member(Upto(at, n), x) ensures x.round != at(n).round || x.author != at(n).author {
      UptoIff(at, size, n, x);
    }
  }

  /** The first `n` certificates of a table arrive; `w` is the state before the last one does. */
  lemma {:induction false} TableArrives(p: Protocol, at: nat -> Certificate, size: nat, n: nat)
    returns (actions: seq<Action>, w: Validator, v: Validator)
    requires IsTable(at, size) && n <= size
    ensures IsRun(p, Upto(at, size), actions, v) && HasArrived(Upto(at, n), v)
    ensures n > 0 ==> v == Received(p, w, at(n - 1))
  {
    hide IsRun, Received, Insertable, HasArrived, IsTable;
    if n == 0 {
      actions, w, v := [], GENESIS, GENESIS;
      assert Upto(at, 0) == map[];
      NothingArrived();
      RunStarts(p, Upto(at, size));
    } else {
      var before, _, last := TableArrives(p, at, size, n - 1);
      var c := at(n - 1);
      NextOfTable(at, size, n - 1, last);
      UptoNext(at, n - 1);
      NextArrives(p, Upto(at, n - 1), last, c);
      ReceiveIsRun(p, Upto(at, size), before, last, c);
      actions, w, v := before + [Store(c)] + [File(c)], last, Received(p, last, c);
    }
  }
}
