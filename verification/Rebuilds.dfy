/**
 What a validator that starts again rebuilds from the blocks of its ledger: the recent certificates in storage, and a
 DAG into which they are inserted and committed once more (node/bft/src/sync/mod.rs).
 */
module Rebuilds {
  import opened Types
  import opened CertificateGraph
  import opened Anchors
  import opened Dags
  import opened DagCommits
  import opened Ordering
  import opened Subdags
  import opened Blocks

  /** The certificates of blocks, block by block. */
  function CertificatesOf(blocks: seq<Block>): seq<Certificate> {
    if blocks == [] then []
    else
      var b := blocks[|blocks| - 1];
      CertificatesOf(blocks[..|blocks| - 1]) + Flatten(b.subdag, b.anchor.round + 1)
  }

  /** The blocks that are loaded: one for every two rounds that are kept, and one more. */
  function Recent(blocks: seq<Block>, maxGcRounds: nat): seq<Block> {
    if |blocks| <= maxGcRounds / 2 + 1 then blocks else blocks[|blocks| - (maxGcRounds / 2 + 1)..]
  }

  /** Inserts and commits certificates in order. */
  function Refilled(d: DagState, cs: seq<Certificate>, gc: nat): DagState {
    if cs == [] then d
    else
      var c := cs[|cs| - 1];
      Committed(Inserted(Refilled(d, cs[..|cs| - 1], gc), c), c, gc)
  }

  /** Stores certificates in order, but for those that are collected or stored already. */
  function Reloaded(gcRound: nat, cs: seq<Certificate>): Universe {
    if cs == [] then map[]
    else
      var c := cs[|cs| - 1];
      var m := Reloaded(gcRound, cs[..|cs| - 1]);
      if c.round <= gcRound || c.id in m then m else m[c.id := c]
  }

  /** The graph holds only what was inserted, filed by round and author. */
  ghost predicate GraphFrom(d: DagState, cs: seq<Certificate>) {
    Filed(d.graph) && forall x :: InGraph(d.graph, x) ==> x in cs
  }

  lemma InsertKeepsRest(d: DagState, c: Certificate)
    ensures Inserted(d, c).lastCommittedRound == d.lastCommittedRound
    ensures Inserted(d, c).recentCommittedIds == d.recentCommittedIds
  {
  }

  lemma RefillGraph(d: DagState, cs: seq<Certificate>, c: Certificate, gc: nat)
    requires GraphFrom(d, cs)
    ensures GraphFrom(Committed(Inserted(d, c), c, gc), cs + [c])
  {
    if !IsRecentlyCommitted(d, c.round, c.id) {
      InsertGraph(d, c);
    }
    CommitGraph(Inserted(d, c), c, gc);
    hide Inserted, Committed, Filed, InGraph;
  }

  lemma RefillIds(d: DagState, c: Certificate, gc: nat)
    ensures IdsRecorded(d, Committed(Inserted(d, c), c, gc), [c], gc)
  {
    CommitIds(Inserted(d, c), c, gc);
    InsertKeepsRest(d, c);
    hide Inserted, Committed;
    assert forall r: nat, id: CertificateId :: IsRecentlyCommitted(Inserted(d, c), r, id) <==> IsRecentlyCommitted(d, r, id);
  }

  lemma RefilledStep(cs: seq<Certificate>, gc: nat)
    requires cs != []
    ensures var c := cs[|cs| - 1];
            Refilled(EMPTY_DAG, cs, gc) == Committed(Inserted(Refilled(EMPTY_DAG, cs[..|cs| - 1], gc), c), c, gc)
  {
    hide Committed, Inserted;
  }

  lemma NothingRefilled(gc: nat)
    ensures var d := Refilled(EMPTY_DAG, [], gc); d == EMPTY_DAG && LastRises(EMPTY_DAG, d, []) && GraphFrom(d, [])
  {
  }

  lemma {:induction false} RefilledEffect(cs: seq<Certificate>, gc: nat)
    ensures var d := Refilled(EMPTY_DAG, cs, gc);
            && LastRises(EMPTY_DAG, d, cs) && GraphFrom(d, cs) && (cs != [] ==> IdsRecorded(EMPTY_DAG, d, cs, gc))
    decreases |cs|
  {
    hide Refilled, Committed, Inserted, GraphFrom, IdsRecorded, LastRises;
    if cs == [] {
      NothingRefilled(gc);
    } else {
      var n := |cs| - 1;
      var mid := Refilled(EMPTY_DAG, cs[..n], gc);
      RefilledEffect(cs[..n], gc);
      RefilledStep(cs, gc);
      RefillGraph(mid, cs[..n], cs[n], gc);
      RefillIds(mid, cs[n], gc);
      CommitLast(Inserted(mid, cs[n]), cs[n], gc);
      InsertKeepsRest(mid, cs[n]);
      if n == 0 {
        NothingRefilled(gc);
      }
      var d := Committed(Inserted(mid, cs[n]), cs[n], gc);
      assert cs == cs[..n] + [cs[n]];
      LastCompose(EMPTY_DAG, mid, d, cs[..n], cs[n]);
      IdsCompose(EMPTY_DAG, mid, d, cs[..n], cs[n], gc);
    }
  }

  lemma NothingFiled(g: Graph)
    requires Filed(g) && forall x :: !InGraph(g, x)
    ensures g == map[]
  {
    forall r | r in g ensures false {
      assert g[r] != map[];
      var a :| a in g[r];
      assert InGraph(g, g[r][a]);
    }
  }

  lemma OnlyOneFiled(d: DagState, c: Certificate)
    requires d.graph == map[]
    ensures var g := Inserted(d, c).graph; Filed(g) && forall x :: InGraph(g, x) ==> x == c
  {
    if !IsRecentlyCommitted(d, c.round, c.id) {
      InsertGraph(d, c);
    }
  }

  /** Every certificate is committed as soon as it is inserted, so the rebuilt DAG holds none. */
  lemma {:induction false} RefilledIsEmpty(cs: seq<Certificate>, gc: nat)
    ensures Refilled(EMPTY_DAG, cs, gc).graph == map[]
    decreases |cs|
  {
    if cs != [] {
      var n := |cs| - 1;
      var mid, c := Refilled(EMPTY_DAG, cs[..n], gc), cs[n];
      RefilledIsEmpty(cs[..n], gc);
      var full := Inserted(mid, c);
      OnlyOneFiled(mid, c);
      var d := Committed(full, c, gc);
      CommitGraph(full, c, gc);
      hide Refilled, Committed, Inserted, Filed, InGraph;
      forall x ensures !InGraph(d.graph, x) {
        CommitLeaves(full, c, gc, x);
      }
      NothingFiled(d.graph);
      assert Refilled(EMPTY_DAG, cs, gc) == d by { RefilledStep(cs, gc); }
    }
  }

  lemma {:induction false} ReloadedEffect(gcRound: nat, cs: seq<Certificate>, i: CertificateId)
    ensures var m := Reloaded(gcRound, cs);
            && (i in m <==> exists c :: c in cs && c.id == i && c.round > gcRound)
            && (i in m ==> m[i] in cs && m[i].id == i && m[i].round > gcRound)
    decreases |cs|
  {
    if cs != [] {
      var n := |cs| - 1;
      ReloadedEffect(gcRound, cs[..n], i);
      assert cs == cs[..n] + [cs[n]];
      if i in Reloaded(gcRound, cs[..n]) {
        var c :| c in cs[..n] && c.id == i && c.round > gcRound;
        assert c in cs;
      }
    }
  }

  /** No row is above that of the anchor. */
  ghost predicate RowsBelow(b: Block) {
    forall r :: r in b.subdag ==> r <= b.anchor.round
  }

  ghost predicate WellFiled(blocks: seq<Block>) {
    forall k :: 0 <= k < |blocks| ==> FiledByRound(blocks[k].subdag) && RowsBelow(blocks[k])
  }

  ghost predicate InBlock(blocks: seq<Block>, k: nat, c: Certificate) {
    k < |blocks| && InSubdag(blocks[k].subdag, c)
  }

  lemma {:induction false} InCertificatesOf(blocks: seq<Block>, c: Certificate)
    requires WellFiled(blocks)
    ensures c in CertificatesOf(blocks) <==> exists k: nat :: InBlock(blocks, k, c)
    decreases |blocks|
  {
    if blocks != [] {
      var n := |blocks| - 1;
      assert FiledByRound(blocks[n].subdag) && RowsBelow(blocks[n]);
      FlattenMember(blocks[n].subdag, blocks[n].anchor.round + 1, c);
      assert WellFiled(blocks[..n]) by { hide FiledByRound, RowsBelow; }
      InCertificatesOf(blocks[..n], c);
      hide WellFiled, FiledByRound, Flatten;
      if k: nat :| InBlock(blocks[..n], k, c) {
        assert InBlock(blocks, k, c);
      }
      if k: nat :| InBlock(blocks, k, c) {
        assert k == n || InBlock(blocks[..n], k, c);
      }
      if InSubdag(blocks[n].subdag, c) {
        assert InBlock(blocks, n, c);
      }
    }
  }

  /** In a flattened subdag, lower rounds come first. */
  lemma {:induction false} LowerComesFirst(s: Subdag, n: nat, k: nat, x: Certificate) returns (j: nat)
    requires FiledByRound(s) && k < |Flatten(s, n)| && InSubdag(s, x) && x.round < Flatten(s, n)[k].round
    ensures j < k && Flatten(s, n)[j] == x
  {
    var c := Flatten(s, n)[k];
    FlattenMember(s, n, c);
    var lower, row := Flatten(s, n - 1), RoundOf(s, n - 1);
    if k < |lower| {
      j := LowerComesFirst(s, n - 1, k, x);
    } else {
      assert c in row;
      FlattenMember(s, n - 1, x);
      j :| 0 <= j < |lower| && lower[j] == x;
    }
  }

  /** A certificate of an earlier block, or of an earlier round of the same block, comes first. */
  lemma {:induction false} EarlierComesFirst(blocks: seq<Block>, n: nat) returns (m: nat)
    requires WellFiled(blocks) && n < |CertificatesOf(blocks)|
    ensures InBlock(blocks, m, CertificatesOf(blocks)[n])
    ensures forall x :: (exists k: nat :: k < m && InBlock(blocks, k, x)) ==> x in CertificatesOf(blocks)[..n]
    ensures forall x :: InBlock(blocks, m, x) && x.round < CertificatesOf(blocks)[n].round ==> x in CertificatesOf(blocks)[..n]
    decreases |blocks|
  {
    hide FiledByRound, Flatten;
    var last := |blocks| - 1;
    var b := blocks[last];
    var before, own := CertificatesOf(blocks[..last]), Flatten(b.subdag, b.anchor.round + 1);
    assert WellFiled(blocks[..last]) && FiledByRound(b.subdag);
    var all := CertificatesOf(blocks);
    assert all == before + own;
    if n < |before| {
      m := EarlierComesFirst(blocks[..last], n);
      assert all[..n] == before[..n];
      forall x, k: nat | k <= m && InBlock(blocks, k, x) ensures InBlock(blocks[..last], k, x) {
      }
    } else {
      m := last;
      assert own[n - |before|] == all[n];
      FlattenMember(b.subdag, b.anchor.round + 1, all[n]);
      forall x | exists k: nat :: k < m && InBlock(blocks, k, x) ensures x in all[..n] {
        var k: nat :| k < m && InBlock(blocks, k, x);
        assert InBlock(blocks[..last], k, x);
        InCertificatesOf(blocks[..last], x);
        assert x in before && before == all[..|before|];
      }
      forall x | InBlock(blocks, m, x) && x.round < all[n].round ensures x in all[..n] {
        var j := LowerComesFirst(b.subdag, b.anchor.round + 1, n - |before|, x);
        assert all[|before| + j] == x;
      }
    }
  }
}
