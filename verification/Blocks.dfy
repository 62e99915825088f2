/**
 The blocks that a sequence of anchors determines. A validator's chunks and garbage collection do not
 appear here: the blocks are a function of the anchors alone.
 */
module Blocks {
  import opened Types
  import opened Committees
  import opened CertificateGraph
  import opened Anchors
  import opened Dags
  import opened Ordering
  import opened Subdags

  datatype Block = Block(anchor: Certificate, subdag: Subdag)

  ghost function IdsOf(s: Subdag): set<CertificateId> {
    set r, c | r in s && c in s[r] :: c.id
  }

  /** The certificates of a subdag below round `n`, by round and then in order. */
  function Flatten(s: Subdag, n: nat): seq<Certificate> {
    if n == 0 then [] else Flatten(s, n - 1) + RoundOf(s, n - 1)
  }

  lemma {:induction false} FlattenMember(s: Subdag, n: nat, c: Certificate)
    requires FiledByRound(s)
    ensures c in Flatten(s, n) <==> InSubdag(s, c) && c.round < n
  {
    if n > 0 {
      FlattenMember(s, n - 1, c);
    }
  }

  /** The rows stand one after the other, lower rounds first, each in its own order. */
  lemma {:induction false} FlattenSplits(s: Subdag, n: nat, round: nat) returns (rest: seq<Certificate>)
    requires round < n
    ensures Flatten(s, n) == Flatten(s, round) + RoundOf(s, round) + rest
    ensures forall c :: c in rest ==> exists r :: round < r < n && c in RoundOf(s, r)
  {
    if round == n - 1 {
      rest := [];
    } else {
      var before := FlattenSplits(s, n - 1, round);
      rest := before + RoundOf(s, n - 1);
      assert Flatten(s, round) + RoundOf(s, round) + rest == Flatten(s, n - 1) + RoundOf(s, n - 1);
    }
  }

  ghost function DoneIds(blocks: seq<Block>): set<CertificateId> {
    if blocks == [] then {} else DoneIds(blocks[..|blocks| - 1]) + IdsOf(blocks[|blocks| - 1].subdag)
  }

  ghost function AnchorsOf(blocks: seq<Block>): seq<Certificate> {
    seq(|blocks|, i requires 0 <= i < |blocks| => blocks[i].anchor)
  }

  ghost function PastOf(blocks: seq<Block>, maxGcRounds: nat): Past {
    Past(DoneIds(blocks), LastRound(AnchorsOf(blocks)), maxGcRounds)
  }

  /** The subdag of an anchor, given the blocks before it. */
  ghost function SubdagOf(u: Universe, before: seq<Block>, maxGcRounds: nat, anchor: Certificate): Subdag
    requires Keyed(u)
  {
    match OrderDag(UniverseEnv(u, PastOf(before, maxGcRounds)), anchor)
    case Ok(subdag) => subdag
    case Err(_) => map[]
  }

  ghost function BlocksOf(u: Universe, maxGcRounds: nat, anchors: seq<Certificate>): (blocks: seq<Block>)
    requires Keyed(u)
    ensures AnchorsOf(blocks) == anchors
  {
    if anchors == [] then []
    else
      var n := |anchors| - 1;
      var before := BlocksOf(u, maxGcRounds, anchors[..n]);
      var next := Block(anchors[n], SubdagOf(u, before, maxGcRounds, anchors[n]));
      AnchorsExtend(before, next);
      before + [next]
  }

  lemma AnchorsExtend(before: seq<Block>, b: Block)
    ensures AnchorsOf(before + [b]) == AnchorsOf(before) + [b.anchor]
  {
  }

  /** The blocks of a prefix of the anchors are a prefix of the blocks. */
  lemma {:induction false} BlocksOfPrefix(u: Universe, maxGcRounds: nat, a: seq<Certificate>, b: seq<Certificate>)
    requires Keyed(u) && a <= b
    ensures BlocksOf(u, maxGcRounds, a) <= BlocksOf(u, maxGcRounds, b)
    decreases |b|
  {
    hide SubdagOf, AnchorsOf;
    if |a| < |b| {
      var n := |b| - 1;
      assert a <= b[..n];
      BlocksOfPrefix(u, maxGcRounds, a, b[..n]);
      PrefixOfExtension(BlocksOf(u, maxGcRounds, a), BlocksOf(u, maxGcRounds, b[..n]),
                        [Block(b[n], SubdagOf(u, BlocksOf(u, maxGcRounds, b[..n]), maxGcRounds, b[n]))]);
    } else {
      assert a == b;
    }
  }

  /** What the past of a sequence of blocks looks like. */
  ghost predicate PastValid(u: Universe, past: Past) {
    && (forall i :: i in past.done ==> i in u && u[i].round <= past.last)
    && DoneClosed(u, past)
  }

  ghost predicate LeadersAscend(p: Protocol, u: Universe, anchors: seq<Certificate>) {
    Ascending(anchors) && forall i :: 0 <= i < |anchors| ==> IsLeader(p, u, anchors[i])
  }

  lemma CommittableShape(p: Protocol, u: Universe, anchors: seq<Certificate>)
    requires Committable(p, u, anchors)
    ensures LeadersAscend(p, u, anchors) && LastRound(anchors) % 2 == 0
  {
    if anchors != [] {
      var l :| Direct(p, u, l) && anchors <= Chain(p, u, l);
      hide Chain;
      ChainShape(p, u, l);
      assert forall i :: 0 <= i < |anchors| ==> anchors[i] == Chain(p, u, l)[i];
    }
  }

  lemma IdsOfExact(u: Universe, past: Past, leader: Certificate, m: Subdag, i: CertificateId)
    requires Keyed(u) && Member(u, leader) && Exact(u, past, leader, m)
    ensures i in IdsOf(m) <==> i in u && Reaches(u, past, leader, u[i])
  {
    hide Reaches;
    if i in IdsOf(m) {
      var r, c :| r in m && c in m[r] && c.id == i;
      assert InSubdag(m, c);
      ReachesMember(u, past, leader, c);
    }
    if i in u && Reaches(u, past, leader, u[i]) {
      assert InSubdag(m, u[i]);
    }
  }

  lemma {:induction false} ReachesMember(u: Universe, past: Past, c: Certificate, x: Certificate)
    requires Keyed(u) && Member(u, c) && Reaches(u, past, c, x)
    ensures Member(u, x)
    decreases c.round
  {
    if c != x {
      var i :| Follows(u, past, c, i) && Reaches(u, past, u[i], x);
      ReachesMember(u, past, u[i], x);
    }
  }

  /** Committing one more anchor keeps what is committed closed under references above the cutoff. */
  lemma PastExtends(p: Protocol, u: Universe, past: Past, leader: Certificate, m: Subdag)
    requires WellFormed(p, u) && Member(u, leader) && Exact(u, past, leader, m)
    requires PastValid(u, past) && leader.round > past.last
    ensures PastValid(u, Past(past.done + IdsOf(m), leader.round, past.maxGcRounds))
  {
    var next := Past(past.done + IdsOf(m), leader.round, past.maxGcRounds);
    hide Reaches, CertificateValid;
    forall i | i in next.done ensures i in u && u[i].round <= next.last {
      IdsOfExact(u, past, leader, m, i);
      if i in IdsOf(m) {
        ReachesLower(u, past, leader, u[i]);
      }
    }
    forall i, j | i in next.done && i in u && j in u[i].previous && j in u && AboveCutoff(next, u[j])
      ensures j in next.done
    {
      if i !in past.done && j !in past.done {
        IdsOfExact(u, past, leader, m, i);
        IdsOfExact(u, past, leader, m, j);
        ParentInUniverse(p, u, u[i], j);
        assert Follows(u, past, u[i], j);
        ReachesExtends(u, past, leader, u[i], j);
      }
    }
  }

  lemma AscendPrefix(p: Protocol, u: Universe, anchors: seq<Certificate>, n: nat)
    requires LeadersAscend(p, u, anchors) && n < |anchors|
    ensures LeadersAscend(p, u, anchors[..n])
    ensures anchors[n].round > LastRound(anchors[..n])
  {
  }

  lemma PastOfExtended(before: seq<Block>, b: Block, maxGcRounds: nat)
    ensures PastOf(before + [b], maxGcRounds)
            == Past(DoneIds(before) + IdsOf(b.subdag), b.anchor.round, maxGcRounds)
  {
    assert (before + [b])[..|before|] == before;
    assert AnchorsOf(before + [b]) == AnchorsOf(before) + [b.anchor];
  }

  /** After any number of anchors the past is valid, and the search for the next one succeeds exactly. */
  lemma {:induction false} PastIsValid(p: Protocol, u: Universe, maxGcRounds: nat, anchors: seq<Certificate>)
    requires WellFormed(p, u) && LeadersAscend(p, u, anchors) && maxGcRounds >= 1
    ensures PastValid(u, PastOf(BlocksOf(u, maxGcRounds, anchors), maxGcRounds))
    decreases |anchors|
  {
    hide CertificateValid, OrderDag, Exact;
    if anchors != [] {
      var n := |anchors| - 1;
      var before := BlocksOf(u, maxGcRounds, anchors[..n]);
      AscendPrefix(p, u, anchors, n);
      PastIsValid(p, u, maxGcRounds, anchors[..n]);
      OrderDagIsExact(p, u, PastOf(before, maxGcRounds), anchors[n]);
      var subdag := SubdagOf(u, before, maxGcRounds, anchors[n]);
      PastExtends(p, u, PastOf(before, maxGcRounds), anchors[n], subdag);
      PastOfExtended(before, Block(anchors[n], subdag), maxGcRounds);
    }
  }

  /** Blocks of the same anchors that, block by block, have committed the same certificates. */
  ghost predicate SameDone(a: seq<Block>, b: seq<Block>) {
    && |a| == |b| && AnchorsOf(a) == AnchorsOf(b)
    && forall k :: 0 <= k <= |a| ==> DoneIds(a[..k]) == DoneIds(b[..k])
  }

  lemma SameDonePast(a: seq<Block>, b: seq<Block>, k: nat, maxGcRounds: nat)
    requires SameDone(a, b) && k <= |a|
    ensures PastOf(a[..k], maxGcRounds) == PastOf(b[..k], maxGcRounds)
  {
    hide DoneIds;
    assert AnchorsOf(a[..k]) == AnchorsOf(a)[..k] == AnchorsOf(b)[..k] == AnchorsOf(b[..k]);
  }

  lemma SameDoneAll(a: seq<Block>, b: seq<Block>, maxGcRounds: nat)
    requires SameDone(a, b)
    ensures PastOf(a, maxGcRounds) == PastOf(b, maxGcRounds) && DoneIds(a) == DoneIds(b)
  {
    SameDonePast(a, b, |a|, maxGcRounds);
    assert a[..|a|] == a && b[..|b|] == b;
  }

  lemma SameDoneExtends(a: seq<Block>, b: seq<Block>, x: Block, y: Block)
    requires SameDone(a, b) && x.anchor == y.anchor && DoneIds(a + [x]) == DoneIds(b + [y])
    ensures SameDone(a + [x], b + [y])
  {
    hide DoneIds;
    AnchorsExtend(a, x);
    AnchorsExtend(b, y);
    forall k | 0 <= k <= |a| + 1 ensures DoneIds((a + [x])[..k]) == DoneIds((b + [y])[..k]) {
      if k <= |a| {
        assert (a + [x])[..k] == a[..k] && (b + [y])[..k] == b[..k];
      } else {
        assert (a + [x])[..k] == a + [x] && (b + [y])[..k] == b + [y];
      }
    }
  }

  lemma DoneExtended(before: seq<Block>, b: Block)
    ensures DoneIds(before + [b]) == DoneIds(before) + IdsOf(b.subdag)
  {
    assert (before + [b])[..|before|] == before;
  }

  lemma BlockAt(u: Universe, maxGcRounds: nat, anchors: seq<Certificate>, k: nat)
    requires Keyed(u) && k < |anchors|
    ensures var blocks := BlocksOf(u, maxGcRounds, anchors);
            var before := BlocksOf(u, maxGcRounds, anchors[..k]);
            && blocks[..k] == before
            && blocks[k] == Block(anchors[k], SubdagOf(u, before, maxGcRounds, anchors[k]))
  {
    hide SubdagOf;
    BlocksOfPrefix(u, maxGcRounds, anchors[..k], anchors);
    BlocksOfPrefix(u, maxGcRounds, anchors[..k + 1], anchors);
    assert anchors[..k + 1][..k] == anchors[..k];
    assert |AnchorsOf(BlocksOf(u, maxGcRounds, anchors[..k]))| == k;
  }

  /**
   Every block holds its anchor together with the certificates of the anchor's causal history that are above
   the cutoff and in no earlier block: all of them, each once, and nothing else.
   */
  lemma BlockIsHistory(p: Protocol, u: Universe, maxGcRounds: nat, anchors: seq<Certificate>, k: nat, x: Certificate)
    requires WellFormed(p, u) && LeadersAscend(p, u, anchors) && maxGcRounds >= 1 && k < |anchors|
    ensures var blocks := BlocksOf(u, maxGcRounds, anchors);
            var past := PastOf(blocks[..k], maxGcRounds);
            && FiledByRound(blocks[k].subdag)
            && (InSubdag(blocks[k].subdag, x) <==>
                x == anchors[k] || (Linked(u, anchors[k], x) && x.id !in past.done && AboveCutoff(past, x)))
  {
    hide CertificateValid, OrderDag;
    var before := BlocksOf(u, maxGcRounds, anchors[..k]);
    var past := PastOf(before, maxGcRounds);
    AscendPrefix(p, u, anchors, k);
    PastIsValid(p, u, maxGcRounds, anchors[..k]);
    BlockAt(u, maxGcRounds, anchors, k);
    OrderDagIsExact(p, u, past, anchors[k]);
    ReachesIffHistory(u, past, anchors[k], x);
  }

  lemma {:induction false} DoneContains(blocks: seq<Block>, j: nat)
    requires j < |blocks|
    ensures IdsOf(blocks[j].subdag) <= DoneIds(blocks)
    decreases |blocks|
  {
    var n := |blocks| - 1;
    if j < n {
      assert blocks[..n][j] == blocks[j];
      DoneContains(blocks[..n], j);
    }
  }

  /** No certificate lies in two blocks. */
  lemma BlocksDisjoint(p: Protocol, u: Universe, maxGcRounds: nat, anchors: seq<Certificate>, j: nat, k: nat)
    requires WellFormed(p, u) && LeadersAscend(p, u, anchors) && maxGcRounds >= 1 && j < k < |anchors|
    ensures var blocks := BlocksOf(u, maxGcRounds, anchors);
            IdsOf(blocks[j].subdag) !! IdsOf(blocks[k].subdag)
  {
    hide CertificateValid, OrderDag, Reaches, Exact;
    var before := BlocksOf(u, maxGcRounds, anchors[..k]);
    var past := PastOf(before, maxGcRounds);
    AscendPrefix(p, u, anchors, k);
    PastIsValid(p, u, maxGcRounds, anchors[..k]);
    BlockAt(u, maxGcRounds, anchors, k);
    OrderDagIsExact(p, u, past, anchors[k]);
    DoneContains(before, j);
    var subdag := SubdagOf(u, before, maxGcRounds, anchors[k]);
    forall i | i in IdsOf(subdag) ensures i !in past.done {
      IdsOfExact(u, past, anchors[k], subdag, i);
      if u[i] != anchors[k] {
        ReachesLower(u, past, anchors[k], u[i]);
      }
    }
    assert BlocksOf(u, maxGcRounds, anchors)[j] == before[j];
  }
}
