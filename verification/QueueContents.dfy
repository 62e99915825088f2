/**
 What the memory pool's queue holds, transactions and fees included: whatever comes out was brought in, and of what is
 brought in just that is missing which made way. The low-priority queue is in the order of last use.
 */
module QueueContents {
  import opened Types
  import opened TransactionsQueue

  datatype Item = Item(id: TransactionId, t: Transaction, fee: nat)

  ghost predicate AllKnown(ranked: seq<Ranked>, m: map<TransactionId, Transaction>) {
    forall k :: 0 <= k < |ranked| ==> ranked[k].id in m
  }

  ghost function ItemOf(e: Ranked, m: map<TransactionId, Transaction>): Item
    requires e.id in m
  {
    Item(e.id, m[e.id], e.fee)
  }

  ghost function HighItems(ranked: seq<Ranked>, m: map<TransactionId, Transaction>): seq<Item>
    requires AllKnown(ranked, m)
  {
    seq(|ranked|, k requires 0 <= k < |ranked| => ItemOf(ranked[k], m))
  }

  ghost function LowItem(e: (TransactionId, Transaction)): Item {
    Item(e.0, e.1, 0)
  }

  ghost function LowItems(low: Low): seq<Item> {
    seq(|low|, k requires 0 <= k < |low| => LowItem(low[k]))
  }

  lemma AgreesKnown(h: High)
    requires Agrees(h)
    ensures AllKnown(h.ranked, h.transactions)
  {
    forall k | 0 <= k < |h.ranked| ensures h.ranked[k].id in h.transactions {
      assert h.ranked[k].id in IdSet(h.ranked);
    }
  }

  ghost function HighContents(h: High): multiset<Item>
    requires Agrees(h)
  {
    AgreesKnown(h);
    multiset(HighItems(h.ranked, h.transactions))
  }

  /** All that the pool holds. */
  ghost function Contents(s: Pool): multiset<Item>
    requires Agrees(s.high)
  {
    HighContents(s.high) + multiset(LowItems(s.low))
  }

  /* The priority queue. */

  lemma HighItemsSnoc(ranked: seq<Ranked>, e: Ranked, m: map<TransactionId, Transaction>)
    requires AllKnown(ranked, m) && e.id in m
    ensures AllKnown(ranked + [e], m) && HighItems(ranked + [e], m) == HighItems(ranked, m) + [ItemOf(e, m)]
  {
  }

  lemma {:induction false} PlacedItems(ranked: seq<Ranked>, e: Ranked, m: map<TransactionId, Transaction>)
    requires AllKnown(ranked, m) && e.id in m
    ensures AllKnown(Placed(ranked, e), m)
    ensures multiset(HighItems(Placed(ranked, e), m)) == multiset(HighItems(ranked, m)) + multiset{ItemOf(e, m)}
  {
    hide HighItems, ItemOf;
    if ranked == [] || Before(ranked[|ranked| - 1], e) {
      HighItemsSnoc(ranked, e, m);
    } else {
      var n := |ranked| - 1;
      PlacedItems(ranked[..n], e, m);
      HighItemsSnoc(Placed(ranked[..n], e), ranked[n], m);
      HighItemsSnoc(ranked[..n], ranked[n], m);
      assert ranked == ranked[..n] + [ranked[n]];
    }
  }

  lemma SameItems(ranked: seq<Ranked>, m: map<TransactionId, Transaction>, m': map<TransactionId, Transaction>)
    requires AllKnown(ranked, m)
    requires forall k :: 0 <= k < |ranked| ==> ranked[k].id in m' && m'[ranked[k].id] == m[ranked[k].id]
    ensures AllKnown(ranked, m') && HighItems(ranked, m') == HighItems(ranked, m)
  {
  }

  /** A new transaction is added as it is. */
  lemma InsertAdds(h: High, id: TransactionId, t: Transaction, fee: nat)
    requires Agrees(h)
    ensures Agrees(Inserted(h, id, t, fee))
    ensures HighContents(Inserted(h, id, t, fee)) ==
            HighContents(h) + if id in h.transactions then multiset{} else multiset{Item(id, t, fee)}
  {
    InsertedAgrees(h, id, t, fee);
    AgreesKnown(h);
    if id !in h.transactions {
      var m := h.transactions[id := t];
      SameItems(h.ranked, h.transactions, m) by {
        assert forall k :: 0 <= k < |h.ranked| ==> h.ranked[k].id in IdSet(h.ranked);
      }
      hide Agrees, HighItems;
      PlacedItems(h.ranked, Ranked(fee, h.counter, id), m);
    }
  }

  ghost function Lowest(h: High): Item
    requires Agrees(h) && h.ranked != []
  {
    AgreesKnown(h);
    ItemOf(h.ranked[|h.ranked| - 1], h.transactions)
  }

  lemma TrimTakesLowest(h: High)
    requires Agrees(h) && h.ranked != []
    ensures Agrees(Trimmed(h)) && HighContents(Trimmed(h)) + multiset{Lowest(h)} == HighContents(h)
  {
    TrimmedAgrees(h);
    AgreesKnown(h);
    var n := |h.ranked| - 1;
    var rest := h.ranked[..n];
    assert h.ranked == rest + [h.ranked[n]];
    HighItemsSnoc(rest, h.ranked[n], h.transactions);
    SameItems(rest, h.transactions, Trimmed(h).transactions);
  }

  lemma PopTakesFirst(h: High)
    requires Agrees(h) && h.ranked != []
    ensures Agrees(Popped(h)) && h.ranked[0].id in h.transactions
    ensures HighContents(Popped(h)) + multiset{ItemOf(h.ranked[0], h.transactions)} == HighContents(h)
  {
    PoppedAgrees(h);
    AgreesKnown(h);
    AgreesKnown(Popped(h));
    var rest := h.ranked[1..];
    hide Agrees;
    SameItems(rest, Popped(h).transactions, h.transactions);
    HighItemsCons(h.ranked, h.transactions);
  }

  lemma HighItemsCons(ranked: seq<Ranked>, m: map<TransactionId, Transaction>)
    requires AllKnown(ranked, m) && ranked != []
    ensures AllKnown(ranked[1..], m) && HighItems(ranked, m) == [ItemOf(ranked[0], m)] + HighItems(ranked[1..], m)
  {
  }

  /** No item has a lower fee than the lowest. */
  lemma LowestIsLowest(h: High, i: Item)
    requires Agrees(h) && h.ranked != [] && i in HighContents(h)
    ensures Lowest(h).fee <= i.fee
  {
    AgreesKnown(h);
    assert Ordered(h.ranked);
    hide Agrees;
    var items := HighItems(h.ranked, h.transactions);
    assert i in items;
    var k :| 0 <= k < |items| && items[k] == i;
  }

  /* The low-priority queue. */

  lemma LowItemsConcat(a: Low, b: Low)
    ensures LowItems(a + b) == LowItems(a) + LowItems(b)
  {
  }

  /** Using an entry that is there changes nothing but the order; a new one is added, and may take the place of the first. */
  lemma UseExchanges(low: Low, id: TransactionId, t: Transaction, capacity: nat)
    requires capacity >= 1
    ensures var before, after := multiset(LowItems(low)), multiset(LowItems(Used(low, id, t, capacity)));
            if id in LowIds(low) then after == before
            else if |low| < capacity then after == before + multiset{Item(id, t, 0)}
            else after + multiset{LowItem(low[0])} == before + multiset{Item(id, t, 0)}
  {
    hide LowItems;
    assert id in LowIds(low) <==> exists k :: 0 <= k < |low| && low[k].0 == id;
    LowItemsOne((id, t));
    if id in LowIds(low) {
      var k := IndexOf(low, id);
      assert low == low[..k] + [low[k]] + low[k + 1..];
      LowItemsConcat(low[..k], [low[k]]);
      LowItemsConcat(low[..k] + [low[k]], low[k + 1..]);
      LowItemsConcat(low[..k], low[k + 1..]);
      LowItemsConcat(low[..k] + low[k + 1..], [low[k]]);
    } else if |low| < capacity {
      LowItemsConcat(low, [(id, t)]);
    } else {
      assert low == [low[0]] + low[1..];
      LowItemsOne(low[0]);
      LowItemsConcat([low[0]], low[1..]);
      LowItemsConcat(low[1..], [(id, t)]);
    }
  }

  lemma LowItemsOne(e: (TransactionId, Transaction))
    ensures LowItems([e]) == [LowItem(e)]
  {
  }

  lemma DropTakesFirst(low: Low)
    requires low != []
    ensures multiset(LowItems(low[1..])) + multiset{LowItem(low[0])} == multiset(LowItems(low))
  {
    assert low == [low[0]] + low[1..];
    LowItemsOne(low[0]);
    LowItemsConcat([low[0]], low[1..]);
  }

  /* The pool. */

  /**
   What an insertion leaves out, if its ID is new: nothing while there is room; in front of a full priority queue the
   lowest fee, which may be the new one; otherwise the least recently used entry of the other queue.
   */
  ghost function MakesWay(s: Pool, capacity: nat, i: Item): multiset<Item>
    requires Agrees(s.high)
  {
    if Size(s) < capacity then multiset{}
    else if |s.high.transactions| >= capacity then
      if i.fee == 0 || s.high.ranked == [] || Lowest(s.high).fee > i.fee then multiset{i} else multiset{Lowest(s.high)}
    else if i.fee == 0 && |s.low| < capacity then multiset{}
    else if s.low == [] then multiset{}
    else multiset{LowItem(s.low[0])}
  }

  ghost function OperationOf(i: Item): Operation {
    Insert(i.id, i.t, i.fee)
  }

  lemma OnTop(h: multiset<Item>, a: multiset<Item>, b: multiset<Item>, c: multiset<Item>, d: multiset<Item>)
    requires a + b == c + d
    ensures h + a + b == h + c + d && a + h + b == c + h + d
  {
    assert h + a + b == h + (a + b) && h + c + d == h + (c + d);
    assert a + h + b == h + (a + b) && c + h + d == h + (c + d);
  }

  lemma Rearranged(
    after: multiset<Item>, y: multiset<Item>, d: multiset<Item>, way: multiset<Item>, before: multiset<Item>, i: multiset<Item>)
    requires after + way == before + i
    ensures after + (y + multiset{}) + (d + way) == before + y + d + i
  {
    assert after + (y + multiset{}) + (d + way) == (after + way) + (y + d);
    assert before + y + d + i == (before + i) + (y + d);
  }

  /** Where an insertion goes. */
  lemma InsertGoes(s: Pool, capacity: nat, i: Item)
    requires Bounded(s, capacity) && capacity >= 1
    ensures var after, full := AfterOperation(s, capacity, OperationOf(i)), |s.high.transactions| >= capacity;
            && (Size(s) < capacity ==> !full && |s.low| < capacity)
            && (Size(s) >= capacity && !full ==> s.low != [])
            && after ==
                 if full then (if i.fee == 0 then s else s.(high := CompareInserted(s.high, i.id, i.t, i.fee)))
                 else if i.fee == 0 then s.(low := Used(s.low, i.id, i.t, capacity))
                 else if Size(s) < capacity then s.(high := Inserted(s.high, i.id, i.t, i.fee))
                 else Pool(s.low[1..], Inserted(s.high, i.id, i.t, i.fee))
  {
    hide Agrees, Inserted, CompareInserted, Used;
    SizeIsRanked(s.high);
  }

  /** An insertion with a new ID adds it, and takes out just what makes way. */
  lemma InsertExchanges(s: Pool, capacity: nat, i: Item)
    requires Bounded(s, capacity) && capacity >= 1 && i.id !in s.high.transactions && i.id !in LowIds(s.low)
    ensures var after := AfterOperation(s, capacity, OperationOf(i));
            Agrees(after.high) && Contents(after) + MakesWay(s, capacity, i) == Contents(s) + multiset{i}
  {
    hide Agrees, Inserted, CompareInserted, Used, HighContents, LowItems, LowIds, AfterOperation;
    InsertGoes(s, capacity, i);
    if |s.high.transactions| >= capacity {
      CompeteExchanges(s.high, i);
      var after := CompareInserted(s.high, i.id, i.t, i.fee);
      if i.fee > 0 {
        OnTop(multiset(LowItems(s.low)), HighContents(after), MakesWay(s, capacity, i), HighContents(s.high), multiset{i});
      }
    } else if i.fee == 0 {
      UseExchanges(s.low, i.id, i.t, capacity);
      var after := Pool(Used(s.low, i.id, i.t, capacity), s.high);
      assert AfterOperation(s, capacity, OperationOf(i)) == after;
      OnTop(HighContents(s.high), multiset(LowItems(after.low)), MakesWay(s, capacity, i), multiset(LowItems(s.low)), multiset{i});
    } else {
      InsertAdds(s.high, i.id, i.t, i.fee);
      if Size(s) >= capacity {
        DropTakesFirst(s.low);
      }
    }
  }

  lemma CompeteExchanges(h: High, i: Item)
    requires Agrees(h) && i.id !in h.transactions
    ensures var after := CompareInserted(h, i.id, i.t, i.fee);
            && Agrees(after)
            && if h.ranked == [] || Lowest(h).fee > i.fee then after == h
               else HighContents(after) + multiset{Lowest(h)} == HighContents(h) + multiset{i}
  {
    hide Agrees, HighContents, Inserted;
    CompareInsertedAgrees(h, i.id, i.t, i.fee);
    if h.ranked != [] && h.ranked[|h.ranked| - 1].fee <= i.fee {
      TrimTakesLowest(h);
      InsertAdds(Trimmed(h), i.id, i.t, i.fee);
    }
  }

  /** Whatever the ID, an insertion brings in nothing else. */
  lemma InsertBringsOne(s: Pool, capacity: nat, i: Item)
    requires Bounded(s, capacity) && capacity >= 1
    ensures var after := AfterOperation(s, capacity, OperationOf(i));
            Agrees(after.high) && Contents(after) <= Contents(s) + multiset{i}
  {
    hide Agrees, Inserted, CompareInserted, Used, HighContents, LowItems, LowIds, AfterOperation;
    InsertGoes(s, capacity, i);
    if |s.high.transactions| >= capacity {
      CompeteBringsOne(s.high, i);
    } else if i.fee == 0 {
      UseExchanges(s.low, i.id, i.t, capacity);
      var after := Pool(Used(s.low, i.id, i.t, capacity), s.high);
      assert AfterOperation(s, capacity, OperationOf(i)) == after;
      assert multiset(LowItems(after.low)) <= multiset(LowItems(s.low)) + multiset{i};
    } else {
      InsertAdds(s.high, i.id, i.t, i.fee);
      if Size(s) >= capacity {
        DropTakesFirst(s.low);
      }
    }
  }

  lemma CompeteBringsOne(h: High, i: Item)
    requires Agrees(h)
    ensures Agrees(CompareInserted(h, i.id, i.t, i.fee))
    ensures HighContents(CompareInserted(h, i.id, i.t, i.fee)) <= HighContents(h) + multiset{i}
  {
    hide Agrees, HighContents, Inserted;
    CompareInsertedAgrees(h, i.id, i.t, i.fee);
    if h.ranked != [] && h.ranked[|h.ranked| - 1].fee <= i.fee {
      TrimTakesLowest(h);
      InsertAdds(Trimmed(h), i.id, i.t, i.fee);
    }
  }

  /** What comes out of the pool. */
  ghost function Out(s: Pool): multiset<Item>
    requires Agrees(s.high)
  {
    AgreesKnown(s.high);
    if s.high.ranked != [] then multiset{ItemOf(s.high.ranked[0], s.high.transactions)}
    else if s.low != [] then multiset{LowItem(s.low[0])}
    else multiset{}
  }

  /** A pop takes out what it yields, and nothing else. */
  lemma PopTakes(s: Pool)
    requires Agrees(s.high)
    ensures Agrees(AfterPop(s).high) && Contents(AfterPop(s)) + Out(s) == Contents(s)
    ensures if FirstOut(s).None? then Out(s) == multiset{} && Contents(s) == multiset{}
            else exists i :: Out(s) == multiset{i} && FirstOut(s) == Some((i.id, i.t))
  {
    hide Agrees, HighContents, LowItems;
    AgreesKnown(s.high);
    if s.high.ranked != [] {
      PopTakesFirst(s.high);
      var i := ItemOf(s.high.ranked[0], s.high.transactions);
      assert Out(s) == multiset{i} && FirstOut(s) == Some((i.id, i.t));
    } else if s.low != [] {
      DropTakesFirst(s.low);
      var i := LowItem(s.low[0]);
      assert Out(s) == multiset{i} && FirstOut(s) == Some((i.id, i.t));
    } else {
      NothingHeld(s);
    }
  }

  lemma NothingHeld(s: Pool)
    requires Agrees(s.high) && s.high.ranked == [] && s.low == []
    ensures Contents(s) == multiset{}
  {
    assert LowItems(s.low) == [];
    AgreesKnown(s.high);
    assert HighItems(s.high.ranked, s.high.transactions) == [];
  }

  /* Any operations. */

  /** Whatever is held, with its transaction and fee, was brought in by an insertion. */
  lemma {:induction false} HeldWasInserted(capacity: nat, ops: seq<Operation>, i: Item)
    requires capacity >= 1
    ensures Agrees(AfterOperations(capacity, ops).high)
    ensures i in Contents(AfterOperations(capacity, ops)) ==> OperationOf(i) in ops
  {
    hide Agrees, Contents;
    AlwaysBounded(capacity, ops);
    if ops == [] {
      NothingHeld(AfterOperations(capacity, ops));
    } else {
      var n := |ops| - 1;
      var s := AfterOperations(capacity, ops[..n]);
      AlwaysBounded(capacity, ops[..n]);
      HeldWasInserted(capacity, ops[..n], i);
      assert ops == ops[..n] + [ops[n]];
      match ops[n] {
        case Insert(id, t, fee) => InsertBringsOne(s, capacity, Item(id, t, fee));
        case Pop => PopTakes(s);
      }
    }
  }

  /** So whatever is popped was inserted as it comes out. */
  lemma PoppedWasInserted(capacity: nat, ops: seq<Operation>)
    requires capacity >= 1
    ensures var out := FirstOut(AfterOperations(capacity, ops));
            out.Some? ==> exists fee :: Insert(out.value.0, out.value.1, fee) in ops
  {
    hide Contents, FirstOut;
    var s := AfterOperations(capacity, ops);
    AlwaysBounded(capacity, ops);
    PopTakes(s);
    if FirstOut(s).Some? {
      var i :| Out(s) == multiset{i} && FirstOut(s) == Some((i.id, i.t));
      assert i in Contents(AfterPop(s)) + Out(s);
      HeldWasInserted(capacity, ops, i);
      assert OperationOf(i) in ops;
    }
  }

  /** No ID is inserted twice. */
  ghost predicate DistinctInserts(ops: seq<Operation>) {
    forall j, k :: 0 <= j < k < |ops| && ops[j].Insert? && ops[k].Insert? ==> ops[j].id != ops[k].id
  }

  ghost function Brought(ops: seq<Operation>): multiset<Item> {
    if ops == [] then multiset{}
    else
      var op := ops[|ops| - 1];
      Brought(ops[..|ops| - 1]) + if op.Insert? then multiset{Item(op.id, op.t, op.fee)} else multiset{}
  }

  /** All that made way. */
  ghost function Displaced(capacity: nat, ops: seq<Operation>): multiset<Item>
    requires capacity >= 1
  {
    if ops == [] then multiset{}
    else
      var n := |ops| - 1;
      var s, op := AfterOperations(capacity, ops[..n]), ops[n];
      AlwaysBounded(capacity, ops[..n]);
      Displaced(capacity, ops[..n]) + if op.Insert? then MakesWay(s, capacity, Item(op.id, op.t, op.fee)) else multiset{}
  }

  /** All that came out. */
  ghost function Yielded(capacity: nat, ops: seq<Operation>): multiset<Item>
    requires capacity >= 1
  {
    if ops == [] then multiset{}
    else
      var n := |ops| - 1;
      AlwaysBounded(capacity, ops[..n]);
      Yielded(capacity, ops[..n]) + if ops[n].Pop? then Out(AfterOperations(capacity, ops[..n])) else multiset{}
  }

  lemma NewIsNotHeld(capacity: nat, ops: seq<Operation>)
    requires capacity >= 1 && ops != [] && DistinctInserts(ops) && ops[|ops| - 1].Insert?
    ensures var s, id := AfterOperations(capacity, ops[..|ops| - 1]), ops[|ops| - 1].id;
            id !in s.high.transactions && id !in LowIds(s.low)
  {
    hide AfterOperations;
    var n := |ops| - 1;
    var s, id := AfterOperations(capacity, ops[..n]), ops[n].id;
    AlwaysBounded(capacity, ops[..n]);
    if id in s.high.transactions || id in LowIds(s.low) {
      var i := HeldAs(s, id);
      HeldWasInserted(capacity, ops[..n], i);
      NotAgain(ops, OperationOf(i));
    }
  }

  lemma NotAgain(ops: seq<Operation>, op: Operation)
    requires ops != [] && DistinctInserts(ops) && ops[|ops| - 1].Insert? && op.Insert? && op in ops[..|ops| - 1]
    ensures op.id != ops[|ops| - 1].id
  {
    var k :| 0 <= k < |ops| - 1 && ops[..|ops| - 1][k] == op;
    assert ops[k] == op;
  }

  lemma HeldAs(s: Pool, id: TransactionId) returns (i: Item)
    requires Agrees(s.high) && (id in s.high.transactions || id in LowIds(s.low))
    ensures i in Contents(s) && i.id == id
  {
    AgreesKnown(s.high);
    if id in s.high.transactions {
      assert id in IdSet(s.high.ranked);
      var k :| 0 <= k < |s.high.ranked| && s.high.ranked[k].id == id;
      i := ItemOf(s.high.ranked[k], s.high.transactions);
      assert HighItems(s.high.ranked, s.high.transactions)[k] == i;
      assert i in HighContents(s.high);
    } else {
      var k :| 0 <= k < |s.low| && s.low[k].0 == id;
      i := LowItem(s.low[k]);
      assert LowItems(s.low)[k] == i;
      assert i in multiset(LowItems(s.low));
    }
  }

  /** What was brought in is held, came out, or made way: each transaction once, and no other. */
  lemma {:induction false} NothingIsLost(capacity: nat, ops: seq<Operation>)
    requires capacity >= 1 && DistinctInserts(ops)
    ensures Agrees(AfterOperations(capacity, ops).high)
    ensures Contents(AfterOperations(capacity, ops)) + Yielded(capacity, ops) + Displaced(capacity, ops) == Brought(ops)
  {
    hide Agrees, Contents, MakesWay, Out, AfterOperation;
    AlwaysBounded(capacity, ops);
    if ops == [] {
      NothingHeld(AfterOperations(capacity, ops));
    } else {
      var n := |ops| - 1;
      var s, op := AfterOperations(capacity, ops[..n]), ops[n];
      AlwaysBounded(capacity, ops[..n]);
      NothingIsLost(capacity, ops[..n]);
      if op.Insert? {
        NewIsNotHeld(capacity, ops);
        InsertExchanges(s, capacity, Item(op.id, op.t, op.fee));
        var i := Item(op.id, op.t, op.fee);
        assert OperationOf(i) == op;
        Rearranged(Contents(AfterOperation(s, capacity, op)), Yielded(capacity, ops[..n]), Displaced(capacity, ops[..n]),
                   MakesWay(s, capacity, i), Contents(s), multiset{i});
      } else {
        assert AfterOperation(s, capacity, op) == AfterPop(s) by { PopIs(s, capacity, op); }
        PopTakes(s);
      }
    }
  }

  lemma PopIs(s: Pool, capacity: nat, op: Operation)
    requires op.Pop?
    ensures AfterOperation(s, capacity, op) == AfterPop(s)
  {
  }

  /** What is held, in the order in which it comes out. */
  ghost function InOrder(s: Pool): (items: seq<Item>)
    requires Agrees(s.high)
    ensures multiset(items) == Contents(s)
  {
    AgreesKnown(s.high);
    HighItems(s.high.ranked, s.high.transactions) + LowItems(s.low)
  }

  /** Draining yields just what was brought in and has neither come out nor made way. */
  lemma DrainYieldsTheRest(capacity: nat, ops: seq<Operation>)
    requires capacity >= 1 && DistinctInserts(ops)
    ensures Agrees(AfterOperations(capacity, ops).high)
    ensures var s := AfterOperations(capacity, ops);
            && multiset(InOrder(s)) + Yielded(capacity, ops) + Displaced(capacity, ops) == Brought(ops)
            && |PopAll(s)| == |InOrder(s)|
            && forall k :: 0 <= k < |InOrder(s)| ==> PopAll(s)[k] == (InOrder(s)[k].id, InOrder(s)[k].t)
  {
    hide AfterOperations, PopAll, Agrees, Yielded, Displaced, Brought, Contents;
    NothingIsLost(capacity, ops);
    var s := AfterOperations(capacity, ops);
    AgreesKnown(s.high);
    DrainOrder(s);
  }

  /* Orders. */

  /** When an ID was last used in the low-priority queue. */
  ghost function LastUse(capacity: nat, ops: seq<Operation>, id: TransactionId): int {
    if ops == [] then -1
    else
      var n := |ops| - 1;
      if Uses(AfterOperations(capacity, ops[..n]), capacity, ops[n], id) then n else LastUse(capacity, ops[..n], id)
  }

  /** An insertion without a fee uses its ID, unless it is refused. */
  ghost predicate Uses(s: Pool, capacity: nat, op: Operation, id: TransactionId) {
    op.Insert? && op.id == id && op.fee == 0 && (Size(s) < capacity || |s.high.transactions| < capacity)
  }

  /** Entries in the order of their last use. */
  ghost predicate ByUse(capacity: nat, ops: seq<Operation>, low: Low) {
    && (forall k :: 0 <= k < |low| ==> 0 <= LastUse(capacity, ops, low[k].0) < |ops|)
    && (forall j, k :: 0 <= j < k < |low| ==> LastUse(capacity, ops, low[j].0) < LastUse(capacity, ops, low[k].0))
  }

  lemma ByUseRest(capacity: nat, ops: seq<Operation>, low: Low)
    requires ByUse(capacity, ops, low) && low != []
    ensures ByUse(capacity, ops, low[1..])
  {
    hide LastUse;
  }

  lemma ByUseWithout(capacity: nat, ops: seq<Operation>, low: Low, k: nat)
    requires ByUse(capacity, ops, low) && k < |low|
    ensures ByUse(capacity, ops, low[..k] + low[k + 1..])
    ensures forall j :: 0 <= j < |low| && j != k ==> low[j].0 != low[k].0
  {
    hide LastUse;
  }

  /** Later operations on other IDs change nothing. */
  lemma ByUseLater(capacity: nat, ops: seq<Operation>, op: Operation, low: Low)
    requires ByUse(capacity, ops, low)
    requires forall k :: 0 <= k < |low| ==> !Uses(AfterOperations(capacity, ops), capacity, op, low[k].0)
    ensures ByUse(capacity, ops + [op], low)
  {
    hide Uses;
    forall k | 0 <= k < |low| ensures LastUse(capacity, ops + [op], low[k].0) == LastUse(capacity, ops, low[k].0) {
      assert (ops + [op])[..|ops|] == ops;
    }
    hide LastUse;
  }

  /** What is used goes to the end. */
  lemma ByUseUsed(capacity: nat, ops: seq<Operation>, op: Operation, low: Low, e: (TransactionId, Transaction))
    requires ByUse(capacity, ops, low) && Uses(AfterOperations(capacity, ops), capacity, op, e.0)
    requires forall k :: 0 <= k < |low| ==> low[k].0 != e.0
    ensures ByUse(capacity, ops + [op], low + [e])
  {
    ByUseLater(capacity, ops, op, low);
    assert LastUse(capacity, ops + [op], e.0) == |ops| by { assert (ops + [op])[..|ops|] == ops; }
    forall k | 0 <= k < |low| ensures LastUse(capacity, ops + [op], low[k].0) < |ops| {
      assert LastUse(capacity, ops + [op], low[k].0) == LastUse(capacity, ops, low[k].0) by { assert (ops + [op])[..|ops|] == ops; }
    }
    hide LastUse;
  }

  lemma UsedByUse(capacity: nat, ops: seq<Operation>, op: Operation, low: Low)
    requires capacity >= 1 && ByUse(capacity, ops, low) && op.Insert? && Uses(AfterOperations(capacity, ops), capacity, op, op.id)
    ensures ByUse(capacity, ops + [op], Used(low, op.id, op.t, capacity))
  {
    hide ByUse, Uses;
    if exists k :: 0 <= k < |low| && low[k].0 == op.id {
      var k := IndexOf(low, op.id);
      ByUseWithout(capacity, ops, low, k);
      ByUseUsed(capacity, ops, op, low[..k] + low[k + 1..], low[k]);
    } else if |low| < capacity {
      ByUseUsed(capacity, ops, op, low, (op.id, op.t));
    } else {
      ByUseRest(capacity, ops, low);
      ByUseUsed(capacity, ops, op, low[1..], (op.id, op.t));
    }
  }

  /** The low-priority queue is in the order of last use, so that its first entry is the least recently used. */
  lemma {:induction false} LowIsByUse(capacity: nat, ops: seq<Operation>)
    requires capacity >= 1
    ensures ByUse(capacity, ops, AfterOperations(capacity, ops).low)
  {
    if ops != [] {
      var n := |ops| - 1;
      var s, op := AfterOperations(capacity, ops[..n]), ops[n];
      LowIsByUse(capacity, ops[..n]);
      AlwaysBounded(capacity, ops[..n]);
      assert ops == ops[..n] + [op];
      hide ByUse, Agrees;
      if s.low != [] {
        ByUseRest(capacity, ops[..n], s.low);
      }
      if op.Insert? && op.fee == 0 && (Size(s) < capacity || |s.high.transactions| < capacity) {
        UsedByUse(capacity, ops[..n], op, s.low);
      } else {
        ByUseLater(capacity, ops[..n], op, s.low);
        if s.low != [] {
          ByUseLater(capacity, ops[..n], op, s.low[1..]);
        }
      }
    }
  }

  /** When an ID was inserted. */
  ghost function InsertedAt(ops: seq<Operation>, id: TransactionId): int {
    if ops == [] then -1
    else
      var n := |ops| - 1;
      if ops[n].Insert? && ops[n].id == id then n else InsertedAt(ops[..n], id)
  }

  /** Sequence numbers follow the insertions. */
  ghost predicate NumberedByInsert(ops: seq<Operation>, ranked: seq<Ranked>) {
    && (forall e :: e in ranked ==> InsertedAt(ops, e.id) < |ops|)
    && (forall e, f :: e in ranked && f in ranked && e.number < f.number ==> InsertedAt(ops, e.id) < InsertedAt(ops, f.id))
  }

  lemma NumberedLater(ops: seq<Operation>, op: Operation, ranked: seq<Ranked>)
    requires NumberedByInsert(ops, ranked) && forall e :: e in ranked ==> !(op.Insert? && op.id == e.id)
    ensures NumberedByInsert(ops + [op], ranked)
  {
    forall e | e in ranked ensures InsertedAt(ops + [op], e.id) == InsertedAt(ops, e.id) {
      assert (ops + [op])[..|ops|] == ops;
    }
    hide InsertedAt;
  }

  lemma NumberedNext(ops: seq<Operation>, op: Operation, ranked: seq<Ranked>, e: Ranked)
    requires NumberedByInsert(ops, ranked) && op.Insert? && op.id == e.id
    requires forall x :: x in ranked ==> x.id != e.id && x.number < e.number
    ensures NumberedByInsert(ops + [op], Placed(ranked, e))
  {
    NumberedLater(ops, op, ranked);
    PlacedMembers(ranked, e);
    assert InsertedAt(ops + [op], e.id) == |ops|;
    forall x | x in ranked ensures InsertedAt(ops + [op], x.id) < |ops| {
      assert (ops + [op])[..|ops|] == ops;
      assert InsertedAt(ops + [op], x.id) == InsertedAt(ops, x.id);
    }
    hide InsertedAt, Placed;
  }

  lemma SomeNumbered(ops: seq<Operation>, ranked: seq<Ranked>, some: seq<Ranked>)
    requires NumberedByInsert(ops, ranked) && forall e :: e in some ==> e in ranked
    ensures NumberedByInsert(ops, some)
  {
    hide InsertedAt;
  }

  lemma {:induction false} AlwaysNumbered(capacity: nat, ops: seq<Operation>)
    requires capacity >= 1 && DistinctInserts(ops)
    ensures NumberedByInsert(ops, AfterOperations(capacity, ops).high.ranked)
  {
    if ops != [] {
      var n := |ops| - 1;
      var s, op := AfterOperations(capacity, ops[..n]), ops[n];
      var ranked := s.high.ranked;
      AlwaysNumbered(capacity, ops[..n]);
      AlwaysBounded(capacity, ops[..n]);
      AgreesKnown(s.high);
      assert ops == ops[..n] + [op];
      if op.Insert? {
        NewIsNotHeld(capacity, ops);
        NumberedLater(ops[..n], op, ranked);
        if op.fee > 0 {
          NumberedInsert(s, capacity, ops[..n], op);
        }
      } else {
        NumberedLater(ops[..n], op, ranked);
        hide NumberedByInsert;
        if ranked != [] {
          SomeNumbered(ops, ranked, ranked[1..]);
        }
      }
    }
  }

  lemma NumberedInsert(s: Pool, capacity: nat, ops: seq<Operation>, op: Operation)
    requires capacity >= 1 && Bounded(s, capacity) && NumberedByInsert(ops, s.high.ranked)
    requires op.Insert? && op.fee > 0 && op.id !in s.high.transactions
    ensures NumberedByInsert(ops + [op], AfterOperation(s, capacity, op).high.ranked)
  {
    var ranked, e := s.high.ranked, Ranked(op.fee, s.high.counter, op.id);
    AgreesKnown(s.high);
    InsertedRanks(s, capacity, op.id, op.t, op.fee);
    hide NumberedByInsert, Agrees, Placed, PoolInserted;
    NumberedLater(ops, op, ranked);
    NumberedNext(ops, op, ranked, e);
    if |ranked| >= capacity {
      var some := ranked[..capacity - 1];
      SomeNumbered(ops, ranked, some);
      NumberedNext(ops, op, some, e);
    }
  }

  /** Of two transactions with the same fee, the one that came first comes out first. */
  lemma FirstComeFirstServed(capacity: nat, ops: seq<Operation>, j: nat, k: nat)
    requires capacity >= 1 && DistinctInserts(ops) && j < k < |AfterOperations(capacity, ops).high.ranked|
    requires var ranked := AfterOperations(capacity, ops).high.ranked; ranked[j].fee == ranked[k].fee
    ensures var ranked := AfterOperations(capacity, ops).high.ranked;
            InsertedAt(ops, ranked[j].id) < InsertedAt(ops, ranked[k].id)
  {
    hide AfterOperations, InsertedAt;
    AlwaysBounded(capacity, ops);
    AlwaysNumbered(capacity, ops);
    var ranked := AfterOperations(capacity, ops).high.ranked;
    assert Before(ranked[j], ranked[k]) && ranked[j] in ranked && ranked[k] in ranked;
  }
}
