/**
 The memory pool's queue of one kind of transaction (node/consensus/src/transactions_queue.rs): a priority queue by
 fee, first-come-first-served among equals, beside a low-priority queue that forgets its least recently used entry.
 */
module TransactionsQueue {
  import opened Types

  type TransactionId = nat
  type Transaction = nat

  /** An entry of the ordered map: its key is the fee, highest first, and a sequence number. */
  datatype Ranked = Ranked(fee: nat, number: nat, id: TransactionId)

  predicate Before(a: Ranked, b: Ranked) {
    a.fee > b.fee || (a.fee == b.fee && a.number < b.number)
  }

  ghost predicate Ordered(s: seq<Ranked>) {
    forall i, j :: 0 <= i < j < |s| ==> Before(s[i], s[j])
  }

  function IdSet(s: seq<Ranked>): set<TransactionId> {
    set k | 0 <= k < |s| :: s[k].id
  }

  ghost predicate DistinctIds(s: seq<Ranked>) {
    forall i, j :: 0 <= i < j < |s| ==> s[i].id != s[j].id
  }

  /** Inserts an entry of the ordered map in its place. */
  function Placed(s: seq<Ranked>, e: Ranked): seq<Ranked> {
    if s == [] || Before(s[|s| - 1], e) then s + [e]
    else Placed(s[..|s| - 1], e) + [s[|s| - 1]]
  }

  /** The priority queue: the ordered map by its entries in order, and the transactions by ID. */
  datatype High = High(counter: nat, ranked: seq<Ranked>, transactions: map<TransactionId, Transaction>)

  const EMPTY_HIGH := High(0, [], map[])

  /** The two maps agree: the same IDs, each once, with sequence numbers handed out so far. */
  ghost predicate Agrees(h: High) {
    && Ordered(h.ranked) && DistinctIds(h.ranked)
    && (forall e :: e in h.ranked ==> e.number < h.counter)
    && h.transactions.Keys == IdSet(h.ranked)
  }

  function Inserted(h: High, id: TransactionId, t: Transaction, fee: nat): High {
    if id in h.transactions then h
    else High(h.counter + 1, Placed(h.ranked, Ranked(fee, h.counter, id)), h.transactions[id := t])
  }

  /** Replaces the lowest entry if its fee is no higher than the new one. */
  function CompareInserted(h: High, id: TransactionId, t: Transaction, fee: nat): High {
    if h.ranked == [] || h.ranked[|h.ranked| - 1].fee > fee then h
    else
      Inserted(Trimmed(h), id, t, fee)
  }

  /** The lowest entry taken out. */
  function Trimmed(h: High): High
    requires h.ranked != []
  {
    var n := |h.ranked| - 1;
    High(h.counter, h.ranked[..n], h.transactions - {h.ranked[n].id})
  }

  function Popped(h: High): High
    requires h.ranked != []
  {
    High(h.counter, h.ranked[1..], h.transactions - {h.ranked[0].id})
  }

  lemma {:induction false} PlacedExact(s: seq<Ranked>, e: Ranked)
    ensures multiset(Placed(s, e)) == multiset(s) + multiset{e}
    ensures |Placed(s, e)| == |s| + 1
  {
    if !(s == [] || Before(s[|s| - 1], e)) {
      PlacedExact(s[..|s| - 1], e);
      assert s == s[..|s| - 1] + [s[|s| - 1]];
    }
  }

  lemma {:induction false} PlacedOrdered(s: seq<Ranked>, e: Ranked)
    requires Ordered(s) && forall x :: x in s ==> x.number != e.number
    ensures Ordered(Placed(s, e))
  {
    if s != [] && !Before(s[|s| - 1], e) {
      var n := |s| - 1;
      var front := Placed(s[..n], e);
      assert s[n] in s;
      PlacedOrdered(s[..n], e);
      PlacedMembers(s[..n], e);
      forall k | 0 <= k < |front| ensures Before(front[k], s[n]) {
        assert front[k] in front;
      }
    }
  }

  lemma PlacedMembers(s: seq<Ranked>, e: Ranked)
    ensures forall x :: x in Placed(s, e) <==> x in s || x == e
  {
    PlacedExact(s, e);
    forall x ensures x in Placed(s, e) <==> x in s || x == e {
      assert x in Placed(s, e) <==> x in multiset(Placed(s, e));
      assert x in s <==> x in multiset(s);
    }
  }

  /** Distinct sequence entries with distinct IDs stay so when an entry with a new ID is placed. */
  lemma {:induction false} PlacedDistinct(s: seq<Ranked>, e: Ranked)
    requires DistinctIds(s) && e.id !in IdSet(s)
    ensures DistinctIds(Placed(s, e)) && IdSet(Placed(s, e)) == IdSet(s) + {e.id}
  {
    if s != [] && !Before(s[|s| - 1], e) {
      var n := |s| - 1;
      var front := Placed(s[..n], e);
      assert IdSet(s) == IdSet(s[..n]) + {s[n].id} by { IdSetSnoc(s[..n], s[n]); assert s == s[..n] + [s[n]]; }
      PlacedDistinct(s[..n], e);
      IdSetSnoc(front, s[n]);
      assert s[n].id !in IdSet(s[..n]);
    } else {
      IdSetSnoc(s, e);
    }
  }

  lemma IdSetSnoc(s: seq<Ranked>, e: Ranked)
    ensures IdSet(s + [e]) == IdSet(s) + {e.id}
  {
    var t := s + [e];
    forall id | id in IdSet(s) + {e.id} ensures id in IdSet(t) {
      if id in IdSet(s) {
        var k :| 0 <= k < |s| && s[k].id == id;
        assert t[k].id == id;
      } else {
        assert t[|s|].id == id;
      }
    }
  }

  lemma InsertedAgrees(h: High, id: TransactionId, t: Transaction, fee: nat)
    requires Agrees(h)
    ensures Agrees(Inserted(h, id, t, fee))
    ensures |Inserted(h, id, t, fee).ranked| == |h.ranked| + if id in h.transactions then 0 else 1
  {
    if id !in h.transactions {
      var e := Ranked(fee, h.counter, id);
      PlacedOrdered(h.ranked, e);
      PlacedDistinct(h.ranked, e);
      PlacedMembers(h.ranked, e);
      PlacedExact(h.ranked, e);
    }
  }

  lemma IdSetCons(s: seq<Ranked>)
    requires s != []
    ensures IdSet(s) == {s[0].id} + IdSet(s[1..])
  {
    forall id | id in IdSet(s[1..]) ensures id in IdSet(s) {
      var k :| 0 <= k < |s[1..]| && s[1..][k].id == id;
      assert s[k + 1].id == id;
    }
    forall id | id in IdSet(s) ensures id == s[0].id || id in IdSet(s[1..]) {
      var k :| 0 <= k < |s| && s[k].id == id;
      assert k > 0 ==> s[1..][k - 1].id == id;
    }
  }

  /** Taking out the first entry, together with its transaction, keeps the maps in agreement. */
  lemma PoppedAgrees(h: High)
    requires Agrees(h) && h.ranked != []
    ensures Agrees(Popped(h)) && h.ranked[0].id in h.transactions
  {
    var rest := h.ranked[1..];
    IdSetCons(h.ranked);
    assert h.ranked[0].id !in IdSet(rest) by {
      assert forall k :: 0 <= k < |rest| ==> rest[k] == h.ranked[k + 1];
    }
    assert Popped(h).transactions.Keys == IdSet(rest);
    assert Ordered(rest) && DistinctIds(rest) by {
      forall i, j | 0 <= i < j < |rest| ensures Before(rest[i], rest[j]) && rest[i].id != rest[j].id {
        assert rest[i] == h.ranked[i + 1] && rest[j] == h.ranked[j + 1];
      }
    }
  }

  /** So does taking out the last one. */
  lemma TrimmedAgrees(h: High)
    requires Agrees(h) && h.ranked != []
    ensures Agrees(Trimmed(h))
  {
    var n := |h.ranked| - 1;
    var rest := h.ranked[..n];
    IdSetSnoc(rest, h.ranked[n]);
    assert h.ranked == rest + [h.ranked[n]];
    assert Trimmed(h).transactions.Keys == IdSet(rest);
  }

  lemma CompareInsertedAgrees(h: High, id: TransactionId, t: Transaction, fee: nat)
    requires Agrees(h)
    ensures Agrees(CompareInserted(h, id, t, fee))
    ensures |CompareInserted(h, id, t, fee).ranked| <= |h.ranked|
  {
    if h.ranked != [] && h.ranked[|h.ranked| - 1].fee <= fee {
      TrimmedAgrees(h);
      InsertedAgrees(Trimmed(h), id, t, fee);
    }
  }

  class PriorityQueue {
    var counter: nat
    var ranked: seq<Ranked>
    var transactions: map<TransactionId, Transaction>

    ghost predicate Valid()
      reads this
    {
      Agrees(View())
    }

    function View(): High
      reads this
    {
      High(counter, ranked, transactions)
    }

    constructor ()
      ensures Valid() && View() == EMPTY_HIGH
    {
      counter, ranked, transactions := 0, [], map[];
    }

    method Insert(id: TransactionId, t: Transaction, fee: nat)
      requires Valid()
      modifies this
      ensures Valid() && View() == Inserted(old(View()), id, t, fee)
    {
      hide Agrees;
      InsertedAgrees(View(), id, t, fee);
      if id !in transactions {
        transactions := transactions[id := t];
        ranked := Placed(ranked, Ranked(fee, counter, id));
        counter := counter + 1;
      }
    }

    method CompareInsert(id: TransactionId, t: Transaction, fee: nat)
      requires Valid()
      modifies this
      ensures Valid() && View() == CompareInserted(old(View()), id, t, fee)
    {
      hide Agrees;
      if ranked == [] {
        return;
      }
      var last := ranked[|ranked| - 1];
      if last.fee > fee {
        return;
      }
      TrimmedAgrees(View());
      ranked := ranked[..|ranked| - 1];
      transactions := transactions - {last.id};
      Insert(id, t, fee);
    }

    /** Takes the first entry. Its transaction is always there. */
    method Pop() returns (popped: Option<(TransactionId, Transaction)>)
      requires Valid()
      modifies this
      ensures Valid()
      ensures old(ranked) == [] ==> popped.None? && View() == old(View())
      ensures old(ranked) != [] ==>
                && View() == Popped(old(View()))
                && old(ranked)[0].id in old(transactions)
                && popped == Some((old(ranked)[0].id, old(transactions)[old(ranked)[0].id]))
    {
      if ranked == [] {
        return None;
      }
      PoppedAgrees(View());
      var first := ranked[0];
      assert first.id in IdSet(ranked);
      ranked := ranked[1..];
      popped := Some((first.id, transactions[first.id]));
      transactions := transactions - {first.id};
    }
  }

  /* The two queues together. */

  /** The low-priority queue, from the least to the most recently used. */
  type Low = seq<(TransactionId, Transaction)>

  datatype Pool = Pool(low: Low, high: High)

  function LowIds(low: Low): set<TransactionId> {
    set k | 0 <= k < |low| :: low[k].0
  }

  /** Uses an entry, moving it to the end, or adds it, forgetting the least recently used one if there is no room. */
  function Used(low: Low, id: TransactionId, t: Transaction, capacity: nat): Low {
    if exists k :: 0 <= k < |low| && low[k].0 == id then
      var k := IndexOf(low, id);
      low[..k] + low[k + 1..] + [low[k]]
    else if |low| < capacity then low + [(id, t)]
    else if low == [] then low
    else low[1..] + [(id, t)]
  }

  function IndexOf(low: Low, id: TransactionId): (k: nat)
    requires exists j :: 0 <= j < |low| && low[j].0 == id
    ensures k < |low| && low[k].0 == id
  {
    if low[0].0 == id then 0 else
      assert exists j :: 0 <= j < |low[1..]| && low[1..][j].0 == id by {
        var j :| 0 <= j < |low| && low[j].0 == id;
        assert low[1..][j - 1].0 == id;
      }
      1 + IndexOf(low[1..], id)
  }

  function Size(s: Pool): nat {
    |s.low| + |s.high.transactions|
  }

  /** `None` says that the pool is full. */
  function PoolInserted(s: Pool, capacity: nat, id: TransactionId, t: Transaction, fee: nat): Option<Pool> {
    if Size(s) < capacity then
      if fee == 0 then Some(s.(low := Used(s.low, id, t, capacity)))
      else Some(s.(high := Inserted(s.high, id, t, fee)))
    else if |s.high.transactions| < capacity then
      if fee == 0 then Some(s.(low := Used(s.low, id, t, capacity)))
      else Some(Pool(if s.low == [] then [] else s.low[1..], Inserted(s.high, id, t, fee)))
    else if fee == 0 then None
    else Some(s.(high := CompareInserted(s.high, id, t, fee)))
  }

  class TransactionsQueueInner {
    const capacity: nat
    const priorityQueue: PriorityQueue
    var queue: Low

    constructor (capacity: nat)
      requires capacity >= 1
      ensures Valid() && View() == Pool([], EMPTY_HIGH) && this.capacity == capacity && fresh(priorityQueue)
    {
      this.capacity := capacity;
      queue := [];
      priorityQueue := new PriorityQueue();
    }

    ghost predicate Valid()
      reads this, priorityQueue
    {
      priorityQueue.Valid() && capacity >= 1
    }

    function View(): Pool
      reads this, priorityQueue
    {
      Pool(queue, priorityQueue.View())
    }

    method Insert(id: TransactionId, t: Transaction, fee: nat) returns (ok: bool)
      requires Valid()
      modifies this, priorityQueue
      ensures Valid()
      ensures ok <==> PoolInserted(old(View()), capacity, id, t, fee).Some?
      ensures View() == if ok then PoolInserted(old(View()), capacity, id, t, fee).value else old(View())
    {
      hide Agrees, Inserted, CompareInserted, Used;
      ok := true;
      if |queue| + |priorityQueue.transactions| < capacity {
        if fee == 0 {
          queue := Used(queue, id, t, capacity);
        } else {
          priorityQueue.Insert(id, t, fee);
        }
        return;
      }
      if |priorityQueue.transactions| < capacity {
        if fee == 0 {
          queue := Used(queue, id, t, capacity);
        } else {
          queue := if queue == [] then [] else queue[1..];
          priorityQueue.Insert(id, t, fee);
        }
      } else if fee == 0 {
        ok := false;
      } else {
        priorityQueue.CompareInsert(id, t, fee);
      }
    }

    method Pop() returns (popped: Option<(TransactionId, Transaction)>)
      requires Valid()
      modifies this, priorityQueue
      ensures Valid()
      ensures popped == FirstOut(old(View()))
      ensures View() == AfterPop(old(View()))
    {
      hide Agrees;
      popped := priorityQueue.Pop();
      if popped.None? && queue != [] {
        popped := Some(queue[0]);
        queue := queue[1..];
      }
    }
  }

  function FirstOut(s: Pool): Option<(TransactionId, Transaction)> {
    if s.high.ranked != [] then
      var id := s.high.ranked[0].id;
      if id in s.high.transactions then Some((id, s.high.transactions[id])) else None
    else if s.low != [] then Some(s.low[0])
    else None
  }

  function AfterPop(s: Pool): Pool {
    if s.high.ranked != [] then s.(high := Popped(s.high))
    else if s.low != [] then s.(low := s.low[1..])
    else s
  }

  /** What popping to the end yields, in order. */
  function PopAll(s: Pool): seq<(TransactionId, Transaction)>
    decreases |s.high.ranked|, |s.low|
  {
    if FirstOut(s).None? then [] else [FirstOut(s).value] + PopAll(AfterPop(s))
  }

  /** The transactions of the priority queue, in the order of the ordered map. */
  ghost function HighPairs(h: High): seq<(TransactionId, Transaction)>
    requires Agrees(h)
  {
    seq(|h.ranked|, k requires 0 <= k < |h.ranked| => PairAt(h, k))
  }

  ghost function PairAt(h: High, k: nat): (TransactionId, Transaction)
    requires Agrees(h) && k < |h.ranked|
  {
    var id := h.ranked[k].id;
    assert id in IdSet(h.ranked);
    (id, h.transactions[id])
  }

  /**
   Draining loses nothing: it yields the priority queue by falling fee, first come first served among equals, and
   then the low-priority queue from the least recently used on, each ID with what is stored for it.
   */
  lemma {:induction false} DrainOrder(s: Pool)
    requires Agrees(s.high)
    ensures PopAll(s) == HighPairs(s.high) + s.low
    decreases |s.high.ranked|, |s.low|
  {
    hide Agrees, HighPairs;
    if s.high.ranked != [] {
      PoppedAgrees(s.high);
      DrainOrder(AfterPop(s));
      HighPairsCons(s.high);
      assert [FirstOut(s).value] + (HighPairs(Popped(s.high)) + s.low) == HighPairs(s.high) + s.low;
    } else {
      NoHighPairs(s.high);
      if s.low != [] {
        DrainOrder(AfterPop(s));
        NoHighPairs(AfterPop(s).high);
      }
    }
  }

  lemma HighPairsCons(h: High)
    requires Agrees(h) && h.ranked != []
    ensures h.ranked[0].id in h.transactions && Agrees(Popped(h))
    ensures HighPairs(h) == [(h.ranked[0].id, h.transactions[h.ranked[0].id])] + HighPairs(Popped(h))
  {
    PoppedAgrees(h);
    var rest := Popped(h);
    forall k | 0 <= k < |rest.ranked| ensures PairAt(rest, k) == PairAt(h, k + 1) {
      PairKept(h, k);
    }
    assert PairAt(h, 0) == (h.ranked[0].id, h.transactions[h.ranked[0].id]);
    hide Agrees, PairAt;
    assert HighPairs(h)[0] == PairAt(h, 0);
  }

  lemma PairKept(h: High, k: nat)
    requires Agrees(h) && k + 1 < |h.ranked| && Agrees(Popped(h))
    ensures PairAt(Popped(h), k) == PairAt(h, k + 1)
  {
    assert Popped(h).ranked[k] == h.ranked[k + 1];
    assert h.ranked[k + 1].id in IdSet(Popped(h).ranked);
  }

  lemma NoHighPairs(h: High)
    requires Agrees(h) && h.ranked == []
    ensures HighPairs(h) == []
  {
  }

  /* Bounds. */

  /** Never more than `capacity` entries on either side, nor `2 * capacity` in all. */
  ghost predicate Bounded(s: Pool, capacity: nat) {
    && Agrees(s.high)
    && |s.low| <= capacity && |s.high.ranked| <= capacity && |s.low| + |s.high.ranked| < 2 * capacity
  }

  lemma {:induction false} SizeOfIds(s: seq<Ranked>)
    requires DistinctIds(s)
    ensures |IdSet(s)| == |s|
  {
    if s == [] {
      assert IdSet(s) == {};
    } else {
      var n := |s| - 1;
      SizeOfIds(s[..n]);
      IdSetSnoc(s[..n], s[n]);
      assert s == s[..n] + [s[n]];
      assert s[n].id !in IdSet(s[..n]);
    }
  }

  lemma SizeIsRanked(h: High)
    requires Agrees(h)
    ensures |h.transactions| == |h.ranked|
  {
    SizeOfIds(h.ranked);
    assert |h.transactions| == |h.transactions.Keys|;
  }

  lemma UsedSize(low: Low, id: TransactionId, t: Transaction, capacity: nat)
    requires |low| <= capacity
    ensures |low| <= |Used(low, id, t, capacity)| <= capacity
    ensures |Used(low, id, t, capacity)| == |low| + if id !in LowIds(low) && |low| < capacity then 1 else 0
  {
    assert id in LowIds(low) <==> exists k :: 0 <= k < |low| && low[k].0 == id;
  }

  /** The real bound on the pool, `2 * capacity - 1`, is kept by every insertion and every pop. */
  lemma InsertKeepsBound(s: Pool, capacity: nat, id: TransactionId, t: Transaction, fee: nat)
    requires Bounded(s, capacity) && PoolInserted(s, capacity, id, t, fee).Some?
    ensures Bounded(PoolInserted(s, capacity, id, t, fee).value, capacity)
  {
    SizeIsRanked(s.high);
    InsertedAgrees(s.high, id, t, fee);
    CompareInsertedAgrees(s.high, id, t, fee);
    UsedSize(s.low, id, t, capacity);
    hide Agrees, Inserted, CompareInserted, Used;
  }

  lemma PopKeepsBound(s: Pool, capacity: nat)
    requires Bounded(s, capacity)
    ensures Bounded(AfterPop(s), capacity)
  {
    if s.high.ranked != [] {
      PoppedAgrees(s.high);
    }
  }

  /** An operation on the pool. */
  datatype Operation = Insert(id: TransactionId, t: Transaction, fee: nat) | Pop

  function AfterOperation(s: Pool, capacity: nat, op: Operation): Pool {
    match op
    case Insert(id, t, fee) =>
      var r := PoolInserted(s, capacity, id, t, fee);
      if r.Some? then r.value else s
    case Pop => AfterPop(s)
  }

  function AfterOperations(capacity: nat, ops: seq<Operation>): Pool {
    if ops == [] then Pool([], EMPTY_HIGH)
    else AfterOperation(AfterOperations(capacity, ops[..|ops| - 1]), capacity, ops[|ops| - 1])
  }

  lemma {:induction false} AlwaysBounded(capacity: nat, ops: seq<Operation>)
    requires capacity >= 1
    ensures Bounded(AfterOperations(capacity, ops), capacity)
    ensures Size(AfterOperations(capacity, ops)) <= 2 * capacity - 1
  {
    if ops != [] {
      var s := AfterOperations(capacity, ops[..|ops| - 1]);
      AlwaysBounded(capacity, ops[..|ops| - 1]);
      match ops[|ops| - 1] {
        case Insert(id, t, fee) =>
          if PoolInserted(s, capacity, id, t, fee).Some? {
            InsertKeepsBound(s, capacity, id, t, fee);
          }
        case Pop => PopKeepsBound(s, capacity);
      }
    }
    SizeIsRanked(AfterOperations(capacity, ops).high);
  }

  /**
   A comment in the source says that the low-priority queue is empty whenever the priority queue is at capacity.
   Here it is not: a full pool still takes transactions without a fee.
   */
  lemma LowNotEmptyWhenHighIsFull()
    ensures var s := AfterOperations(2, [Insert(1, 0, 5), Insert(2, 0, 0), Insert(3, 0, 0), Insert(4, 0, 5)]);
            |s.high.transactions| == 2 && s.low != []
  {
    var a, b, c, d := Insert(1, 0, 5), Insert(2, 0, 0), Insert(3, 0, 0), Insert(4, 0, 5);
    NextOperation(2, [], a);
    NextOperation(2, [a], b);
    NextOperation(2, [a, b], c);
    NextOperation(2, [a, b, c], d);
    assert [] + [a] == [a] && [a] + [b] == [a, b] && [a, b] + [c] == [a, b, c] && [a, b, c] + [d] == [a, b, c, d];
    hide AfterOperations;
    var first := High(1, [Ranked(5, 0, 1)], map[1 := 0]);
    assert AfterOperations(2, [a]) == Pool([], first);
    assert |first.transactions| == 1;
    assert AfterOperations(2, [a, b]) == Pool([(2, 0)], first);
    assert AfterOperations(2, [a, b, c]) == Pool([(2, 0), (3, 0)], first);
    var s := AfterOperations(2, [a, b, c, d]);
    assert s.low == [(3, 0)] && s.high.transactions == map[1 := 0, 4 := 0];
    assert |s.high.transactions| == |{1, 4}| == 2 by { assert s.high.transactions.Keys == {1, 4}; }
  }

  /**
   Exactly when an insertion leaves the priority queue at capacity beside a low-priority queue that is not empty: a
   transaction with a fee comes to a pool that was that way already, or that had one place left in the priority queue
   and two entries or more in the other.
   */
  lemma FullBesideLowIff(s: Pool, capacity: nat, id: TransactionId, t: Transaction, fee: nat)
    requires Bounded(s, capacity) && id !in s.high.transactions && PoolInserted(s, capacity, id, t, fee).Some?
    ensures var after := PoolInserted(s, capacity, id, t, fee).value;
            (|after.high.transactions| == capacity && after.low != []) <==>
              && fee > 0
              && (|| (|s.high.transactions| == capacity && s.low != [])
                  || (|s.high.transactions| + 1 == capacity && |s.low| >= 2))
  {
    hide Agrees, Inserted, CompareInserted, Used, LowIds;
    SizeIsRanked(s.high);
    InsertedAgrees(s.high, id, t, fee);
    SizeIsRanked(Inserted(s.high, id, t, fee));
    CompetitorFits(s.high, id, t, fee);
    UsedSize(s.low, id, t, capacity);
  }

  /** A new transaction that competes leaves the queue as long as it was. */
  lemma CompetitorFits(h: High, id: TransactionId, t: Transaction, fee: nat)
    requires Agrees(h) && id !in h.transactions
    ensures |CompareInserted(h, id, t, fee).transactions| == |h.transactions|
  {
    CompareInsertedAgrees(h, id, t, fee);
    SizeIsRanked(CompareInserted(h, id, t, fee));
    SizeIsRanked(h);
    if h.ranked != [] && h.ranked[|h.ranked| - 1].fee <= fee {
      TrimmedAgrees(h);
      InsertedAgrees(Trimmed(h), id, t, fee);
    }
  }

  lemma NextOperation(capacity: nat, ops: seq<Operation>, op: Operation)
    ensures AfterOperations(capacity, ops + [op]) == AfterOperation(AfterOperations(capacity, ops), capacity, op)
    ensures AfterOperations(capacity, []) == Pool([], EMPTY_HIGH)
  {
    assert (ops + [op])[..|ops|] == ops;
  }

  /** The pool grows past its capacity exactly when a full pool is given a new transaction without a fee. */
  lemma OverfillIff(s: Pool, capacity: nat, id: TransactionId, t: Transaction, fee: nat)
    requires Agrees(s.high) && Size(s) <= capacity && PoolInserted(s, capacity, id, t, fee).Some?
    ensures Size(PoolInserted(s, capacity, id, t, fee).value) > capacity <==>
            Size(s) == capacity && fee == 0 && |s.low| < capacity && id !in LowIds(s.low) && s.low != []
  {
    SizeIsRanked(s.high);
    InsertedAgrees(s.high, id, t, fee);
    SizeIsRanked(Inserted(s.high, id, t, fee));
    CompareInsertedAgrees(s.high, id, t, fee);
    SizeIsRanked(CompareInserted(s.high, id, t, fee));
    UsedSize(s.low, id, t, capacity);
    hide Agrees, Inserted, CompareInserted, Used;
  }

  /* Which fees are kept. */

  function FeesOf(ranked: seq<Ranked>): seq<nat> {
    seq(|ranked|, k requires 0 <= k < |ranked| => ranked[k].fee)
  }

  /** Insertion into a falling sequence, after the values that are no smaller. */
  function PutFee(s: seq<nat>, fee: nat): (r: seq<nat>)
    ensures |r| == |s| + 1
  {
    if s == [] || s[|s| - 1] >= fee then s + [fee] else PutFee(s[..|s| - 1], fee) + [s[|s| - 1]]
  }

  ghost predicate Falling(s: seq<nat>) {
    forall i, j :: 0 <= i < j < |s| ==> s[i] >= s[j]
  }

  /** The fees of the inserted transactions that have one, highest first. */
  function SortedFees(ops: seq<Operation>): seq<nat> {
    if ops == [] then []
    else
      var before := SortedFees(ops[..|ops| - 1]);
      var op := ops[|ops| - 1];
      if op.Insert? && op.fee > 0 then PutFee(before, op.fee) else before
  }

  function Top(s: seq<nat>, k: nat): seq<nat> {
    if |s| <= k then s else s[..k]
  }

  lemma {:induction false} PutFeeAtLeast(s: seq<nat>, fee: nat, low: nat)
    requires fee >= low && forall k :: 0 <= k < |s| ==> s[k] >= low
    ensures forall k :: 0 <= k <= |s| ==> PutFee(s, fee)[k] >= low
  {
    if s != [] && s[|s| - 1] < fee {
      PutFeeAtLeast(s[..|s| - 1], fee, low);
    }
  }

  lemma {:induction false} PutFeeFalls(s: seq<nat>, fee: nat)
    requires Falling(s)
    ensures Falling(PutFee(s, fee))
  {
    if s != [] && s[|s| - 1] < fee {
      var n := |s| - 1;
      PutFeeFalls(s[..n], fee);
      PutFeeAtLeast(s[..n], fee, s[n]);
    }
  }

  /** Sorting the fees keeps each of them. */
  lemma {:induction false} PutFeeAdds(s: seq<nat>, fee: nat)
    ensures multiset(PutFee(s, fee)) == multiset(s) + multiset{fee}
  {
    if s != [] && s[|s| - 1] < fee {
      PutFeeAdds(s[..|s| - 1], fee);
      assert s == s[..|s| - 1] + [s[|s| - 1]];
    }
  }

  /** Values no smaller than the new one keep their places. */
  lemma {:induction false} PutFeePrefix(s: seq<nat>, fee: nat, k: nat)
    requires Falling(s) && 1 <= k <= |s| && s[k - 1] >= fee
    ensures PutFee(s, fee)[..k] == s[..k]
    decreases |s|
  {
    var n := |s| - 1;
    if s[n] < fee {
      PutFeePrefix(s[..n], fee, k);
      assert (PutFee(s[..n], fee) + [s[n]])[..k] == PutFee(s[..n], fee)[..k];
      assert s[..n][..k] == s[..k];
    }
  }

  /** Smaller values make room for the new one. */
  lemma {:induction false} PutFeeCut(s: seq<nat>, fee: nat, k: nat)
    requires Falling(s) && 1 <= k <= |s| && s[k - 1] < fee
    ensures PutFee(s, fee)[..k] == PutFee(s[..k - 1], fee)
    decreases |s|
  {
    var n := |s| - 1;
    assert s[n] <= s[k - 1];
    assert PutFee(s, fee) == PutFee(s[..n], fee) + [s[n]];
    if k <= n {
      PutFeeCut(s[..n], fee, k);
      assert s[..n][..k - 1] == s[..k - 1];
    }
  }

  /** Truncating before or after an insertion makes no difference to the top. */
  lemma TopOfPut(s: seq<nat>, fee: nat, k: nat)
    requires Falling(s) && k >= 1
    ensures Top(PutFee(s, fee), k) ==
            if |s| < k then PutFee(s, fee)
            else if s[k - 1] > fee then s[..k]
            else PutFee(s[..k - 1], fee)
  {
    if |s| >= k {
      if s[k - 1] >= fee {
        PutFeePrefix(s, fee, k);
        if s[k - 1] == fee {
          PutAtEnd(s[..k - 1], fee);
        }
      } else {
        PutFeeCut(s, fee, k);
      }
    }
  }

  lemma PutAtEnd(s: seq<nat>, fee: nat)
    requires forall j :: 0 <= j < |s| ==> s[j] >= fee
    ensures PutFee(s, fee) == s + [fee]
  {
  }

  /** How many insertions carry a given fee. */
  function FeeCount(ops: seq<Operation>, fee: nat): nat {
    if ops == [] then 0
    else FeeCount(ops[..|ops| - 1], fee) + if ops[|ops| - 1].Insert? && ops[|ops| - 1].fee == fee then 1 else 0
  }

  /** The sorted fees are those of the insertions that carry one, each as often as it occurs. */
  lemma {:induction false} SortedFeesExact(ops: seq<Operation>, fee: nat)
    requires fee > 0
    ensures multiset(SortedFees(ops))[fee] == FeeCount(ops, fee)
  {
    if ops != [] {
      var n := |ops| - 1;
      SortedFeesExact(ops[..n], fee);
      if ops[n].Insert? && ops[n].fee > 0 {
        PutFeeAdds(SortedFees(ops[..n]), ops[n].fee);
      }
    }
  }

  /** The ordered map files a fee where insertion into the falling sequence of fees does. */
  lemma {:induction false} PlacedFees(s: seq<Ranked>, e: Ranked)
    requires forall x :: x in s ==> x.number < e.number
    ensures FeesOf(Placed(s, e)) == PutFee(FeesOf(s), e.fee)
  {
    if s != [] {
      var n := |s| - 1;
      assert s[n] in s;
      assert FeesOf(s)[..n] == FeesOf(s[..n]);
      if !Before(s[n], e) {
        PlacedFees(s[..n], e);
        assert FeesOf(Placed(s, e)) == FeesOf(Placed(s[..n], e)) + [s[n].fee];
      }
    }
  }

  ghost predicate OnlyInserts(ops: seq<Operation>) {
    && (forall k :: 0 <= k < |ops| ==> ops[k].Insert?)
    && (forall j, k :: 0 <= j < k < |ops| && ops[j].Insert? && ops[k].Insert? ==> ops[j].id != ops[k].id)
  }

  /** The IDs in the priority queue come from the insertions. */
  lemma {:induction false} HighIdsInserted(capacity: nat, ops: seq<Operation>, id: TransactionId)
    requires capacity >= 1 && id in AfterOperations(capacity, ops).high.transactions
    ensures exists k :: 0 <= k < |ops| && ops[k].Insert? && ops[k].id == id
  {
    if ops != [] {
      var n := |ops| - 1;
      var s := AfterOperations(capacity, ops[..n]);
      if id in s.high.transactions {
        HighIdsInserted(capacity, ops[..n], id);
        var k :| 0 <= k < n && ops[..n][k].Insert? && ops[..n][k].id == id;
        assert ops[k].id == id;
      } else {
        assert ops[n].Insert? && ops[n].id == id;
      }
    }
  }

  lemma NewIdIsNotHigh(capacity: nat, ops: seq<Operation>)
    requires capacity >= 1 && ops != [] && OnlyInserts(ops)
    ensures ops[|ops| - 1].id !in AfterOperations(capacity, ops[..|ops| - 1]).high.transactions
  {
    var n := |ops| - 1;
    forall id | id in AfterOperations(capacity, ops[..n]).high.transactions ensures id != ops[n].id {
      HighIdsInserted(capacity, ops[..n], id);
      var k :| 0 <= k < n && ops[..n][k].Insert? && ops[..n][k].id == id;
      assert ops[k].id != ops[n].id;
    }
  }

  /**
   Top-k retention: after any stream of insertions with distinct IDs, the priority queue holds exactly the
   `capacity` largest non-zero fees.
   */
  lemma {:induction false} TopFeesRetained(capacity: nat, ops: seq<Operation>)
    requires capacity >= 1 && OnlyInserts(ops)
    ensures FeesOf(AfterOperations(capacity, ops).high.ranked) == Top(SortedFees(ops), capacity)
    ensures Falling(SortedFees(ops))
  {
    if ops != [] {
      var n := |ops| - 1;
      TopFeesRetained(capacity, ops[..n]);
      AlwaysBounded(capacity, ops[..n]);
      var s, op := AfterOperations(capacity, ops[..n]), ops[n];
      if op.fee > 0 {
        NewIdIsNotHigh(capacity, ops);
        PutFeeFalls(SortedFees(ops[..n]), op.fee);
        FeeStep(s, capacity, op.id, op.t, op.fee, SortedFees(ops[..n]));
      }
    }
  }

  /** What an insertion with a fee does to the priority queue depends on that queue alone. */
  lemma InsertedRanks(s: Pool, capacity: nat, id: TransactionId, t: Transaction, fee: nat)
    requires capacity >= 1 && Bounded(s, capacity) && fee > 0 && id !in s.high.transactions
    ensures var ranked, e := s.high.ranked, Ranked(fee, s.high.counter, id);
            var after := PoolInserted(s, capacity, id, t, fee);
            && after.Some?
            && after.value.high.ranked ==
                 if |ranked| < capacity then Placed(ranked, e)
                 else if ranked[capacity - 1].fee > fee then ranked
                 else Placed(ranked[..capacity - 1], e)
    ensures forall x :: x in s.high.ranked ==> x.number < s.high.counter
  {
    hide Placed;
    SizeIsRanked(s.high);
  }

  lemma FeeStep(s: Pool, capacity: nat, id: TransactionId, t: Transaction, fee: nat, fees: seq<nat>)
    requires capacity >= 1 && Bounded(s, capacity) && fee > 0 && id !in s.high.transactions
    requires Falling(fees) && FeesOf(s.high.ranked) == Top(fees, capacity)
    ensures FeesOf(AfterOperation(s, capacity, Insert(id, t, fee)).high.ranked) == Top(PutFee(fees, fee), capacity)
  {
    hide Agrees, FeesOf, Top, PutFee, Placed, PoolInserted, Falling;
    InsertedRanks(s, capacity, id, t, fee);
    var ranked := s.high.ranked;
    var e := Ranked(fee, s.high.counter, id);
    if |ranked| < capacity {
      FeeFits(ranked, e, fees, capacity);
    } else {
      FeeCompetes(ranked, e, fees, capacity);
    }
  }

  lemma FeeFits(ranked: seq<Ranked>, e: Ranked, fees: seq<nat>, capacity: nat)
    requires Falling(fees) && FeesOf(ranked) == Top(fees, capacity) && |ranked| < capacity
    requires forall x :: x in ranked ==> x.number < e.number
    ensures FeesOf(Placed(ranked, e)) == Top(PutFee(fees, e.fee), capacity)
  {
    hide Falling, Placed, PutFee;
    assert |FeesOf(ranked)| == |ranked|;
    PlacedFees(ranked, e);
    TopOfPut(fees, e.fee, capacity);
  }

  lemma FeeCompetes(ranked: seq<Ranked>, e: Ranked, fees: seq<nat>, capacity: nat)
    requires Falling(fees) && FeesOf(ranked) == Top(fees, capacity) && |ranked| == capacity >= 1
    requires forall x :: x in ranked ==> x.number < e.number
    ensures Top(PutFee(fees, e.fee), capacity) ==
              if ranked[capacity - 1].fee > e.fee then FeesOf(ranked) else FeesOf(Placed(ranked[..capacity - 1], e))
  {
    hide Falling, Placed, PutFee;
    var n := capacity - 1;
    assert |FeesOf(ranked)| == |ranked|;
    assert FeesOf(ranked)[n] == ranked[n].fee && FeesOf(ranked[..n]) == FeesOf(ranked)[..n];
    TopOfPut(fees, e.fee, capacity);
    PlacedFees(ranked[..n], e);
    assert FeesOf(ranked)[..n] == fees[..n];
  }
}
