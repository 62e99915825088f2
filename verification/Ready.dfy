/**
 The queue of verified transmissions (node/bft/src/helpers/ready.rs): a double-ended queue, with an index from IDs
 to positions that survives pushes and pops at the front by counting positions from a moving offset.
 */
module ReadyQueue {
  import opened Types

  datatype Payload = SolutionData(data: nat) | TransactionData(data: nat) | RatificationData

  type Entry = (TransmissionId, Payload)

  ghost predicate Holds(queue: seq<Entry>, k: int, id: TransmissionId) {
    0 <= k < |queue| && queue[k].0 == id
  }

  /** The index and the queue describe each other, position by position. */
  ghost predicate IndexAgrees(ids: map<TransmissionId, int>, queue: seq<Entry>, offset: int) {
    && (forall k :: 0 <= k < |queue| ==> queue[k].0 in ids && ids[queue[k].0] - offset == k)
    && (forall id :: id in ids ==> Holds(queue, ids[id] - offset, id))
  }

  lemma PushBackAgrees(ids: map<TransmissionId, int>, queue: seq<Entry>, offset: int, e: Entry)
    requires IndexAgrees(ids, queue, offset) && e.0 !in ids
    ensures IndexAgrees(ids[e.0 := |queue| + offset], queue + [e], offset)
  {
    forall id | id in ids ensures Holds(queue + [e], ids[id] - offset, id) {
      assert Holds(queue, ids[id] - offset, id);
    }
  }

  lemma PushFrontAgrees(ids: map<TransmissionId, int>, queue: seq<Entry>, offset: int, e: Entry)
    requires IndexAgrees(ids, queue, offset) && e.0 !in ids
    ensures IndexAgrees(ids[e.0 := offset - 1], [e] + queue, offset - 1)
  {
    var more, index := [e] + queue, ids[e.0 := offset - 1];
    forall k | 0 <= k < |more| ensures more[k].0 in index && index[more[k].0] - (offset - 1) == k {
      assert k > 0 ==> more[k] == queue[k - 1];
    }
    forall id | id in ids ensures Holds(more, ids[id] - (offset - 1), id) {
      assert Holds(queue, ids[id] - offset, id);
    }
  }

  lemma PopFrontAgrees(ids: map<TransmissionId, int>, queue: seq<Entry>, offset: int)
    requires IndexAgrees(ids, queue, offset) && queue != []
    ensures IndexAgrees(ids - {queue[0].0}, queue[1..], offset + 1)
  {
    var rest, index := queue[1..], ids - {queue[0].0};
    forall k | 0 <= k < |rest| ensures rest[k].0 in index && index[rest[k].0] - (offset + 1) == k {
      assert rest[k] == queue[k + 1];
    }
    forall id | id in index ensures Holds(rest, index[id] - (offset + 1), id) {
      assert Holds(queue, ids[id] - offset, id);
    }
  }

  /** An index without entries describes the empty queue, at any offset. */
  lemma EmptyAgrees(queue: seq<Entry>, offset: int, other: int)
    requires IndexAgrees(map[], queue, offset)
    ensures queue == [] && IndexAgrees(map[], queue, other)
  {
    if queue != [] {
      FrontInIndex(map[], queue, offset);
    }
  }

  lemma FrontInIndex(ids: map<TransmissionId, int>, queue: seq<Entry>, offset: int)
    requires IndexAgrees(ids, queue, offset) && queue != []
    ensures queue[0].0 in ids
  {
  }

  function IdsIn(queue: seq<Entry>): set<TransmissionId> {
    set k | 0 <= k < |queue| :: queue[k].0
  }

  /** The payload of an ID, if the queue has it. */
  ghost predicate Finds(queue: seq<Entry>, id: TransmissionId, found: Option<Payload>) {
    match found
    case Some(payload) => (id, payload) in queue
    case None => id !in IdsIn(queue)
  }

  /** What remains when the solutions are taken out. */
  function WithoutSolutions(queue: seq<Entry>): seq<Entry> {
    if queue == [] then []
    else
      var n := |queue| - 1;
      WithoutSolutions(queue[..n]) + if queue[n].1.SolutionData? then [] else [queue[n]]
  }

  /** Ascending positions in a queue at which a sequence of entries is found. */
  ghost predicate Selects(queue: seq<Entry>, positions: seq<nat>, entries: seq<Entry>) {
    && |positions| == |entries|
    && (forall k :: 0 <= k < |entries| ==> positions[k] < |queue| && queue[positions[k]] == entries[k])
    && (forall j, k :: 0 <= j < k < |positions| ==> positions[j] < positions[k])
  }

  /** What remains is in its old order, and is all that is no solution. */
  lemma {:induction false} WithoutSolutionsInOrder(queue: seq<Entry>) returns (positions: seq<nat>)
    ensures Selects(queue, positions, WithoutSolutions(queue))
    ensures forall i: nat :: i in positions <==> i < |queue| && !queue[i].1.SolutionData?
  {
    positions := [];
    if queue != [] {
      var n := |queue| - 1;
      positions := WithoutSolutionsInOrder(queue[..n]);
      if !queue[n].1.SolutionData? {
        positions := positions + [n];
      }
    }
  }

  ghost predicate DistinctIds(queue: seq<Entry>) {
    forall j, k :: 0 <= j < k < |queue| ==> queue[j].0 != queue[k].0
  }

  lemma {:induction false} WithoutSolutionsExact(queue: seq<Entry>)
    ensures forall e :: e in WithoutSolutions(queue) <==> e in queue && !e.1.SolutionData?
    ensures DistinctIds(queue) ==> DistinctIds(WithoutSolutions(queue))
  {
    if queue != [] {
      var n := |queue| - 1;
      WithoutSolutionsExact(queue[..n]);
      assert queue == queue[..n] + [queue[n]];
      var kept := WithoutSolutions(queue[..n]);
      if DistinctIds(queue) {
        forall k | 0 <= k < |kept| ensures kept[k].0 != queue[n].0 {
          assert kept[k] in queue[..n];
        }
      }
    }
  }

  lemma ClearedIsDistinct(queue: seq<Entry>)
    requires DistinctIds(queue)
    ensures DistinctIds(WithoutSolutions(queue))
  {
    WithoutSolutionsExact(queue);
  }

  /** In a queue that its index describes, IDs are distinct, and the index lists just them. */
  lemma IndexedIsDistinct(ids: map<TransmissionId, int>, queue: seq<Entry>, offset: int)
    requires IndexAgrees(ids, queue, offset)
    ensures DistinctIds(queue) && ids.Keys == IdsIn(queue)
  {
    forall id | id in ids ensures id in IdsIn(queue) {
      assert Holds(queue, ids[id] - offset, id);
    }
  }

  lemma NothingAgrees(queue: seq<Entry>)
    requires queue == []
    ensures IndexAgrees(map[], queue, 0)
  {
  }

  lemma NewInIndex(ids: map<TransmissionId, int>, queue: seq<Entry>, i: nat)
    requires i < |queue| && DistinctIds(queue) && IndexAgrees(ids, queue[..i], 0)
    ensures queue[i].0 !in ids
  {
    forall id | id in ids ensures id != queue[i].0 {
      assert Holds(queue[..i], ids[id] - 0, id);
    }
  }

  class Ready {
    var ids: map<TransmissionId, int>
    var queue: seq<Entry>
    var offset: int

    ghost predicate Valid()
      reads this
    {
      IndexAgrees(ids, queue, offset)
    }

    constructor ()
      ensures Valid() && queue == []
    {
      ids, queue, offset := map[], [], 0;
    }

    method Contains(id: TransmissionId) returns (found: bool)
      requires Valid()
      ensures found <==> id in IdsIn(queue)
    {
      IndexedIsDistinct(ids, queue, offset);
      found := id in ids;
    }

    method Get(id: TransmissionId) returns (found: Option<Payload>)
      requires Valid()
      ensures Finds(queue, id, found)
    {
      IndexedIsDistinct(ids, queue, offset);
      if id !in ids {
        return None;
      }
      assert Holds(queue, ids[id] - offset, id);
      var entry := queue[ids[id] - offset];
      assert entry in queue && entry == (id, entry.1);
      found := Some(entry.1);
    }

    /** Appends a transmission that is not in the queue yet. */
    method Insert(id: TransmissionId, payload: Payload) returns (added: bool)
      requires Valid()
      modifies this
      ensures Valid()
      ensures added <==> id !in IdsIn(old(queue))
      ensures queue == if added then old(queue) + [(id, payload)] else old(queue)
    {
      hide IndexAgrees;
      IndexedIsDistinct(ids, queue, offset);
      if id in ids {
        return false;
      }
      PushBackAgrees(ids, queue, offset, (id, payload));
      ids := ids[id := |queue| + offset];
      queue := queue + [(id, payload)];
      added := true;
    }

    method InsertFront(id: TransmissionId, payload: Payload) returns (added: bool)
      requires Valid()
      modifies this
      ensures Valid()
      ensures added <==> id !in IdsIn(old(queue))
      ensures queue == if added then [(id, payload)] + old(queue) else old(queue)
    {
      hide IndexAgrees;
      IndexedIsDistinct(ids, queue, offset);
      if id in ids {
        return false;
      }
      PushFrontAgrees(ids, queue, offset, (id, payload));
      offset := offset - 1;
      ids := ids[id := offset];
      queue := [(id, payload)] + queue;
      added := true;
    }

    method RemoveFront() returns (removed: Option<Entry>)
      requires Valid()
      modifies this
      ensures Valid()
      ensures removed.None? <==> old(queue) == []
      ensures removed.Some? ==> old(queue) == [removed.value] + queue && removed.value.0 !in IdsIn(queue)
      ensures removed.None? ==> queue == old(queue)
      ensures removed.Some? && queue == [] ==> offset == 0
    {
      hide IndexAgrees;
      if queue == [] {
        return None;
      }
      IndexedIsDistinct(ids, queue, offset);
      PopFrontAgrees(ids, queue, offset);
      var front := queue[0];
      queue := queue[1..];
      ids := ids - {front.0};
      if ids == map[] {
        EmptyAgrees(queue, offset + 1, 0);
        offset := 0;
      } else {
        offset := offset + 1;
      }
      removed := Some(front);
    }

    /** Takes the solutions out, and rebuilds the index from scratch. */
    method ClearSolutions()
      requires Valid()
      modifies this
      ensures Valid()
      ensures queue == WithoutSolutions(old(queue))
    {
      hide IndexAgrees, WithoutSolutions, DistinctIds;
      IndexedIsDistinct(ids, queue, offset);
      ClearedIsDistinct(queue);
      queue := WithoutSolutions(queue);
      ids, offset := map[], 0;
      NothingAgrees(queue[..0]);
      for i := 0 to |queue|
        invariant offset == 0 && queue == WithoutSolutions(old(queue))
        invariant IndexAgrees(ids, queue[..i], 0)
      {
        NewInIndex(ids, queue, i);
        PushBackAgrees(ids, queue[..i], 0, queue[i]);
        assert queue[..i] + [queue[i]] == queue[..i + 1];
        ids := ids[queue[i].0 := i];
      }
      assert queue[..|queue|] == queue;
    }
  }

  /** The worker puts transmissions back, each unless it can be found elsewhere already. */
  function Reinserted(queue: seq<Entry>, entries: seq<Entry>, known: set<TransmissionId>): seq<Entry> {
    if entries == [] then queue
    else
      var n := |entries| - 1;
      var before := Reinserted(queue, entries[..n], known);
      if entries[n].0 in known || entries[n].0 in IdsIn(before) then before else before + [entries[n]]
  }

  /** Nothing is dropped: what was queued stays, in front, and everything put back can be found. */
  lemma {:induction false} ReinsertedKeepsAll(queue: seq<Entry>, entries: seq<Entry>, known: set<TransmissionId>)
    ensures queue <= Reinserted(queue, entries, known)
    ensures forall e :: e in entries ==> e.0 in known || e.0 in IdsIn(Reinserted(queue, entries, known))
    ensures forall e :: e in Reinserted(queue, entries, known) ==> e in queue || e in entries
    decreases |entries|
  {
    if entries != [] {
      var n := |entries| - 1;
      var before, after := Reinserted(queue, entries[..n], known), Reinserted(queue, entries, known);
      ReinsertedKeepsAll(queue, entries[..n], known);
      forall id | id in IdsIn(before) ensures id in IdsIn(after) {
        var k :| 0 <= k < |before| && before[k].0 == id;
        assert after[k].0 == id;
      }
      forall e | e in entries ensures e.0 in known || e.0 in IdsIn(after) {
        if e !in entries[..n] && e.0 !in known && e.0 !in IdsIn(before) {
          assert after[|before|].0 == e.0;
        }
      }
    }
  }

  /** The entry at `i` is the first one with its ID, and is found neither in the queue nor elsewhere. */
  ghost predicate IsPutBack(queue: seq<Entry>, entries: seq<Entry>, known: set<TransmissionId>, i: nat) {
    && i < |entries| && entries[i].0 !in known && entries[i].0 !in IdsIn(queue) && entries[i].0 !in IdsIn(entries[..i])
  }

  lemma SelectsMore(queue: seq<Entry>, n: nat, positions: seq<nat>, entries: seq<Entry>)
    requires n < |queue| && Selects(queue[..n], positions, entries)
    ensures Selects(queue, positions, entries) && Selects(queue, positions + [n], entries + [queue[n]])
  {
  }

  lemma PutBackBefore(queue: seq<Entry>, entries: seq<Entry>, known: set<TransmissionId>, n: nat)
    requires n <= |entries|
    ensures forall i: nat :: i < n ==> (IsPutBack(queue, entries[..n], known, i) <==> IsPutBack(queue, entries, known, i))
  {
    hide IdsIn;
    forall i: nat | i < n ensures IsPutBack(queue, entries[..n], known, i) <==> IsPutBack(queue, entries, known, i) {
      assert entries[..n][..i] == entries[..i];
    }
  }

  lemma InPositions(positions: seq<nat>, n: nat)
    ensures forall i: nat :: i in positions + [n] <==> i in positions || i == n
  {
  }

  /** What is put back stands behind the queue in its old order, and is all that was neither known nor there before. */
  lemma {:induction false} ReinsertedInOrder(queue: seq<Entry>, entries: seq<Entry>, known: set<TransmissionId>)
    returns (positions: seq<nat>)
    ensures queue <= Reinserted(queue, entries, known)
    ensures Selects(entries, positions, Reinserted(queue, entries, known)[|queue|..])
    ensures forall i: nat :: i in positions <==> IsPutBack(queue, entries, known, i)
    decreases |entries|
  {
    hide IdsIn, Selects, Reinserted;
    ReinsertedStep(queue, entries, known);
    if entries == [] {
      positions := [];
      SelectsNothing(entries, queue);
    } else {
      var n := |entries| - 1;
      var before := Reinserted(queue, entries[..n], known);
      positions := ReinsertedInOrder(queue, entries[..n], known);
      PutBackBefore(queue, entries, known, n);
      SelectsMore(entries, n, positions, before[|queue|..]);
      InPositions(positions, n);
      if IsPutBack(queue, entries, known, n) {
        assert (before + [entries[n]])[|queue|..] == before[|queue|..] + [entries[n]];
        positions := positions + [n];
      }
    }
  }

  lemma ReinsertedStep(queue: seq<Entry>, entries: seq<Entry>, known: set<TransmissionId>)
    ensures entries == [] ==> Reinserted(queue, entries, known) == queue
    ensures entries != [] ==>
              var n := |entries| - 1;
              var before := Reinserted(queue, entries[..n], known);
              Reinserted(queue, entries, known) == if IsPutBack(queue, entries, known, n) then before + [entries[n]] else before
  {
    hide IdsIn;
    if entries != [] {
      IdsReinserted(queue, entries[..|entries| - 1], known);
    }
  }

  lemma SelectsNothing(entries: seq<Entry>, queue: seq<Entry>)
    ensures Selects(entries, [], queue[|queue|..])
  {
  }

  lemma IdsReinserted(queue: seq<Entry>, entries: seq<Entry>, known: set<TransmissionId>)
    ensures forall id :: id !in known ==>
              (id in IdsIn(Reinserted(queue, entries, known)) <==> id in IdsIn(queue) || id in IdsIn(entries))
  {
    ReinsertedKeepsAll(queue, entries, known);
    var after := Reinserted(queue, entries, known);
    forall id | id in IdsIn(after) ensures id in IdsIn(queue) || id in IdsIn(entries) {
      var k :| 0 <= k < |after| && after[k].0 == id;
      assert after[k] in after;
    }
    forall id | id in IdsIn(queue) ensures id in IdsIn(after) {
      var k :| 0 <= k < |queue| && queue[k].0 == id;
      assert after[k].0 == id;
    }
    forall id | id in IdsIn(entries) && id !in known ensures id in IdsIn(after) {
      var k :| 0 <= k < |entries| && entries[k].0 == id;
      assert entries[k] in entries;
    }
  }

  /** `known` are the transmissions in the live proposal, in storage or in the ledger. */
  method Reinsert(ready: Ready, entries: seq<Entry>, known: set<TransmissionId>)
    requires ready.Valid()
    modifies ready
    ensures ready.Valid()
    ensures ready.queue == Reinserted(old(ready.queue), entries, known)
  {
    for k := 0 to |entries|
      invariant ready.Valid()
      invariant ready.queue == Reinserted(old(ready.queue), entries[..k], known)
    {
      var queued := ready.Contains(entries[k].0);
      assert entries[..k + 1][..k] == entries[..k];
      if !queued && entries[k].0 !in known {
        var added := ready.Insert(entries[k].0, entries[k].1);
      }
    }
    assert entries[..|entries|] == entries;
  }
}
