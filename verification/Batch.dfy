/**
 How a primary assembles a batch (node/bft/src/primary.rs): it drains the ready queue from the front until the
 batch is full or the next transaction would exceed the spend limit, and how a signer re-checks the cost.
 */
module Batches {
  import opened Types
  import opened Committees
  import opened ReadyQueue

  const MAX_TRANSMISSIONS_PER_BATCH: nat := 50

  /**
   What the proposer learns from outside: what the ledger and the storage have, which entries match their
   checksums, which cannot be decoded, which the ledger finds valid, and what a transaction costs, if that is known.
   */
  datatype Checks = Checks(
    inLedger: set<TransmissionId>,
    inStorage: set<TransmissionId>,
    matches: Entry -> bool,
    broken: Entry -> bool,
    valid: Entry -> bool,
    costOf: Entry -> Option<nat>,
    limit: nat
  )

  datatype Fate = Dropped | Taken(cost: nat) | Stops | Fails

  /** What becomes of the entry at the front of the queue. */
  function FateOf(e: Entry, checks: Checks, chosen: seq<Entry>, cost: nat): Fate {
    if e.0 in checks.inLedger then Dropped
    else if chosen != [] && e.0 in checks.inStorage then Dropped
    else if e.0.Solution? && e.1.SolutionData? then
      if checks.matches(e) && checks.valid(e) then Taken(cost) else Dropped
    else if IsTransaction(e) then
      if !checks.matches(e) then Dropped
      else if checks.broken(e) then Fails
      else
        match checks.costOf(e)
        case None => Dropped
        case Some(more) =>
          if !checks.valid(e) || cost + more > U64_MAX then Dropped
          else if cost + more > checks.limit then Stops
          else Taken(cost + more)
    else Dropped
  }

  datatype Drained = Drained(chosen: seq<Entry>, cost: nat, rest: seq<Entry>, failed: bool)

  function Drain(queue: seq<Entry>, checks: Checks, chosen: seq<Entry>, cost: nat): Drained {
    if queue == [] || |chosen| >= MAX_TRANSMISSIONS_PER_BATCH then Drained(chosen, cost, queue, false)
    else
      match FateOf(queue[0], checks, chosen, cost)
      case Dropped => Drain(queue[1..], checks, chosen, cost)
      case Taken(more) => Drain(queue[1..], checks, chosen + [queue[0]], more)
      case Stops => Drained(chosen, cost, queue, false)
      case Fails => Drained(chosen, cost, queue[1..], true)
  }

  predicate IsTransaction(e: Entry) {
    e.0.Transaction? && e.1.TransactionData?
  }

  function TransactionCost(e: Entry, costOf: Entry -> Option<nat>): nat {
    if IsTransaction(e) && costOf(e).Some? then costOf(e).value else 0
  }

  function TotalCost(entries: seq<Entry>, costOf: Entry -> Option<nat>): nat {
    if entries == [] then 0 else TotalCost(entries[..|entries| - 1], costOf) + TransactionCost(entries[|entries| - 1], costOf)
  }

  /** What is chosen meets every check, within both limits. */
  ghost predicate Acceptable(entries: seq<Entry>, cost: nat, checks: Checks) {
    && |entries| <= MAX_TRANSMISSIONS_PER_BATCH
    && cost == TotalCost(entries, checks.costOf) && cost <= U64_MAX && (cost == 0 || cost <= checks.limit)
    && forall e :: e in entries ==> IsWorthy(e, checks)
  }

  ghost predicate IsWorthy(e: Entry, checks: Checks) {
    && e.0 !in checks.inLedger && checks.matches(e) && checks.valid(e)
    && (|| (e.0.Solution? && e.1.SolutionData?)
        || (IsTransaction(e) && !checks.broken(e) && checks.costOf(e).Some?))
  }

  /** Of what the ledger, the storage and the checksums say, nothing speaks against the entry after those in `before`. */
  ghost predicate IsOpen(e: Entry, checks: Checks, before: seq<Entry>) {
    && e.0 !in checks.inLedger && (before != [] ==> e.0 !in checks.inStorage) && checks.matches(e)
  }

  /** What the batch costs with one more entry. */
  function CostWith(e: Entry, checks: Checks, before: seq<Entry>): nat {
    TotalCost(before, checks.costOf) + TransactionCost(e, checks.costOf)
  }

  /** The entry goes into the batch after those in `before`. */
  ghost predicate Belongs(e: Entry, checks: Checks, before: seq<Entry>) {
    && IsOpen(e, checks, before) && IsWorthy(e, checks)
    && (IsTransaction(e) ==> CostWith(e, checks, before) <= U64_MAX && CostWith(e, checks, before) <= checks.limit)
  }

  /** The entry is a transaction that would go into the batch, but makes it cost more than is allowed. */
  ghost predicate IsTooCostly(e: Entry, checks: Checks, before: seq<Entry>) {
    && IsOpen(e, checks, before) && IsWorthy(e, checks) && IsTransaction(e)
    && checks.limit < CostWith(e, checks, before) <= U64_MAX
  }

  /** The entry is a transaction that cannot be decoded. */
  ghost predicate Breaks(e: Entry, checks: Checks, before: seq<Entry>) {
    IsOpen(e, checks, before) && IsTransaction(e) && checks.broken(e)
  }

  /** Of the first `n` entries of a queue, those that belong into the batch after the ones before them. */
  ghost function Belonging(queue: seq<Entry>, checks: Checks, n: nat): seq<Entry>
    requires n <= |queue|
  {
    if n == 0 then []
    else
      var before := Belonging(queue, checks, n - 1);
      before + if Belongs(queue[n - 1], checks, before) then [queue[n - 1]] else []
  }

  /** Draining goes on at the entry at `n`. */
  ghost predicate GoesOn(queue: seq<Entry>, checks: Checks, n: nat)
    requires n < |queue|
  {
    var before := Belonging(queue, checks, n);
    && |before| < MAX_TRANSMISSIONS_PER_BATCH
    && !IsTooCostly(queue[n], checks, before) && !Breaks(queue[n], checks, before)
  }

  /**
   Draining ends at the entry at `n`: it has chosen just the entries that belong into the batch, and the batch is full, the
   next transaction is too costly, the queue has run out, or the next transaction cannot be decoded, and is gone.
   */
  ghost predicate EndsAt(queue: seq<Entry>, checks: Checks, n: nat, d: Drained) {
    && n <= |queue| && (forall j :: 0 <= j < n ==> GoesOn(queue, checks, j))
    && d.chosen == Belonging(queue, checks, n) && d.cost == TotalCost(d.chosen, checks.costOf)
    && if d.failed then
         n < |queue| && d.rest == queue[n + 1..] && |d.chosen| < MAX_TRANSMISSIONS_PER_BATCH && Breaks(queue[n], checks, d.chosen)
       else
         d.rest == queue[n..] &&
         (n == |queue| || |d.chosen| >= MAX_TRANSMISSIONS_PER_BATCH || IsTooCostly(queue[n], checks, d.chosen))
  }

  lemma FateIs(e: Entry, checks: Checks, before: seq<Entry>)
    requires TotalCost(before, checks.costOf) <= U64_MAX
    ensures var cost := TotalCost(before, checks.costOf);
            var fate := FateOf(e, checks, before, cost);
            && (fate.Taken? <==> Belongs(e, checks, before))
            && (fate.Stops? <==> IsTooCostly(e, checks, before))
            && (fate.Fails? <==> Breaks(e, checks, before))
            && (fate.Taken? ==> fate.cost == TotalCost(before + [e], checks.costOf) <= U64_MAX)
  {
    assert (before + [e])[..|before|] == before;
  }

  /**
   What draining chooses, where it ends and what it leaves. There is just one place at which it can end, since it goes on
   at every one before.
   */
  lemma {:induction false} DrainTakesWhatBelongs(queue: seq<Entry>, checks: Checks, at: nat) returns (n: nat)
    requires at <= |queue| && forall j :: 0 <= j < at ==> GoesOn(queue, checks, j)
    requires TotalCost(Belonging(queue, checks, at), checks.costOf) <= U64_MAX
    ensures var before := Belonging(queue, checks, at);
            var d := Drain(queue[at..], checks, before, TotalCost(before, checks.costOf));
            EndsAt(queue, checks, n, d)
    decreases |queue| - at
  {
    hide FateOf, Belongs, IsTooCostly, Breaks, TotalCost;
    var before, rest := Belonging(queue, checks, at), queue[at..];
    n := at;
    if rest != [] && |before| < MAX_TRANSMISSIONS_PER_BATCH {
      var cost := TotalCost(before, checks.costOf);
      assert rest[1..] == queue[at + 1..] && rest[0] == queue[at];
      FateIs(queue[at], checks, before);
      match FateOf(queue[at], checks, before, cost) {
        case Dropped =>
          assert Belonging(queue, checks, at + 1) == before;
          n := DrainTakesWhatBelongs(queue, checks, at + 1);
        case Taken(more) =>
          assert Belonging(queue, checks, at + 1) == before + [queue[at]];
          n := DrainTakesWhatBelongs(queue, checks, at + 1);
        case Stops =>
        case Fails =>
      }
    }
  }

  /** An entry that draining has passed over was not worthy, or known to storage, or it made the cost overflow. */
  lemma PassedOver(queue: seq<Entry>, checks: Checks, n: nat)
    requires n < |queue| && GoesOn(queue, checks, n) && Belonging(queue, checks, n + 1) == Belonging(queue, checks, n)
    ensures var e, before := queue[n], Belonging(queue, checks, n);
            || !IsWorthy(e, checks) || (before != [] && e.0 in checks.inStorage)
            || (IsTransaction(e) && CostWith(e, checks, before) > U64_MAX)
  {
  }

  lemma TakenIsAcceptable(e: Entry, checks: Checks, chosen: seq<Entry>, cost: nat)
    requires Acceptable(chosen, cost, checks) && |chosen| < MAX_TRANSMISSIONS_PER_BATCH
    requires FateOf(e, checks, chosen, cost).Taken?
    ensures Acceptable(chosen + [e], FateOf(e, checks, chosen, cost).cost, checks)
  {
    assert (chosen + [e])[..|chosen|] == chosen;
  }

  /**
   The drained entries are an acceptable batch, picked in order from the consumed part of the queue; what is left
   is an exact suffix.
   */
  lemma {:induction false} DrainIsBatch(queue: seq<Entry>, at: nat, checks: Checks, chosen: seq<Entry>, cost: nat, positions: seq<nat>)
    returns (n: nat, picked: seq<nat>)
    requires at <= |queue| && Acceptable(chosen, cost, checks) && Selects(queue[..at], positions, chosen)
    ensures var d := Drain(queue[at..], checks, chosen, cost);
            && at <= n <= |queue| && d.rest == queue[n..]
            && Acceptable(d.chosen, d.cost, checks) && Selects(queue[..n], picked, d.chosen)
            && chosen <= d.chosen
    decreases |queue| - at
  {
    var rest := queue[at..];
    n, picked := at, positions;
    if rest != [] && |chosen| < MAX_TRANSMISSIONS_PER_BATCH {
      hide Acceptable, FateOf;
      assert rest[1..] == queue[at + 1..] && rest[0] == queue[at];
      assert Selects(queue[..at + 1], positions, chosen);
      match FateOf(rest[0], checks, chosen, cost) {
        case Dropped =>
          n, picked := DrainIsBatch(queue, at + 1, checks, chosen, cost, positions);
        case Taken(more) =>
          TakenIsAcceptable(rest[0], checks, chosen, cost);
          assert Selects(queue[..at + 1], positions + [at], chosen + [rest[0]]);
          n, picked := DrainIsBatch(queue, at + 1, checks, chosen + [rest[0]], more, positions + [at]);
        case Stops =>
        case Fails =>
          n := at + 1;
      }
    }
  }

  /** Drains the ready queue into a batch. An undecodable transaction ends it with an error. */
  method DrainReady(ready: Ready, checks: Checks) returns (r: Result<seq<Entry>, ()>)
    requires ready.Valid()
    modifies ready
    ensures ready.Valid()
    ensures var d := Drain(old(ready.queue), checks, [], 0);
            && ready.queue == d.rest
            && (r.Ok? <==> !d.failed)
            && (r.Ok? ==> r.value == d.chosen)
            && exists n :: EndsAt(old(ready.queue), checks, n, d)
  {
    hide FateOf, IndexAgrees, EndsAt;
    ghost var n := DrainTakesWhatBelongs(ready.queue, checks, 0) by { assert ready.queue[0..] == ready.queue; }
    var chosen: seq<Entry> := [];
    var cost := 0;
    while true
      invariant ready.Valid()
      invariant Drain(old(ready.queue), checks, [], 0) == Drain(ready.queue, checks, chosen, cost)
      decreases |ready.queue|
    {
      ghost var queue := ready.queue;
      var front := ready.RemoveFront();
      if front.None? {
        break;
      }
      var e := front.value;
      assert queue[0] == e && queue[1..] == ready.queue;
      if |chosen| >= MAX_TRANSMISSIONS_PER_BATCH {
        var back := ready.InsertFront(e.0, e.1);
        assert ready.queue == queue;
        break;
      }
      var fate := FateOf(e, checks, chosen, cost);
      if fate.Stops? {
        var back := ready.InsertFront(e.0, e.1);
        assert ready.queue == queue;
        break;
      }
      if fate.Fails? {
        return Err(());
      }
      if fate.Taken? {
        chosen := chosen + [e];
        cost := fate.cost;
      }
    }
    r := Ok(chosen);
  }

  /** Every transaction's cost is known, and no prefix of the batch costs more than allowed. */
  ghost predicate Affordable(entries: seq<Entry>, costOf: Entry -> Option<nat>, limit: nat) {
    && (forall e :: e in entries && IsTransaction(e) ==> costOf(e).Some?)
    && forall k :: 0 < k <= |entries| && IsTransaction(entries[k - 1]) ==>
         TotalCost(entries[..k], costOf) <= U64_MAX && TotalCost(entries[..k], costOf) <= limit
  }

  lemma {:induction false} TotalCostGrows(entries: seq<Entry>, costOf: Entry -> Option<nat>, k: nat)
    requires k <= |entries|
    ensures TotalCost(entries[..k], costOf) <= TotalCost(entries, costOf)
    decreases |entries|
  {
    if k < |entries| {
      var n := |entries| - 1;
      TotalCostGrows(entries[..n], costOf, k);
      assert entries[..n][..k] == entries[..k];
    } else {
      assert entries[..k] == entries;
    }
  }

  /** A signer with the same cost function and limit accepts what a proposer drained. */
  lemma DrainIsAffordable(queue: seq<Entry>, checks: Checks)
    ensures Affordable(Drain(queue, checks, [], 0).chosen, checks.costOf, checks.limit)
  {
    var n, picked := DrainIsBatch(queue, 0, checks, [], 0, []);
    assert queue[0..] == queue;
    var d := Drain(queue, checks, [], 0);
    assert Acceptable(d.chosen, d.cost, checks);
    forall k | 0 < k <= |d.chosen| && IsTransaction(d.chosen[k - 1])
      ensures TotalCost(d.chosen[..k], checks.costOf) <= U64_MAX && TotalCost(d.chosen[..k], checks.costOf) <= checks.limit
    {
      TotalCostGrows(d.chosen, checks.costOf, k);
    }
  }

  datatype SpendError = UnknownCost | CostOverflow | LimitExceeded

  /** The signer's loop over the costs of a batch. */
  method CheckSpend(entries: seq<Entry>, costOf: Entry -> Option<nat>, limit: nat) returns (r: Result<(), SpendError>)
    ensures r.Ok? <==> Affordable(entries, costOf, limit)
  {
    var cost := 0;
    for k := 0 to |entries|
      invariant cost == TotalCost(entries[..k], costOf)
      invariant Affordable(entries[..k], costOf, limit)
    {
      var e := entries[k];
      var done := entries[..k + 1];
      assert done[..k] == entries[..k] && done[k] == e;
      assert e in entries;
      if IsTransaction(e) {
        if costOf(e).None? {
          return Err(UnknownCost);
        }
        assert TotalCost(done, costOf) == cost + costOf(e).value;
        if cost + costOf(e).value > U64_MAX {
          assert IsTransaction(entries[(k + 1) - 1]);
          return Err(CostOverflow);
        }
        if cost + costOf(e).value > limit {
          assert IsTransaction(entries[(k + 1) - 1]);
          return Err(LimitExceeded);
        }
        cost := cost + costOf(e).value;
      }
      AffordableStep(entries, costOf, limit, k);
    }
    assert entries[..|entries|] == entries;
    r := Ok(());
  }

  lemma AffordableStep(entries: seq<Entry>, costOf: Entry -> Option<nat>, limit: nat, k: nat)
    requires k < |entries| && Affordable(entries[..k], costOf, limit)
    requires IsTransaction(entries[k]) ==>
               && costOf(entries[k]).Some?
               && TotalCost(entries[..k + 1], costOf) <= U64_MAX && TotalCost(entries[..k + 1], costOf) <= limit
    ensures Affordable(entries[..k + 1], costOf, limit)
  {
    var done := entries[..k + 1];
    forall j | 0 < j <= |done| && IsTransaction(done[j - 1])
      ensures TotalCost(done[..j], costOf) <= U64_MAX && TotalCost(done[..j], costOf) <= limit
    {
      if j <= k {
        assert done[..j] == entries[..k][..j];
        assert IsTransaction(entries[..k][j - 1]);
      } else {
        assert done[..j] == done;
      }
    }
  }
}
