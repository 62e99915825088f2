/**
 Loading blocks from a content delivery network (node/cdn/src/blocks.rs). A downloader requests bundles of
 consecutive blocks, which arrive in any order into a sorted buffer; a consumer takes them out bundle by bundle and
 must feed the ledger consecutive heights.
 */
module Cdn {
  import opened Types

  const BLOCKS_PER_FILE: nat := 50

  /** The least whole number of files, one at least, that goes beyond ten blocks below the tip. */
  function CdnHeight(tip: nat): (height: nat)
    ensures IsBeyond(tip, height)
    ensures forall other :: IsBeyond(tip, other) ==> height <= other
  {
    var safe := if tip < 10 then 0 else tip - 10;
    safe - safe % BLOCKS_PER_FILE + BLOCKS_PER_FILE
  }

  ghost predicate IsBeyond(tip: nat, height: nat) {
    height > 0 && height % BLOCKS_PER_FILE == 0 && height + 10 > tip
  }

  /* The downloader. */

  /** The first heights of `n` consecutive bundles. */
  function Bundles(start: nat, n: nat): (s: seq<nat>)
    ensures |s| == n
    ensures forall k :: 0 <= k < n ==> s[k] == start + k * BLOCKS_PER_FILE
  {
    if n == 0 then [] else Bundles(start, n - 1) + [start + (n - 1) * BLOCKS_PER_FILE]
  }

  /** How many of a batch of requests, counted from `start`, do not start above `end`. */
  function Allowed(start: nat, end: nat, batch: nat): (n: nat)
    ensures forall k: nat :: k < n <==> k < batch && start + k * BLOCKS_PER_FILE <= end
  {
    if start > end then 0
    else if (end - start) / BLOCKS_PER_FILE + 1 < batch then (end - start) / BLOCKS_PER_FILE + 1
    else batch
  }

  /** The requests sent, given how many each round of the loop has room for, and whether the loop has ended. */
  function Requests(start: nat, end: nat, batches: seq<nat>): (seq<nat>, bool)
    requires end >= 1
    decreases |batches|
  {
    if start >= end - 1 then ([], true)
    else if batches == [] then ([], false)
    else
      var (rest, finished) := Requests(start + BLOCKS_PER_FILE * batches[0], end, batches[1..]);
      (Bundles(start, Allowed(start, end, batches[0])) + rest, finished)
  }

  /** A bundle that the consumer needs. */
  ghost predicate IsNeeded(start: nat, end: nat, bundle: nat) {
    start <= bundle < end && (bundle - start) % BLOCKS_PER_FILE == 0
  }

  ghost predicate Strictly(s: seq<nat>) {
    forall i, j :: 0 <= i < j < |s| ==> s[i] < s[j]
  }

  /** No bundle is requested twice, and none that starts above the end. */
  lemma {:induction false} RequestsOnce(start: nat, end: nat, batches: seq<nat>)
    requires end >= 1
    ensures var (sent, _) := Requests(start, end, batches);
            Strictly(sent) && forall k :: 0 <= k < |sent| ==> start <= sent[k] <= end
    decreases |batches|
  {
    if start < end - 1 && batches != [] {
      RequestsOnce(start + BLOCKS_PER_FILE * batches[0], end, batches[1..]);
      var first := Bundles(start, Allowed(start, end, batches[0]));
      hide Allowed;
      forall k: nat | k < |first| ensures start <= first[k] <= end && first[k] < start + BLOCKS_PER_FILE * batches[0] {
        assert k < Allowed(start, end, batches[0]);
      }
    }
  }

  /** Every needed bundle but one that holds the last block alone is requested. */
  lemma {:induction false} RequestsCover(start: nat, end: nat, batches: seq<nat>, k: nat)
    requires end >= 1 && Requests(start, end, batches).1
    requires start + k * BLOCKS_PER_FILE < end - 1
    ensures start + k * BLOCKS_PER_FILE in Requests(start, end, batches).0
    decreases |batches|
  {
    hide Allowed;
    var first := Bundles(start, Allowed(start, end, batches[0]));
    if k < batches[0] {
      assert k < Allowed(start, end, batches[0]);
      assert first[k] == start + k * BLOCKS_PER_FILE;
    } else {
      RequestsCover(start + BLOCKS_PER_FILE * batches[0], end, batches[1..], k - batches[0]);
    }
  }

  ghost predicate AllCovered(start: nat, end: nat, batches: seq<nat>)
    requires end >= 1
  {
    forall bundle: nat :: IsNeeded(start, end, bundle) ==> bundle in Requests(start, end, batches).0
  }

  /** Requests sent one by one. */
  function OneByOne(n: nat): seq<nat> {
    if n == 0 then [] else [1] + OneByOne(n - 1)
  }

  /** Sent one by one, requests end below the last block. */
  lemma {:induction false} OneByOneStops(start: nat, end: nat, n: nat)
    requires end >= 1 && start + n * BLOCKS_PER_FILE == end - 1
    ensures Requests(start, end, OneByOne(n)).1 && end - 1 !in Requests(start, end, OneByOne(n)).0
    decreases n
  {
    if n > 0 {
      OneByOneStops(start + BLOCKS_PER_FILE, end, n - 1);
      assert OneByOne(n)[1..] == OneByOne(n - 1);
      assert Allowed(start, end, 1) == 1;
      assert Bundles(start, 1) == [start];
    }
  }

  /**
   Whatever room each round has, the requests cover all that is needed, if and only if the range does not end one
   block into a bundle. In particular they do if it ends with a whole file.
   */
  lemma CoverageIff(start: nat, end: nat)
    requires start < end && start % BLOCKS_PER_FILE == 0
    ensures (forall batches :: Requests(start, end, batches).1 ==> AllCovered(start, end, batches))
            <==> end % BLOCKS_PER_FILE != 1
  {
    hide Requests, AllCovered;
    if end % BLOCKS_PER_FILE == 1 {
      MissesLast(start, end);
    } else {
      forall batches | Requests(start, end, batches).1 ensures AllCovered(start, end, batches) {
        MissesNothing(start, end, batches);
      }
    }
  }

  lemma MissesLast(start: nat, end: nat)
    requires start < end && start % BLOCKS_PER_FILE == 0 && end % BLOCKS_PER_FILE == 1
    ensures exists batches :: Requests(start, end, batches).1 && !AllCovered(start, end, batches)
  {
    hide Requests;
    var n := (end - 1 - start) / BLOCKS_PER_FILE;
    OneByOneStops(start, end, n);
    assert IsNeeded(start, end, end - 1);
    assert !AllCovered(start, end, OneByOne(n));
  }

  lemma MissesNothing(start: nat, end: nat, batches: seq<nat>)
    requires start < end && start % BLOCKS_PER_FILE == 0 && end % BLOCKS_PER_FILE != 1 && Requests(start, end, batches).1
    ensures AllCovered(start, end, batches)
  {
    hide Requests;
    forall bundle: nat | IsNeeded(start, end, bundle) ensures bundle in Requests(start, end, batches).0 {
      var k := (bundle - start) / BLOCKS_PER_FILE;
      assert bundle == start + k * BLOCKS_PER_FILE;
      RequestsCover(start, end, batches, k);
    }
  }

  /** Sends the requests of one round, but none that starts above the end. */
  method SendBatch(start: nat, end: nat, batch: nat) returns (sent: seq<nat>)
    ensures sent == Bundles(start, Allowed(start, end, batch))
  {
    sent := [];
    var i := 0;
    while i < batch && start + i * BLOCKS_PER_FILE + BLOCKS_PER_FILE <= end + BLOCKS_PER_FILE
      invariant i <= batch && i <= Allowed(start, end, batch)
      invariant sent == Bundles(start, i)
    {
      sent := sent + [start + i * BLOCKS_PER_FILE];
      i := i + 1;
    }
  }

  lemma RequestsStep(start: nat, end: nat, batches: seq<nat>, round: nat, sent: seq<nat>)
    requires end >= 1 && round < |batches| && start < end - 1
    ensures var batch := batches[round];
            var now, later := Requests(start, end, batches[round..]), Requests(start + BLOCKS_PER_FILE * batch, end, batches[round + 1..]);
            sent + now.0 == sent + Bundles(start, Allowed(start, end, batch)) + later.0 && now.1 == later.1
  {
    assert batches[round..][1..] == batches[round + 1..];
  }

  /** The request loop; `batches` says how many requests each round has room for. */
  method DownloadBundles(cdnStart: nat, cdnEnd: nat, batches: seq<nat>) returns (sent: seq<nat>, finished: bool)
    requires cdnStart < cdnEnd
    ensures (sent, finished) == Requests(cdnStart, cdnEnd, batches)
  {
    hide Bundles, Allowed;
    sent := [];
    var start: nat, round: nat := cdnStart, 0;
    assert batches[0..] == batches;
    while start < cdnEnd - 1 && round < |batches|
      invariant round <= |batches|
      invariant sent + Requests(start, cdnEnd, batches[round..]).0 == Requests(cdnStart, cdnEnd, batches).0
      invariant Requests(start, cdnEnd, batches[round..]).1 == Requests(cdnStart, cdnEnd, batches).1
    {
      RequestsStep(start, cdnEnd, batches, round, sent);
      var now := SendBatch(start, cdnEnd, batches[round]);
      sent := sent + now;
      start := start + BLOCKS_PER_FILE * batches[round];
      round := round + 1;
    }
    finished := start >= cdnEnd - 1;
    assert sent + [] == sent;
  }

  /* The buffer. */

  function Range(from: nat, n: nat): (s: seq<nat>)
    ensures |s| == n && forall k :: 0 <= k < n ==> s[k] == from + k
  {
    if n == 0 then [] else Range(from, n - 1) + [from + n - 1]
  }

  /** A sorted buffer in which the whole bundle of `low` is at the front. */
  lemma {:induction false} FrontIsBundle(heights: seq<nat>, low: nat, n: nat)
    requires Strictly(heights) && heights != [] && heights[0] == low
    requires forall h: nat :: low <= h < low + n ==> h in heights
    ensures n <= |heights| && heights[..n] == Range(low, n)
  {
    if n > 1 {
      FrontIsBundle(heights, low, n - 1);
      assert low + n - 1 in heights;
      var k :| 0 <= k < |heights| && heights[k] == low + n - 1;
      assert heights[n - 2] == low + n - 2;
      assert k >= n - 1;
      assert heights[n - 1] <= heights[k];
      assert heights[..n] == heights[..n - 1] + [heights[n - 1]];
    } else if n == 1 {
      assert heights[..1] == [low];
    }
  }

  class PendingBlocks {
    var heights: seq<nat>
    ghost var bundles: set<nat>

    /** The buffer is sorted and consists of whole bundles. */
    ghost predicate Valid()
      reads this
    {
      Strictly(heights) && forall h: nat :: h in heights <==> h / BLOCKS_PER_FILE in bundles
    }

    constructor ()
      ensures Valid() && heights == [] && bundles == {}
    {
      heights, bundles := [], {};
    }

    /** Finds the place of a height by binary search, and inserts it unless it is there already. */
    method InsertBlock(height: nat)
      requires Strictly(heights)
      modifies this`heights
      ensures Strictly(heights)
      ensures forall h: nat :: h in heights <==> h in old(heights) || h == height
    {
      var low, high := 0, |heights|;
      while low < high
        invariant 0 <= low <= high <= |heights|
        invariant forall k :: 0 <= k < low ==> heights[k] < height
        invariant forall k :: high <= k < |heights| ==> heights[k] > height
      {
        var middle := (low + high) / 2;
        if heights[middle] == height {
          return;
        } else if heights[middle] < height {
          low := middle + 1;
        } else {
          high := middle;
        }
      }
      InsertAt(heights, height, low);
      heights := heights[..low] + [height] + heights[low..];
    }

    /** A downloaded file arrives. */
    method InsertBundle(bundle: nat)
      requires Valid()
      modifies this
      ensures Valid() && bundles == old(bundles) + {bundle}
    {
      var first := bundle * BLOCKS_PER_FILE;
      for i := 0 to BLOCKS_PER_FILE
        invariant Strictly(heights) && bundles == old(bundles)
        invariant forall h: nat :: h in heights <==> h in old(heights) || first <= h < first + i
      {
        InsertBlock(first + i);
      }
      bundles := bundles + {bundle};
      forall h: nat ensures h in heights <==> h / BLOCKS_PER_FILE in bundles {
        InBundle(h, bundle);
      }
    }

    /** Takes out the first file's worth of blocks; there always is that much. */
    method TakeBundle() returns (taken: seq<nat>)
      requires Valid() && heights != []
      modifies this
      ensures Valid()
      ensures var bundle := old(heights)[0] / BLOCKS_PER_FILE;
              && taken == Range(bundle * BLOCKS_PER_FILE, BLOCKS_PER_FILE)
              && bundle in old(bundles) && bundles == old(bundles) - {bundle}
      ensures old(heights) == taken + heights
    {
      ghost var bundle := heights[0] / BLOCKS_PER_FILE;
      FirstIsAligned(heights, bundles);
      FrontIsBundle(heights, heights[0], BLOCKS_PER_FILE);
      taken := heights[..BLOCKS_PER_FILE];
      heights := heights[BLOCKS_PER_FILE..];
      bundles := bundles - {bundle};
      TakenOut(old(heights), old(bundles), bundle);
    }
  }

  lemma InsertAt(heights: seq<nat>, height: nat, at: nat)
    requires Strictly(heights) && at <= |heights|
    requires forall k :: 0 <= k < at ==> heights[k] < height
    requires forall k :: at <= k < |heights| ==> heights[k] > height
    ensures Strictly(heights[..at] + [height] + heights[at..])
    ensures forall h: nat :: h in heights[..at] + [height] + heights[at..] <==> h in heights || h == height
  {
    assert heights == heights[..at] + heights[at..];
  }

  lemma InBundle(h: nat, bundle: nat)
    ensures h / BLOCKS_PER_FILE == bundle <==> bundle * BLOCKS_PER_FILE <= h < bundle * BLOCKS_PER_FILE + BLOCKS_PER_FILE
  {
  }

  /** The lowest height is the first of its bundle, and the rest of the bundle is there. */
  lemma FirstIsAligned(heights: seq<nat>, bundles: set<nat>)
    requires Strictly(heights) && heights != [] && forall h: nat :: h in heights <==> h / BLOCKS_PER_FILE in bundles
    ensures var low := heights[0] / BLOCKS_PER_FILE * BLOCKS_PER_FILE;
            heights[0] == low && forall h: nat :: low <= h < low + BLOCKS_PER_FILE ==> h in heights
  {
    var bundle := heights[0] / BLOCKS_PER_FILE;
    var low := bundle * BLOCKS_PER_FILE;
    assert heights[0] in heights;
    forall h: nat | low <= h < low + BLOCKS_PER_FILE ensures h in heights {
      InBundle(h, bundle);
    }
    assert low in heights;
    var k :| 0 <= k < |heights| && heights[k] == low;
  }

  lemma TakenOut(heights: seq<nat>, bundles: set<nat>, bundle: nat)
    requires Strictly(heights) && |heights| >= BLOCKS_PER_FILE
    requires forall h: nat :: h in heights <==> h / BLOCKS_PER_FILE in bundles
    requires heights[..BLOCKS_PER_FILE] == Range(bundle * BLOCKS_PER_FILE, BLOCKS_PER_FILE)
    ensures Strictly(heights[BLOCKS_PER_FILE..])
    ensures forall h: nat :: h in heights[BLOCKS_PER_FILE..] <==> h / BLOCKS_PER_FILE in bundles - {bundle}
  {
    var front, rest := heights[..BLOCKS_PER_FILE], heights[BLOCKS_PER_FILE..];
    assert heights == front + rest;
    var first := bundle * BLOCKS_PER_FILE;
    assert front[BLOCKS_PER_FILE - 1] == first + BLOCKS_PER_FILE - 1;
    forall k | 0 <= k < |rest| ensures rest[k] >= first + BLOCKS_PER_FILE {
      assert rest[k] == heights[BLOCKS_PER_FILE + k] && heights[BLOCKS_PER_FILE - 1] == front[BLOCKS_PER_FILE - 1];
    }
    forall h: nat ensures h in rest <==> h / BLOCKS_PER_FILE in bundles - {bundle} {
      InBundle(h, bundle);
      if h / BLOCKS_PER_FILE in bundles - {bundle} {
        assert h in heights;
        assert h in front ==> first <= h < first + BLOCKS_PER_FILE;
      }
    }
  }

  /* The consumer. */

  datatype LoadOutcome = Loaded(height: nat) | Rejected | Failed | Waiting

  /** Once the node is told to stop, it stays told. */
  ghost predicate StaysStopped(stop: nat -> bool) {
    forall i: nat, j: nat :: i <= j && stop(i) ==> stop(j)
  }

  /** Files that arrive are requested ones, each once. */
  ghost predicate ArriveOnce(arrivals: seq<nat>, lowest: nat) {
    && (forall k :: 0 <= k < |arrivals| ==> arrivals[k] >= lowest)
    && (forall j, k :: 0 <= j < k < |arrivals| ==> arrivals[j] != arrivals[k])
  }

  /** What has arrived is in the buffer, or has been taken out of it: the bundles from `lowest` up to `next`. */
  ghost predicate Accounts(bundles: set<nat>, arrived: seq<nat>, lowest: nat, next: nat) {
    && (forall b :: b in bundles ==> b >= next && b in arrived)
    && (forall b: nat :: lowest <= b < next ==> b in arrived)
    && (forall b :: b in arrived ==> b in bundles || lowest <= b < next)
  }

  /** The next height to process, when all bundles below `next` have been taken out. */
  function NextHeight(start: nat, end: nat, next: nat): nat {
    if next <= start / BLOCKS_PER_FILE then start
    else if next * BLOCKS_PER_FILE <= end then next * BLOCKS_PER_FILE
    else end
  }

  /** Heights have been processed in order from `start` on, and `height` is the last of them, or the one before `start`. */
  ghost predicate InOrder(start: nat, end: nat, height: nat, processed: seq<nat>) {
    && processed == Range(start, |processed|) && start + |processed| <= end
    && if processed == [] then height == (if start == 0 then 0 else start - 1) else height + 1 == start + |processed|
  }

  lemma OneMore(start: nat, end: nat, height: nat, processed: seq<nat>)
    requires InOrder(start, end, height, processed) && start + |processed| < end
    ensures InOrder(start, end, start + |processed|, processed + [start + |processed|])
  {
  }

  /** No block that was processed is one that the ledger refuses. */
  ghost predicate NoneFails(processed: seq<nat>, fails: nat -> bool) {
    forall k :: 0 <= k < |processed| ==> !fails(processed[k])
  }

  /** Each block was processed after a look at the stop flag of its own, which found it unset. */
  ghost predicate Obeyed(processed: seq<nat>, looks: seq<nat>, stop: nat -> bool, clock: nat) {
    && |looks| == |processed| && Strictly(looks)
    && forall k :: 0 <= k < |looks| ==> looks[k] < clock && !stop(looks[k])
  }

  /** No look but the last `n` has found the flag set. */
  ghost predicate Unset(stop: nat -> bool, clock: nat, n: nat) {
    forall i: nat :: i + n < clock ==> !stop(i)
  }

  lemma StillUnset(stop: nat -> bool, clock: nat)
    requires StaysStopped(stop) && clock > 0 && !stop(clock - 1)
    ensures Unset(stop, clock, 0)
  {
  }

  lemma ObeyedOnce(processed: seq<nat>, block: nat, looks: seq<nat>, stop: nat -> bool, clock: nat)
    requires Obeyed(processed, looks, stop, clock) && !stop(clock)
    ensures Obeyed(processed + [block], looks + [clock], stop, clock + 1)
  {
  }

  lemma NothingYet(stop: nat -> bool, fails: nat -> bool)
    ensures NoneFails([], fails) && Obeyed([], [], stop, 0) && Unset(stop, 0, 0)
  {
  }

  lemma ObeyedLater(processed: seq<nat>, looks: seq<nat>, stop: nat -> bool, clock: nat, later: nat)
    requires Obeyed(processed, looks, stop, clock) && clock <= later
    ensures Obeyed(processed, looks, stop, later)
  {
  }

  /** Feeds the blocks of a bundle that lie in the range to the ledger. `clock` counts the looks at the stop flag. */
  method ProcessBundle(bundle: nat, blocks: seq<nat>, start: nat, end: nat, height: nat, processed: seq<nat>,
                       stop: nat -> bool, clock: nat, fails: nat -> bool, ghost looks: seq<nat>)
    returns (failed: bool, newHeight: nat, newProcessed: seq<nat>, newClock: nat, ghost newLooks: seq<nat>)
    requires InOrder(start, end, height, processed) && start + |processed| < end
    requires NoneFails(processed, fails) && Obeyed(processed, looks, stop, clock) && Unset(stop, clock, 0)
    requires blocks == Range(bundle * BLOCKS_PER_FILE, BLOCKS_PER_FILE)
    requires bundle >= start / BLOCKS_PER_FILE && start + |processed| == NextHeight(start, end, bundle)
    ensures InOrder(start, end, newHeight, newProcessed) && newClock > clock
    ensures NoneFails(newProcessed, fails) && Obeyed(newProcessed, newLooks, stop, newClock) && Unset(stop, newClock, 1)
    ensures failed ==> fails(start + |newProcessed|) && Unset(stop, newClock, 0)
    ensures !failed && !stop(newClock - 1) ==> start + |newProcessed| == NextHeight(start, end, bundle + 1)
  {
    hide InOrder, Obeyed;
    failed, newHeight, newProcessed, newClock, newLooks := false, height, processed, clock, looks;
    var first := bundle * BLOCKS_PER_FILE;
    ghost var low := start + |processed|;
    NextIsInBundle(start, end, bundle);
    for i := 0 to |blocks|
      invariant InOrder(start, end, newHeight, newProcessed)
      invariant start + |newProcessed| == (if first + i <= low then low else if first + i <= end then first + i else end)
      invariant newClock >= clock && (first + i > low ==> newClock > clock)
      invariant NoneFails(newProcessed, fails) && Obeyed(newProcessed, newLooks, stop, newClock) && Unset(stop, newClock, 0)
    {
      var block := blocks[i];
      if !(start <= block < end) {
        continue;
      }
      ObeyedLater(newProcessed, newLooks, stop, newClock, newClock + 1);
      newClock := newClock + 1;
      if stop(newClock - 1) {
        break;
      }
      if fails(block) {
        failed := true;
        return;
      }
      OneMore(start, end, newHeight, newProcessed);
      ObeyedOnce(newProcessed, block, newLooks, stop, newClock - 1);
      newLooks := newLooks + [newClock - 1];
      newHeight := block;
      newProcessed := newProcessed + [block];
    }
  }

  /** The next height to process lies in the next bundle. */
  lemma NextIsInBundle(start: nat, end: nat, bundle: nat)
    requires bundle >= start / BLOCKS_PER_FILE && NextHeight(start, end, bundle) < end
    ensures var first, height := bundle * BLOCKS_PER_FILE, NextHeight(start, end, bundle);
            && first <= height < first + BLOCKS_PER_FILE
            && (first < start ==> height == start) && (first >= start ==> height == first)
            && NextHeight(start, end, bundle + 1) == if first + BLOCKS_PER_FILE <= end then first + BLOCKS_PER_FILE else end
  {
  }

  /** The files that arrive before a round of the consumer. */
  method Arrive(pending: PendingBlocks, arrivals: seq<nat>, from: nat, more: nat, ghost lowest: nat, ghost next: nat)
    requires pending.Valid() && ArriveOnce(arrivals, lowest) && from + more <= |arrivals|
    requires Accounts(pending.bundles, arrivals[..from], lowest, next)
    modifies pending
    ensures pending.Valid() && Accounts(pending.bundles, arrivals[..from + more], lowest, next)
  {
    for i := from to from + more
      invariant pending.Valid() && Accounts(pending.bundles, arrivals[..i], lowest, next)
    {
      NotConsumed(arrivals, lowest, next, i);
      pending.InsertBundle(arrivals[i]);
      assert arrivals[..i + 1] == arrivals[..i] + [arrivals[i]];
    }
  }

  /** A file that has not arrived yet has not been consumed. */
  lemma NotConsumed(arrivals: seq<nat>, lowest: nat, next: nat, from: nat)
    requires ArriveOnce(arrivals, lowest) && from < |arrivals|
    requires forall b: nat :: lowest <= b < next ==> b in arrivals[..from]
    ensures arrivals[from] >= next
  {
    assert arrivals[from] !in arrivals[..from];
  }

  /** If the lowest pending block is not above the next height, it belongs to the next bundle. */
  lemma FirstIsNext(heights: seq<nat>, bundles: set<nat>, start: nat, end: nat, next: nat)
    requires Strictly(heights) && heights != [] && forall h: nat :: h in heights <==> h / BLOCKS_PER_FILE in bundles
    requires forall b :: b in bundles ==> b >= next
    requires next >= start / BLOCKS_PER_FILE && NextHeight(start, end, next) < end
    requires heights[0] <= NextHeight(start, end, next) || (NextHeight(start, end, next) == 0 && heights[0] <= 1)
    ensures heights[0] / BLOCKS_PER_FILE == next
  {
    assert heights[0] in heights;
    NextIsInBundle(start, end, next);
    FirstIsAligned(heights, bundles);
  }

  lemma AtStart(start: nat, end: nat, none: seq<nat>)
    requires start <= end && none == []
    ensures var lowest := start / BLOCKS_PER_FILE; NextHeight(start, end, lowest) == start && Accounts({}, none, lowest, lowest)
    ensures InOrder(start, end, if start == 0 then 0 else start - 1, [])
  {
  }

  lemma BundleTaken(bundles: set<nat>, arrived: seq<nat>, lowest: nat, next: nat)
    requires Accounts(bundles + {next}, arrived, lowest, next) && next !in bundles && lowest <= next
    ensures Accounts(bundles, arrived, lowest, next + 1)
  {
  }

  lemma AccountsNext(bundles: set<nat>, arrived: seq<nat>, lowest: nat, next: nat)
    requires Accounts(bundles, arrived, lowest, next)
    ensures forall b :: b in bundles ==> b >= next
  {
  }

  /**
   The consumer. `rounds[i]` files of `arrivals` come in before the `i`-th round of its loop; when the rounds run out
   it is still waiting. Whatever the order of arrival, the ledger sees consecutive heights from `start` on, up to the first
   that it refuses, and none after the node was told to stop. A height that is returned is the last one processed, or the
   one before `start`; if the node was not told to stop, the whole range was processed. Two empty-handed answers are exceptions: an empty range that begins a file, and block 0 alone.
   */
  method LoadBlocks(start: nat, endHeight: Option<nat>, cdnHeight: nat, arrivals: seq<nat>, rounds: seq<nat>,
                    stop: nat -> bool, fails: nat -> bool)
    returns (processed: seq<nat>, outcome: LoadOutcome, ghost looks: seq<nat>, ghost clock: nat)
    requires StaysStopped(stop) && ArriveOnce(arrivals, start / BLOCKS_PER_FILE)
    ensures processed == Range(start, |processed|)
    ensures NoneFails(processed, fails) && Obeyed(processed, looks, stop, clock)
    ensures Unset(stop, clock, 2) && (!outcome.Loaded? ==> Unset(stop, clock, 0))
    ensures var end := EndOfRange(endHeight, cdnHeight);
            && (outcome.Rejected? <==> end < start)
            && (outcome.Rejected? ==> processed == [])
            && (!outcome.Rejected? ==> start + |processed| <= end)
            && (outcome.Failed? ==> fails(start + |processed|))
            && (start <= end && (exists k: nat :: AllInBy(start, end, arrivals, rounds, k))
                && (forall i: nat :: !stop(i)) ==>
                  outcome.Loaded? || outcome.Failed?)
            && (outcome.Loaded? ==>
                  if start - start % BLOCKS_PER_FILE >= end then outcome.height == end == start && processed == []
                  else InOrder(start, end, outcome.height, processed)
                       && ((forall i: nat :: !stop(i)) ==> start + |processed| == end || (start == 0 && end == 1)))
  {
    hide NoneFails, Obeyed;
    var end := EndOfRange(endHeight, cdnHeight);
    processed, looks, clock := [], [], 0;
    NothingYet(stop, fails);
    if cdnHeight < start || end < start {
      outcome := Rejected;
      return;
    }
    if start - start % BLOCKS_PER_FILE >= end {
      outcome := Loaded(end);
      return;
    }
    processed, outcome, looks, clock := Consume(start, end, arrivals, rounds, stop, fails);
  }

  /** The given end of the range, but no further than the network has blocks. */
  function EndOfRange(endHeight: Option<nat>, cdnHeight: nat): (end: nat)
    ensures end <= cdnHeight && (endHeight.Some? ==> end <= endHeight.value)
    ensures end == cdnHeight || endHeight == Some(end)
  {
    if endHeight.Some? && endHeight.value < cdnHeight then endHeight.value else cdnHeight
  }

  /** How many files have come in once the first `k` rounds have been announced. */
  function ArrivedBy(total: nat, rounds: seq<nat>, k: nat): (n: nat)
    requires k <= |rounds|
    ensures n <= total
  {
    if k == 0 then 0
    else
      var before := ArrivedBy(total, rounds, k - 1);
      if before + rounds[k - 1] <= total then before + rounds[k - 1] else total
  }

  lemma {:induction false} ArrivedGrows(total: nat, rounds: seq<nat>, j: nat, k: nat)
    requires j <= k <= |rounds|
    ensures ArrivedBy(total, rounds, j) <= ArrivedBy(total, rounds, k)
    decreases k
  {
    if j < k {
      ArrivedGrows(total, rounds, j, k - 1);
    }
  }

  /** The number of files that hold blocks of the range. */
  function FilesNeeded(start: nat, end: nat): nat
    requires start <= end
  {
    if start == end then 0 else (end - 1) / BLOCKS_PER_FILE - start / BLOCKS_PER_FILE + 1
  }

  /** All files that hold blocks of the range are among those given. */
  ghost predicate AllThere(start: nat, end: nat, arrived: seq<nat>) {
    forall b: nat :: start / BLOCKS_PER_FILE <= b && b * BLOCKS_PER_FILE < end ==> b in arrived
  }

  /** All needed files are in by round `k`, and from then on there are as many rounds as files. */
  ghost predicate AllInBy(start: nat, end: nat, arrivals: seq<nat>, rounds: seq<nat>, k: nat)
    requires start <= end
  {
    && k < |rounds| && AllThere(start, end, arrivals[..ArrivedBy(|arrivals|, rounds, k + 1)])
    && k + FilesNeeded(start, end) <= |rounds|
  }

  lemma CompleteIsRound(start: nat, end: nat, arrivals: seq<nat>, rounds: seq<nat>, k: nat)
    requires start <= end && AllInBy(start, end, arrivals, rounds, k)
    ensures k < |rounds|
  {
  }

  /** What is there stays there. */
  lemma ThereInLater(start: nat, end: nat, arrivals: seq<nat>, rounds: seq<nat>, k: nat, round: nat)
    requires start <= end && AllInBy(start, end, arrivals, rounds, k) && k <= round < |rounds|
    ensures AllThere(start, end, arrivals[..ArrivedBy(|arrivals|, rounds, round + 1)])
  {
    hide ArrivedBy;
    ArrivedGrows(|arrivals|, rounds, k + 1, round + 1);
    var early, late := ArrivedBy(|arrivals|, rounds, k + 1), ArrivedBy(|arrivals|, rounds, round + 1);
    forall b | b in arrivals[..early] ensures b in arrivals[..late] {
      var j :| 0 <= j < early && arrivals[..early][j] == b;
      assert arrivals[..late][j] == b;
    }
  }

  /** If all files have come in, the next bundle is at the front of the buffer. */
  lemma NextIsHere(start: nat, end: nat, arrived: seq<nat>, bundles: set<nat>, heights: seq<nat>, next: nat)
    requires AllThere(start, end, arrived) && Accounts(bundles, arrived, start / BLOCKS_PER_FILE, next)
    requires Strictly(heights) && forall h: nat :: h in heights <==> h / BLOCKS_PER_FILE in bundles
    requires next >= start / BLOCKS_PER_FILE && NextHeight(start, end, next) < end
    ensures heights != [] && heights[0] <= NextHeight(start, end, next)
  {
    NextIsInBundle(start, end, next);
    assert next in bundles;
    assert next * BLOCKS_PER_FILE in heights;
  }

  /** Once as many bundles have been taken out as are needed, the range is done. */
  lemma RoundsSuffice(start: nat, end: nat, arrivals: seq<nat>, rounds: seq<nat>, k: nat, next: nat)
    requires start <= end && AllInBy(start, end, arrivals, rounds, k)
    requires k <= |rounds| && next >= start / BLOCKS_PER_FILE + (|rounds| - k)
    ensures NextHeight(start, end, next) == end
  {
  }

  /** One round of the consumer, unless it has to wait: takes the next bundle out and feeds it to the ledger. */
  method ConsumeRound(pending: PendingBlocks, start: nat, end: nat, height: nat, processed: seq<nat>,
                      stop: nat -> bool, clock: nat, fails: nat -> bool, ghost arrived: seq<nat>, ghost next: nat,
                      ghost looks: seq<nat>)
    returns (took: bool, failed: bool, newHeight: nat, newProcessed: seq<nat>, newClock: nat, ghost newLooks: seq<nat>)
    requires pending.Valid() && Accounts(pending.bundles, arrived, start / BLOCKS_PER_FILE, next)
    requires InOrder(start, end, height, processed) && next >= start / BLOCKS_PER_FILE
    requires start + |processed| == NextHeight(start, end, next) < end
    requires NoneFails(processed, fails) && Obeyed(processed, looks, stop, clock) && Unset(stop, clock, 0)
    modifies pending
    ensures pending.Valid() && InOrder(start, end, newHeight, newProcessed)
    ensures pending.Valid() && Accounts(pending.bundles, arrived, start / BLOCKS_PER_FILE, if took then next + 1 else next)
    ensures !took ==> !failed && newHeight == height && newProcessed == processed && newClock == clock
    ensures NoneFails(newProcessed, fails) && Obeyed(newProcessed, newLooks, stop, newClock) && Unset(stop, newClock, 1)
    ensures took ==> newClock > clock && (failed ==> fails(start + |newProcessed|) && Unset(stop, newClock, 0))
    ensures took && !failed && !stop(newClock - 1) ==> start + |newProcessed| == NextHeight(start, end, next + 1)
    ensures old(pending.heights != [] && pending.heights[0] <= NextHeight(start, end, next)) ==> took
  {
    hide NextHeight, Accounts, Range, Strictly, Obeyed, NoneFails;
    took, failed, newHeight, newProcessed, newClock, newLooks := false, false, height, processed, clock, looks;
    if pending.heights == [] {
      return;
    }
    if pending.heights[0] > height + 1 {
      return;
    }
    AccountsNext(pending.bundles, arrived, start / BLOCKS_PER_FILE, next);
    FirstIsNext(pending.heights, pending.bundles, start, end, next);
    var bundle := pending.heights[0] / BLOCKS_PER_FILE;
    ghost var before := pending.bundles;
    var blocks := pending.TakeBundle();
    assert pending.bundles + {next} == before;
    BundleTaken(pending.bundles, arrived, start / BLOCKS_PER_FILE, next);
    failed, newHeight, newProcessed, newClock, newLooks :=
      ProcessBundle(bundle, blocks, start, end, height, processed, stop, clock, fails, looks);
    took := true;
  }

  /** The consumer loop. */
  method Consume(start: nat, end: nat, arrivals: seq<nat>, rounds: seq<nat>, stop: nat -> bool, fails: nat -> bool)
    returns (processed: seq<nat>, outcome: LoadOutcome, ghost looks: seq<nat>, ghost clock: nat)
    requires start <= end && 1 <= end && StaysStopped(stop)
    requires ArriveOnce(arrivals, start / BLOCKS_PER_FILE)
    ensures processed == Range(start, |processed|) && start + |processed| <= end && !outcome.Rejected?
    ensures NoneFails(processed, fails) && Obeyed(processed, looks, stop, clock)
    ensures Unset(stop, clock, 2) && (!outcome.Loaded? ==> Unset(stop, clock, 0))
    ensures outcome.Failed? ==> fails(start + |processed|)
    ensures (exists k: nat :: AllInBy(start, end, arrivals, rounds, k)) && (forall i: nat :: !stop(i)) ==> !outcome.Waiting?
    ensures outcome.Loaded? ==> InOrder(start, end, outcome.height, processed)
    ensures outcome.Loaded? && (forall i: nat :: !stop(i)) ==> start + |processed| == end || (start == 0 && end == 1)
  {
    hide ArriveOnce, NextHeight, Accounts, Range, Strictly, AllThere, FilesNeeded, AllInBy, Obeyed, NoneFails, StaysStopped,
         PendingBlocks.Valid;
    ghost var smooth := (exists k: nat :: AllInBy(start, end, arrivals, rounds, k)) && forall i: nat :: !stop(i);
    ghost var complete: nat := 0;
    if smooth {
      complete :| AllInBy(start, end, arrivals, rounds, complete);
    }
    var pending := new PendingBlocks();
    var height: nat := if start == 0 then 0 else start - 1;
    processed, looks := [], [];
    var time: nat, round: nat, arrived: nat := 0, 0, 0;
    clock := 0;
    NothingYet(stop, fails);
    ghost var lowest: nat, next: nat := start / BLOCKS_PER_FILE, start / BLOCKS_PER_FILE;
    AtStart(start, end, arrivals[..0]);
    while height < end - 1
      invariant pending.Valid() && fresh(pending)
      invariant round <= |rounds| && arrived <= |arrivals|
      invariant InOrder(start, end, height, processed)
      invariant Accounts(pending.bundles, arrivals[..arrived], lowest, next) && next >= lowest
      invariant time == clock && NoneFails(processed, fails) && Obeyed(processed, looks, stop, clock) && Unset(stop, clock, 1)
      invariant (clock > 0 && stop(clock - 1)) || start + |processed| == NextHeight(start, end, next)
      invariant arrived == ArrivedBy(|arrivals|, rounds, round)
      invariant smooth && round >= complete ==> next >= lowest + (round - complete)
      decreases |rounds| - round
    {
      ObeyedLater(processed, looks, stop, clock, clock + 1);
      time, clock := time + 1, clock + 1;
      if stop(time - 1) {
        outcome := Loaded(height);
        return;
      }
      StillUnset(stop, clock);
      if round == |rounds| {
        if smooth {
          assert round >= complete by { CompleteIsRound(start, end, arrivals, rounds, complete); }
          RoundsSuffice(start, end, arrivals, rounds, complete, next);
        }
        outcome := Waiting;
        return;
      }
      var more := if arrived + rounds[round] <= |arrivals| then rounds[round] else |arrivals| - arrived;
      Arrive(pending, arrivals, arrived, more, lowest, next);
      if smooth && round >= complete {
        ThereInLater(start, end, arrivals, rounds, complete, round);
        NextIsHere(start, end, arrivals[..arrived + more], pending.bundles, pending.heights, next);
      }
      round, arrived := round + 1, arrived + more;
      var took, failed;
      took, failed, height, processed, time, looks :=
        ConsumeRound(pending, start, end, height, processed, stop, time, fails, arrivals[..arrived], next, looks);
      clock := time;
      if failed {
        outcome := Failed;
        return;
      }
      if took {
        next := next + 1;
      }
    }
    outcome := Loaded(height);
  }
}
