/**
 The de-duplication of a subdag's transmissions in `commit_leader_certificate` (node/bft/src/bft.rs): which of
 them go to consensus. The loop keeps seen-sets of object IDs; the result is characterised without them.
 */
module Transmissions {
  import opened Types

  /** Two transmissions of the same solution, or of the same transaction, under whatever checksums. */
  predicate SameObject(a: TransmissionId, b: TransmissionId) {
    || (a.Solution? && b.Solution? && a.id == b.id)
    || (a.Transaction? && b.Transaction? && a.id == b.id)
  }

  /** The transmission at `k` is new to the ledger, and no earlier one of the same object is. */
  ghost predicate IsKept(ids: seq<TransmissionId>, inLedger: set<TransmissionId>, k: nat)
    requires k < |ids|
  {
    ids[k] !in inLedger && forall j :: 0 <= j < k && SameObject(ids[j], ids[k]) ==> ids[j] in inLedger
  }

  /** The kept transmissions in order. */
  ghost function Extracted(ids: seq<TransmissionId>, inLedger: set<TransmissionId>): seq<TransmissionId> {
    if ids == [] then []
    else
      var n := |ids| - 1;
      Extracted(ids[..n], inLedger) + if IsKept(ids, inLedger, n) then [ids[n]] else []
  }

  ghost predicate Extractable(ids: seq<TransmissionId>, inLedger: set<TransmissionId>, stored: set<TransmissionId>) {
    && Ratification !in ids
    && forall k :: 0 <= k < |ids| && IsKept(ids, inLedger, k) ==> ids[k] in stored
  }

  ghost function AllTransmissions(cs: seq<Certificate>): seq<TransmissionId> {
    if cs == [] then [] else AllTransmissions(cs[..|cs| - 1]) + cs[|cs| - 1].transmissions
  }

  lemma KeptInPrefix(ids: seq<TransmissionId>, inLedger: set<TransmissionId>, n: nat, k: nat)
    requires k < n <= |ids|
    ensures IsKept(ids[..n], inLedger, k) <==> IsKept(ids, inLedger, k)
  {
    assert forall j :: 0 <= j <= k ==> ids[..n][j] == ids[j];
  }

  /** Ascending positions at which the kept transmissions are found. */
  ghost predicate Locates(ids: seq<TransmissionId>, inLedger: set<TransmissionId>, kept: seq<TransmissionId>, positions: seq<nat>) {
    && |positions| == |kept|
    && (forall k :: 0 <= k < |kept| ==>
          positions[k] < |ids| && ids[positions[k]] == kept[k] && IsKept(ids, inLedger, positions[k]))
    && (forall j, k :: 0 <= j < k < |positions| ==> positions[j] < positions[k])
  }

  /** The extracted transmissions keep the order in which they first occur. */
  lemma {:induction false} ExtractedInOrder(ids: seq<TransmissionId>, inLedger: set<TransmissionId>)
    returns (positions: seq<nat>)
    ensures Locates(ids, inLedger, Extracted(ids, inLedger), positions)
  {
    hide IsKept;
    positions := [];
    if ids != [] {
      var n := |ids| - 1;
      positions := ExtractedInOrder(ids[..n], inLedger);
      forall k | 0 <= k < |positions| ensures IsKept(ids, inLedger, positions[k]) {
        KeptInPrefix(ids, inLedger, n, positions[k]);
      }
      if IsKept(ids, inLedger, n) {
        positions := positions + [n];
      }
    }
  }

  lemma {:induction false} KeptIsExtracted(ids: seq<TransmissionId>, inLedger: set<TransmissionId>, k: nat)
    requires k < |ids| && IsKept(ids, inLedger, k)
    ensures ids[k] in Extracted(ids, inLedger)
    decreases |ids|
  {
    hide IsKept;
    var n := |ids| - 1;
    if k < n {
      KeptInPrefix(ids, inLedger, n, k);
      KeptIsExtracted(ids[..n], inLedger, k);
    }
  }

  /** No object goes to consensus twice, and nothing that the ledger has goes at all. */
  lemma ExtractedDistinct(ids: seq<TransmissionId>, inLedger: set<TransmissionId>)
    ensures var kept := Extracted(ids, inLedger);
            && (forall k :: 0 <= k < |kept| ==> kept[k] in ids && kept[k] !in inLedger)
            && (forall j, k :: 0 <= j < k < |kept| ==> !SameObject(kept[j], kept[k]))
  {
    hide Extracted;
    var positions := ExtractedInOrder(ids, inLedger);
    var kept := Extracted(ids, inLedger);
    forall j, k | 0 <= j < k < |kept| ensures !SameObject(kept[j], kept[k]) {
      assert IsKept(ids, inLedger, positions[j]) && IsKept(ids, inLedger, positions[k]);
    }
  }

  /** A transmission is missing only if the ledger has it or an earlier one of the same object was kept. */
  lemma {:induction false} ExtractedComplete(ids: seq<TransmissionId>, inLedger: set<TransmissionId>, k: nat)
    requires k < |ids| && ids[k] !in inLedger && ids[k] != Ratification
    ensures ids[k] in Extracted(ids, inLedger) ||
            exists j :: 0 <= j < k && SameObject(ids[j], ids[k]) && ids[j] in Extracted(ids, inLedger)
    decreases k
  {
    if IsKept(ids, inLedger, k) {
      KeptIsExtracted(ids, inLedger, k);
    } else {
      var j :| 0 <= j < k && SameObject(ids[j], ids[k]) && ids[j] !in inLedger;
      ExtractedComplete(ids, inLedger, j);
      if ids[j] !in Extracted(ids, inLedger) {
        var i :| 0 <= i < j && SameObject(ids[i], ids[j]) && ids[i] in Extracted(ids, inLedger);
        assert SameObject(ids[i], ids[k]);
      }
    }
  }

  datatype ExtractError = UnsupportedRatification | MissingTransmission(id: TransmissionId)

  /** What the seen-sets of the loop stand for. */
  ghost predicate Seen(kept: seq<TransmissionId>, solutions: set<nat>, transactions: set<nat>) {
    && (forall x :: x in solutions <==> exists t :: t in kept && t.Solution? && t.id == x)
    && (forall x :: x in transactions <==> exists t :: t in kept && t.Transaction? && t.id == x)
  }

  /** A transmission is one the loop passes over just when its object was seen or the ledger has it. */
  lemma SeenDecides(ids: seq<TransmissionId>, inLedger: set<TransmissionId>, solutions: set<nat>, transactions: set<nat>)
    requires ids != []
    requires Seen(Extracted(ids[..|ids| - 1], inLedger), solutions, transactions)
    ensures var id := ids[|ids| - 1];
            id != Ratification ==>
              (IsKept(ids, inLedger, |ids| - 1) <==>
               id !in inLedger && !(id.Solution? && id.id in solutions) && !(id.Transaction? && id.id in transactions))
  {
    var n := |ids| - 1;
    var before, id := ids[..n], ids[n];
    var kept := Extracted(before, inLedger);
    if id != Ratification && id !in inLedger {
      ExtractedDistinct(before, inLedger);
      var positions := ExtractedInOrder(before, inLedger);
      if IsKept(ids, inLedger, n) {
        forall t | t in kept ensures !SameObject(t, id) {
          var k :| 0 <= k < |kept| && kept[k] == t;
          var j := positions[k];
          assert ids[j] == before[j] == t && t !in inLedger;
        }
      } else {
        var j :| 0 <= j < n && SameObject(ids[j], id) && ids[j] !in inLedger;
        ExtractedComplete(before, inLedger, j);
        var t :| t in kept && SameObject(t, id);
      }
    }
  }

  /** The loop's further test, whether the transmission is itself among the kept, is implied by the seen-sets. */
  lemma KeyTestImplied(kept: seq<TransmissionId>, solutions: set<nat>, transactions: set<nat>, id: TransmissionId)
    requires Seen(kept, solutions, transactions) && id in kept && id != Ratification
    ensures if id.Solution? then id.id in solutions else id.id in transactions
  {
  }

  lemma SeenGrows(kept: seq<TransmissionId>, id: TransmissionId, solutions: set<nat>, transactions: set<nat>)
    requires Seen(kept, solutions, transactions) && id != Ratification
    ensures Seen(kept + [id],
                 if id.Solution? then solutions + {id.id} else solutions,
                 if id.Transaction? then transactions + {id.id} else transactions)
  {
    assert id in kept + [id];
    forall t | t in kept ensures t in kept + [id] {
    }
  }

  lemma ExtractedStep(ids: seq<TransmissionId>, id: TransmissionId, inLedger: set<TransmissionId>)
    ensures Extracted(ids + [id], inLedger)
            == Extracted(ids, inLedger) + if IsKept(ids + [id], inLedger, |ids|) then [id] else []
  {
    assert (ids + [id])[..|ids|] == ids;
  }

  lemma ExtractableStep(ids: seq<TransmissionId>, id: TransmissionId, inLedger: set<TransmissionId>, stored: set<TransmissionId>)
    requires Extractable(ids, inLedger, stored)
    ensures Extractable(ids + [id], inLedger, stored) <==>
            id != Ratification && (IsKept(ids + [id], inLedger, |ids|) ==> id in stored)
  {
    var more := ids + [id];
    forall k: nat | k < |ids| ensures IsKept(more, inLedger, k) <==> IsKept(ids, inLedger, k) {
      assert forall j :: 0 <= j <= k ==> more[j] == ids[j];
    }
    assert more[|ids|] == id;
  }

  /** A longer list is no easier to extract. */
  lemma ExtractablePrefix(ids: seq<TransmissionId>, more: seq<TransmissionId>, inLedger: set<TransmissionId>, stored: set<TransmissionId>)
    requires ids <= more && Extractable(more, inLedger, stored)
    ensures Extractable(ids, inLedger, stored)
  {
    forall k: nat | k < |ids| && IsKept(ids, inLedger, k) ensures ids[k] in stored {
      assert IsKept(more, inLedger, k);
    }
  }

  lemma {:induction false} AllTransmissionsPrefix(cs: seq<Certificate>, i: nat, j: nat)
    requires i < |cs| && j < |cs[i].transmissions|
    ensures AllTransmissions(cs[..i]) + cs[i].transmissions[..j] + [cs[i].transmissions[j]] <= AllTransmissions(cs)
    decreases |cs|
  {
    var n := |cs| - 1;
    if i < n {
      AllTransmissionsPrefix(cs[..n], i, j);
      assert cs[..n][..i] == cs[..i];
    } else {
      assert cs[i].transmissions[..j] + [cs[i].transmissions[j]] <= cs[i].transmissions;
    }
  }

  /**
   The extraction loop. `inLedger` are the transmissions that the ledger has or fails to look up, `stored`
   those that the storage still holds.
   */
  method ExtractTransmissions(cs: seq<Certificate>, inLedger: set<TransmissionId>, stored: set<TransmissionId>)
    returns (r: Result<seq<TransmissionId>, ExtractError>)
    ensures r.Ok? <==> Extractable(AllTransmissions(cs), inLedger, stored)
    ensures r.Ok? ==> r.value == Extracted(AllTransmissions(cs), inLedger)
  {
    hide IsKept, Extracted, Extractable, Seen;
    var kept: seq<TransmissionId> := [];
    var solutions: set<nat>, transactions: set<nat> := {}, {};
    ghost var ids: seq<TransmissionId> := [];
    Initially(inLedger, stored);
    for i := 0 to |cs|
      invariant ids == AllTransmissions(cs[..i])
      invariant kept == Extracted(ids, inLedger) && Extractable(ids, inLedger, stored)
      invariant Seen(kept, solutions, transactions)
    {
      var c := cs[i];
      for j := 0 to |c.transmissions|
        invariant ids == AllTransmissions(cs[..i]) + c.transmissions[..j]
        invariant kept == Extracted(ids, inLedger) && Extractable(ids, inLedger, stored)
        invariant Seen(kept, solutions, transactions)
      {
        var id := c.transmissions[j];
        ghost var more := ids + [id];
        AllTransmissionsPrefix(cs, i, j);
        assert more[..|more| - 1] == ids;
        ExtractedStep(ids, id, inLedger);
        ExtractableStep(ids, id, inLedger, stored);
        SeenDecides(more, inLedger, solutions, transactions);
        var seen := (id.Solution? && id.id in solutions) || (id.Transaction? && id.id in transactions);
        if !seen {
          if id.Ratification? {
            NotExtractable(more, AllTransmissions(cs), inLedger, stored);
            return Err(UnsupportedRatification);
          }
          if id in kept {
            KeyTestImplied(kept, solutions, transactions, id);
          }
          if id !in kept && id !in inLedger {
            if id !in stored {
              NotExtractable(more, AllTransmissions(cs), inLedger, stored);
              return Err(MissingTransmission(id));
            }
            SeenGrows(kept, id, solutions, transactions);
            if id.Solution? {
              solutions := solutions + {id.id};
            } else {
              transactions := transactions + {id.id};
            }
            kept := kept + [id];
          }
        }
        ids := more;
      }
      assert c.transmissions[..|c.transmissions|] == c.transmissions;
      assert cs[..i + 1][..i] == cs[..i];
    }
    assert cs[..|cs|] == cs;
    r := Ok(kept);
  }

  lemma NotExtractable(ids: seq<TransmissionId>, more: seq<TransmissionId>, inLedger: set<TransmissionId>, stored: set<TransmissionId>)
    requires ids <= more && !Extractable(ids, inLedger, stored)
    ensures !Extractable(more, inLedger, stored)
  {
    if Extractable(more, inLedger, stored) {
      ExtractablePrefix(ids, more, inLedger, stored);
    }
  }

  lemma Initially(inLedger: set<TransmissionId>, stored: set<TransmissionId>)
    ensures Extracted([], inLedger) == [] && Extractable([], inLedger, stored) && Seen([], {}, {})
  {
  }
}
