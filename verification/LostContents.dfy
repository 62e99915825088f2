/** A concrete case of what moving fast forward costs: the contents of the live proposal are nowhere to be found. */
module LostContents {
  import opened Types
  import opened Committees
  import opened CertificateGraph
  import opened Storages
  import opened ReadyQueue
  import opened Batches
  import opened PrimaryEvents
  import opened Primaries
  import opened FourMembers

  const ONLY: Entry := (Solution(1, 1), SolutionData(0))

  /** Everything is found valid, and nothing is known elsewhere. */
  const LENIENT := Checks({}, {}, (e: Entry) => true, (e: Entry) => false, (e: Entry) => true, (e: Entry) => None, 0)

  lemma OnlyIsDrained()
    ensures Drain([ONLY], LENIENT, [], 0) == Drained([ONLY], 0, [], false)
    ensures IdsIn([]) == {} && IdsOfEntries([ONLY]) == [ONLY.0]
  {
    var queue := [ONLY];
    assert FateOf(queue[0], LENIENT, [], 0) == Taken(0);
    assert queue[1..] == [] && [] + [ONLY] == [ONLY];
    assert Drain([], LENIENT, [ONLY], 0) == Drained([ONLY], 0, [], false);
  }

  lemma CanStart()
    ensures CanPropose(FIRST_LEADS.committee, map[], PrimaryState(1, None, None, map[]), 0, true, {1, 2})
  {
    hide Stake;
    assert {1, 2} + {0} == {0, 1, 2} && |{0, 1, 2}| == 3;
    Thresholds({0, 1, 2});
  }

  /** A primary proposes a batch with one transmission, and is then moved three rounds ahead. */
  method FastForwardLoses() returns (primary: Primary, header: Certificate)
    ensures fresh(primary) && fresh(primary.storage) && fresh(primary.ready)
    ensures primary.Valid() && header.author == primary.address && header.transmissions == [ONLY.0]
    ensures primary.proposal.None? && !primary.Findable(ONLY.0, {})
  {
    hide Indexed, NonEquivocating, Closed, IndexAgrees, Stake, ReferencesForRound, CanPropose, Drain, IsCertified;
    OnlyIsDrained();
    CanStart();
    NotCertified();
    var storage := new Storage(FIRST_LEADS.committee, 100, 1);
    primary := new Primary(0, storage);
    var added := primary.ready.Insert(ONLY.0, ONLY.1);
    assert primary.ready.queue == [ONLY];
    var outcome := primary.ProposeBatch(true, {1, 2}, {}, LENIENT, 5, false);
    header := outcome.header;
    var ok := primary.FastForward(4, 0, 0, {});
  }

  lemma NotCertified()
    ensures !IsCertified(map[], PrimaryState(1, None, None, map[]), 0, true)
  {
  }
}
