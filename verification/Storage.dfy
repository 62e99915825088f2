/**
 The certificate storage (node/bft/src/helpers/storage.rs): certificates by ID, an index of IDs and authors by
 round, and the round up to which garbage has been collected. Insertion checks what a certificate references, so
 that the storage stays closed under references above the collected rounds.
 */
module Storages {
  import opened Types
  import opened Committees
  import opened CertificateGraph

  type Index = map<nat, set<(CertificateId, Address)>>

  function SaturatingSub(a: nat, b: nat): nat {
    if a < b then 0 else a - b
  }

  function KeptAbove(certificates: Universe, gcRound: nat): Universe {
    map i | i in certificates && certificates[i].round > gcRound :: certificates[i]
  }

  /** The index lists exactly the stored certificates, under their rounds and authors, and no round is kept empty. */
  ghost predicate Indexed(rounds: Index, certificates: Universe) {
    && Keyed(certificates)
    && (forall r, i, a :: r in rounds && (i, a) in rounds[r] ==>
          i in certificates && certificates[i].round == r && certificates[i].author == a)
    && (forall i :: i in certificates ==>
          certificates[i].round in rounds && (i, certificates[i].author) in rounds[certificates[i].round])
    && (forall r :: r in rounds ==> rounds[r] != {})
  }

  /** What the header check demands of the references of a certificate. */
  ghost predicate ReferencesHold(committee: nat -> Committee, certificates: Universe, c: Certificate) {
    && c.round >= 1
    && ReferencesFit(certificates, c.previous, c.round - 1)
    && |c.previous| <= |committee(c.round - 1).members|
    && committee(c.round - 1).IsQuorum(Authors(certificates, c.previous))
  }

  /** All are stored, of the given round, and of different authors. */
  ghost predicate ReferencesFit(certificates: Universe, ids: seq<CertificateId>, round: nat) {
    && (forall i :: i in ids ==> i in certificates && certificates[i].round == round)
    && AuthorsDiffer(certificates, ids)
  }

  ghost predicate AuthorsDiffer(certificates: Universe, ids: seq<CertificateId>) {
    forall j, k :: 0 <= j < k < |ids| && ids[j] in certificates && ids[k] in certificates ==>
      certificates[ids[j]].author != certificates[ids[k]].author
  }

  /** The references of every stored certificate two or more rounds above the collected ones hold. */
  ghost predicate Closed(committee: nat -> Committee, certificates: Universe, gcRound: nat) {
    forall i :: i in certificates && certificates[i].round > gcRound + 1 ==>
      ReferencesHold(committee, certificates, certificates[i])
  }

  /** Only the stored certificates of the round before matter to the references of a certificate. */
  lemma ReferencesDepend(committee: nat -> Committee, before: Universe, after: Universe, c: Certificate)
    requires ReferencesHold(committee, before, c)
    requires forall i :: i in before && before[i].round + 1 == c.round ==> i in after && after[i] == before[i]
    ensures ReferencesHold(committee, after, c)
  {
    assert Authors(after, c.previous) == Authors(before, c.previous);
  }

  lemma InsertKeepsClosed(committee: nat -> Committee, certificates: Universe, gcRound: nat, c: Certificate)
    requires Closed(committee, certificates, gcRound) && c.id !in certificates
    requires c.round > gcRound + 1 ==> ReferencesHold(committee, certificates, c)
    ensures Closed(committee, certificates[c.id := c], gcRound)
  {
    hide ReferencesHold;
    var after := certificates[c.id := c];
    forall i | i in after && after[i].round > gcRound + 1 ensures ReferencesHold(committee, after, after[i]) {
      ReferencesDepend(committee, certificates, after, after[i]);
    }
  }

  lemma CollectKeepsClosed(committee: nat -> Committee, certificates: Universe, gcRound: nat, next: nat)
    requires Closed(committee, certificates, gcRound) && gcRound <= next
    ensures Closed(committee, KeptAbove(certificates, next), next)
  {
    hide ReferencesHold;
    var after := KeptAbove(certificates, next);
    forall i | i in after && after[i].round > next + 1 ensures ReferencesHold(committee, after, after[i]) {
      ReferencesDepend(committee, certificates, after, after[i]);
    }
  }

  /**
   The references of a header go unchecked, so that any would do, just when the round before it has been collected. Of
   the headers above the collected rounds that is those of one round.
   */
  lemma UncheckedIff(committee: nat -> Committee, certificates: Universe, gcRound: nat, h: Certificate)
    ensures (forall ids :: h.round > gcRound + 1 ==> ReferencesHold(committee, certificates, h.(previous := ids)))
            <==> h.round <= gcRound + 1
    ensures h.round > gcRound ==>
              ((forall ids :: h.round > gcRound + 1 ==> ReferencesHold(committee, certificates, h.(previous := ids)))
               <==> h.round == gcRound + 1)
  {
    NoneIsTooFew(committee, certificates, h.(previous := []));
  }

  lemma NoneIsTooFew(committee: nat -> Committee, certificates: Universe, h: Certificate)
    requires h.previous == []
    ensures !ReferencesHold(committee, certificates, h)
  {
    assert Authors(certificates, h.previous) == {};
  }

  /** Why a certificate is refused. */
  datatype StorageError =
    | CollectedRound
    | AlreadyStored
    | SlotTaken
    | AuthorNotInCommittee
    | NotAdmissible
    | NoPreviousRound
    | TooManyReferences
    | MissingReference(id: CertificateId)
    | WrongReferenceRound(id: CertificateId)
    | RepeatedReferenceAuthor(author: Address)
    | ReferencesBelowQuorum
    | SignerNotInCommittee(signer: Address)
    | SignersBelowQuorum
    | DecreasingCollection

  /** The checks on a certificate's signers: committee members that reach a quorum together with the author. */
  ghost predicate SignersHold(committee: Committee, author: Address, endorsers: set<Address>) {
    && endorsers <= committee.members.Keys
    && committee.IsQuorum(endorsers + {author})
  }

  class Storage {
    const committee: nat -> Committee
    const maxGcRounds: nat
    var currentRound: nat
    var gcRound: nat
    var rounds: Index
    var certificates: Universe

    ghost predicate Valid()
      reads this
    {
      && Indexed(rounds, certificates)
      && NonEquivocating(certificates)
      && Closed(committee, certificates, gcRound)
      && (forall i :: i in certificates ==> certificates[i].round > gcRound)
      && currentRound >= 1
    }

    /** Storage starts at the round in which the current committee began, with nothing to collect. */
    constructor (committee: nat -> Committee, maxGcRounds: nat, startingRound: nat)
      ensures Valid() && certificates == map[]
      ensures this.committee == committee && this.maxGcRounds == maxGcRounds
      ensures gcRound == SaturatingSub(currentRound, maxGcRounds)
      ensures currentRound == if startingRound == 0 then 1 else startingRound
    {
      this.committee, this.maxGcRounds := committee, maxGcRounds;
      currentRound := if startingRound == 0 then 1 else startingRound;
      rounds, certificates := map[], map[];
      gcRound := SaturatingSub(if startingRound == 0 then 1 else startingRound, maxGcRounds);
    }

    method ContainsInRoundFrom(round: nat, author: Address) returns (found: bool)
      requires Valid()
      ensures found <==> exists i :: i in certificates && certificates[i].round == round && certificates[i].author == author
    {
      found := round in rounds && exists e :: e in rounds[round] && e.1 == author;
      if found {
        var e :| e in rounds[round] && e.1 == author;
        assert (e.0, e.1) in rounds[round];
        assert e.0 in certificates;
      }
    }

    /** Loops over the references, collecting their authors. */
    method AuthorsOfReferences(ids: seq<CertificateId>, round: nat) returns (r: Result<set<Address>, StorageError>)
      ensures r.Ok? <==> ReferencesFit(certificates, ids, round)
      ensures r.Ok? ==> r.value == Authors(certificates, ids)
      ensures r.Err? ==> r.error.MissingReference? || r.error.WrongReferenceRound? || r.error.RepeatedReferenceAuthor?
    {
      hide Authors;
      var authors: set<Address> := {};
      assert Authors(certificates, ids[..0]) == {} by { NoAuthors(certificates, ids[..0]); }
      for k := 0 to |ids|
        invariant forall j :: 0 <= j < k ==> ids[j] in certificates && certificates[ids[j]].round == round
        invariant authors == Authors(certificates, ids[..k])
        invariant AuthorsDiffer(certificates, ids[..k])
      {
        var id := ids[k];
        if id !in certificates {
          return Err(MissingReference(id));
        }
        if certificates[id].round != round {
          return Err(WrongReferenceRound(id));
        }
        AuthorsExtend(certificates, ids, k);
        if certificates[id].author in authors {
          return Err(RepeatedReferenceAuthor(certificates[id].author));
        }
        authors := authors + {certificates[id].author};
      }
      assert ids[..|ids|] == ids;
      r := Ok(authors);
    }

    /** Checks the references of a header, unless they are of a collected round. */
    method CheckReferences(c: Certificate) returns (r: Result<(), StorageError>)
      requires Valid()
      ensures r.Ok? <==> (c.round > gcRound + 1 ==> ReferencesHold(committee, certificates, c))
      ensures r == Err(NoPreviousRound) <==>
              c.round > gcRound + 1 && forall i :: i in certificates ==> certificates[i].round + 1 != c.round
      ensures r.Err? ==> !r.error.CollectedRound? && !r.error.AlreadyStored?
    {
      hide Indexed, NonEquivocating, Closed, Authors, ReferencesFit;
      var previousRound := if c.round == 0 then 0 else c.round - 1;
      if previousRound <= gcRound {
        return Ok(());
      }
      RoundIsKnownIff(rounds, certificates, previousRound);
      if previousRound !in rounds {
        NoReferences(committee, rounds, certificates, c);
        return Err(NoPreviousRound);
      }
      if |c.previous| > |committee(previousRound).members| {
        return Err(TooManyReferences);
      }
      var authors := AuthorsOfReferences(c.previous, previousRound);
      if authors.Err? {
        return Err(authors.error);
      }
      var reached := IsQuorumThresholdReached(committee(previousRound), authors.value);
      if !reached {
        return Err(ReferencesBelowQuorum);
      }
      r := Ok(());
    }

    /** `Ok(false)` says that the batch is stored already. `admissible` is the outcome of the checks on time and contents. */
    method CheckBatchHeader(c: Certificate, admissible: bool) returns (r: Result<bool, StorageError>)
      requires Valid()
      ensures r.Ok? && !r.value <==> c.id in certificates
      ensures r.Ok? && r.value <==>
              && c.id !in certificates && c.author in committee(c.round).members && admissible
              && (c.round > gcRound + 1 ==> ReferencesHold(committee, certificates, c))
      ensures r.Err? ==> !r.error.CollectedRound? && !r.error.AlreadyStored?
    {
      if c.id in certificates {
        return Ok(false);
      }
      if c.author !in committee(c.round).members {
        return Err(AuthorNotInCommittee);
      }
      if !admissible {
        return Err(NotAdmissible);
      }
      var references := CheckReferences(c);
      r := if references.Ok? then Ok(true) else Err(references.error);
    }

    /** The check of a certificate that a peer sends: only its signers. */
    method CheckIncomingCertificate(c: Certificate, endorsers: set<Address>) returns (r: Result<(), StorageError>)
      ensures r.Ok? <==> SignersHold(committee(c.round), c.author, endorsers) && c.author in committee(c.round).members
      ensures r.Ok? <==> committee(c.round).IsQuorum(endorsers + {c.author})
                         && forall s :: s in endorsers + {c.author} ==> s in committee(c.round).members
    {
      var signers := endorsers + {c.author};
      var reached := IsQuorumThresholdReached(committee(c.round), signers);
      if !reached {
        return Err(SignersBelowQuorum);
      }
      if exists s :: s in signers && s !in committee(c.round).members {
        var s :| s in signers && s !in committee(c.round).members;
        return Err(SignerNotInCommittee(s));
      }
      assert forall s :: s in signers ==> s in committee(c.round).members;
      r := Ok(());
    }

    /** Everything that stands between a certificate and its insertion. */
    ghost predicate Accepts(c: Certificate, endorsers: set<Address>, admissible: bool)
      reads this
    {
      && c.round > gcRound
      && c.id !in certificates
      && (forall i :: i in certificates ==> !(certificates[i].round == c.round && certificates[i].author == c.author))
      && c.author in committee(c.round).members && admissible
      && (c.round > gcRound + 1 ==> ReferencesHold(committee, certificates, c))
      && SignersHold(committee(c.round), c.author, endorsers)
    }

    method CheckCertificate(c: Certificate, endorsers: set<Address>, admissible: bool) returns (r: Result<(), StorageError>)
      requires Valid() && c.round > gcRound
      ensures r.Ok? <==> Accepts(c, endorsers, admissible)
      ensures r == Err(AlreadyStored) <==> c.id in certificates
      ensures r.Ok? ==> forall s :: s in endorsers + {c.author} ==> s in committee(c.round).members
      ensures r.Err? ==> !r.error.CollectedRound?
    {
      hide Indexed, NonEquivocating, Closed, ReferencesHold;
      if c.id in certificates {
        return Err(AlreadyStored);
      }
      var taken := ContainsInRoundFrom(c.round, c.author);
      if taken {
        return Err(SlotTaken);
      }
      var header := CheckBatchHeader(c, admissible);
      if header.Err? {
        return Err(header.error);
      }
      if !header.value {
        return Err(AlreadyStored);
      }
      if exists s :: s in endorsers && s !in committee(c.round).members {
        var s :| s in endorsers && s !in committee(c.round).members;
        return Err(SignerNotInCommittee(s));
      }
      assert endorsers <= committee(c.round).members.Keys;
      var reached := IsQuorumThresholdReached(committee(c.round), endorsers + {c.author});
      if !reached {
        return Err(SignersBelowQuorum);
      }
      r := Ok(());
    }

    method InsertCertificate(c: Certificate, endorsers: set<Address>, admissible: bool) returns (r: Result<(), StorageError>)
      requires Valid()
      modifies this`rounds, this`certificates
      ensures Valid()
      ensures r.Ok? <==> old(Accepts(c, endorsers, admissible))
      ensures r == Err(CollectedRound) <==> c.round <= gcRound
      ensures certificates == if r.Ok? then old(certificates)[c.id := c] else old(certificates)
    {
      hide ReferencesHold, SignersHold;
      if c.round <= gcRound {
        return Err(CollectedRound);
      }
      r := CheckCertificate(c, endorsers, admissible);
      if r.Ok? {
        InsertKeepsClosed(committee, certificates, gcRound, c);
        InsertKeepsIndexed(rounds, certificates, c);
        InsertKeepsSlots(certificates, c);
        rounds := rounds[c.round := EntriesAt(rounds, c.round) + {(c.id, c.author)}];
        certificates := certificates[c.id := c];
      }
    }

    /** Removes one certificate; the index forgets a round left empty. */
    method RemoveCertificate(id: CertificateId) returns (removed: bool)
      requires Indexed(rounds, certificates)
      modifies this`rounds, this`certificates
      ensures Indexed(rounds, certificates)
      ensures removed <==> id in old(certificates)
      ensures certificates == old(certificates) - {id}
    {
      if id !in certificates {
        return false;
      }
      var c := certificates[id];
      var entries := rounds[c.round] - {(id, c.author)};
      RemoveKeepsIndexed(rounds, certificates, id);
      rounds := if entries == {} then rounds - {c.round} else rounds[c.round := entries];
      certificates := certificates - {id};
      removed := true;
    }

    /** Removes the certificates of one round, one by one. */
    method CollectRound(round: nat)
      requires Indexed(rounds, certificates)
      modifies this`rounds, this`certificates
      ensures Indexed(rounds, certificates)
      ensures certificates == map i | i in old(certificates) && old(certificates)[i].round != round :: old(certificates)[i]
    {
      hide Indexed;
      var ids := set e | e in EntriesAt(rounds, round) :: e.0;
      EntriesOfRound(rounds, certificates, round);
      var rest := ids;
      while rest != {}
        invariant Indexed(rounds, certificates)
        invariant rest <= ids
        invariant certificates == map i | i in old(certificates) && i !in ids - rest :: old(certificates)[i]
        decreases rest
      {
        var id :| id in rest;
        var removed := RemoveCertificate(id);
        rest := rest - {id};
      }
    }

    /** Collects the rounds at or below `nextRound - maxGcRounds`, round by round. */
    method GarbageCollect(nextRound: nat) returns (r: Result<(), StorageError>)
      requires Valid()
      modifies this`rounds, this`certificates, this`gcRound
      ensures Valid()
      ensures r.Ok? <==> SaturatingSub(nextRound, maxGcRounds) >= old(gcRound)
      ensures r.Ok? ==> gcRound == SaturatingSub(nextRound, maxGcRounds)
      ensures r.Err? ==> gcRound == old(gcRound)
      ensures certificates == KeptAbove(old(certificates), gcRound)
    {
      hide NonEquivocating, Closed, Indexed;
      var nextGcRound := SaturatingSub(nextRound, maxGcRounds);
      if nextGcRound > gcRound {
        ghost var was := certificates;
        var first := gcRound;
        gcRound := nextGcRound;
        for round := first to nextGcRound + 1
          invariant gcRound == nextGcRound
          invariant Indexed(rounds, certificates)
          invariant certificates == map i | i in was && was[i].round >= round :: was[i]
        {
          CollectRound(round);
        }
        assert certificates == KeptAbove(was, gcRound);
        CollectKeepsClosed(committee, was, first, gcRound);
        SubsetKeepsSlots(was, certificates);
      } else if nextGcRound < gcRound {
        assert certificates == KeptAbove(certificates, gcRound);
        return Err(DecreasingCollection);
      }
      assert certificates == KeptAbove(certificates, gcRound);
      r := Ok(());
    }

    /** Raises the round to that of a block. */
    method SyncRoundWithBlock(blockRound: nat)
      requires currentRound >= 1
      modifies this`currentRound
      ensures currentRound == if blockRound > old(currentRound) then blockRound else old(currentRound)
    {
      var next := if blockRound == 0 then 1 else blockRound;
      if next > currentRound {
        currentRound := next;
      }
    }

    /**
     Moves to the next round, or, when the committee started later than that, to the latest block's round. The
     round never goes back.
     */
    method IncrementToNextRound(round: nat, startingRound: nat, latestBlockRound: nat) returns (r: Result<nat, ()>)
      requires currentRound >= 1
      modifies this`currentRound
      ensures currentRound >= old(currentRound)
      ensures r.Ok? ==> r.value == if round + 1 < old(currentRound) then old(currentRound)
                                   else if round + 1 < startingRound then latestBlockRound else round + 1
      ensures currentRound == if round + 1 < old(currentRound) then old(currentRound)
                              else if round + 1 >= startingRound then round + 1
                              else if latestBlockRound > old(currentRound) then latestBlockRound else old(currentRound)
      ensures r.Err? <==> old(currentRound) <= round + 1 && startingRound <= round + 1 < gcRound
    {
      var next := round + 1;
      if next < currentRound {
        return Ok(currentRound);
      }
      if next < startingRound {
        SyncRoundWithBlock(latestBlockRound);
        return Ok(latestBlockRound);
      }
      currentRound := next;
      if next < gcRound {
        return Err(());
      }
      r := Ok(next);
    }

    /** The stored certificates of a round. */
    function CertificatesForRound(round: nat): set<Certificate>
      reads this
    {
      set i | i in certificates && certificates[i].round == round :: certificates[i]
    }
  }

  function EntriesAt(rounds: Index, round: nat): set<(CertificateId, Address)> {
    if round in rounds then rounds[round] else {}
  }

  lemma EntriesOfRound(rounds: Index, certificates: Universe, round: nat)
    requires Indexed(rounds, certificates)
    ensures (set e | e in EntriesAt(rounds, round) :: e.0)
            == set i | i in certificates && certificates[i].round == round
  {
    forall i | i in certificates && certificates[i].round == round
      ensures i in set e | e in EntriesAt(rounds, round) :: e.0
    {
      assert (i, certificates[i].author) in EntriesAt(rounds, round);
    }
    forall e | e in EntriesAt(rounds, round) ensures e.0 in certificates && certificates[e.0].round == round {
      assert (e.0, e.1) in rounds[round];
    }
  }

  lemma NoAuthors(certificates: Universe, ids: seq<CertificateId>)
    requires ids == []
    ensures Authors(certificates, ids) == {}
  {
  }

  lemma RoundIsKnownIff(rounds: Index, certificates: Universe, round: nat)
    requires Indexed(rounds, certificates)
    ensures round in rounds <==> exists i :: i in certificates && certificates[i].round == round
  {
    if round in rounds {
      var e :| e in rounds[round];
      assert certificates[e.0].round == round;
    }
  }

  /** A round without certificates cannot supply a quorum of references. */
  lemma NoReferences(committee: nat -> Committee, rounds: Index, certificates: Universe, c: Certificate)
    requires Indexed(rounds, certificates) && c.round >= 1 && c.round - 1 !in rounds
    ensures !ReferencesHold(committee, certificates, c)
  {
    if c.previous == [] {
      assert Authors(certificates, c.previous) == {};
    } else {
      assert c.previous[0] in c.previous;
    }
  }

  /** The next reference either repeats an author or adds one. */
  lemma AuthorsExtend(certificates: Universe, ids: seq<CertificateId>, k: nat)
    requires k < |ids| && (forall j :: 0 <= j <= k ==> ids[j] in certificates)
    ensures Authors(certificates, ids[..k + 1]) == Authors(certificates, ids[..k]) + {certificates[ids[k]].author}
    ensures certificates[ids[k]].author in Authors(certificates, ids[..k]) ==> !AuthorsDiffer(certificates, ids)
    ensures certificates[ids[k]].author !in Authors(certificates, ids[..k]) && AuthorsDiffer(certificates, ids[..k]) ==>
              AuthorsDiffer(certificates, ids[..k + 1])
  {
    assert ids[..k + 1] == ids[..k] + [ids[k]];
    var author := certificates[ids[k]].author;
    if author in Authors(certificates, ids[..k]) {
      var i :| i in ids[..k] && i in certificates && certificates[i].author == author;
      var j :| 0 <= j < k && ids[j] == i;
      assert certificates[ids[j]].author == certificates[ids[k]].author;
    } else {
      assert forall j :: 0 <= j < k ==> ids[j] in ids[..k];
    }
  }

  lemma InsertKeepsIndexed(rounds: Index, certificates: Universe, c: Certificate)
    requires Indexed(rounds, certificates) && c.id !in certificates
    ensures Indexed(rounds[c.round := EntriesAt(rounds, c.round) + {(c.id, c.author)}], certificates[c.id := c])
  {
    var entries := EntriesAt(rounds, c.round) + {(c.id, c.author)};
    assert (c.id, c.author) in entries;
    forall i, a | (i, a) in entries && i != c.id
      ensures i in certificates && certificates[i].round == c.round && certificates[i].author == a
    {
      assert (i, a) in rounds[c.round];
    }
    assert (c.id, c.author) in entries && forall a :: (c.id, a) in entries ==> a == c.author;
  }

  lemma InsertKeepsSlots(certificates: Universe, c: Certificate)
    requires Keyed(certificates) && NonEquivocating(certificates)
    requires forall i :: i in certificates ==> !(certificates[i].round == c.round && certificates[i].author == c.author)
    ensures NonEquivocating(certificates[c.id := c])
  {
    var after := certificates[c.id := c];
    forall i, j | SameSlot(after, i, j) ensures i == j {
      assert i != c.id && j != c.id ==> SameSlot(certificates, i, j);
    }
  }

  lemma SubsetKeepsSlots(certificates: Universe, part: Universe)
    requires NonEquivocating(certificates)
    requires forall i :: i in part ==> i in certificates && part[i] == certificates[i]
    ensures NonEquivocating(part)
  {
    forall i, j | SameSlot(part, i, j) ensures i == j {
      assert SameSlot(certificates, i, j);
    }
  }

  lemma RemoveKeepsIndexed(rounds: Index, certificates: Universe, id: CertificateId)
    requires Indexed(rounds, certificates) && id in certificates
    ensures var c := certificates[id];
            var entries := rounds[c.round] - {(id, c.author)};
            Indexed(if entries == {} then rounds - {c.round} else rounds[c.round := entries], certificates - {id})
  {
    var c := certificates[id];
    var entries := rounds[c.round] - {(id, c.author)};
    var after := if entries == {} then rounds - {c.round} else rounds[c.round := entries];
    forall i | i in certificates && i != id
      ensures certificates[i].round in after && (i, certificates[i].author) in after[certificates[i].round]
    {
      assert (i, certificates[i].author) in rounds[certificates[i].round];
      if certificates[i].round == c.round {
        assert (i, certificates[i].author) in entries;
      }
    }
  }
}
