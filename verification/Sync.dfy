/**
 The recursive certificate sync of node/bft/src/primary.rs: before a certificate is stored, whatever it references
 is fetched and stored, recursively. The recursion ends because IDs are hashes, so references have no cycles; storage
 stays closed under references throughout, even if commits collect garbage in between.
 */
module Sync {
  import opened Types
  import opened Committees
  import opened CertificateGraph
  import opened Storages

  /**
   What the sync learns from outside: the certificates that IDs stand for, the IDs that the peer (or the cache of
   unprocessed certificates) answers, the IDs that the ledger has, the endorsers of a certificate, the outcome of
   the checks on its time and contents, and the round up to which the callback commits once it is stored. The height of
   a certificate is the length of the longest chain of references below it.
   */
  datatype Peer = Peer(
    universe: Universe,
    answers: set<CertificateId>,
    ledger: set<CertificateId>,
    endorsers: CertificateId -> set<Address>,
    admissible: CertificateId -> bool,
    commits: CertificateId -> Option<nat>,
    height: CertificateId -> nat
  )

  /** An ID is a hash of the header, so it stands for one certificate, and references have no cycles. Rounds may be wrong. */
  ghost predicate Hashed(peer: Peer) {
    && Keyed(peer.universe)
    && forall c, i :: Member(peer.universe, c) && i in c.previous && i in peer.universe ==> peer.height(i) < peer.height(c.id)
  }

  ghost predicate PartOf(certificates: Universe, u: Universe) {
    forall i :: i in certificates ==> i in u && certificates[i] == u[i]
  }

  datatype SyncError = TooFarBack | NodeIsSyncing | FetchFailed(id: CertificateId) | Refused(error: StorageError)

  /** Storage after a sync, given what it held before: only collected certificates are gone. */
  ghost predicate Grown(before: Universe, gcBefore: nat, after: Universe, gcAfter: nat) {
    && gcBefore <= gcAfter
    && forall i :: i in before && before[i].round > gcAfter ==> i in after && after[i] == before[i]
  }

  /** What the callback commits for a certificate has been collected up to the depth below it. */
  ghost predicate IsCollectedFor(peer: Peer, maxGcRounds: nat, gcRound: nat, i: CertificateId) {
    peer.commits(i).Some? ==> SaturatingSub(peer.commits(i).value, maxGcRounds) <= gcRound
  }

  /** That holds of every certificate that is newly stored. */
  ghost predicate Notified(peer: Peer, maxGcRounds: nat, before: Universe, after: Universe, gcAfter: nat) {
    forall i :: i in after && i !in before ==> IsCollectedFor(peer, maxGcRounds, gcAfter, i)
  }

  lemma NotifiedTrans(peer: Peer, maxGcRounds: nat, a: Universe, b: Universe, gcB: nat, c: Universe, gcC: nat)
    requires Notified(peer, maxGcRounds, a, b, gcB) && Notified(peer, maxGcRounds, b, c, gcC) && gcB <= gcC
    ensures Notified(peer, maxGcRounds, a, c, gcC)
  {
  }

  lemma NothingNew(peer: Peer, maxGcRounds: nat, certificates: Universe, gcRound: nat)
    ensures Notified(peer, maxGcRounds, certificates, certificates, gcRound)
  {
  }

  /** A certificate is stored, or is of a round that has been collected. */
  ghost predicate Settled(u: Universe, certificates: Universe, gcRound: nat, i: CertificateId) {
    i in certificates || (i in u && u[i].round <= gcRound)
  }

  /** All that a sync needs from outside is there, and the certificates are valid. */
  ghost predicate Helpful(committee: nat -> Committee, peer: Peer) {
    && NonEquivocating(peer.universe)
    && (forall c :: Member(peer.universe, c) ==> CanBeStored(committee, peer, c))
  }

  ghost predicate CanBeStored(committee: nat -> Committee, peer: Peer, c: Certificate) {
    && c.id in peer.answers
    && c.author in committee(c.round).members
    && SignersHold(committee(c.round), c.author, peer.endorsers(c.id))
    && peer.admissible(c.id)
    && (c.round >= 2 ==> ReferencesHold(committee, peer.universe, c))
  }

  /** No certificate that is stored on the way leads to a commit, so nothing is collected meanwhile. */
  ghost predicate Quiet(peer: Peer) {
    forall c :: Member(peer.universe, c) ==> peer.commits(c.id).None?
  }

  /**
   How a sync can fail although all is answered and valid: garbage was collected on the way, up to the round of a
   certificate that was about to be stored, or a commit tried to collect backwards.
   */
  ghost predicate FailsByCollection(r: Result<(), SyncError>, gcBefore: nat, gcAfter: nat) {
    r.Err? ==>
      || (r.error == Refused(CollectedRound) && gcAfter > gcBefore)
      || r.error == Refused(DecreasingCollection)
  }

  /** The ledger's certificates above the collected rounds are stored. */
  ghost predicate LedgerStored(peer: Peer, certificates: Universe, gcRound: nat) {
    forall i :: i in peer.ledger && i in peer.universe && peer.universe[i].round > gcRound ==> i in certificates
  }

  lemma GrownTrans(a: Universe, gcA: nat, b: Universe, gcB: nat, c: Universe, gcC: nat)
    requires Grown(a, gcA, b, gcB) && Grown(b, gcB, c, gcC)
    ensures Grown(a, gcA, c, gcC)
  {
  }

  lemma SettledStays(u: Universe, a: Universe, gcA: nat, b: Universe, gcB: nat, i: CertificateId)
    requires Settled(u, a, gcA, i) && Grown(a, gcA, b, gcB) && PartOf(a, u)
    ensures Settled(u, b, gcB, i)
  {
  }

  /** Collecting garbage keeps the rest of storage. */
  lemma CollectedIsGrown(before: Universe, gcBefore: nat, gcAfter: nat, u: Universe)
    requires gcBefore <= gcAfter && PartOf(before, u)
    ensures Grown(before, gcBefore, KeptAbove(before, gcAfter), gcAfter) && PartOf(KeptAbove(before, gcAfter), u)
  {
  }

  /** References that hold among all certificates hold among the stored ones, if those include them. */
  lemma ReferencesRestrict(committee: nat -> Committee, u: Universe, certificates: Universe, c: Certificate)
    requires ReferencesHold(committee, u, c) && PartOf(certificates, u)
    requires forall i :: i in c.previous ==> i in certificates
    ensures ReferencesHold(committee, certificates, c)
  {
    assert Authors(certificates, c.previous) == Authors(u, c.previous);
  }

  /** Nothing that insertion checks can fail once the references are stored. */
  lemma StorageAccepts(storage: Storage, peer: Peer, c: Certificate)
    requires storage.Valid() && Helpful(storage.committee, peer) && Member(peer.universe, c)
    requires PartOf(storage.certificates, peer.universe)
    requires c.round > storage.gcRound && c.id !in storage.certificates
    requires c.round > storage.gcRound + 1 ==> forall i :: i in c.previous ==> i in storage.certificates
    ensures storage.Accepts(c, peer.endorsers(c.id), peer.admissible(c.id))
  {
    hide Indexed, Closed, SignersHold, ReferencesHold;
    assert CanBeStored(storage.committee, peer, c);
    if c.round > storage.gcRound + 1 {
      ReferencesRestrict(storage.committee, peer.universe, storage.certificates, c);
    }
    forall i | i in storage.certificates
      ensures !(storage.certificates[i].round == c.round && storage.certificates[i].author == c.author)
    {
      assert SameSlot(peer.universe, i, c.id) ==> i == c.id;
    }
  }

  /** The certificates that storage and ledger lack are taken from the cache or requested from the peer. */
  method FetchMissingCertificates(storage: Storage, peer: Peer, ids: seq<CertificateId>)
    returns (r: Result<set<Certificate>, SyncError>)
    ensures r.Ok? <==> forall i :: i in ids ==>
              i in peer.ledger || i in storage.certificates || (i in peer.answers && i in peer.universe)
    ensures r.Ok? ==> forall c :: c in r.value <==>
              exists i :: i in ids && i !in peer.ledger && i !in storage.certificates && i in peer.universe && c == peer.universe[i]
    ensures r.Err? ==> r.error.FetchFailed?
  {
    var missing: set<Certificate> := {};
    for k := 0 to |ids|
      invariant forall j :: 0 <= j < k ==>
                  ids[j] in peer.ledger || ids[j] in storage.certificates || (ids[j] in peer.answers && ids[j] in peer.universe)
      invariant forall c :: c in missing <==>
                  exists j :: 0 <= j < k && ids[j] !in peer.ledger && ids[j] !in storage.certificates
                              && ids[j] in peer.universe && c == peer.universe[ids[j]]
    {
      var id := ids[k];
      if id in peer.ledger {
        continue;
      }
      if id in storage.certificates {
        continue;
      }
      if id !in peer.answers || id !in peer.universe {
        return Err(FetchFailed(id));
      }
      missing := missing + {peer.universe[id]};
    }
    r := Ok(missing);
  }

  /** The callback after a certificate is stored: it may commit leaders, and so collect garbage. */
  method NotifyBft(storage: Storage, commits: Option<nat>) returns (ok: bool)
    requires storage.Valid()
    modifies storage`rounds, storage`certificates, storage`gcRound
    ensures storage.Valid()
    ensures storage.gcRound >= old(storage.gcRound)
    ensures storage.certificates == KeptAbove(old(storage.certificates), storage.gcRound)
    ensures commits.None? ==> ok && storage.gcRound == old(storage.gcRound)
    ensures commits.Some? ==>
              var target := SaturatingSub(commits.value, storage.maxGcRounds);
              && (ok <==> target >= old(storage.gcRound))
              && storage.gcRound == if ok then target else old(storage.gcRound)
  {
    hide Indexed, NonEquivocating, Closed;
    ok := true;
    assert storage.certificates == KeptAbove(storage.certificates, storage.gcRound);
    if commits.Some? {
      var r := storage.GarbageCollect(commits.value);
      ok := r.Ok?;
    }
  }

  /**
   Stores a certificate after everything it references. `Ok` means that it is stored, unless its round has been
   collected; if the outside is helpful, nothing but collection can make it fail.
   */
  method SyncWithCertificate(storage: Storage, peer: Peer, c: Certificate, maySync: bool) returns (r: Result<(), SyncError>)
    requires storage.Valid() && Hashed(peer) && Member(peer.universe, c)
    requires PartOf(storage.certificates, peer.universe)
    modifies storage`rounds, storage`certificates, storage`gcRound
    ensures storage.Valid() && PartOf(storage.certificates, peer.universe)
    ensures Grown(old(storage.certificates), old(storage.gcRound), storage.certificates, storage.gcRound)
    ensures r.Ok? ==> Settled(peer.universe, storage.certificates, storage.gcRound, c.id)
    ensures Notified(peer, storage.maxGcRounds, old(storage.certificates), storage.certificates, storage.gcRound)
    ensures r.Ok? && !old(Settled(peer.universe, storage.certificates, storage.gcRound, c.id)) ==>
              IsCollectedFor(peer, storage.maxGcRounds, storage.gcRound, c.id)
    ensures old(Settled(peer.universe, storage.certificates, storage.gcRound, c.id)) ==> r.Ok?
    ensures !old(Settled(peer.universe, storage.certificates, storage.gcRound, c.id)) && !maySync ==> r == Err(NodeIsSyncing)
    ensures old(Settled(peer.universe, storage.certificates, storage.gcRound, c.id)) || !maySync ==>
              storage.certificates == old(storage.certificates) && storage.gcRound == old(storage.gcRound)
    ensures maySync && Helpful(storage.committee, peer)
            && LedgerStored(peer, old(storage.certificates), old(storage.gcRound)) ==>
              && FailsByCollection(r, old(storage.gcRound), storage.gcRound)
              && (Quiet(peer) ==> r.Ok? && storage.gcRound == old(storage.gcRound))
    decreases peer.height(c.id), 2
  {
    hide Storage.Valid, Helpful, LedgerStored, Grown, Settled, PartOf, Quiet, Notified, IsCollectedFor;
    GrownSame(storage.certificates, storage.gcRound);
    NothingNew(peer, storage.maxGcRounds, storage.certificates, storage.gcRound);
    SettledIff(peer.universe, storage.certificates, storage.gcRound, c);
    if c.round <= storage.gcRound {
      return Ok(());
    }
    if c.id in storage.certificates {
      return Ok(());
    }
    if !maySync {
      return Err(NodeIsSyncing);
    }
    ghost var helpful := Helpful(storage.committee, peer) && LedgerStored(peer, storage.certificates, storage.gcRound);
    r := SyncWithBatchHeader(storage, peer, c, maySync, false);
    if r.Err? {
      return;
    }
    if c.id in storage.certificates {
      SettledNow(peer.universe, storage.certificates, storage.gcRound, c);
      NewIsCollectedFor(peer, storage.maxGcRounds, old(storage.certificates), storage.certificates, storage.gcRound, c.id);
      return;
    }
    r := StoreAndNotify(storage, peer, c, helpful, old(storage.certificates), old(storage.gcRound));
  }

  /** Stores a certificate whose references are settled, and passes it on. */
  method StoreAndNotify(storage: Storage, peer: Peer, c: Certificate, ghost helpful: bool, ghost was: Universe, ghost wasGc: nat)
    returns (r: Result<(), SyncError>)
    requires storage.Valid() && Member(peer.universe, c) && Keyed(peer.universe)
    requires PartOf(storage.certificates, peer.universe) && c.id !in storage.certificates
    requires Grown(was, wasGc, storage.certificates, storage.gcRound) && PartOf(was, peer.universe)
    requires Notified(peer, storage.maxGcRounds, was, storage.certificates, storage.gcRound)
    requires wasGc < c.round
    requires helpful ==>
               && Helpful(storage.committee, peer) && LedgerStored(peer, was, wasGc)
               && (Quiet(peer) ==> storage.gcRound == wasGc)
               && (c.round > wasGc + 1 ==> ReferencesSettled(peer, c, storage.certificates, storage.gcRound))
    modifies storage`rounds, storage`certificates, storage`gcRound
    ensures storage.Valid() && PartOf(storage.certificates, peer.universe)
    ensures Grown(was, wasGc, storage.certificates, storage.gcRound)
    ensures r.Ok? ==> Settled(peer.universe, storage.certificates, storage.gcRound, c.id)
    ensures Notified(peer, storage.maxGcRounds, was, storage.certificates, storage.gcRound)
    ensures r.Ok? ==> IsCollectedFor(peer, storage.maxGcRounds, storage.gcRound, c.id)
    ensures helpful ==> (r == Err(Refused(CollectedRound)) <==> c.round <= old(storage.gcRound))
    ensures helpful ==> FailsByCollection(r, wasGc, storage.gcRound)
    ensures helpful && Quiet(peer) ==> r.Ok? && storage.gcRound == wasGc
  {
    hide Storage.Valid, Helpful, LedgerStored, Grown, Settled, PartOf, ReferencesSettled, Storage.Accepts;
    assert storage.gcRound >= wasGc by { GrownRises(was, wasGc, storage.certificates, storage.gcRound); }
    if helpful && c.round > storage.gcRound {
      if c.round > storage.gcRound + 1 {
        AllAnswered(storage.committee, peer, c);
        LedgerStays(peer, was, wasGc, storage.certificates, storage.gcRound);
        ReferencesStored(peer, c, storage.certificates, storage.gcRound);
      }
      StorageAccepts(storage, peer, c);
    }
    ghost var before, gcBefore := storage.certificates, storage.gcRound;
    var inserted := storage.InsertCertificate(c, peer.endorsers(c.id), peer.admissible(c.id));
    if inserted.Err? {
      return Err(Refused(inserted.error));
    }
    ghost var stored := storage.certificates;
    var ok := NotifyBft(storage, peer.commits(c.id));
    StoredIsNotified(peer, storage.maxGcRounds, was, before, gcBefore, c, storage.certificates, storage.gcRound);
    StoredIsGrown(was, wasGc, before, gcBefore, c, peer.universe);
    CollectedIsGrown(stored, gcBefore, storage.gcRound, peer.universe);
    GrownTrans(was, wasGc, stored, gcBefore, storage.certificates, storage.gcRound);
    SettledNow(peer.universe, stored, gcBefore, c);
    SettledStays(peer.universe, stored, gcBefore, storage.certificates, storage.gcRound, c.id);
    r := if ok then Ok(()) else Err(Refused(DecreasingCollection));
  }

  lemma NewIsCollectedFor(peer: Peer, maxGcRounds: nat, before: Universe, after: Universe, gcRound: nat, i: CertificateId)
    requires Notified(peer, maxGcRounds, before, after, gcRound) && i in after && i !in before
    ensures IsCollectedFor(peer, maxGcRounds, gcRound, i)
  {
  }

  lemma StoredIsNotified(
    peer: Peer, maxGcRounds: nat, was: Universe, before: Universe, gcBefore: nat, c: Certificate, after: Universe, gcAfter: nat)
    requires Notified(peer, maxGcRounds, was, before, gcBefore) && gcBefore <= gcAfter
    requires after == KeptAbove(before[c.id := c], gcAfter) && IsCollectedFor(peer, maxGcRounds, gcAfter, c.id)
    ensures Notified(peer, maxGcRounds, was, after, gcAfter)
  {
  }

  /** Each reference is in the ledger or settled. */
  ghost predicate ReferencesSettled(peer: Peer, c: Certificate, certificates: Universe, gcRound: nat) {
    forall i :: i in c.previous ==> i in peer.ledger || Settled(peer.universe, certificates, gcRound, i)
  }

  lemma ReferencesStored(peer: Peer, c: Certificate, certificates: Universe, gcRound: nat)
    requires c.round > gcRound + 1 && ReferencesSettled(peer, c, certificates, gcRound)
    requires forall i :: i in c.previous ==> i in peer.universe && peer.universe[i].round + 1 == c.round
    requires LedgerStored(peer, certificates, gcRound)
    ensures forall i :: i in c.previous ==> i in certificates
  {
  }

  lemma LedgerStays(peer: Peer, before: Universe, gcBefore: nat, after: Universe, gcAfter: nat)
    requires LedgerStored(peer, before, gcBefore) && Grown(before, gcBefore, after, gcAfter) && PartOf(before, peer.universe)
    ensures LedgerStored(peer, after, gcAfter)
  {
  }

  lemma GrownRises(before: Universe, gcBefore: nat, after: Universe, gcAfter: nat)
    requires Grown(before, gcBefore, after, gcAfter)
    ensures gcBefore <= gcAfter
  {
  }

  lemma GrownSame(certificates: Universe, gcRound: nat)
    ensures Grown(certificates, gcRound, certificates, gcRound)
  {
  }

  lemma SettledIff(u: Universe, certificates: Universe, gcRound: nat, c: Certificate)
    requires Member(u, c)
    ensures Settled(u, certificates, gcRound, c.id) <==> c.id in certificates || c.round <= gcRound
  {
  }

  /** A quorum of the committee has signed the certificate, and only members have. */
  ghost predicate IsSigned(committee: nat -> Committee, peer: Peer, c: Certificate) {
    SignersHold(committee(c.round), c.author, peer.endorsers(c.id)) && c.author in committee(c.round).members
  }

  lemma AllSettledStay(u: Universe, before: Universe, gcBefore: nat, after: Universe, gcAfter: nat, cs: set<Certificate>)
    requires PartOf(before, u) && Grown(before, gcBefore, after, gcAfter)
    ensures forall y :: y in cs && Settled(u, before, gcBefore, y.id) ==> Settled(u, after, gcAfter, y.id)
  {
    hide Settled, Grown;
    forall y | y in cs && Settled(u, before, gcBefore, y.id) ensures Settled(u, after, gcAfter, y.id) {
      SettledStays(u, before, gcBefore, after, gcAfter, y.id);
    }
  }

  lemma SettledNow(u: Universe, certificates: Universe, gcRound: nat, c: Certificate)
    requires Member(u, c) && (c.id in certificates || c.round <= gcRound)
    ensures Settled(u, certificates, gcRound, c.id)
  {
  }

  lemma StoredIsGrown(was: Universe, wasGc: nat, before: Universe, gcRound: nat, c: Certificate, u: Universe)
    requires Grown(was, wasGc, before, gcRound) && c.id !in before && PartOf(before, u) && Member(u, c)
    ensures Grown(was, wasGc, before[c.id := c], gcRound) && PartOf(before[c.id := c], u)
  {
  }

  /** Fetches and stores what a batch header references. */
  method SyncWithBatchHeader(storage: Storage, peer: Peer, c: Certificate, maySync: bool, checkPrevious: bool)
    returns (r: Result<(), SyncError>)
    requires storage.Valid() && Hashed(peer) && Member(peer.universe, c)
    requires PartOf(storage.certificates, peer.universe)
    modifies storage`rounds, storage`certificates, storage`gcRound
    ensures storage.Valid() && PartOf(storage.certificates, peer.universe)
    ensures Grown(old(storage.certificates), old(storage.gcRound), storage.certificates, storage.gcRound)
    ensures Notified(peer, storage.maxGcRounds, old(storage.certificates), storage.certificates, storage.gcRound)
    ensures r.Ok? && c.round > old(storage.gcRound) + 1 ==>
              c.round == 1 || ReferencesSettled(peer, c, storage.certificates, storage.gcRound)
    ensures c.round <= old(storage.gcRound) ==> r == Err(TooFarBack)
    ensures c.round > old(storage.gcRound) && !maySync ==> r == Err(NodeIsSyncing)
    ensures c.round > old(storage.gcRound) && maySync && (c.round == 1 || c.round == old(storage.gcRound) + 1) ==> r.Ok?
    ensures c.round <= old(storage.gcRound) + 1 || c.round == 1 || !maySync ==>
              storage.certificates == old(storage.certificates) && storage.gcRound == old(storage.gcRound)
    ensures r.Ok? && checkPrevious && c.round > old(storage.gcRound) + 1 && c.round > 1 ==>
              forall i :: i in c.previous && i !in peer.ledger && i !in old(storage.certificates) ==>
                i in peer.universe && IsSigned(storage.committee, peer, peer.universe[i])
    ensures maySync && c.round > old(storage.gcRound) && Helpful(storage.committee, peer)
            && LedgerStored(peer, old(storage.certificates), old(storage.gcRound)) ==>
              && FailsByCollection(r, old(storage.gcRound), storage.gcRound)
              && (Quiet(peer) ==> r.Ok? && storage.gcRound == old(storage.gcRound))
    decreases peer.height(c.id), 1
  {
    hide Storage.Valid, Helpful, LedgerStored, Grown, Settled, PartOf, Quiet, Notified;
    GrownSame(storage.certificates, storage.gcRound);
    NothingNew(peer, storage.maxGcRounds, storage.certificates, storage.gcRound);
    if c.round <= storage.gcRound {
      return Err(TooFarBack);
    }
    if !maySync {
      return Err(NodeIsSyncing);
    }
    if c.round == 1 || c.round <= storage.gcRound + 1 {
      return Ok(());
    }
    if Helpful(storage.committee, peer) {
      AllAnswered(storage.committee, peer, c);
    }
    var fetched := FetchMissingCertificates(storage, peer, c.previous);
    if fetched.Err? {
      return Err(fetched.error);
    }
    ghost var was, wasGc := storage.certificates, storage.gcRound;
    r := SyncAll(storage, peer, fetched.value, peer.height(c.id), maySync, checkPrevious);
    if r.Ok? {
      forall i | i in c.previous && i !in peer.ledger
        ensures Settled(peer.universe, storage.certificates, storage.gcRound, i)
      {
        if i in was {
          StoredIsSettled(peer.universe, was, wasGc, storage.certificates, storage.gcRound, i);
        } else {
          assert peer.universe[i] in fetched.value;
        }
      }
    }
  }

  lemma StoredIsSettled(u: Universe, was: Universe, wasGc: nat, certificates: Universe, gcRound: nat, i: CertificateId)
    requires i in was && PartOf(was, u) && Grown(was, wasGc, certificates, gcRound)
    ensures Settled(u, certificates, gcRound, i)
  {
  }

  /** Syncs one missing certificate, after a check of its signers if that is called for. */
  method SyncOne(storage: Storage, peer: Peer, c: Certificate, maySync: bool, checkPrevious: bool)
    returns (r: Result<(), SyncError>)
    requires storage.Valid() && Hashed(peer) && Member(peer.universe, c)
    requires PartOf(storage.certificates, peer.universe)
    modifies storage`rounds, storage`certificates, storage`gcRound
    ensures storage.Valid() && PartOf(storage.certificates, peer.universe)
    ensures Grown(old(storage.certificates), old(storage.gcRound), storage.certificates, storage.gcRound)
    ensures Notified(peer, storage.maxGcRounds, old(storage.certificates), storage.certificates, storage.gcRound)
    ensures r.Ok? ==> Settled(peer.universe, storage.certificates, storage.gcRound, c.id)
    ensures r.Ok? && checkPrevious ==> IsSigned(storage.committee, peer, c)
    ensures checkPrevious && !IsSigned(storage.committee, peer, c) ==>
              storage.certificates == old(storage.certificates) && storage.gcRound == old(storage.gcRound)
    ensures !checkPrevious && old(Settled(peer.universe, storage.certificates, storage.gcRound, c.id)) ==>
              r.Ok? && storage.certificates == old(storage.certificates) && storage.gcRound == old(storage.gcRound)
    ensures maySync && Helpful(storage.committee, peer)
            && LedgerStored(peer, old(storage.certificates), old(storage.gcRound)) ==>
              && FailsByCollection(r, old(storage.gcRound), storage.gcRound)
              && (Quiet(peer) ==> r.Ok? && storage.gcRound == old(storage.gcRound))
    decreases peer.height(c.id), 3
  {
    hide Storage.Valid, Helpful, LedgerStored, Grown, Settled, PartOf, Hashed, SignersHold, Quiet, Notified, IsCollectedFor;
    GrownSame(storage.certificates, storage.gcRound);
    NothingNew(peer, storage.maxGcRounds, storage.certificates, storage.gcRound);
    if Helpful(storage.committee, peer) {
      MemberCanBeStored(storage.committee, peer, c);
    }
    if checkPrevious {
      var checked := storage.CheckIncomingCertificate(c, peer.endorsers(c.id));
      if checked.Err? {
        return Err(Refused(checked.error));
      }
    }
    r := SyncWithCertificate(storage, peer, c, maySync);
  }

  /** Syncs each of a set of certificates, whether or not others fail. */
  method SyncAll(storage: Storage, peer: Peer, missing: set<Certificate>, ghost bound: nat, maySync: bool, checkPrevious: bool)
    returns (r: Result<(), SyncError>)
    requires storage.Valid() && Hashed(peer)
    requires PartOf(storage.certificates, peer.universe)
    requires forall x :: x in missing ==> Member(peer.universe, x) && peer.height(x.id) < bound
    modifies storage`rounds, storage`certificates, storage`gcRound
    ensures storage.Valid() && PartOf(storage.certificates, peer.universe)
    ensures Grown(old(storage.certificates), old(storage.gcRound), storage.certificates, storage.gcRound)
    ensures Notified(peer, storage.maxGcRounds, old(storage.certificates), storage.certificates, storage.gcRound)
    ensures r.Ok? ==> forall x :: x in missing ==> Settled(peer.universe, storage.certificates, storage.gcRound, x.id)
    ensures r.Ok? && checkPrevious ==> forall x :: x in missing ==> IsSigned(storage.committee, peer, x)
    ensures checkPrevious && (forall x :: x in missing ==> !IsSigned(storage.committee, peer, x)) ==>
              storage.certificates == old(storage.certificates) && storage.gcRound == old(storage.gcRound)
    ensures !checkPrevious
            && (forall x :: x in missing ==> Settled(peer.universe, old(storage.certificates), old(storage.gcRound), x.id)) ==>
              r.Ok? && storage.certificates == old(storage.certificates) && storage.gcRound == old(storage.gcRound)
    ensures maySync && Helpful(storage.committee, peer)
            && LedgerStored(peer, old(storage.certificates), old(storage.gcRound)) ==>
              && FailsByCollection(r, old(storage.gcRound), storage.gcRound)
              && (Quiet(peer) ==> r.Ok? && storage.gcRound == old(storage.gcRound))
    decreases bound, 0
  {
    hide Storage.Valid, Helpful, LedgerStored, Grown, Settled, PartOf, Hashed, IsSigned, Quiet, Notified, IsCollectedFor, SignersHold;
    ghost var helpful := maySync && Helpful(storage.committee, peer)
                         && LedgerStored(peer, storage.certificates, storage.gcRound);
    ghost var was, wasGc := storage.certificates, storage.gcRound;
    ghost var noneSigned := checkPrevious && forall x :: x in missing ==> !IsSigned(storage.committee, peer, x);
    ghost var allSettled := !checkPrevious && forall x :: x in missing ==> Settled(peer.universe, was, wasGc, x.id);
    GrownSame(was, wasGc);
    NothingNew(peer, storage.maxGcRounds, was, wasGc);
    var rest := missing;
    r := Ok(());
    while rest != {}
      invariant rest <= missing
      invariant storage.Valid() && PartOf(storage.certificates, peer.universe)
      invariant Grown(was, wasGc, storage.certificates, storage.gcRound)
      invariant Notified(peer, storage.maxGcRounds, was, storage.certificates, storage.gcRound)
      invariant r.Ok? ==> forall x :: x in missing && x !in rest ==>
                  Settled(peer.universe, storage.certificates, storage.gcRound, x.id)
      invariant r.Ok? && checkPrevious ==> forall x :: x in missing && x !in rest ==> IsSigned(storage.committee, peer, x)
      invariant noneSigned ==> storage.certificates == was && storage.gcRound == wasGc
      invariant allSettled ==> r.Ok? && storage.certificates == was && storage.gcRound == wasGc
      invariant helpful ==> FailsByCollection(r, wasGc, storage.gcRound)
      invariant helpful && Quiet(peer) ==> r.Ok? && storage.gcRound == wasGc
      decreases rest
    {
      var x :| x in rest;
      rest := rest - {x};
      if helpful {
        LedgerStays(peer, was, wasGc, storage.certificates, storage.gcRound);
        GrownRises(was, wasGc, storage.certificates, storage.gcRound);
      }
      ghost var before, gcBefore := storage.certificates, storage.gcRound;
      var stored := SyncOne(storage, peer, x, maySync, checkPrevious);
      GrownTrans(was, wasGc, before, gcBefore, storage.certificates, storage.gcRound);
      GrownRises(before, gcBefore, storage.certificates, storage.gcRound);
      NotifiedTrans(peer, storage.maxGcRounds, was, before, gcBefore, storage.certificates, storage.gcRound);
      AllSettledStay(peer.universe, before, gcBefore, storage.certificates, storage.gcRound, missing);
      if stored.Err? {
        r := stored;
      }
    }
  }

  lemma AllAnswered(committee: nat -> Committee, peer: Peer, c: Certificate)
    requires Helpful(committee, peer) && Member(peer.universe, c) && Keyed(peer.universe) && c.round >= 2
    ensures forall i :: i in c.previous ==>
              i in peer.answers && i in peer.universe && peer.universe[i].round + 1 == c.round
  {
    assert CanBeStored(committee, peer, c);
    forall i | i in c.previous ensures i in peer.answers {
      assert CanBeStored(committee, peer, peer.universe[i]);
    }
  }

  lemma MemberCanBeStored(committee: nat -> Committee, peer: Peer, c: Certificate)
    requires Helpful(committee, peer) && Member(peer.universe, c)
    ensures c.author in committee(c.round).members
    ensures SignersHold(committee(c.round), c.author, peer.endorsers(c.id))
  {
    assert CanBeStored(committee, peer, c);
  }
}
