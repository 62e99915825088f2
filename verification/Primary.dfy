/**
 The primary (node/bft/src/primary.rs): it proposes its own batches, signs those of others, collects signatures on
 its own, and carries what it must not forget across a restart. The methods are proved against functions of the
 state; PrimaryRuns.dfy says what holds over whole lives of a primary.
 */
module Primaries {
  import opened Types
  import opened Committees
  import opened CertificateGraph
  import opened Storages
  import opened ReadyQueue
  import opened Batches
  import opened PrimaryEvents
  import Sync

  function IdsOfEntries(entries: seq<Entry>): seq<TransmissionId> {
    seq(|entries|, k requires 0 <= k < |entries| => entries[k].0)
  }

  function ProposalIds(proposal: Option<Proposal>): set<TransmissionId> {
    if proposal.Some? then IdsIn(proposal.value.entries) else {}
  }

  /** A transmission is in storage as long as a stored certificate lists it. */
  function StoredTransmissions(certificates: Universe): set<TransmissionId> {
    set i, t | i in certificates && t in certificates[i].transmissions :: t
  }

  /** The ready queue once an expired proposal's contents are back in it. */
  function QueueAfterExpiry(s: PrimaryState, queue: seq<Entry>, certificates: Universe, ledger: set<TransmissionId>): seq<Entry> {
    if s.proposal.Some? && Expired(s).proposal.None?
    then Reinserted(queue, s.proposal.value.entries, StoredTransmissions(certificates) + ledger)
    else queue
  }

  function AuthorsInRound(certificates: Universe, round: nat): set<Address> {
    set i | i in certificates && certificates[i].round == round :: certificates[i].author
  }

  /** All that has to hold for a new proposal to be made in the current round. */
  ghost predicate CanPropose(committee: nat -> Committee, certificates: Universe, s: PrimaryState, self: Address,
                             timely: bool, connected: set<Address>) {
    && MayPropose(s)
    && (s.latest.Some? ==> timely)
    && self !in AuthorsInRound(certificates, s.round)
    && committee(s.round).IsQuorum(connected + {self})
    && (s.round > 1 ==> committee(s.round - 1).IsQuorum(AuthorsInRound(certificates, s.round - 1)))
  }

  /** The round is certified already: nothing is proposed, and the caller tries to advance the round instead. */
  ghost predicate IsCertified(certificates: Universe, s: PrimaryState, self: Address, timely: bool) {
    && s.proposal.None? && (s.latest.Some? ==> s.latest.value <= s.round && timely)
    && self in AuthorsInRound(certificates, s.round)
  }

  datatype Readiness = NotReady | Certified | ReadyWith(previous: seq<CertificateId>)

  datatype ProposeOutcome = Waiting | AlreadyCertified | DrainFailed | HeaderFailed | NewProposal(header: Certificate)

  /** A signature counts if it is a valid one of a committee member on the live proposal, and new. */
  predicate TakesSignature(committee: nat -> Committee, proposal: Option<Proposal>, self: Address, signer: Address,
                           batchId: CertificateId, verified: bool) {
    && signer != self && proposal.Some? && proposal.value.header.id == batchId && verified
    && signer in committee(proposal.value.header.round).members && signer !in proposal.value.endorsers
  }

  /** What taking a signature amounts to: an endorsement, and the end of the proposal if its signers reach a quorum. */
  ghost function SignatureEvents(committee: nat -> Committee, proposal: Option<Proposal>, self: Address, signer: Address,
                                 batchId: CertificateId, verified: bool): seq<Event> {
    if !TakesSignature(committee, proposal, self, signer, batchId, verified) then []
    else
      var p := Endorsed(proposal.value, signer);
      if committee(p.header.round).IsQuorum(p.endorsers + {self}) then [Endorse(signer), PrimaryEvents.Certify] else [Endorse(signer)]
  }

  lemma SignatureLeads(committee: nat -> Committee, s: PrimaryState, self: Address, signer: Address,
                       batchId: CertificateId, verified: bool)
    ensures var p := if s.proposal.Some? then Some(Endorsed(s.proposal.value, signer)) else None;
            var t := if !TakesSignature(committee, s.proposal, self, signer, batchId, verified) then s
                     else if committee(p.value.header.round).IsQuorum(p.value.endorsers + {self}) then s.(proposal := None)
                     else s.(proposal := p);
            Leads(committee, self, s, SignatureEvents(committee, s.proposal, self, signer, batchId, verified), t)
  {
    if TakesSignature(committee, s.proposal, self, signer, batchId, verified) {
      var endorsed := s.(proposal := Some(Endorsed(s.proposal.value, signer)));
      LeadsOne(committee, self, s, Endorse(signer), endorsed);
      LeadsMore(committee, self, s, [Endorse(signer)], endorsed, PrimaryEvents.Certify, s.(proposal := None));
      assert [Endorse(signer)] + [PrimaryEvents.Certify] == [Endorse(signer), PrimaryEvents.Certify];
    }
  }

  /** A message from a peer that says it has signed a batch. */
  datatype Signature = Signature(signer: Address, batchId: CertificateId, verified: bool)

  /** The live proposal once a message has been handled, and the proposal that has just reached a quorum, if any. */
  ghost function AfterSignature(committee: nat -> Committee, proposal: Option<Proposal>, self: Address, m: Signature)
    : (Option<Proposal>, Option<Proposal>)
  {
    if !TakesSignature(committee, proposal, self, m.signer, m.batchId, m.verified) then (proposal, None)
    else
      var p := Endorsed(proposal.value, m.signer);
      if committee(p.header.round).IsQuorum(p.endorsers + {self}) then (None, Some(p)) else (Some(p), None)
  }

  /** The same after any number of messages: what is live, and all that has reached a quorum. */
  ghost function AfterSignatures(committee: nat -> Committee, proposal: Option<Proposal>, self: Address, ms: seq<Signature>)
    : (Option<Proposal>, seq<Proposal>)
  {
    if ms == [] then (proposal, [])
    else
      var n := |ms| - 1;
      var (live, done) := AfterSignatures(committee, proposal, self, ms[..n]);
      var (next, complete) := AfterSignature(committee, live, self, ms[n]);
      (next, if complete.Some? then done + [complete.value] else done)
  }

  /** The message is a verified signature of another member of the committee on the batch. */
  ghost predicate IsGood(committee: nat -> Committee, header: Certificate, self: Address, m: Signature) {
    m.verified && m.batchId == header.id && m.signer != self && m.signer in committee(header.round).members
  }

  ghost function GoodSigners(committee: nat -> Committee, header: Certificate, self: Address, ms: seq<Signature>): set<Address> {
    set k | 0 <= k < |ms| && IsGood(committee, header, self, ms[k]) :: ms[k].signer
  }

  lemma OneMoreSigner(committee: nat -> Committee, header: Certificate, self: Address, ms: seq<Signature>)
    requires ms != []
    ensures var n := |ms| - 1;
            GoodSigners(committee, header, self, ms) ==
            GoodSigners(committee, header, self, ms[..n]) + if IsGood(committee, header, self, ms[n]) then {ms[n].signer} else {}
  {
    hide IsGood;
    var n := |ms| - 1;
    assert forall k :: 0 <= k < n ==> ms[..n][k] == ms[k];
  }

  /** The good signers among the messages make a quorum with the primary. */
  ghost predicate IsEnough(committee: nat -> Committee, header: Certificate, self: Address, ms: seq<Signature>) {
    var signers := GoodSigners(committee, header, self, ms);
    signers != {} && committee(header.round).IsQuorum(signers + {self})
  }

  lemma SignatureAdds(committee: nat -> Committee, p: Proposal, self: Address, ms: seq<Signature>)
    requires ms != [] && p.endorsers == GoodSigners(committee, p.header, self, ms[..|ms| - 1])
    ensures var next, all := AfterSignature(committee, Some(p), self, ms[|ms| - 1]), GoodSigners(committee, p.header, self, ms);
            if all == p.endorsers then next == (Some(p), None)
            else if IsEnough(committee, p.header, self, ms) then next == (None, Some(p.(endorsers := all)))
            else next == (Some(p.(endorsers := all)), None)
  {
    hide GoodSigners, Committee.IsQuorum;
    OneMoreSigner(committee, p.header, self, ms);
  }

  /** As long as the messages are not enough, the endorsers of a new proposal are the authors of the good ones. */
  lemma {:induction false} LiveWhileNotEnough(committee: nat -> Committee, p: Proposal, self: Address, ms: seq<Signature>)
    requires p.endorsers == {} && forall k :: 0 <= k <= |ms| ==> !IsEnough(committee, p.header, self, ms[..k])
    ensures AfterSignatures(committee, Some(p), self, ms) ==
            (Some(p.(endorsers := GoodSigners(committee, p.header, self, ms))), [])
    decreases |ms|
  {
    if ms != [] {
      var n := |ms| - 1;
      assert forall k :: 0 <= k <= n ==> ms[..n][..k] == ms[..k];
      assert ms[..|ms|] == ms;
      hide GoodSigners, IsEnough, AfterSignature;
      LiveWhileNotEnough(committee, p, self, ms[..n]);
      SignatureAdds(committee, p.(endorsers := GoodSigners(committee, p.header, self, ms[..n])), self, ms);
    } else {
      assert p == p.(endorsers := GoodSigners(committee, p.header, self, ms));
    }
  }

  lemma SomeoneSigned(committee: nat -> Committee, header: Certificate, self: Address, ms: seq<Signature>)
    requires IsEnough(committee, header, self, ms)
    ensures ms != []
  {
  }

  lemma EnoughIsNew(committee: nat -> Committee, header: Certificate, self: Address, ms: seq<Signature>, before: seq<Signature>)
    requires IsEnough(committee, header, self, ms) && !IsEnough(committee, header, self, before)
    ensures GoodSigners(committee, header, self, ms) != GoodSigners(committee, header, self, before)
  {
  }

  lemma EnoughCompletes(committee: nat -> Committee, p: Proposal, self: Address, ms: seq<Signature>)
    requires p.endorsers == {} && ms != [] && IsEnough(committee, p.header, self, ms)
    requires forall k :: 0 <= k < |ms| ==> !IsEnough(committee, p.header, self, ms[..k])
    ensures AfterSignatures(committee, Some(p), self, ms) ==
            (None, [p.(endorsers := GoodSigners(committee, p.header, self, ms))])
  {
    hide GoodSigners, IsEnough, AfterSignature;
    var before := ms[..|ms| - 1];
    assert forall k :: 0 <= k <= |before| ==> before[..k] == ms[..k];
    EnoughIsNew(committee, p.header, self, ms, before);
    LiveWhileNotEnough(committee, p, self, before);
    SignatureAdds(committee, p.(endorsers := GoodSigners(committee, p.header, self, before)), self, ms);
    var complete := p.(endorsers := GoodSigners(committee, p.header, self, ms));
    assert AfterSignature(committee, AfterSignatures(committee, Some(p), self, before).0, self, ms[|ms| - 1]) == (None, Some(complete));
    assert [] + [complete] == [complete];
  }

  lemma IgnoredOnceComplete(committee: nat -> Committee, p: Proposal, self: Address, ms: seq<Signature>, done: seq<Proposal>)
    requires ms != [] && AfterSignatures(committee, Some(p), self, ms[..|ms| - 1]) == (None, done)
    ensures AfterSignatures(committee, Some(p), self, ms) == (None, done)
  {
    assert AfterSignature(committee, None, self, ms[|ms| - 1]) == (None, None);
    hide AfterSignature;
  }

  /** As soon as they are enough, the proposal is complete, once, with just those endorsers. Later messages are ignored. */
  lemma {:induction false} CompleteOnceEnough(committee: nat -> Committee, p: Proposal, self: Address, ms: seq<Signature>, n: nat)
    requires p.endorsers == {} && n <= |ms| && IsEnough(committee, p.header, self, ms[..n])
    requires forall k :: 0 <= k < n ==> !IsEnough(committee, p.header, self, ms[..k])
    ensures AfterSignatures(committee, Some(p), self, ms) ==
            (None, [p.(endorsers := GoodSigners(committee, p.header, self, ms[..n]))])
    decreases |ms|
  {
    hide GoodSigners, IsEnough, AfterSignatures;
    SomeoneSigned(committee, p.header, self, ms[..n]);
    if n < |ms| {
      var before := ms[..|ms| - 1];
      assert forall k :: 0 <= k <= n ==> before[..k] == ms[..k];
      CompleteOnceEnough(committee, p, self, before, n);
      IgnoredOnceComplete(committee, p, self, ms, [p.(endorsers := GoodSigners(committee, p.header, self, ms[..n]))]);
    } else {
      assert ms[..n] == ms;
      EnoughCompletes(committee, p, self, ms);
    }
  }

  datatype Decision = Refuse | Resend | Review

  class Primary {
    const address: Address
    const storage: Storage
    const ready: Ready
    var proposal: Option<Proposal>
    var latest: Option<nat>
    var signed: map<Address, (nat, CertificateId)>

    ghost predicate Valid()
      reads this, storage, ready
    {
      && storage.Valid() && ready.Valid()
      && (proposal.Some? ==>
            && latest == Some(proposal.value.header.round)
            && proposal.value.header.author == address
            && proposal.value.header.transmissions == IdsOfEntries(proposal.value.entries))
    }

    ghost function View(): PrimaryState
      reads this, storage
    {
      PrimaryState(storage.currentRound, latest, proposal, signed)
    }

    constructor (address: Address, storage: Storage)
      requires storage.Valid()
      ensures Valid() && this.storage == storage && this.address == address && fresh(ready)
      ensures View() == PrimaryState(storage.currentRound, None, None, map[]) && ready.queue == []
    {
      this.address, this.storage := address, storage;
      proposal, latest, signed := None, None, map[];
      ready := new Ready();
    }

    /** Where a transmission can be found: the ready queue, the live proposal, storage, or the ledger. */
    ghost predicate Findable(t: TransmissionId, ledger: set<TransmissionId>)
      reads this, storage, ready
    {
      || t in IdsIn(ready.queue) || t in ProposalIds(proposal)
      || t in StoredTransmissions(storage.certificates) || t in ledger
    }

    /** Gives the contents of a proposal that was taken away back to the ready queue. */
    method ReinsertContents(entries: seq<Entry>, ledger: set<TransmissionId>)
      requires Valid()
      modifies ready
      ensures Valid()
      ensures ready.queue == Reinserted(old(ready.queue), entries,
                                        ProposalIds(proposal) + StoredTransmissions(storage.certificates) + ledger)
      ensures forall t :: t in IdsIn(entries) ==> Findable(t, ledger)
      ensures forall t :: t in IdsIn(old(ready.queue)) ==> t in IdsIn(ready.queue)
    {
      hide Storage.Valid, IndexAgrees;
      var known := ProposalIds(proposal) + StoredTransmissions(storage.certificates) + ledger;
      ReinsertedFinds(ready.queue, entries, known);
      Reinsert(ready, entries, known);
    }

    /** Drops a proposal of a past round; its contents go back to the queue. */
    method CheckForExpiration(ledger: set<TransmissionId>)
      requires Valid()
      modifies this`proposal, ready
      ensures Valid()
      ensures View() == Expired(old(View())) && Occurs(storage.committee, address, old(View()), Expire, View())
      ensures proposal.Some? ==> proposal.value.header.round >= storage.currentRound
      ensures old(proposal).Some? && old(proposal).value.header.round >= storage.currentRound ==> proposal == old(proposal)
      ensures ready.queue == QueueAfterExpiry(old(View()), old(ready.queue), storage.certificates, ledger)
      ensures forall t :: t in ProposalIds(old(proposal)) ==> Findable(t, ledger)
      ensures forall t :: t in IdsIn(old(ready.queue)) ==> t in IdsIn(ready.queue)
    {
      hide Storage.Valid, IndexAgrees, IdsIn, Reinserted;
      if proposal.Some? && proposal.value.header.round < storage.currentRound {
        var entries := proposal.value.entries;
        proposal := None;
        ReinsertContents(entries, ledger);
        assert {} + StoredTransmissions(storage.certificates) + ledger == StoredTransmissions(storage.certificates) + ledger;
      }
    }

    /** The IDs of the stored certificates of a round, in some order. */
    method IdsForRound(round: nat) returns (ids: seq<CertificateId>)
      requires storage.Valid()
      ensures NoDuplicates(ids)
      ensures forall i :: i in ids <==> i in storage.certificates && storage.certificates[i].round == round
      ensures round == 0 ==> ids == []
    {
      hide Indexed, NonEquivocating, Closed;
      var rest := set i | i in storage.certificates && storage.certificates[i].round == round;
      assert round == 0 ==> rest == {};
      ids := [];
      while rest != {}
        invariant NoDuplicates(ids)
        invariant forall i :: i in ids || i in rest <==> i in storage.certificates && storage.certificates[i].round == round
        invariant forall i :: i in ids ==> i !in rest
        invariant round == 0 ==> ids == [] && rest == {}
        decreases rest
      {
        var i :| i in rest;
        rest := rest - {i};
        ids := ids + [i];
      }
    }

    /** Whether a new proposal may be made now, and if so, what it references. */
    method ReadyToPropose(timely: bool, connected: set<Address>) returns (r: Readiness)
      requires Valid()
      ensures r.ReadyWith? <==>
              CanPropose(storage.committee, storage.certificates, View(), address, timely, connected)
      ensures r.Certified? <==> IsCertified(storage.certificates, View(), address, timely)
      ensures r.ReadyWith? ==>
                ReferencesForRound(storage.committee, storage.certificates, storage.currentRound, r.previous)
    {
      hide IndexAgrees, Indexed, NonEquivocating, Closed, Stake;
      var round := storage.currentRound;
      if latest.Some? && round < latest.value {
        return NotReady;
      }
      if proposal.Some? {
        return NotReady;
      }
      if latest.Some? && !timely {
        return NotReady;
      }
      var certified := storage.ContainsInRoundFrom(round, address);
      if certified {
        return Certified;
      }
      if latest == Some(round) {
        return NotReady;
      }
      var reachable := IsQuorumThresholdReached(storage.committee(round), connected + {address});
      if !reachable {
        return NotReady;
      }
      var ids := IdsForRound(round - 1);
      if round > 1 {
        var authors := AuthorsInRound(storage.certificates, round - 1);
        assert authors == Authors(storage.certificates, ids);
        var enough := IsQuorumThresholdReached(storage.committee(round - 1), authors);
        if !enough {
          return NotReady;
        }
      }
      r := ReadyWith(ids);
    }

    /**
     Proposes a batch for the current round. `timely` says that enough time has passed since the last proposal,
     `connected` who is reachable; `batchId` stands for the hash of the header, whose construction may fail.
     */
    method ProposeBatch(timely: bool, connected: set<Address>, ledger: set<TransmissionId>, checks: Checks,
                        batchId: CertificateId, headerFails: bool)
      returns (outcome: ProposeOutcome)
      requires Valid()
      modifies this`proposal, this`latest, ready
      ensures Valid()
      ensures var s := Expired(old(View()));
              var queue := QueueAfterExpiry(old(View()), old(ready.queue), storage.certificates, ledger);
              var d := Drain(queue, checks, [], 0);
              var can := CanPropose(storage.committee, storage.certificates, s, address, timely, connected);
              && (outcome.AlreadyCertified? <==> IsCertified(storage.certificates, s, address, timely))
              && (outcome.Waiting? <==> !can && !IsCertified(storage.certificates, s, address, timely))
              && (outcome.DrainFailed? <==> can && d.failed)
              && (outcome.HeaderFailed? <==> can && !d.failed && headerFails)
              && (outcome.Waiting? || outcome.AlreadyCertified? ==> View() == s && ready.queue == queue)
              && (outcome.DrainFailed? ==> View() == s && ready.queue == d.rest)
              && (outcome.HeaderFailed? ==> View() == s.(latest := Some(s.round)))
              && (outcome.HeaderFailed? ==> forall t :: t in IdsIn(d.chosen) ==> Findable(t, ledger))
              && (outcome.NewProposal? ==> View() == Proposed(s, outcome.header, d.chosen) && ready.queue == d.rest)
      ensures outcome.NewProposal? ==> outcome.header.id == batchId && proposal.Some?
                                       && Affordable(proposal.value.entries, checks.costOf, checks.limit)
      ensures Occurs(storage.committee, address, old(View()), ProposeEvent(outcome, proposal, storage.certificates), View())
    {
      hide IndexAgrees, Storage.Valid, IdsIn, Drain, Affordable, ReferencesForRound, Expired, CanPropose, QueueAfterExpiry,
           Reinserted, StoredTransmissions, IsCertified, HeaderIsSound;
      CheckForExpiration(ledger);
      var readiness := ReadyToPropose(timely, connected);
      if readiness.Certified? {
        CertifiedCannot(storage.committee, storage.certificates, View(), address, timely, connected);
        return AlreadyCertified;
      }
      if readiness.NotReady? {
        return Waiting;
      }
      CanImpliesMay(storage.committee, storage.certificates, View(), address, timely, connected);
      DrainBounds(ready.queue, checks);
      var drained := DrainReady(ready, checks);
      if drained.Err? {
        return DrainFailed;
      }
      latest := Some(storage.currentRound);
      if headerFails {
        ReinsertContents(drained.value, ledger);
        return HeaderFailed;
      }
      var header := Certificate(batchId, address, storage.currentRound, readiness.previous, IdsOfEntries(drained.value));
      OwnHeaderIsSound(storage.committee, storage.certificates, header);
      proposal := Some(Proposal(header, drained.value, {}));
      outcome := NewProposal(header);
    }

    /**
     Moves storage up to the round before `nextRound`, dropping the live proposal on the way. Its contents are not
     given back, so they stay findable only where they were findable without it.
     */
    method FastForward(nextRound: nat, startingRound: nat, latestBlockRound: nat, ghost ledger: set<TransmissionId>)
      returns (ok: bool)
      requires Valid() && startingRound <= latestBlockRound
      modifies this`proposal, storage`currentRound
      ensures Valid() && storage.currentRound >= old(storage.currentRound)
      ensures !ok ==> storage.currentRound < storage.gcRound
      ensures var forwards := old(storage.currentRound) + storage.maxGcRounds >= nextRound
                              && old(storage.currentRound) + 1 < nextRound;
              && (!forwards ==> ok && View() == old(View()))
              && (forwards && ok ==> View() == old(View()).(round := storage.currentRound, proposal := None)
                                     && storage.currentRound + 1 >= nextRound)
              && (forwards && !ok ==> View() == old(View()).(round := storage.currentRound, proposal := proposal)
                                      && (proposal == None || proposal == old(proposal)))
              && (forwards && ok ==> forall t :: t in ProposalIds(old(proposal)) ==>
                    (Findable(t, ledger) <==>
                     t in IdsIn(ready.queue) || t in StoredTransmissions(storage.certificates) || t in ledger))
      ensures Occurs(storage.committee, address, old(View()),
                     if proposal == old(proposal) then Move(storage.currentRound)
                     else PrimaryEvents.FastForward(storage.currentRound), View())
    {
      hide Indexed, NonEquivocating, Closed, IndexAgrees, IdsIn, StoredTransmissions;
      ok := true;
      if storage.currentRound + storage.maxGcRounds >= nextRound {
        var round := storage.currentRound;
        while round + 1 < nextRound
          invariant Valid() && round <= storage.currentRound
          invariant storage.currentRound >= old(storage.currentRound)
          invariant latest == old(latest) && signed == old(signed)
          invariant round == old(storage.currentRound) ==>
                      proposal == old(proposal) && storage.currentRound == old(storage.currentRound)
          invariant round != old(storage.currentRound) ==> proposal == None && old(storage.currentRound) + 1 < nextRound
          invariant round >= old(storage.currentRound)
          decreases nextRound - round
        {
          var next := storage.IncrementToNextRound(round, startingRound, latestBlockRound);
          if next.Err? {
            return false;
          }
          round := next.value;
          proposal := None;
        }
      }
    }

    /** The checks on a peer's proposal that come before anything is fetched for it. */
    method ReviewProposal(h: Certificate) returns (decision: Decision)
      ensures decision.Review? <==> MaySign(View(), address, h)
      ensures decision.Resend? <==>
              h.author != address && h.author in signed && signed[h.author] == (h.round, h.id)
    {
      if h.author == address {
        return Refuse;
      }
      if h.author in signed {
        var (round, id) := signed[h.author];
        if round > h.round {
          return Refuse;
        }
        if round == h.round && id != h.id {
          return Refuse;
        }
        if round == h.round && id == h.id {
          return Resend;
        }
      }
      decision := Review;
    }

    /** Records a signature, unless one for the same round is recorded already. Only an equal round is refused. */
    method RecordSignature(h: Certificate) returns (recorded: bool)
      modifies this`signed
      ensures recorded <==> !(h.author in old(signed) && old(signed)[h.author].0 == h.round)
      ensures View() == if recorded then Recorded(old(View()), h) else old(View())
    {
      if h.author in signed && signed[h.author].0 == h.round {
        return false;
      }
      signed := signed[h.author := (h.round, h.id)];
      recorded := true;
    }

    /** Whether the primary is still signing for a round. */
    predicate IsSigningRound(round: nat)
      reads this, storage
    {
      && storage.currentRound + storage.maxGcRounds > round
      && storage.currentRound <= round + 1
      && !(proposal.Some? && proposal.value.header.round > round)
    }

    /**
     Handles one proposal of a peer from its review to the record of its signature, with nothing in between. What
     the header references has been fetched; `timely` and `admissible` are the checks on time and contents, and
     `entries` the contents whose cost is checked.
     */
    method HandleProposal(h: Certificate, entries: seq<Entry>, timely: bool, admissible: bool,
                          costOf: Entry -> Option<nat>, limit: nat)
      returns (signs: bool)
      requires Valid()
      modifies this`signed
      ensures Valid()
      ensures signs <==>
                && HeaderIsSound(h) && MaySign(old(View()), address, h)
                && h.round > storage.gcRound
                && timely && admissible && IsSigningRound(h.round)
                && h.id !in storage.certificates && h.author in storage.committee(h.round).members
                && ReferencesPass(storage.committee, storage.certificates, storage.gcRound, h)
                && Affordable(entries, costOf, limit)
      ensures View() == if signs then Recorded(old(View()), h) else old(View())
      ensures signs ==>
                Occurs(storage.committee, address, old(View()), Sign(h, storage.certificates, storage.gcRound), View())
    {
      hide Storage.Valid, IndexAgrees, ReferencesHold, Affordable;
      if !HeaderIsSound(h) {
        return false;
      }
      var decision := ReviewProposal(h);
      if !decision.Review? || !timely {
        return false;
      }
      if h.round <= storage.gcRound {
        return false;
      }
      if !IsSigningRound(h.round) {
        return false;
      }
      var header := storage.CheckBatchHeader(h, admissible);
      if header.Err? || !header.value {
        return false;
      }
      var spend := CheckSpend(entries, costOf, limit);
      if spend.Err? {
        return false;
      }
      signs := RecordSignature(h);
    }

    /**
     Stores the certificate of a proposal that reached a quorum, and passes it on. If storage refuses it, or passing it
     on fails, the contents are given back; in the latter case they are in storage already.
     */
    method Certify(p: Proposal, admissible: bool, callbackFails: bool, ledger: set<TransmissionId>) returns (certified: bool)
      requires Valid() && proposal.None? && p.header.transmissions == IdsOfEntries(p.entries)
      modifies ready, storage`rounds, storage`certificates
      ensures Valid()
      ensures var stores := old(storage.Accepts(p.header, p.endorsers, admissible));
              && (certified <==> stores && !callbackFails)
              && storage.certificates ==
                   (if stores then old(storage.certificates)[p.header.id := p.header] else old(storage.certificates))
              && (stores ==> ready.queue == old(ready.queue))
              && (stores ==> SignersHold(storage.committee(p.header.round), p.header.author, p.endorsers))
      ensures forall t :: t in IdsIn(p.entries) ==> Findable(t, ledger)
    {
      hide Storage.Valid, IndexAgrees, IdsIn, Reinserted, SignersHold, ReferencesHold;
      var inserted := storage.InsertCertificate(p.header, p.endorsers, admissible);
      if inserted.Err? {
        ReinsertContents(p.entries, ledger);
        return false;
      }
      StoredContents(storage.certificates, p);
      if callbackFails {
        KnownStayOut(ready.queue, p.entries, ProposalIds(proposal) + StoredTransmissions(storage.certificates) + ledger);
        ReinsertContents(p.entries, ledger);
        return false;
      }
      certified := true;
    }

    /** Adds a peer's signature to the live proposal; the result is the proposal if it has just reached a quorum. */
    method AddSignature(signer: Address, batchId: CertificateId, verified: bool) returns (complete: Option<Proposal>)
      requires Valid()
      modifies this`proposal
      ensures Valid()
      ensures !TakesSignature(storage.committee, old(proposal), address, signer, batchId, verified) ==>
                complete.None? && proposal == old(proposal)
      ensures TakesSignature(storage.committee, old(proposal), address, signer, batchId, verified) ==>
                var p := Endorsed(old(proposal).value, signer);
                if storage.committee(p.header.round).IsQuorum(p.endorsers + {address})
                then complete == Some(p) && proposal == None
                else complete == None && proposal == Some(p)
      ensures (proposal, complete) == AfterSignature(storage.committee, old(proposal), address, Signature(signer, batchId, verified))
      ensures Leads(storage.committee, address, old(View()),
                    SignatureEvents(storage.committee, old(proposal), address, signer, batchId, verified), View())
    {
      hide Storage.Valid, IndexAgrees, Stake, Leads;
      SignatureLeads(storage.committee, View(), address, signer, batchId, verified);
      complete := None;
      if signer == address || proposal.None? || proposal.value.header.id != batchId {
        return;
      }
      var p := proposal.value;
      var committee := storage.committee(p.header.round);
      if signer !in committee.members || signer in p.endorsers + {address} || !verified {
        return;
      }
      p := p.(endorsers := p.endorsers + {signer});
      proposal := Some(p);
      var reached := IsQuorumThresholdReached(committee, p.endorsers + {address});
      if reached {
        proposal := None;
        complete := Some(p);
      }
    }

    /** Takes a peer's signature, and certifies the proposal once its signers reach a quorum. */
    method ProcessSignature(signer: Address, batchId: CertificateId, verified: bool, admissible: bool, callbackFails: bool,
                            ledger: set<TransmissionId>)
      returns (certified: Option<Certificate>)
      requires Valid()
      modifies this`proposal, ready, storage`rounds, storage`certificates
      ensures Valid()
      ensures latest == old(latest) && signed == old(signed)
      ensures var live := Expired(old(View())).proposal;
              var takes := TakesSignature(storage.committee, live, address, signer, batchId, verified);
              && (!takes ==> certified.None? && proposal == live && storage.certificates == old(storage.certificates))
              && (takes ==>
                    var p := Endorsed(live.value, signer);
                    if !storage.committee(p.header.round).IsQuorum(p.endorsers + {address})
                    then certified.None? && proposal == Some(p) && storage.certificates == old(storage.certificates)
                    else
                      var stores := old(storage.Accepts(p.header, p.endorsers, admissible));
                      && proposal.None?
                      && (certified == if stores && !callbackFails then Some(p.header) else None)
                      && storage.certificates ==
                           if stores then old(storage.certificates)[batchId := p.header] else old(storage.certificates))
      ensures forall t :: t in ProposalIds(old(proposal)) ==> Findable(t, ledger)
      ensures exists m :: Occurs(storage.committee, address, old(View()), Expire, m)
                && Leads(storage.committee, address, m,
                         SignatureEvents(storage.committee, m.proposal, address, signer, batchId, verified), View())
    {
      hide Storage.Valid, IndexAgrees, IdsIn, SignersHold, Stake, Storage.Accepts, QueueAfterExpiry, Leads;
      certified := None;
      CheckForExpiration(ledger);
      var complete := AddSignature(signer, batchId, verified);
      if complete.None? {
        return;
      }
      var stored := Certify(complete.value, admissible, callbackFails, ledger);
      if stored {
        certified := Some(complete.value.header);
      }
    }

    /** Stops the primary and says what to write to disk. */
    method ShutDown() returns (cache: ProposalCache)
      requires Valid()
      modifies this`proposal
      ensures Valid() && cache == Saved(old(View()), address) && CacheIsValid(cache, address)
      ensures View() == old(View()).(proposal := None)
    {
      cache := ProposalCache(
        if proposal.Some? then proposal.value.header.round else if latest.Some? then latest.value else 0,
        proposal, signed, if signed == map[] then {} else {address});
      proposal := None;
    }

    /** Starts from what was written to disk. An invalid cache is refused. */
    method LoadCache(cache: ProposalCache) returns (ok: bool)
      requires Valid()
      requires cache.proposal.Some? ==> cache.proposal.value.header.transmissions == IdsOfEntries(cache.proposal.value.entries)
      modifies this`proposal, this`latest, this`signed
      ensures Valid()
      ensures ok <==> CacheIsValid(cache, address)
      ensures View() == if ok then Loaded(cache, storage.currentRound) else old(View())
      ensures ok ==> forall s :: cache == Saved(s, address) ==>
                       Occurs(storage.committee, address, s, Restart(storage.currentRound), View())
    {
      ok := CacheIsValid(cache, address);
      if ok {
        latest, proposal, signed := Some(cache.latestRound), cache.proposal, cache.signed;
      }
    }

    /** Puts the certificates that were pending at the shutdown back into storage; one that cannot be stored is skipped. */
    method LoadPending(pending: seq<Certificate>, peer: Sync.Peer)
      requires Valid() && Sync.Hashed(peer) && Sync.PartOf(storage.certificates, peer.universe)
      requires forall c :: c in pending ==> Member(peer.universe, c)
      modifies storage`rounds, storage`certificates, storage`gcRound
      ensures Valid() && View() == old(View()) && Sync.PartOf(storage.certificates, peer.universe)
      ensures Sync.Grown(old(storage.certificates), old(storage.gcRound), storage.certificates, storage.gcRound)
      ensures Sync.Helpful(storage.committee, peer) && Sync.Quiet(peer)
              && Sync.LedgerStored(peer, old(storage.certificates), old(storage.gcRound)) ==>
                forall c :: c in pending ==> Sync.Settled(peer.universe, storage.certificates, storage.gcRound, c.id)
    {
      hide Storage.Valid, IndexAgrees, Sync.Helpful, Sync.Grown, Sync.Settled, Sync.LedgerStored, Sync.PartOf, Sync.Hashed;
      ghost var was, wasGc := storage.certificates, storage.gcRound;
      ghost var helpful := Sync.Helpful(storage.committee, peer) && Sync.Quiet(peer) && Sync.LedgerStored(peer, was, wasGc);
      Sync.GrownSame(was, wasGc);
      for k := 0 to |pending|
        invariant Valid() && View() == old(View()) && Sync.PartOf(storage.certificates, peer.universe)
        invariant Sync.Grown(was, wasGc, storage.certificates, storage.gcRound)
        invariant helpful ==> storage.gcRound == wasGc
        invariant helpful ==> forall j :: 0 <= j < k ==>
                    Sync.Settled(peer.universe, storage.certificates, storage.gcRound, pending[j].id)
      {
        ghost var before, gcBefore := storage.certificates, storage.gcRound;
        if helpful {
          Sync.LedgerStays(peer, was, wasGc, before, gcBefore);
        }
        var r := Sync.SyncWithCertificate(storage, peer, pending[k], true);
        Sync.GrownTrans(was, wasGc, before, gcBefore, storage.certificates, storage.gcRound);
        forall j | 0 <= j < k && Sync.Settled(peer.universe, before, gcBefore, pending[j].id)
          ensures Sync.Settled(peer.universe, storage.certificates, storage.gcRound, pending[j].id)
        {
          Sync.SettledStays(peer.universe, before, gcBefore, storage.certificates, storage.gcRound, pending[j].id);
        }
      }
    }
  }

  lemma ReinsertedFinds(queue: seq<Entry>, entries: seq<Entry>, known: set<TransmissionId>)
    ensures forall t :: t in IdsIn(entries) ==> t in known || t in IdsIn(Reinserted(queue, entries, known))
    ensures forall t :: t in IdsIn(queue) ==> t in IdsIn(Reinserted(queue, entries, known))
  {
    ReinsertedKeepsAll(queue, entries, known);
    var after := Reinserted(queue, entries, known);
    forall t | t in IdsIn(entries) ensures t in known || t in IdsIn(after) {
      var k :| 0 <= k < |entries| && entries[k].0 == t;
      assert entries[k] in entries;
    }
    forall t | t in IdsIn(queue) ensures t in IdsIn(after) {
      var k :| 0 <= k < |queue| && queue[k].0 == t;
      assert after[k].0 == t;
    }
  }

  /** What can be found elsewhere is not put back. */
  lemma {:induction false} KnownStayOut(queue: seq<Entry>, entries: seq<Entry>, known: set<TransmissionId>)
    requires IdsIn(entries) <= known
    ensures Reinserted(queue, entries, known) == queue
  {
    if entries != [] {
      var n := |entries| - 1;
      assert entries[n].0 in IdsIn(entries);
      forall t | t in IdsIn(entries[..n]) ensures t in known {
        var k :| 0 <= k < n && entries[..n][k].0 == t;
        assert entries[k].0 in IdsIn(entries);
      }
      KnownStayOut(queue, entries[..n], known);
    }
  }

  /** Once the certificate is stored, so are the contents of the proposal. */
  lemma StoredContents(certificates: Universe, p: Proposal)
    requires p.header.id in certificates && certificates[p.header.id] == p.header
    requires p.header.transmissions == IdsOfEntries(p.entries)
    ensures IdsIn(p.entries) <= StoredTransmissions(certificates)
  {
    forall t | t in IdsIn(p.entries) ensures t in StoredTransmissions(certificates) {
      var k :| 0 <= k < |p.entries| && p.entries[k].0 == t;
      assert p.header.transmissions[k] == t;
      assert t in certificates[p.header.id].transmissions;
    }
  }

  /** What a call of `ProposeBatch` amounts to. */
  function ProposeEvent(outcome: ProposeOutcome, proposal: Option<Proposal>, stored: Universe): Event {
    if outcome.NewProposal? && proposal.Some? then Propose(outcome.header, proposal.value.entries, stored)
    else if outcome.HeaderFailed? then ProposeFailed
    else Expire
  }

  /** A header that references a quorum has references, so its construction does not fail for want of them. */
  lemma OwnHeaderIsSound(committee: nat -> Committee, certificates: Universe, h: Certificate)
    requires ReferencesForRound(committee, certificates, h.round, h.previous)
    requires |h.transmissions| <= MAX_TRANSMISSIONS_PER_BATCH
    ensures HeaderIsSound(h)
  {
    if h.previous == [] {
      assert Authors(certificates, h.previous) == {};
    }
  }

  lemma CertifiedCannot(committee: nat -> Committee, certificates: Universe, s: PrimaryState, self: Address,
                        timely: bool, connected: set<Address>)
    requires IsCertified(certificates, s, self, timely)
    ensures !CanPropose(committee, certificates, s, self, timely, connected)
  {
  }

  lemma CanImpliesMay(committee: nat -> Committee, certificates: Universe, s: PrimaryState, self: Address,
                      timely: bool, connected: set<Address>)
    requires CanPropose(committee, certificates, s, self, timely, connected)
    ensures MayPropose(s)
  {
  }

  lemma DrainBounds(queue: seq<Entry>, checks: Checks)
    ensures |Drain(queue, checks, [], 0).chosen| <= MAX_TRANSMISSIONS_PER_BATCH
    ensures Affordable(Drain(queue, checks, [], 0).chosen, checks.costOf, checks.limit)
  {
    var n, picked := DrainIsBatch(queue, 0, checks, [], 0, []);
    assert queue[0..] == queue;
    DrainIsAffordable(queue, checks);
  }

  /**
   Which rounds a primary signs for: from its own round on, that one included although it has a proposal of it, and also
   for the round before as long as it has none; and not further ahead than the depth of collection.
   */
  lemma SigningRounds(primary: Primary, round: nat)
    requires primary.proposal.Some? ==> primary.proposal.value.header.round == primary.storage.currentRound
    ensures var current := primary.storage.currentRound;
            primary.IsSigningRound(round) <==>
              && (current <= round || (current == round + 1 && primary.proposal.None?))
              && round < current + primary.storage.maxGcRounds
  {
  }
}
