/**
 The state of a primary that matters over its whole life, and the events that change it. The methods of Primary.dfy
 are proved to be such events; PrimaryRuns.dfy says what holds of every sequence of them.
 */
module PrimaryEvents {
  import opened Types
  import opened Committees
  import opened CertificateGraph
  import opened Storages
  import opened ReadyQueue
  import opened Batches

  /** A batch that is waiting for signatures: its header, its contents, and who has endorsed it so far. */
  datatype Proposal = Proposal(header: Certificate, entries: seq<Entry>, endorsers: set<Address>)

  /** `latest` is the round last proposed, `signed` the round and batch last signed for each author. */
  datatype PrimaryState = PrimaryState(
    round: nat,
    latest: Option<nat>,
    proposal: Option<Proposal>,
    signed: map<Address, (nat, CertificateId)>
  )

  /** What is written to disk on a clean shutdown; `signers` are those whose signatures the signed proposals carry. */
  datatype ProposalCache = ProposalCache(
    latestRound: nat, proposal: Option<Proposal>, signed: map<Address, (nat, CertificateId)>, signers: set<Address>)

  function Expired(s: PrimaryState): PrimaryState {
    if s.proposal.Some? && s.proposal.value.header.round < s.round then s.(proposal := None) else s
  }

  /** A new batch may be proposed only in a round above the last one proposed, and one at a time. */
  predicate MayPropose(s: PrimaryState) {
    s.proposal.None? && (s.latest.Some? ==> s.latest.value < s.round)
  }

  function Proposed(s: PrimaryState, header: Certificate, entries: seq<Entry>): PrimaryState {
    s.(latest := Some(s.round), proposal := Some(Proposal(header, entries, {})))
  }

  /** Signing is allowed for other authors, in rounds above the last one signed for them. */
  predicate MaySign(s: PrimaryState, self: Address, header: Certificate) {
    header.author != self && (header.author in s.signed ==> s.signed[header.author].0 < header.round)
  }

  function Recorded(s: PrimaryState, header: Certificate): PrimaryState {
    s.(signed := s.signed[header.author := (header.round, header.id)])
  }

  function Saved(s: PrimaryState, self: Address): ProposalCache {
    ProposalCache(
      if s.proposal.Some? then s.proposal.value.header.round else if s.latest.Some? then s.latest.value else 0,
      s.proposal, s.signed, if s.signed == map[] then {} else {self})
  }

  function Loaded(cache: ProposalCache, round: nat): PrimaryState {
    PrimaryState(round, Some(cache.latestRound), cache.proposal, cache.signed)
  }

  predicate CacheIsValid(cache: ProposalCache, self: Address) {
    && (cache.proposal.Some? ==>
          cache.proposal.value.header.author == self && cache.latestRound == cache.proposal.value.header.round)
    && cache.signers <= {self}
  }

  function Endorsed(p: Proposal, signer: Address): Proposal {
    p.(endorsers := p.endorsers + {signer})
  }

  /** What an own proposal references: the certificates known of the round before, whose authors reach a quorum. */
  ghost predicate ReferencesForRound(committee: nat -> Committee, certificates: Universe, round: nat, ids: seq<CertificateId>) {
    if round <= 1 then ids == []
    else
      && NoDuplicates(ids)
      && (forall i :: i in ids <==> i in certificates && certificates[i].round + 1 == round)
      && committee(round - 1).IsQuorum(Authors(certificates, ids))
  }

  /** What every batch header is checked for when it is built or decoded. */
  predicate HeaderIsSound(h: Certificate) {
    && (h.round <= 1 <==> h.previous == [])
    && |h.transmissions| <= MAX_TRANSMISSIONS_PER_BATCH
  }

  /** `stored` is what storage held at the time, `gcRound` how far it had been collected. */
  datatype Event =
    | Move(round: nat)
    | Expire
    | Propose(header: Certificate, entries: seq<Entry>, stored: Universe)
    | ProposeFailed
    | FastForward(round: nat)
    | Endorse(signer: Address)
    | Certify
    | Sign(header: Certificate, stored: Universe, gcRound: nat)
    | Restart(round: nat)

  /** The references of a header are checked unless the round before it has been collected. */
  ghost predicate ReferencesPass(committee: nat -> Committee, stored: Universe, gcRound: nat, h: Certificate) {
    h.round > gcRound + 1 ==> ReferencesHold(committee, stored, h)
  }

  /** One event of the primary with address `self`. */
  ghost predicate Occurs(committee: nat -> Committee, self: Address, s: PrimaryState, e: Event, t: PrimaryState) {
    match e
    case Move(round) => round >= s.round && t == s.(round := round)
    case Expire => t == Expired(s)
    case Propose(h, entries, stored) =>
      && MayPropose(Expired(s)) && h.author == self && h.round == s.round && HeaderIsSound(h)
      && ReferencesForRound(committee, stored, h.round, h.previous)
      && t == Proposed(Expired(s), h, entries)
    case ProposeFailed => MayPropose(Expired(s)) && t == Expired(s).(latest := Some(s.round))
    case FastForward(round) => round >= s.round && t == s.(round := round, proposal := None)
    case Endorse(signer) => s.proposal.Some? && t == s.(proposal := Some(Endorsed(s.proposal.value, signer)))
    case Certify => t == s.(proposal := None)
    case Sign(h, stored, gcRound) =>
      && MaySign(s, self, h) && h.author in committee(h.round).members && HeaderIsSound(h)
      && s.round <= h.round + 1 && h.round > gcRound
      && ReferencesPass(committee, stored, gcRound, h)
      && t == Recorded(s, h)
    case Restart(round) => t == Loaded(Saved(s, self), round)
  }

  /** Events one after the other. */
  ghost predicate Leads(committee: nat -> Committee, self: Address, s: PrimaryState, events: seq<Event>, t: PrimaryState) {
    if events == [] then s == t
    else
      var n := |events| - 1;
      exists m :: Leads(committee, self, s, events[..n], m) && Occurs(committee, self, m, events[n], t)
  }

  lemma LeadsOne(committee: nat -> Committee, self: Address, s: PrimaryState, e: Event, t: PrimaryState)
    requires Occurs(committee, self, s, e, t)
    ensures Leads(committee, self, s, [e], t)
  {
    hide Occurs;
    assert [e][..0] == [];
    assert Leads(committee, self, s, [e][..0], s);
  }

  lemma LeadsMore(committee: nat -> Committee, self: Address, s: PrimaryState, events: seq<Event>, m: PrimaryState, e: Event,
                  t: PrimaryState)
    requires Leads(committee, self, s, events, m) && Occurs(committee, self, m, e, t)
    ensures Leads(committee, self, s, events + [e], t)
  {
    hide Occurs;
    assert (events + [e])[..|events|] == events;
  }
}
