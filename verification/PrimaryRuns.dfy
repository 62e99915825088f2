/**
 The life of a primary, across restarts: which batches it proposes and which it signs. Rounds only go up, so no
 round is proposed twice, and no author's round is signed twice.
 */
module PrimaryRuns {
  import opened Types
  import opened Committees
  import opened CertificateGraph
  import opened Storages
  import opened ReadyQueue
  import opened PrimaryEvents

  datatype Life = Life(events: seq<Event>, states: seq<PrimaryState>)

  /** A life from a fresh start; `states[k]` is the state before event `k`. */
  ghost predicate IsLife(p: Protocol, self: Address, life: Life) {
    && |life.states| == |life.events| + 1
    && life.states[0].latest.None? && life.states[0].proposal.None? && life.states[0].signed == map[]
    && forall k :: 0 <= k < |life.events| ==> Occurs(p.committee, self, life.states[k], life.events[k], life.states[k + 1])
  }

  /** Whatever the methods of a primary do, one call after the other, is a life: each call adds its events. */
  lemma {:induction false} LifeGoesOn(p: Protocol, self: Address, life: Life, events: seq<Event>, t: PrimaryState)
    returns (longer: Life)
    requires IsLife(p, self, life) && Leads(p.committee, self, life.states[|life.events|], events, t)
    ensures IsLife(p, self, longer) && longer.events == life.events + events && longer.states[|longer.events|] == t
    decreases |events|
  {
    if events == [] {
      longer := life;
      assert life.events + events == life.events;
    } else {
      var n := |events| - 1;
      var m :| Leads(p.committee, self, life.states[|life.events|], events[..n], m)
               && Occurs(p.committee, self, m, events[n], t);
      var before := LifeGoesOn(p, self, life, events[..n], m);
      hide Occurs;
      longer := Life(before.events + [events[n]], before.states + [t]);
      assert longer.events == life.events + events;
    }
  }

  function LatestRound(s: PrimaryState): int {
    if s.latest.Some? then s.latest.value else -1
  }

  function SignedRound(s: PrimaryState, author: Address): int {
    if author in s.signed then s.signed[author].0 else -1
  }

  /** A live proposal is the primary's own, of the round last proposed. */
  ghost predicate ProposalIsLatest(self: Address, s: PrimaryState) {
    s.proposal.Some? ==> s.latest == Some(s.proposal.value.header.round) && s.proposal.value.header.author == self
  }

  lemma StepKeeps(p: Protocol, self: Address, s: PrimaryState, e: Event, t: PrimaryState)
    requires ProposalIsLatest(self, s) && Occurs(p.committee, self, s, e, t)
    ensures ProposalIsLatest(self, t) && LatestRound(s) <= LatestRound(t)
    ensures forall author :: SignedRound(s, author) <= SignedRound(t, author)
  {
  }

  lemma {:induction false} LiveProposalIsLatest(p: Protocol, self: Address, life: Life, k: nat)
    requires IsLife(p, self, life) && k < |life.states|
    ensures ProposalIsLatest(self, life.states[k])
  {
    if k > 0 {
      LiveProposalIsLatest(p, self, life, k - 1);
      StepKeeps(p, self, life.states[k - 1], life.events[k - 1], life.states[k]);
    }
  }

  /** What is written to disk is never behind what was proposed, and is always accepted on the next start. */
  lemma SavedIsLatest(p: Protocol, self: Address, life: Life, k: nat)
    requires IsLife(p, self, life) && k < |life.states|
    ensures Saved(life.states[k], self).latestRound >= LatestRound(life.states[k])
    ensures CacheIsValid(Saved(life.states[k], self), self)
  {
    LiveProposalIsLatest(p, self, life, k);
  }

  /** What another primary has written is accepted just when it has no live proposal and has signed nothing. */
  lemma ForeignCacheIff(p: Protocol, other: Address, life: Life, k: nat, self: Address)
    requires IsLife(p, other, life) && k < |life.states| && other != self
    ensures CacheIsValid(Saved(life.states[k], other), self) <==>
            life.states[k].proposal.None? && life.states[k].signed == map[]
  {
    LiveProposalIsLatest(p, other, life, k);
  }

  lemma {:induction false} RoundsRise(p: Protocol, self: Address, life: Life, j: nat, k: nat)
    requires IsLife(p, self, life) && j <= k < |life.states|
    ensures LatestRound(life.states[j]) <= LatestRound(life.states[k])
    ensures forall author :: SignedRound(life.states[j], author) <= SignedRound(life.states[k], author)
    decreases k
  {
    if j < k {
      RoundsRise(p, self, life, j, k - 1);
      LiveProposalIsLatest(p, self, life, k - 1);
      StepKeeps(p, self, life.states[k - 1], life.events[k - 1], life.states[k]);
    }
  }

  /** Proposals have strictly increasing rounds, through expiry, fast-forwards, certification and restarts. */
  lemma ProposalsIncrease(p: Protocol, self: Address, life: Life, j: nat, k: nat)
    requires IsLife(p, self, life) && j < k < |life.events| && life.events[j].Propose? && life.events[k].Propose?
    ensures life.events[j].header.round < life.events[k].header.round
  {
    hide ReferencesForRound;
    RoundsRise(p, self, life, j + 1, k);
    assert Occurs(p.committee, self, life.states[j], life.events[j], life.states[j + 1]);
    assert Occurs(p.committee, self, life.states[k], life.events[k], life.states[k + 1]);
  }

  /** For each author, the rounds signed strictly increase. */
  lemma SignaturesIncrease(p: Protocol, self: Address, life: Life, j: nat, k: nat)
    requires IsLife(p, self, life) && j < k < |life.events| && life.events[j].Sign? && life.events[k].Sign?
    requires life.events[j].header.author == life.events[k].header.author
    ensures life.events[j].header.round < life.events[k].header.round
  {
    hide ReferencesHold;
    RoundsRise(p, self, life, j + 1, k);
    assert Occurs(p.committee, self, life.states[j], life.events[j], life.states[j + 1]);
    assert Occurs(p.committee, self, life.states[k], life.events[k], life.states[k + 1]);
    assert SignedRound(life.states[j + 1], life.events[j].header.author) == life.events[j].header.round;
  }

  lemma LifeStarts(p: Protocol, self: Address, life: Life)
    requires IsLife(p, self, life)
    ensures |life.states| == |life.events| + 1 && life.states[0].signed == map[]
  {
  }

  lemma LifeStep(p: Protocol, self: Address, life: Life, k: nat)
    requires IsLife(p, self, life) && k < |life.events|
    ensures |life.states| == |life.events| + 1 && Occurs(p.committee, self, life.states[k], life.events[k], life.states[k + 1])
  {
  }

  lemma RecordAfter(p: Protocol, self: Address, s: PrimaryState, e: Event, t: PrimaryState, author: Address)
    requires Occurs(p.committee, self, s, e, t)
    ensures if e.Sign? && e.header.author == author
            then author in t.signed && t.signed[author] == (e.header.round, e.header.id)
            else (author in t.signed <==> author in s.signed) && (author in s.signed ==> t.signed[author] == s.signed[author])
  {
    hide ReferencesHold, ReferencesForRound;
  }

  lemma ProposalAfter(p: Protocol, self: Address, s: PrimaryState, e: Event, t: PrimaryState)
    requires Occurs(p.committee, self, s, e, t) && s.proposal.Some? && s.round <= s.proposal.value.header.round
    requires !e.Certify? && !e.FastForward?
    ensures var before := s.proposal.value;
            t.proposal == Some(before.(endorsers := before.endorsers + if e.Endorse? then {e.signer} else {}))
  {
    hide ReferencesHold, ReferencesForRound;
    assert s.proposal.value.endorsers + {} == s.proposal.value.endorsers;
  }

  /** Event `j` is the last signature for an author before event `k`. */
  ghost predicate LastSigned(life: Life, j: nat, k: nat, author: Address) {
    && j < k <= |life.events| && life.events[j].Sign? && life.events[j].header.author == author
    && forall i :: j < i < k && life.events[i].Sign? ==> life.events[i].header.author != author
  }

  lemma LastSignedBefore(life: Life, k: nat, author: Address)
    requires 0 < k <= |life.events|
    requires !(life.events[k - 1].Sign? && life.events[k - 1].header.author == author)
    ensures forall j: nat :: LastSigned(life, j, k, author) <==> LastSigned(life, j, k - 1, author)
  {
    forall j: nat ensures LastSigned(life, j, k, author) <==> LastSigned(life, j, k - 1, author) {
    }
  }

  /** The record of signatures has, for each author, the round and the ID of the last batch signed, also after restarts. */
  lemma {:induction false} RecordIsLastSigned(p: Protocol, self: Address, life: Life, k: nat, author: Address)
    requires IsLife(p, self, life) && k < |life.states|
    ensures author in life.states[k].signed <==> exists j: nat :: LastSigned(life, j, k, author)
    ensures forall j: nat :: LastSigned(life, j, k, author) ==>
              life.states[k].signed[author] == (life.events[j].header.round, life.events[j].header.id)
  {
    hide IsLife, Occurs;
    LifeStarts(p, self, life);
    if k > 0 {
      RecordIsLastSigned(p, self, life, k - 1, author);
      var e := life.events[k - 1];
      LifeStep(p, self, life, k - 1);
      RecordAfter(p, self, life.states[k - 1], e, life.states[k], author);
      if e.Sign? && e.header.author == author {
        assert LastSigned(life, k - 1, k, author);
      } else {
        LastSignedBefore(life, k, author);
        hide LastSigned;
        if author in life.states[k].signed {
          var j: nat :| LastSigned(life, j, k - 1, author);
          assert LastSigned(life, j, k, author);
        }
      }
    }
  }

  lemma JustProposed(p: Protocol, self: Address, s: PrimaryState, e: Event, t: PrimaryState)
    requires Occurs(p.committee, self, s, e, t) && e.Propose?
    ensures t.proposal == Some(Proposal(e.header, e.entries, {}))
  {
    hide ReferencesForRound;
  }

  /** Nothing between events `j` and `k` ends a proposal of round `round`. */
  ghost predicate Undisturbed(life: Life, j: nat, k: nat, round: nat)
    requires |life.states| == |life.events| + 1 && k < |life.states|
  {
    forall i :: j < i < k ==> !life.events[i].Certify? && !life.events[i].FastForward? && life.states[i].round <= round
  }

  ghost function EndorsersBetween(life: Life, j: nat, k: nat): set<Address>
    requires k <= |life.events|
  {
    set i | j < i < k && life.events[i].Endorse? :: life.events[i].signer
  }

  /** A proposal stays with its contents, and with all that endorse it, until its round is over, also across restarts. */
  lemma {:induction false} ProposalStays(p: Protocol, self: Address, life: Life, j: nat, k: nat)
    requires IsLife(p, self, life) && j < k < |life.states| && life.events[j].Propose?
    requires Undisturbed(life, j, k, life.events[j].header.round)
    ensures life.states[k].proposal ==
            Some(Proposal(life.events[j].header, life.events[j].entries, EndorsersBetween(life, j, k)))
  {
    var e := life.events[k - 1];
    assert Occurs(p.committee, self, life.states[k - 1], e, life.states[k]);
    hide Occurs;
    if j + 1 < k {
      assert Undisturbed(life, j, k - 1, life.events[j].header.round);
      ProposalStays(p, self, life, j, k - 1);
      ProposalAfter(p, self, life.states[k - 1], e, life.states[k]);
      assert EndorsersBetween(life, j, k) ==
             EndorsersBetween(life, j, k - 1) + if e.Endorse? then {e.signer} else {};
    } else {
      assert EndorsersBetween(life, j, k) == {};
      JustProposed(p, self, life.states[j], e, life.states[k]);
    }
  }

  /** The primary put its name to a batch, as its author or as a signer. */
  ghost predicate Vouches(self: Address, life: Life, k: nat, c: Certificate) {
    k < |life.events| && (life.events[k].Propose? || life.events[k].Sign?) && life.events[k].header == c
  }

  /** An honest primary vouches for at most one batch of an author and round. */
  lemma VouchesOnce(p: Protocol, self: Address, life: Life, j: nat, c: Certificate, k: nat, d: Certificate)
    requires IsLife(p, self, life) && Vouches(self, life, j, c) && Vouches(self, life, k, d)
    requires c.author == d.author && c.round == d.round
    ensures c == d
  {
    hide ReferencesHold, ReferencesForRound;
    assert Occurs(p.committee, self, life.states[j], life.events[j], life.states[j + 1]);
    assert Occurs(p.committee, self, life.states[k], life.events[k], life.states[k + 1]);
    assert life.events[j].Propose? <==> life.events[k].Propose?;
    var first, second := if j < k then j else k, if j < k then k else j;
    if first < second {
      if life.events[first].Propose? {
        ProposalsIncrease(p, self, life, first, second);
      } else {
        SignaturesIncrease(p, self, life, first, second);
      }
    }
  }

  /** A record step, taken by itself, refuses only a round that is recorded as the last one. */
  predicate Records(s: PrimaryState, h: Certificate) {
    !(h.author in s.signed && s.signed[h.author].0 == h.round)
  }

  /** What the record steps of handlers that have all been reviewed before leave behind, in the order they happen. */
  function AfterRecords(s: PrimaryState, headers: seq<Certificate>): PrimaryState {
    if headers == [] then s
    else
      var before := AfterRecords(s, headers[..|headers| - 1]);
      var h := headers[|headers| - 1];
      if Records(before, h) then Recorded(before, h) else before
  }

  lemma {:induction false} LastRecorded(s: PrimaryState, headers: seq<Certificate>, author: Address)
    requires forall k :: 0 <= k < |headers| ==> headers[k].author == author
    ensures headers == [] ==> AfterRecords(s, headers) == s
    ensures headers != [] ==>
              var last := headers[|headers| - 1];
              author in AfterRecords(s, headers).signed && AfterRecords(s, headers).signed[author].0 == last.round
  {
    if headers != [] {
      LastRecorded(s, headers[..|headers| - 1], author);
    }
  }

  /**
   Handlers of one author's proposals that overlap, all reviewed before any of them records: once `c` is recorded
   and the handlers of `between` have recorded, another batch `d` of the round of `c` is signed as well if and only
   if the last of them was for another round. This is why one author's proposals have to be handled atomically.
   */
  lemma OverlapSignsTwice(self: Address, s: PrimaryState, c: Certificate, between: seq<Certificate>, d: Certificate)
    requires MaySign(s, self, c) && MaySign(s, self, d)
    requires c.author == d.author && c.round == d.round
    requires forall k :: 0 <= k < |between| ==> between[k].author == c.author && MaySign(s, self, between[k])
    ensures Records(s, c)
    ensures Records(AfterRecords(s, [c] + between), d) <==> between != [] && between[|between| - 1].round != c.round
  {
    LastRecorded(s, [c] + between, c.author);
  }
}
