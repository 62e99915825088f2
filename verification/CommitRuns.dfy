/**
 A validator's run: certificates are stored and filed in the DAG, leaders reach the vote threshold, callers queue on the
 commit lock, walk back, hand subdags to consensus one by one, and collect garbage at the end of each chunk. A validator
 that has fallen behind takes over blocks from its peers, and one that starts again rebuilds its state from its ledger.
 Any interleaving is a run, with rejected callbacks, aborted calls and repeated calls for the same leader.
 */
module CommitRuns {
  import opened Types
  import opened Committees
  import opened CertificateGraph
  import opened Anchors
  import opened Dags
  import opened Views
  import opened Ordering
  import opened Subdags
  import opened Blocks
  import opened DagCommits
  import opened SubdagChecks
  import opened BlockChecks
  import opened BlockAnchors
  import opened Rebuilds
  import opened Storages

  /** A commit call that holds the lock: the anchors still to be committed, oldest first. */
  datatype Flight = Flight(remaining: seq<Certificate>, latest: Certificate, skipConsensus: bool)

  /**
   `ready` holds the leaders that reached the vote threshold; callers may bring each of them to the lock
   any number of times. `accepted` is what consensus turned into blocks.
   */
  datatype Validator = Validator(
    dag: DagState,
    storage: map<CertificateId, Certificate>,
    gcRound: nat,
    ready: set<Certificate>,
    flight: Option<Flight>,
    accepted: seq<Block>
  )

  const GENESIS := Validator(EMPTY_DAG, map[], 0, {}, None, [])

  datatype Action =
    | Store(certificate: Certificate)
    | File(certificate: Certificate)
    | FileSynced(certificate: Certificate)
    | CommitBlock(block: Block)
    | Lock(leader: Certificate)
    | Decide(ledger: set<CertificateId>, accept: bool)
    | Finish
    | Abort
    | Reboot

  /** The authors of a round who reference `leader`, as far as the graph knows. */
  function VotersIn(g: Graph, round: nat, leader: Certificate): set<Address> {
    set a | a in Row(g, round) && leader.id in Row(g, round)[a].previous
  }

  /** The leader that the arrival of `c` makes committable, if any. */
  ghost function Elected(p: Protocol, d: DagState, c: Certificate): Option<Certificate> {
    if c.round < 3 || (c.round - 1) % 2 != 0 || c.round - 1 <= d.lastCommittedRound then None
    else
      match CertificateWithAuthor(d.graph, c.round - 1, p.leader(c.round - 1))
      case None => None
      case Some(leader) =>
        if p.committee(c.round).IsAvailable(VotersIn(d.graph, c.round, leader)) then Some(leader) else None
  }

  /** What `insert_certificate` demands of the references of a certificate. */
  predicate Insertable(v: Validator, c: Certificate) {
    && c.round > v.gcRound
    && c.id !in v.storage
    && (c.round > v.gcRound + 1 ==> forall i :: i in c.previous ==> i in v.storage)
  }

  function WithStored(v: Validator, c: Certificate): Validator {
    v.(storage := v.storage[c.id := c])
  }

  /** Files a certificate in the DAG; this may make a leader ready. */
  ghost function WithFiled(p: Protocol, v: Validator, c: Certificate): Validator {
    var dag := Inserted(v.dag, c);
    var elected := Elected(p, dag, c);
    v.(dag := dag, ready := if elected.Some? then v.ready + {elected.value} else v.ready)
  }

  /** Stored and filed in one go. */
  ghost function Received(p: Protocol, v: Validator, c: Certificate): Validator {
    WithFiled(p, WithStored(v, c), c)
  }

  /** What block sync does with the certificates of a block, once they are stored: no leader is elected. */
  function WithSynced(v: Validator, c: Certificate): Validator {
    v.(dag := Inserted(v.dag, c))
  }

  /** What block sync does with a block that the ledger has taken. */
  ghost function BlockCommitted(p: Protocol, v: Validator, b: Block): Validator {
    v.(dag := CommittedAll(v.dag, Flatten(b.subdag, b.anchor.round + 1), p.maxGcRounds), accepted := v.accepted + [b])
  }

  /** What a start from the ledger makes of a validator: all that is not in a block is gone. */
  ghost function Rebooted(p: Protocol, v: Validator): Validator {
    var gcRound := SaturatingSub(LastRound(AnchorsOf(v.accepted)), p.maxGcRounds);
    var cs := CertificatesOf(Recent(v.accepted, p.maxGcRounds));
    Validator(Refilled(EMPTY_DAG, cs, p.maxGcRounds), Reloaded(gcRound, cs), gcRound, {}, None, v.accepted)
  }

  /** The round in which a validator starts from these blocks. */
  ghost function StartingRound(blocks: seq<Block>): nat {
    if blocks == [] then 1 else LastRound(AnchorsOf(blocks))
  }

  /**
   `b` is the first of some waiting blocks and may be taken. Beyond what is checked, the anchors up to the one with the
   votes succeed one another, and the block is complete: BlockAnchors.AnchorsCommittableIff and
   BlockChecks.TakenIsFoundIff say that without the one or the other these are not the blocks of everyone else.
   */
  ghost predicate IsTaken(p: Protocol, u: Universe, before: seq<Block>, b: Block, pending: seq<Pending>, k: nat) {
    var last := LastRound(AnchorsOf(before));
    && MayBeTaken(p, u, last, pending, k) && pending[0].block == b
    && InSuccession(p, u, last, pending[..k + 1])
    && Complete(u, PastOf(before, p.maxGcRounds), pending[0])
  }

  /** A block that a validator takes over from a peer. */
  ghost predicate IsNextBlock(p: Protocol, u: Universe, v: Validator, b: Block) {
    Keyed(u) && p.maxGcRounds + 1 >= MAX_ROUNDS && exists pending, k: nat :: IsTaken(p, u, v.accepted, b, pending, k)
  }

  /** Every stored certificate above the last committed round is in the DAG. */
  ghost predicate AllFiled(v: Validator) {
    forall c :: StoredIn(v, c) && c.round > v.dag.lastCommittedRound ==> InGraph(v.dag.graph, c)
  }

  /** No leader that walking back from this one over all certificates selects has lost its path in the DAG. */
  ghost predicate SeesWholeWalk(p: Protocol, u: Universe, v: Validator, leader: Certificate) {
    PathsKept(v.dag.graph, WalkBack(p, u, leader, leader.round as int - 2, v.dag.lastCommittedRound + 2) + [leader])
  }

  /** What a caller that takes the lock for a leader has to find: LockCompletesIff says that it can be nothing less. */
  ghost predicate LocksInTime(p: Protocol, u: Universe, v: Validator, leader: Certificate) {
    leader.round > v.dag.lastCommittedRound && !AllFiled(v) ==> SeesWholeWalk(p, u, v, leader)
  }

  ghost function Locked(p: Protocol, v: Validator, leader: Certificate): Validator {
    var last := v.dag.lastCommittedRound;
    if leader.round < last then v
    else
      var walk := LocalWalk(p, v.dag.graph, leader, leader.round as int - 2, last + 2);
      v.(flight := Some(Flight(walk + [leader], leader, leader.round == last)))
  }

  ghost function Decided(p: Protocol, v: Validator, ledger: set<CertificateId>, accept: bool): Validator
    requires v.flight.Some? && v.flight.value.remaining != [] && Keyed(v.storage)
  {
    var f := v.flight.value;
    var anchor := f.remaining[0];
    match OrderDag(Env(v.dag, v.storage, ledger, p.maxGcRounds), anchor)
    case Err(_) => v.(flight := None)
    case Ok(subdag) =>
      if !Passes(subdag, anchor.round) || (!f.skipConsensus && !accept) then v.(flight := None)
      else
        v.(dag := CommittedAll(v.dag, Flatten(subdag, anchor.round + 1), p.maxGcRounds),
           accepted := if f.skipConsensus then v.accepted else v.accepted + [Block(anchor, subdag)],
           flight := Some(f.(remaining := f.remaining[1..])))
  }

  ghost function Finished(p: Protocol, v: Validator): Validator
    requires v.flight.Some?
  {
    var gcRound := SaturatingSub(v.flight.value.latest.round, p.maxGcRounds);
    if gcRound > v.gcRound then v.(storage := KeptAbove(v.storage, gcRound), gcRound := gcRound, flight := None)
    else v.(flight := None)
  }

  ghost predicate Enabled(v: Validator, a: Action) {
    match a
    case Store(c) => Insertable(v, c)
    case File(c) => c.round <= v.gcRound || c.id in v.storage
    case FileSynced(c) => c.round <= v.gcRound || c.id in v.storage
    case CommitBlock(_) => v.flight.None?
    case Lock(leader) => v.flight.None? && leader in v.ready
    case Decide(ledger, _) =>
      && v.flight.Some? && v.flight.value.remaining != [] && Keyed(v.storage)
      && ledger <= DoneIds(v.accepted)
    case Finish => v.flight.Some? && v.flight.value.remaining == []
    case Abort => v.flight.Some?
    case Reboot => true
  }

  ghost function Apply(p: Protocol, v: Validator, a: Action): Validator
    requires Enabled(v, a)
  {
    match a
    case Store(c) => WithStored(v, c)
    case File(c) => WithFiled(p, v, c)
    case FileSynced(c) => WithSynced(v, c)
    case CommitBlock(b) => BlockCommitted(p, v, b)
    case Lock(leader) => Locked(p, v, leader)
    case Decide(ledger, accept) => Decided(p, v, ledger, accept)
    case Finish => Finished(p, v)
    case Abort => v.(flight := None)
    case Reboot => Rebooted(p, v)
  }

  /**
   A run from genesis in which every certificate is one of the universe. A caller that takes the lock finds every stored
   certificate above the last committed round filed, or at least no path lost; UnfiledVote.dfy shows what happens otherwise.
   */
  ghost predicate IsRun(p: Protocol, u: Universe, actions: seq<Action>, v: Validator)
    decreases |actions|
  {
    if actions == [] then v == GENESIS
    else
      var n := |actions| - 1;
      exists w :: IsRun(p, u, actions[..n], w) && Moves(p, u, w, actions[n], v)
  }

  ghost predicate Moves(p: Protocol, u: Universe, w: Validator, a: Action, v: Validator) {
    MovesFreely(p, u, w, a, v) && (a.Lock? ==> LocksInTime(p, u, w, a.leader))
  }

  ghost predicate MovesFreely(p: Protocol, u: Universe, w: Validator, a: Action, v: Validator) {
    && Enabled(w, a)
    && (a.Store? || a.File? || a.FileSynced? ==> Member(u, a.certificate))
    && (a.CommitBlock? ==> IsNextBlock(p, u, w, a.block))
    && v == Apply(p, w, a)
  }

  lemma RunExtends(p: Protocol, u: Universe, actions: seq<Action>, w: Validator, a: Action, v: Validator)
    requires IsRun(p, u, actions, w) && Moves(p, u, w, a, v)
    ensures IsRun(p, u, actions + [a], v)
  {
    assert (actions + [a])[..|actions|] == actions;
  }

  /** A certificate that is stored and filed in one go takes two steps. */
  lemma ReceiveIsRun(p: Protocol, u: Universe, actions: seq<Action>, v: Validator, c: Certificate)
    requires IsRun(p, u, actions, v) && Insertable(v, c) && Member(u, c)
    ensures IsRun(p, u, actions + [Store(c)] + [File(c)], Received(p, v, c))
  {
    hide IsRun, Elected, Inserted, Insertable;
    var w := WithStored(v, c);
    RunExtends(p, u, actions, v, Store(c), w);
    RunExtends(p, u, actions + [Store(c)], w, File(c), WithFiled(p, w, c));
  }

  /* The invariant. */

  ghost predicate StoredIn(v: Validator, c: Certificate) {
    c.id in v.storage && v.storage[c.id] == c
  }

  /** Storage is a part of the universe, closed under references above the collected rounds. */
  ghost predicate StorageInv(u: Universe, v: Validator) {
    && (forall i :: i in v.storage ==> i in u && v.storage[i] == u[i] && u[i].round > v.gcRound)
    && (forall c, i :: StoredIn(v, c) && c.round > v.gcRound + 1 && i in c.previous ==> i in v.storage)
  }

  /** Above the cutoff the graph holds only what storage holds. */
  ghost predicate GraphInv(p: Protocol, u: Universe, v: Validator) {
    && Faithful(u, v.dag.graph)
    && forall c :: InGraph(v.dag.graph, c) && c.round + p.maxGcRounds > v.dag.lastCommittedRound ==> StoredIn(v, c)
  }

  /** The recently committed IDs are those of the blocks, as far down as the cutoff. */
  ghost predicate IdsInv(p: Protocol, u: Universe, v: Validator) {
    forall r: nat, i: CertificateId :: IsRecentlyCommitted(v.dag, r, i) <==>
      && r + p.maxGcRounds > v.dag.lastCommittedRound
      && i in DoneIds(v.accepted) && i in u && u[i].round == r
  }

  /** The blocks commit what those of the anchors do, and the anchors could have been committed by anyone. */
  ghost predicate LedgerInv(p: Protocol, u: Universe, v: Validator) {
    && Keyed(u)
    && SameDone(v.accepted, BlocksOf(u, p.maxGcRounds, AnchorsOf(v.accepted)))
    && Shaped(u, v.accepted)
    && Committable(p, u, AnchorsOf(v.accepted))
    && v.dag.lastCommittedRound == LastRound(AnchorsOf(v.accepted))
  }

  /** Every block is made of certificates that are filed by round, and holds its anchor on top. */
  ghost predicate Shaped(u: Universe, blocks: seq<Block>) {
    forall k :: 0 <= k < |blocks| ==> IsShaped(u, blocks[k])
  }

  ghost predicate IsShaped(u: Universe, b: Block) {
    && IsPartOf(u, b.subdag) && RowsBelow(b) && InSubdag(b.subdag, b.anchor)
  }

  ghost predicate GcInv(p: Protocol, v: Validator) {
    v.gcRound == 0 || v.gcRound + p.maxGcRounds <= v.dag.lastCommittedRound
  }

  ghost predicate ReadyInv(p: Protocol, u: Universe, v: Validator) {
    forall l :: l in v.ready ==> Direct(p, u, l) && (l.round > v.gcRound ==> StoredIn(v, l))
  }

  ghost predicate FlightInv(p: Protocol, u: Universe, v: Validator) {
    v.flight.Some? ==>
      var f := v.flight.value;
      var anchors := AnchorsOf(v.accepted);
      && Direct(p, u, f.latest)
      && (forall a :: a in f.remaining ==> StoredIn(v, a))
      && if f.skipConsensus
         then anchors != [] && anchors[|anchors| - 1] == f.latest && (f.remaining == [] || f.remaining == [f.latest])
         else anchors + f.remaining == Chain(p, u, f.latest)
  }

  ghost predicate Inv(p: Protocol, u: Universe, v: Validator) {
    && StorageInv(u, v)
    && GraphInv(p, u, v)
    && IdsInv(p, u, v)
    && LedgerInv(p, u, v)
    && GcInv(p, v)
    && ReadyInv(p, u, v)
    && FlightInv(p, u, v)
  }

  lemma GenesisInv(p: Protocol, u: Universe)
    requires WellFormed(p, u)
    ensures Inv(p, u, GENESIS)
  {
    hide CertificateValid;
    assert AnchorsOf([]) == [];
  }

  /** The view is closed backwards above the last committed round. */
  lemma ViewIsClosed(p: Protocol, u: Universe, v: Validator)
    requires WellFormed(p, u) && p.maxGcRounds >= 1
    requires StorageInv(u, v) && GraphInv(p, u, v) && GcInv(p, v) && AllFiled(v)
    ensures ClosedAbove(u, v.dag.graph, v.dag.lastCommittedRound)
  {
    hide Faithful;
    forall c, i | InGraph(v.dag.graph, c) && c.round > v.dag.lastCommittedRound + 1 && i in c.previous
      ensures i in u && InGraph(v.dag.graph, u[i])
    {
      assert StoredIn(v, c);
      assert i in v.storage;
      ParentInUniverse(p, u, c, i);
      assert StoredIn(v, u[i]);
    }
  }

  /** Whatever the search asks for is at hand: the cutoff of the search is never below that of storage. */
  lemma SearchIsServed(p: Protocol, u: Universe, v: Validator, ledger: set<CertificateId>)
    requires WellFormed(p, u) && p.maxGcRounds >= 1 && Inv(p, u, v) && ledger <= DoneIds(v.accepted)
    ensures Serves(u, PastOf(v.accepted, p.maxGcRounds), Env(v.dag, v.storage, ledger, p.maxGcRounds))
  {
    var env := Env(v.dag, v.storage, ledger, p.maxGcRounds);
    hide CertificateValid, BlocksOf, ReadyInv, FlightInv, Committable;
    forall c, i | Stored(env, c) && i in c.previous && !BelowCutoff(env, c)
      ensures Answers(u, PastOf(v.accepted, p.maxGcRounds), env, c, i)
    {
      ReferenceIsAnswered(p, u, v, ledger, c, i);
    }
  }

  lemma ReferenceIsAnswered(p: Protocol, u: Universe, v: Validator, ledger: set<CertificateId>, c: Certificate, i: CertificateId)
    requires WellFormed(p, u) && p.maxGcRounds >= 1 && ledger <= DoneIds(v.accepted)
    requires StorageInv(u, v) && GraphInv(p, u, v) && IdsInv(p, u, v) && GcInv(p, v) && Keyed(v.storage)
    requires StoredIn(v, c) && i in c.previous
    requires !BelowCutoff(Env(v.dag, v.storage, ledger, p.maxGcRounds), c)
    ensures Answers(u, PastOf(v.accepted, p.maxGcRounds), Env(v.dag, v.storage, ledger, p.maxGcRounds), c, i)
  {
    ReferenceIsStored(p, u, v, c, i);
    CommittedIsKnown(p, u, v, ledger, i);
    LookupFinds(u, v, Env(v.dag, v.storage, ledger, p.maxGcRounds), PreviousRound(c), i);
    hide WellFormed, StorageInv, IdsInv, GraphInv, Lookup, AlreadyCommitted;
  }

  lemma ReferenceIsStored(p: Protocol, u: Universe, v: Validator, c: Certificate, i: CertificateId)
    requires WellFormed(p, u) && StorageInv(u, v) && GcInv(p, v)
    requires StoredIn(v, c) && i in c.previous
    requires PreviousRound(c) + p.maxGcRounds > v.dag.lastCommittedRound
    ensures i in v.storage && i in u && v.storage[i] == u[i] && u[i].round == PreviousRound(c)
  {
    ParentInUniverse(p, u, c, i);
  }

  lemma CommittedIsKnown(p: Protocol, u: Universe, v: Validator, ledger: set<CertificateId>, i: CertificateId)
    requires IdsInv(p, u, v) && ledger <= DoneIds(v.accepted)
    requires i in u && u[i].round + p.maxGcRounds > v.dag.lastCommittedRound
    ensures AlreadyCommitted(Env(v.dag, v.storage, ledger, p.maxGcRounds), u[i].round, i) <==> i in DoneIds(v.accepted)
  {
  }

  lemma LookupFinds(u: Universe, v: Validator, env: Env, round: nat, i: CertificateId)
    requires Keyed(u) && Keyed(v.storage) && env.dag == v.dag && env.storage == v.storage
    requires Faithful(u, v.dag.graph) && i in u && i in v.storage && v.storage[i] == u[i]
    ensures Lookup(env, round, i) == Some(u[i])
  {
    var row := Row(v.dag.graph, round);
    forall a | a in row && row[a].id == i ensures row[a] == u[i] {
      assert InGraph(v.dag.graph, row[a]);
    }
  }

  /** What the blocks have committed is of rounds up to the last anchor, and closed under references above the cutoff. */
  lemma LedgerPast(p: Protocol, u: Universe, v: Validator)
    requires WellFormed(p, u) && p.maxGcRounds >= 1 && LedgerInv(p, u, v)
    ensures PastValid(u, PastOf(v.accepted, p.maxGcRounds))
  {
    hide WellFormed, BlocksOf, Committable, SameDone, PastValid, Shaped;
    var anchors := AnchorsOf(v.accepted);
    CommittableShape(p, u, anchors);
    PastIsValid(p, u, p.maxGcRounds, anchors);
    SameDoneAll(v.accepted, BlocksOf(u, p.maxGcRounds, anchors), p.maxGcRounds);
  }

  lemma InsertKeepsGraph(p: Protocol, u: Universe, d: DagState, c: Certificate)
    requires WellFormed(p, u) && Faithful(u, d.graph) && Member(u, c) && !IsRecentlyCommitted(d, c.round, c.id)
    ensures Faithful(u, Inserted(d, c).graph)
    ensures forall x :: InGraph(Inserted(d, c).graph, x) <==> InGraph(d.graph, x) || x == c
  {
    InsertGraph(d, c);
    hide Filed, InGraph, Inserted, CertificateValid;
    forall x | InGraph(d.graph, x) && x.round == c.round && x.author == c.author ensures x == c {
      assert SameSlot(u, x.id, c.id);
    }
  }

  /**
   Filing a certificate in the DAG keeps the view closed just when what it references is filed already. Storing comes
   first, and filing later: a certificate filed while one that it references is stored but not yet filed is the step
   that breaks closure.
   */
  lemma FilingKeepsClosedIff(p: Protocol, u: Universe, d: DagState, c: Certificate)
    requires WellFormed(p, u) && Faithful(u, d.graph) && ClosedAbove(u, d.graph, d.lastCommittedRound)
    requires Member(u, c) && !InGraph(d.graph, c) && !IsRecentlyCommitted(d, c.round, c.id)
    ensures ClosedAbove(u, Inserted(d, c).graph, d.lastCommittedRound) <==>
            (c.round > d.lastCommittedRound + 1 ==> forall i :: i in c.previous && i in u ==> InGraph(d.graph, u[i]))
  {
    hide CertificateValid, Inserted, Faithful, InGraph;
    InsertKeepsGraph(p, u, d, c);
    var last, g := d.lastCommittedRound, Inserted(d, c).graph;
    assert InGraph(g, c);
    forall i | i in c.previous ensures i in u && u[i] != c {
      ParentInUniverse(p, u, c, i);
    }
    if c.round > last + 1 && ClosedAbove(u, g, last) {
      forall i | i in c.previous ensures InGraph(d.graph, u[i]) {
        ReferenceInGraph(u, g, last, c, i);
      }
    }
  }

  /** `v'` is `v` with one more stored certificate. */
  ghost predicate Stores(v: Validator, c: Certificate, v': Validator) {
    && v'.gcRound == v.gcRound && v'.flight == v.flight && v'.accepted == v.accepted
    && forall x :: StoredIn(v', x) <==> StoredIn(v, x) || x == c
  }

  lemma WithStoredStores(v: Validator, c: Certificate)
    requires Insertable(v, c)
    ensures Stores(v, c, WithStored(v, c))
  {
  }

  lemma StoreInv(p: Protocol, u: Universe, v: Validator, c: Certificate)
    requires WellFormed(p, u) && Inv(p, u, v) && Member(u, c) && Insertable(v, c)
    ensures Inv(p, u, WithStored(v, c))
  {
    hide CertificateValid, SoundCommittees, NonEquivocating, StorageInv, ReadyInv, FlightInv, IdsInv, LedgerInv, GcInv, Insertable,
         Faithful, InGraph, StoredIn;
    var v' := WithStored(v, c);
    WithStoredStores(v, c);
    ReceiveStorageInv(u, v, c, v');
    ReadyGrows(p, u, v, c, v', None);
    FlightKept(p, u, v, c, v');
    BlocksKept(p, u, v, v');
  }

  /** A certificate is filed once it is stored, or when it is too old for storage. */
  lemma FileGraphInv(p: Protocol, u: Universe, v: Validator, c: Certificate, dag: DagState)
    requires WellFormed(p, u) && p.maxGcRounds >= 1 && Member(u, c) && StorageInv(u, v) && GraphInv(p, u, v) && GcInv(p, v)
    requires (c.round <= v.gcRound || c.id in v.storage) && dag == Inserted(v.dag, c)
    ensures GraphInv(p, u, v.(dag := dag))
  {
    assert CertificateValid(p, u, c);
    hide WellFormed, CertificateValid, Inserted, Faithful, InGraph;
    var v' := v.(dag := dag);
    InsertKeepsRest(v.dag, c);
    if IsRecentlyCommitted(v.dag, c.round, c.id) {
      SameIfCommitted(v.dag, c);
    } else {
      InsertKeepsGraph(p, u, v.dag, c);
    }
    assert forall x :: StoredIn(v', x) <==> StoredIn(v, x);
    assert c.round + p.maxGcRounds > v.dag.lastCommittedRound ==> StoredIn(v, c);
  }

  lemma SameIfCommitted(d: DagState, c: Certificate)
    requires IsRecentlyCommitted(d, c.round, c.id)
    ensures Inserted(d, c) == d
  {
  }

  /** The voters a validator sees are among the voters there are. */
  lemma ElectedIsDirect(p: Protocol, u: Universe, d: DagState, c: Certificate)
    requires WellFormed(p, u) && Faithful(u, d.graph) && Elected(p, d, c).Some?
    ensures var l := Elected(p, d, c).value;
            Direct(p, u, l) && InGraph(d.graph, l) && l.round > d.lastCommittedRound
  {
    hide WellFormed, Stake, VotersIn, Votes, Filed;
    var l := Elected(p, d, c).value;
    FoundIsInGraph(d.graph, c.round - 1, p.leader(c.round - 1));
    VotersAreVotes(u, d.graph, c.round, l);
    StakeMonotone(p.committee(c.round).members, VotersIn(d.graph, c.round, l), Votes(u, l));
  }

  /** The graph holds a certificate of author `a` in the next round that references `l`. */
  ghost predicate IsVoter(g: Graph, l: Certificate, a: Address) {
    exists y :: InGraph(g, y) && y.round == l.round + 1 && y.author == a && l.id in y.previous
  }

  ghost predicate AreVoters(g: Graph, l: Certificate, voters: set<Address>) {
    forall a :: a in voters <==> IsVoter(g, l, a)
  }

  lemma VotersAre(g: Graph, l: Certificate, voters: set<Address>)
    requires Filed(g)
    ensures AreVoters(g, l, voters) <==> voters == VotersIn(g, l.round + 1, l)
  {
    forall a ensures a in VotersIn(g, l.round + 1, l) <==> IsVoter(g, l, a) {
      if a in VotersIn(g, l.round + 1, l) {
        assert InGraph(g, g[l.round + 1][a]);
      }
    }
  }

  /** The leader can be committed directly as far as the graph shows. */
  ghost predicate IsDirectIn(p: Protocol, g: Graph, l: Certificate) {
    && l.round >= 2 && l.round % 2 == 0 && l.author == p.leader(l.round) && InGraph(g, l)
    && exists voters :: AreVoters(g, l, voters) && p.committee(l.round + 1).IsAvailable(voters)
  }

  lemma ElectedIff(p: Protocol, d: DagState, c: Certificate, l: Certificate)
    requires Filed(d.graph)
    ensures Elected(p, d, c) == Some(l) <==> l.round + 1 == c.round && l.round > d.lastCommittedRound && IsDirectIn(p, d.graph, l)
  {
    assert l.round + 1 == c.round && InGraph(d.graph, l) && l.author == p.leader(l.round) ==>
        CertificateWithAuthor(d.graph, c.round - 1, p.leader(c.round - 1)) == Some(l);
    if c.round >= 1 && CertificateWithAuthor(d.graph, c.round - 1, p.leader(c.round - 1)).Some? {
      FoundIsInGraph(d.graph, c.round - 1, p.leader(c.round - 1));
    }
    hide Filed, InGraph, AreVoters, VotersIn, CertificateWithAuthor, Committee.IsAvailable;
    VotersAre(d.graph, l, VotersIn(d.graph, l.round + 1, l));
    forall voters | AreVoters(d.graph, l, voters) ensures voters == VotersIn(d.graph, l.round + 1, l) {
      VotersAre(d.graph, l, voters);
    }
  }

  /** Filing a certificate makes just that leader ready which it may vote for, if the graph then shows it to be direct. */
  lemma FiledReadyIff(p: Protocol, v: Validator, c: Certificate, l: Certificate)
    requires Filed(v.dag.graph)
    ensures var w := WithFiled(p, v, c);
            l in w.ready <==>
              || l in v.ready
              || (l.round + 1 == c.round && l.round > v.dag.lastCommittedRound && IsDirectIn(p, w.dag.graph, l))
  {
    assert Filed(Inserted(v.dag, c).graph) by {
      if !IsRecentlyCommitted(v.dag, c.round, c.id) {
        InsertGraph(v.dag, c);
      }
    }
    InsertKeepsRest(v.dag, c);
    hide Inserted, Filed, IsDirectIn, Elected;
    ElectedIff(p, Inserted(v.dag, c), c, l);
  }

  lemma FoundIsInGraph(g: Graph, round: nat, author: Address)
    requires Filed(g) && CertificateWithAuthor(g, round, author).Some?
    ensures var c := CertificateWithAuthor(g, round, author).value; InGraph(g, c) && c.round == round && c.author == author
  {
  }

  lemma VotersAreVotes(u: Universe, g: Graph, round: nat, l: Certificate)
    requires Faithful(u, g) && round == l.round + 1
    ensures VotersIn(g, round, l) <= Votes(u, l)
  {
    forall a | a in VotersIn(g, round, l) ensures a in Votes(u, l) {
      var vote := Row(g, round)[a];
      assert InGraph(g, vote) && u[vote.id] == vote;
    }
  }

  lemma ReceiveStorageInv(u: Universe, v: Validator, c: Certificate, v': Validator)
    requires StorageInv(u, v) && Member(u, c) && Insertable(v, c) && Keyed(u)
    requires v'.gcRound == v.gcRound && v'.storage == v.storage[c.id := c]
    ensures StorageInv(u, v')
  {
  }

  lemma FlightKept(p: Protocol, u: Universe, v: Validator, c: Certificate, v': Validator)
    requires FlightInv(p, u, v) && Stores(v, c, v')
    ensures FlightInv(p, u, v')
  {
    hide StoredIn, Direct, Chain;
  }

  lemma ReadyGrows(p: Protocol, u: Universe, v: Validator, c: Certificate, v': Validator, elected: Option<Certificate>)
    requires ReadyInv(p, u, v) && Stores(v, c, v')
    requires v'.ready == if elected.Some? then v.ready + {elected.value} else v.ready
    requires elected.Some? ==> Direct(p, u, elected.value) && StoredIn(v', elected.value)
    ensures ReadyInv(p, u, v')
  {
    hide StoredIn, Direct;
  }

  /** A leader that a filed certificate makes ready has its votes, and is stored. */
  lemma FileReadyInv(p: Protocol, u: Universe, v: Validator, c: Certificate)
    requires WellFormed(p, u) && p.maxGcRounds >= 1 && ReadyInv(p, u, v) && GraphInv(p, u, WithFiled(p, v, c))
    ensures ReadyInv(p, u, WithFiled(p, v, c))
  {
    hide WellFormed, Direct, Elected, Inserted, InGraph, Faithful;
    var v' := WithFiled(p, v, c);
    assert forall x :: StoredIn(v', x) <==> StoredIn(v, x);
    if Elected(p, v'.dag, c).Some? {
      ElectedIsDirect(p, u, v'.dag, c);
      assert StoredIn(v', Elected(p, v'.dag, c).value);
    }
  }

  /** Nothing about the blocks changes. */
  lemma BlocksKept(p: Protocol, u: Universe, v: Validator, v': Validator)
    requires IdsInv(p, u, v) && LedgerInv(p, u, v) && GcInv(p, v)
    requires v'.accepted == v.accepted && v'.gcRound == v.gcRound
    requires v'.dag.lastCommittedRound == v.dag.lastCommittedRound
    requires v'.dag.recentCommittedIds == v.dag.recentCommittedIds
    ensures IdsInv(p, u, v') && LedgerInv(p, u, v') && GcInv(p, v')
  {
    hide BlocksOf, Committable;
    assert forall r, i :: IsRecentlyCommitted(v'.dag, r, i) <==> IsRecentlyCommitted(v.dag, r, i);
  }

  lemma FileInv(p: Protocol, u: Universe, v: Validator, c: Certificate)
    requires WellFormed(p, u) && p.maxGcRounds >= 1 && Inv(p, u, v) && Member(u, c)
    requires c.round <= v.gcRound || c.id in v.storage
    ensures Inv(p, u, WithFiled(p, v, c))
  {
    hide WellFormed, StorageInv, GraphInv, ReadyInv, FlightInv, IdsInv, LedgerInv, GcInv, Elected, Inserted;
    var v' := WithFiled(p, v, c);
    FileGraphInv(p, u, v, c, v'.dag);
    SameGraph(p, u, v.(dag := v'.dag), v');
    FileReadyInv(p, u, v, c);
    SameStorage(p, u, v, v');
    InsertKeepsRest(v.dag, c);
    BlocksKept(p, u, v, v');
  }

  lemma SameGraph(p: Protocol, u: Universe, v: Validator, v': Validator)
    requires GraphInv(p, u, v) && v'.dag == v.dag && v'.storage == v.storage
    ensures GraphInv(p, u, v')
  {
    hide Faithful, InGraph;
    assert forall c :: StoredIn(v', c) <==> StoredIn(v, c);
  }

  lemma SameStorage(p: Protocol, u: Universe, v: Validator, v': Validator)
    requires StorageInv(u, v) && FlightInv(p, u, v)
    requires v'.storage == v.storage && v'.gcRound == v.gcRound && v'.flight == v.flight && v'.accepted == v.accepted
    ensures StorageInv(u, v') && FlightInv(p, u, v')
  {
    hide Direct, Chain;
    assert forall c :: StoredIn(v', c) <==> StoredIn(v, c);
  }

  /** Filing without an election. */
  lemma FileSyncedInv(p: Protocol, u: Universe, v: Validator, c: Certificate)
    requires WellFormed(p, u) && p.maxGcRounds >= 1 && Inv(p, u, v) && Member(u, c)
    requires c.round <= v.gcRound || c.id in v.storage
    ensures Inv(p, u, WithSynced(v, c))
  {
    hide WellFormed, StorageInv, GraphInv, FlightInv, IdsInv, LedgerInv, GcInv, Inserted, Direct;
    var v' := WithSynced(v, c);
    FileGraphInv(p, u, v, c, v'.dag);
    SameStorage(p, u, v, v');
    InsertKeepsRest(v.dag, c);
    BlocksKept(p, u, v, v');
    assert forall x :: StoredIn(v', x) <==> StoredIn(v, x);
  }

  /* A caller obtains the lock. */

  /** The walk selects just the anchors that are missing from the chain of the leader if and only if it sees all paths. */
  lemma LockCompletesIff(p: Protocol, u: Universe, v: Validator, leader: Certificate)
    requires WellFormed(p, u) && Inv(p, u, v) && Direct(p, u, leader) && leader.round > v.dag.lastCommittedRound
    ensures var locked := Locked(p, v, leader);
            && locked.flight.Some?
            && (AnchorsOf(v.accepted) + locked.flight.value.remaining == Chain(p, u, leader) <==> SeesWholeWalk(p, u, v, leader))
  {
    hide WellFormed, StorageInv, IdsInv, ReadyInv, FlightInv, Chain, WalkBack, LocalWalk, BlocksOf, Committable, GcInv, SameDone, Shaped,
         Filed, PathsKept;
    var anchors, g, last, round := AnchorsOf(v.accepted), v.dag.graph, v.dag.lastCommittedRound, leader.round as int - 2;
    var walk, local := WalkBack(p, u, leader, round, last + 2), LocalWalk(p, g, leader, round, last + 2);
    CommittableShape(p, u, anchors);
    ChainResumes(p, u, anchors, leader);
    LocalWalkKeepsPaths(p, g, leader, round, last + 2);
    if SeesWholeWalk(p, u, v, leader) {
      LocalWalkFollows(p, u, g, leader, round, last + 2);
    }
    if anchors + (local + [leader]) == anchors + (walk + [leader]) {
      CancelPrefix(anchors, local + [leader], walk + [leader]);
    }
  }

  lemma CancelPrefix<T>(a: seq<T>, b: seq<T>, c: seq<T>)
    requires a + b == a + c
    ensures b == c
  {
    assert b == (a + b)[|a|..] == (a + c)[|a|..] == c;
  }

  /** If every stored certificate is filed, the walk sees all paths. */
  lemma FiledSeesWholeWalk(p: Protocol, u: Universe, v: Validator, leader: Certificate)
    requires WellFormed(p, u) && p.maxGcRounds >= 1 && Inv(p, u, v) && Direct(p, u, leader) && StoredIn(v, leader)
    requires leader.round > v.dag.lastCommittedRound && AllFiled(v)
    ensures SeesWholeWalk(p, u, v, leader)
  {
    hide WellFormed, StorageInv, GraphInv, IdsInv, ReadyInv, FlightInv, WalkBack, LocalWalk, BlocksOf, Committable,
         ClosedAbove, Faithful, GcInv, AllFiled, SameDone, Shaped, PathsKept;
    var last, g := v.dag.lastCommittedRound, v.dag.graph;
    CommittableShape(p, u, AnchorsOf(v.accepted));
    ViewIsClosed(p, u, v);
    StoredIsInGraph(p, u, v, leader);
    LocalWalkIsWalkBack(p, u, g, last, leader, leader.round as int - 2);
    LocalWalkKeepsPaths(p, g, leader, leader.round as int - 2, last + 2) by { GraphIsFiled(p, u, v); }
  }

  lemma StoredIsInGraph(p: Protocol, u: Universe, v: Validator, c: Certificate)
    requires GraphInv(p, u, v) && StoredIn(v, c) && c.round > v.dag.lastCommittedRound && AllFiled(v)
    ensures InGraph(v.dag.graph, c) && Faithful(u, v.dag.graph)
  {
  }

  /** The walk picks certificates of the graph above the last committed round, which are stored. */
  lemma {:induction false} WalkIsInGraph(p: Protocol, g: Graph, current: Certificate, round: int, floor: nat)
    requires Filed(g) && floor >= 2
    ensures var walk := LocalWalk(p, g, current, round, floor);
            forall a :: a in walk ==> InGraph(g, a) && a.round >= floor
    decreases round
  {
    hide LinkedIn, Filed, InGraph, CertificateWithAuthor;
    if round >= floor {
      var leader := CertificateWithAuthor(g, round, p.leader(round));
      if leader.Some? && LinkedIn(g, current, leader.value) {
        FoundIsInGraph(g, round, p.leader(round));
        WalkIsInGraph(p, g, leader.value, round - 2, floor);
      } else {
        WalkIsInGraph(p, g, current, round - 2, floor);
      }
    }
  }

  lemma WalkIsStored(p: Protocol, u: Universe, v: Validator, leader: Certificate)
    requires GraphInv(p, u, v) && StoredIn(v, leader)
    ensures var walk := LocalWalk(p, v.dag.graph, leader, leader.round as int - 2, v.dag.lastCommittedRound + 2);
            forall a :: a in walk + [leader] ==> StoredIn(v, a)
  {
    hide LocalWalk, InGraph;
    WalkIsInGraph(p, v.dag.graph, leader, leader.round as int - 2, v.dag.lastCommittedRound + 2);
  }

  /** A leader of the last committed round is the last anchor itself. */
  lemma SameRoundSameAnchor(p: Protocol, u: Universe, anchors: seq<Certificate>, leader: Certificate)
    requires WellFormed(p, u) && Committable(p, u, anchors) && Direct(p, u, leader)
    requires leader.round == LastRound(anchors)
    ensures anchors != [] && anchors[|anchors| - 1] == leader
  {
    hide CertificateValid, Committable, LeaderAt;
    CommittableShape(p, u, anchors);
    LeaderAtIs(p, u, leader);
    LeaderAtIs(p, u, anchors[|anchors| - 1]);
  }

  lemma LockFlightInv(p: Protocol, u: Universe, v: Validator, leader: Certificate)
    requires WellFormed(p, u) && p.maxGcRounds >= 1 && Inv(p, u, v) && leader in v.ready && v.flight.None?
    requires LocksInTime(p, u, v, leader)
    ensures FlightInv(p, u, Locked(p, v, leader))
  {
    hide AllFiled, SameDone, Shaped, WellFormed, StorageInv, GraphInv, IdsInv, Chain, LocalWalk, BlocksOf, Committable, Direct, AnchorsOf,
         SeesWholeWalk;
    var last := v.dag.lastCommittedRound;
    if leader.round >= last {
      assert leader.round > v.gcRound by { LeaderIsRecent(p, u, v, leader); }
      WalkIsStored(p, u, v, leader);
      if leader.round == last {
        SameRoundSameAnchor(p, u, AnchorsOf(v.accepted), leader);
        ShortWalk(p, v.dag.graph, leader, last + 2);
      } else {
        if AllFiled(v) {
          FiledSeesWholeWalk(p, u, v, leader);
        }
        LockCompletesIff(p, u, v, leader);
        FlightStarts(p, u, v, leader, LocalWalk(p, v.dag.graph, leader, leader.round as int - 2, last + 2));
      }
    }
  }

  lemma FlightStarts(p: Protocol, u: Universe, v: Validator, leader: Certificate, walk: seq<Certificate>)
    requires Direct(p, u, leader) && AnchorsOf(v.accepted) + (walk + [leader]) == Chain(p, u, leader)
    requires forall a :: a in walk + [leader] ==> StoredIn(v, a)
    ensures FlightInv(p, u, v.(flight := Some(Flight(walk + [leader], leader, false))))
  {
    hide Direct, Chain, AnchorsOf;
    var v' := v.(flight := Some(Flight(walk + [leader], leader, false)));
    assert forall a :: StoredIn(v, a) ==> StoredIn(v', a);
  }

  lemma LeaderIsRecent(p: Protocol, u: Universe, v: Validator, leader: Certificate)
    requires GcInv(p, v) && p.maxGcRounds >= 1 && Direct(p, u, leader) && leader.round >= v.dag.lastCommittedRound
    ensures leader.round > v.gcRound
  {
  }

  lemma ShortWalk(p: Protocol, g: Graph, leader: Certificate, floor: nat)
    requires floor >= 2 && leader.round <= floor
    ensures LocalWalk(p, g, leader, leader.round as int - 2, floor) == []
  {
  }

  lemma LockInv(p: Protocol, u: Universe, v: Validator, leader: Certificate)
    requires WellFormed(p, u) && p.maxGcRounds >= 1 && Inv(p, u, v) && leader in v.ready && v.flight.None?
    requires LocksInTime(p, u, v, leader)
    ensures Inv(p, u, Locked(p, v, leader))
  {
    hide LocksInTime, SameDone, Shaped, WellFormed, FlightInv, Chain, LocalWalk, BlocksOf, Committable, Direct;
    LockFlightInv(p, u, v, leader);
    FlightChanges(p, u, v, Locked(p, v, leader));
  }

  /** Only the flight changes. */
  lemma FlightChanges(p: Protocol, u: Universe, v: Validator, v': Validator)
    requires Inv(p, u, v) && v' == v.(flight := v'.flight) && FlightInv(p, u, v')
    ensures Inv(p, u, v')
  {
    hide FlightInv, BlocksOf, Committable, Direct, InGraph, Faithful;
    assert forall c :: StoredIn(v', c) <==> StoredIn(v, c);
  }

  /* Consensus decides on the next anchor. */

  /** The next anchor is stored, and not below the last committed round. */
  lemma NextAnchor(p: Protocol, u: Universe, v: Validator)
    requires WellFormed(p, u) && Inv(p, u, v) && v.flight.Some? && v.flight.value.remaining != []
    ensures var anchor := v.flight.value.remaining[0];
            && Member(u, anchor) && StoredIn(v, anchor)
            && (if v.flight.value.skipConsensus then anchor.round == v.dag.lastCommittedRound
                else anchor.round > v.dag.lastCommittedRound)
  {
    hide WellFormed, GraphInv, IdsInv, Chain, BlocksOf, Committable, ReadyInv, GcInv;
    var f := v.flight.value;
    assert f.remaining[0] in f.remaining;
    assert StoredIn(v, f.remaining[0]);
    if !f.skipConsensus {
      var anchors := AnchorsOf(v.accepted);
      ChainShape(p, u, f.latest);
      assert Chain(p, u, f.latest)[|anchors|] == f.remaining[0];
      assert anchors != [] ==> Chain(p, u, f.latest)[|anchors| - 1] == anchors[|anchors| - 1];
    }
  }

  /** The search for the next anchor succeeds, and yields the subdag that the anchors determine. */
  lemma SearchSucceeds(p: Protocol, u: Universe, v: Validator, ledger: set<CertificateId>)
    requires WellFormed(p, u) && p.maxGcRounds >= 1 && Inv(p, u, v) && ledger <= DoneIds(v.accepted)
    requires v.flight.Some? && v.flight.value.remaining != [] && Keyed(v.storage)
    ensures var anchor := v.flight.value.remaining[0];
            var past := PastOf(v.accepted, p.maxGcRounds);
            var r := OrderDag(Env(v.dag, v.storage, ledger, p.maxGcRounds), anchor);
            && r == OrderDag(UniverseEnv(u, past), anchor)
            && r.Ok? && Exact(u, past, anchor, r.value)
  {
    hide CertificateValid, StorageInv, GraphInv, IdsInv, ReadyInv, FlightInv, GcInv, Committable, BlocksOf, OrderDag, Exact,
         Serves;
    var anchor := v.flight.value.remaining[0];
    NextAnchor(p, u, v);
    SearchIsServed(p, u, v, ledger);
    var past := PastOf(v.accepted, p.maxGcRounds);
    OrderDagIsExact(p, u, past, anchor);
    OrderDagAgrees(p, u, past, Env(v.dag, v.storage, ledger, p.maxGcRounds), anchor);
  }

  /** Committing the certificates of a block. */
  lemma CommitSubdag(u: Universe, d: DagState, b: Block, maxGcRounds: nat)
    requires Keyed(u) && Filed(d.graph) && IsShaped(u, b) && d.lastCommittedRound <= b.anchor.round
    ensures var d' := CommittedAll(d, Flatten(b.subdag, b.anchor.round + 1), maxGcRounds);
            && d'.lastCommittedRound == b.anchor.round
            && GraphShrinks(d, d')
            && forall r: nat, i: CertificateId :: IsRecentlyCommitted(d', r, i) <==>
                 && r + maxGcRounds > b.anchor.round
                 && (IsRecentlyCommitted(d, r, i) || (i in IdsOf(b.subdag) && i in u && u[i].round == r))
  {
    hide CommittedAll, GraphShrinks, IsRecentlyCommitted;
    var cs := Flatten(b.subdag, b.anchor.round + 1);
    var d' := CommittedAll(d, cs, maxGcRounds);
    CommittedAllEffect(d, cs, maxGcRounds);
    forall c ensures c in cs <==> InSubdag(b.subdag, c)
             ensures c in cs ==> c.round <= b.anchor.round
    {
      FlattenMember(b.subdag, b.anchor.round + 1, c);
    }
    assert b.anchor in cs;
    assert d'.lastCommittedRound == b.anchor.round;
    forall r: nat, i: CertificateId
      ensures CommitsNow(cs, r, i) <==> i in IdsOf(b.subdag) && i in u && u[i].round == r
    {
      InIdsOf(u, b.subdag, i);
      if CommitsNow(cs, r, i) {
        var c :| c in cs && c.round == r && c.id == i;
        assert InSubdag(b.subdag, c);
      }
      if i in IdsOf(b.subdag) && i in u && u[i].round == r {
        assert InSubdag(b.subdag, u[i]);
      }
    }
  }

  /** What the search finds is well-shaped. */
  lemma FoundIsShaped(u: Universe, past: Past, anchor: Certificate, subdag: Subdag)
    requires Keyed(u) && Member(u, anchor) && Exact(u, past, anchor, subdag)
    ensures IsShaped(u, Block(anchor, subdag))
  {
    hide Reaches;
    ExactIsPart(u, past, anchor, subdag);
    TopRow(u, past, anchor, subdag);
    LeaderReached(u, past, anchor);
  }

  lemma ShapedExtends(u: Universe, blocks: seq<Block>, b: Block)
    requires Shaped(u, blocks) && IsShaped(u, b)
    ensures Shaped(u, blocks + [b])
  {
    hide IsShaped;
  }

  lemma DecidedGraphInv(p: Protocol, u: Universe, v: Validator, v': Validator)
    requires GraphInv(p, u, v) && GraphShrinks(v.dag, v'.dag) && v'.storage == v.storage
    requires v.dag.lastCommittedRound <= v'.dag.lastCommittedRound
    ensures GraphInv(p, u, v')
  {
    hide InGraph, Filed, Member;
  }

  /** Storage and the ready leaders do not change while a call is in flight. */
  lemma DecidedRestInv(p: Protocol, u: Universe, v: Validator, v': Validator)
    requires StorageInv(u, v) && ReadyInv(p, u, v) && GcInv(p, v)
    requires v'.storage == v.storage && v'.gcRound == v.gcRound && v'.ready == v.ready
    requires v.dag.lastCommittedRound <= v'.dag.lastCommittedRound
    ensures StorageInv(u, v') && ReadyInv(p, u, v') && GcInv(p, v')
  {
    hide Direct;
    assert forall c :: StoredIn(v', c) <==> StoredIn(v, c);
  }

  /** The IDs of `subdag` are added to those remembered. */
  ghost predicate Records(p: Protocol, u: Universe, d: DagState, d': DagState, subdag: Subdag) {
    && d.lastCommittedRound <= d'.lastCommittedRound
    && forall r: nat, i: CertificateId :: IsRecentlyCommitted(d', r, i) <==>
         && r + p.maxGcRounds > d'.lastCommittedRound
         && (IsRecentlyCommitted(d, r, i) || (i in IdsOf(subdag) && i in u && u[i].round == r))
  }

  lemma RecordedIdsInv(p: Protocol, u: Universe, v: Validator, v': Validator, subdag: Subdag)
    requires IdsInv(p, u, v) && Records(p, u, v.dag, v'.dag, subdag)
    requires DoneIds(v'.accepted) == DoneIds(v.accepted) + IdsOf(subdag)
    ensures IdsInv(p, u, v')
  {
    hide IsRecentlyCommitted, DoneIds, IdsOf;
  }

  /** One more block, whose anchor comes next and which commits what the search would find. */
  lemma LedgerGrows(p: Protocol, u: Universe, v: Validator, b: Block, v': Validator)
    requires LedgerInv(p, u, v) && IsShaped(u, b) && Committable(p, u, AnchorsOf(v.accepted) + [b.anchor])
    requires DoneIds(v.accepted) + IdsOf(b.subdag)
             == DoneIds(v.accepted) + IdsOf(SubdagOf(u, v.accepted, p.maxGcRounds, b.anchor))
    requires v'.accepted == v.accepted + [b] && v'.dag.lastCommittedRound == b.anchor.round
    ensures LedgerInv(p, u, v') && DoneIds(v'.accepted) == DoneIds(v.accepted) + IdsOf(b.subdag)
  {
    hide Committable, OrderDag, AnchorsOf, DoneIds, IdsOf, SameDone, Shaped, IsShaped;
    var anchors := AnchorsOf(v.accepted);
    var blocks := BlocksOf(u, p.maxGcRounds, anchors);
    SameDoneAll(v.accepted, blocks, p.maxGcRounds);
    AnchorsExtend(v.accepted, b);
    assert (anchors + [b.anchor])[..|anchors|] == anchors;
    var found := Block(b.anchor, SubdagOf(u, blocks, p.maxGcRounds, b.anchor));
    assert BlocksOf(u, p.maxGcRounds, anchors + [b.anchor]) == blocks + [found];
    DoneExtended(v.accepted, b);
    DoneExtended(blocks, found);
    SameDoneExtends(v.accepted, blocks, b, found);
    ShapedExtends(u, v.accepted, b);
  }

  lemma AcceptLedgerInv(p: Protocol, u: Universe, v: Validator, v': Validator, subdag: Subdag)
    requires WellFormed(p, u) && LedgerInv(p, u, v) && FlightInv(p, u, v)
    requires v.flight.Some? && v.flight.value.remaining != [] && !v.flight.value.skipConsensus
    requires var anchor := v.flight.value.remaining[0];
             && OrderDag(UniverseEnv(u, PastOf(v.accepted, p.maxGcRounds)), anchor) == Ok(subdag)
             && IsShaped(u, Block(anchor, subdag))
             && v'.accepted == v.accepted + [Block(anchor, subdag)]
             && v'.dag.lastCommittedRound == anchor.round
    ensures LedgerInv(p, u, v')
    ensures AnchorsOf(v'.accepted) + v.flight.value.remaining[1..] == Chain(p, u, v.flight.value.latest)
    ensures DoneIds(v'.accepted) == DoneIds(v.accepted) + IdsOf(subdag)
  {
    hide WellFormed, OrderDag, Chain, Direct, StoredIn, UniverseEnv, IsShaped, DoneIds, IdsOf;
    var f := v.flight.value;
    var anchors := AnchorsOf(v.accepted);
    var anchors' := anchors + [f.remaining[0]];
    assert AnchorsOf(v'.accepted) == anchors';
    assert anchors' + f.remaining[1..] == anchors + f.remaining;
    assert anchors' <= Chain(p, u, f.latest);
    assert Direct(p, u, f.latest);
    assert Committable(p, u, anchors');
    hide LedgerInv, AnchorsOf, Committable;
    LedgerGrows(p, u, v, Block(f.remaining[0], subdag), v');
  }

  /** A repeated call for the last anchor finds nothing new to commit. */
  lemma RepeatAddsNothing(p: Protocol, u: Universe, v: Validator, anchor: Certificate, subdag: Subdag)
    requires WellFormed(p, u) && p.maxGcRounds >= 1 && LedgerInv(p, u, v)
    requires var anchors := AnchorsOf(v.accepted); anchors != [] && anchors[|anchors| - 1] == anchor
    requires Exact(u, PastOf(v.accepted, p.maxGcRounds), anchor, subdag)
    ensures IdsOf(subdag) <= DoneIds(v.accepted)
  {
    hide CertificateValid, BlocksOf, Committable, Reaches, Linked, DoneIds;
    var n := |v.accepted| - 1;
    var past := PastOf(v.accepted, p.maxGcRounds);
    LedgerPast(p, u, v);
    assert IsShaped(u, v.accepted[n]) && v.accepted[n].anchor == anchor;
    assert anchor.id in IdsOf(v.accepted[n].subdag);
    DoneContains(v.accepted, n);
    forall i | i in IdsOf(subdag) ensures i in DoneIds(v.accepted) {
      IdsOfExact(u, past, anchor, subdag, i) by { assert Member(u, anchor); }
      ReachesIffHistory(u, past, anchor, u[i]);
      if u[i] != anchor {
        DoneDownward(u, past, anchor, u[i]);
      }
    }
  }

  lemma AcceptInv(p: Protocol, u: Universe, v: Validator, subdag: Subdag, v': Validator)
    requires WellFormed(p, u) && p.maxGcRounds >= 1 && Inv(p, u, v)
    requires v.flight.Some? && v.flight.value.remaining != [] && !v.flight.value.skipConsensus
    requires var anchor := v.flight.value.remaining[0];
             && OrderDag(UniverseEnv(u, PastOf(v.accepted, p.maxGcRounds)), anchor) == Ok(subdag)
             && Exact(u, PastOf(v.accepted, p.maxGcRounds), anchor, subdag)
             && v' == v.(dag := CommittedAll(v.dag, Flatten(subdag, anchor.round + 1), p.maxGcRounds),
                         accepted := v.accepted + [Block(anchor, subdag)],
                         flight := Some(v.flight.value.(remaining := v.flight.value.remaining[1..])))
    ensures Inv(p, u, v')
  {
    hide CertificateValid, SoundCommittees, NonEquivocating, StorageInv, IdsInv, LedgerInv, ReadyInv, GcInv, OrderDag, Exact,
         CommittedAll, Flatten, Chain, Direct, GraphShrinks, DoneIds, UniverseEnv, AnchorsOf, Filed, InGraph, IsShaped;
    var anchor := v.flight.value.remaining[0];
    NextAnchor(p, u, v);
    FoundIsShaped(u, PastOf(v.accepted, p.maxGcRounds), anchor, subdag);
    CommitSubdag(u, v.dag, Block(anchor, subdag), p.maxGcRounds);
    DecidedGraphInv(p, u, v, v');
    DecidedRestInv(p, u, v, v');
    AcceptLedgerInv(p, u, v, v', subdag);
    RecordedIdsInv(p, u, v, v', subdag);
    assert forall c :: StoredIn(v', c) <==> StoredIn(v, c);
  }

  lemma RepeatInv(p: Protocol, u: Universe, v: Validator, subdag: Subdag, v': Validator)
    requires WellFormed(p, u) && p.maxGcRounds >= 1 && Inv(p, u, v)
    requires v.flight.Some? && v.flight.value.remaining != [] && v.flight.value.skipConsensus
    requires var anchor := v.flight.value.remaining[0];
             && Exact(u, PastOf(v.accepted, p.maxGcRounds), anchor, subdag)
             && v' == v.(dag := CommittedAll(v.dag, Flatten(subdag, anchor.round + 1), p.maxGcRounds),
                         flight := Some(v.flight.value.(remaining := v.flight.value.remaining[1..])))
    ensures Inv(p, u, v')
  {
    hide CertificateValid, SoundCommittees, NonEquivocating, StorageInv, IdsInv, ReadyInv, GcInv, OrderDag, Exact,
         CommittedAll, Flatten, Chain, Direct, GraphShrinks, DoneIds, UniverseEnv, AnchorsOf, Filed, InGraph, BlocksOf,
         Committable, SameDone, Shaped, IsShaped;
    var anchor := v.flight.value.remaining[0];
    NextAnchor(p, u, v);
    FoundIsShaped(u, PastOf(v.accepted, p.maxGcRounds), anchor, subdag);
    CommitSubdag(u, v.dag, Block(anchor, subdag), p.maxGcRounds);
    DecidedGraphInv(p, u, v, v');
    DecidedRestInv(p, u, v, v');
    RepeatAddsNothing(p, u, v, anchor, subdag);
    assert DoneIds(v.accepted) + IdsOf(subdag) == DoneIds(v.accepted);
    RecordedIdsInv(p, u, v, v', subdag);
    assert forall c :: StoredIn(v', c) <==> StoredIn(v, c);
  }

  lemma NoFlightInv(p: Protocol, u: Universe, v: Validator)
    requires Inv(p, u, v)
    ensures Inv(p, u, v.(flight := None))
  {
    hide StorageInv, GraphInv, IdsInv, LedgerInv, ReadyInv, GcInv, Direct, Chain;
    FlightChanges(p, u, v, v.(flight := None));
  }

  lemma DecidedIs(p: Protocol, v: Validator, ledger: set<CertificateId>, accept: bool, subdag: Subdag)
    requires v.flight.Some? && v.flight.value.remaining != [] && Keyed(v.storage)
    requires OrderDag(Env(v.dag, v.storage, ledger, p.maxGcRounds), v.flight.value.remaining[0]) == Ok(subdag)
    ensures var f := v.flight.value;
            var anchor := f.remaining[0];
            Decided(p, v, ledger, accept) ==
              if !Passes(subdag, anchor.round) || (!f.skipConsensus && !accept) then v.(flight := None)
              else
                v.(dag := CommittedAll(v.dag, Flatten(subdag, anchor.round + 1), p.maxGcRounds),
                   accepted := if f.skipConsensus then v.accepted else v.accepted + [Block(anchor, subdag)],
                   flight := Some(f.(remaining := f.remaining[1..])))
  {
    hide OrderDag, Passes, CommittedAll, Flatten;
  }

  lemma OutcomeInv(p: Protocol, u: Universe, v: Validator, accept: bool, subdag: Subdag, v': Validator)
    requires WellFormed(p, u) && p.maxGcRounds >= 1 && Inv(p, u, v)
    requires v.flight.Some? && v.flight.value.remaining != []
    requires var f := v.flight.value;
             var anchor := f.remaining[0];
             && OrderDag(UniverseEnv(u, PastOf(v.accepted, p.maxGcRounds)), anchor) == Ok(subdag)
             && Exact(u, PastOf(v.accepted, p.maxGcRounds), anchor, subdag)
             && v' ==
                  if !Passes(subdag, anchor.round) || (!f.skipConsensus && !accept) then v.(flight := None)
                  else
                    v.(dag := CommittedAll(v.dag, Flatten(subdag, anchor.round + 1), p.maxGcRounds),
                       accepted := if f.skipConsensus then v.accepted else v.accepted + [Block(anchor, subdag)],
                       flight := Some(f.(remaining := f.remaining[1..])))
    ensures Inv(p, u, v')
  {
    hide WellFormed, Inv, OrderDag, Exact, CommittedAll, Flatten, UniverseEnv, Passes, PastOf;
    var f := v.flight.value;
    if !Passes(subdag, f.remaining[0].round) || (!f.skipConsensus && !accept) {
      NoFlightInv(p, u, v);
    } else if f.skipConsensus {
      RepeatInv(p, u, v, subdag, v');
    } else {
      AcceptInv(p, u, v, subdag, v');
    }
  }

  lemma DecideInv(p: Protocol, u: Universe, v: Validator, ledger: set<CertificateId>, accept: bool)
    requires v.flight.Some? && v.flight.value.remaining != [] && Keyed(v.storage) && ledger <= DoneIds(v.accepted)
    requires WellFormed(p, u) && p.maxGcRounds >= 1 && Inv(p, u, v)
    ensures Inv(p, u, Decided(p, v, ledger, accept))
  {
    hide WellFormed, Inv, OrderDag, Exact, CommittedAll, Flatten, UniverseEnv, DoneIds, Passes, Decided, PastOf;
    SearchSucceeds(p, u, v, ledger);
    var subdag := OrderDag(Env(v.dag, v.storage, ledger, p.maxGcRounds), v.flight.value.remaining[0]).value;
    DecidedIs(p, v, ledger, accept, subdag);
    OutcomeInv(p, u, v, accept, subdag, Decided(p, v, ledger, accept));
  }

  /* The chunk is finished, and garbage is collected. */

  lemma FlightDone(p: Protocol, u: Universe, v: Validator)
    requires LedgerInv(p, u, v) && FlightInv(p, u, v) && v.flight.Some? && v.flight.value.remaining == []
    ensures v.dag.lastCommittedRound == v.flight.value.latest.round
  {
    hide BlocksOf, Committable, WalkBack;
    var f := v.flight.value;
    if !f.skipConsensus {
      ChainShape(p, u, f.latest);
      assert AnchorsOf(v.accepted) + [] == AnchorsOf(v.accepted);
    }
  }

  lemma CollectStorageInv(p: Protocol, u: Universe, v: Validator, v': Validator)
    requires WellFormed(p, u) && StorageInv(u, v) && v.gcRound <= v'.gcRound
    requires v'.storage == KeptAbove(v.storage, v'.gcRound)
    ensures StorageInv(u, v')
  {
    hide CertificateValid;
    forall c, i | StoredIn(v', c) && c.round > v'.gcRound + 1 && i in c.previous ensures i in v'.storage {
      assert StoredIn(v, c);
      ParentInUniverse(p, u, c, i);
      assert i in v.storage;
    }
  }

  lemma CollectGraphInv(p: Protocol, u: Universe, v: Validator, v': Validator)
    requires GraphInv(p, u, v) && v'.dag == v.dag && v'.storage == KeptAbove(v.storage, v'.gcRound)
    requires v'.gcRound + p.maxGcRounds <= v.dag.lastCommittedRound
    ensures GraphInv(p, u, v')
  {
    hide InGraph, Faithful;
    assert forall c :: StoredIn(v', c) <==> StoredIn(v, c) && c.round > v'.gcRound;
  }

  lemma CollectReadyInv(p: Protocol, u: Universe, v: Validator, v': Validator)
    requires ReadyInv(p, u, v) && v'.ready == v.ready && v.gcRound <= v'.gcRound
    requires v'.storage == KeptAbove(v.storage, v'.gcRound)
    ensures ReadyInv(p, u, v')
  {
    hide Direct;
    assert forall c :: StoredIn(v', c) <==> StoredIn(v, c) && c.round > v'.gcRound;
  }

  lemma FinishInv(p: Protocol, u: Universe, v: Validator)
    requires WellFormed(p, u) && Inv(p, u, v) && v.flight.Some? && v.flight.value.remaining == []
    ensures Inv(p, u, Finished(p, v))
  {
    hide WellFormed, StorageInv, GraphInv, IdsInv, LedgerInv, ReadyInv, Direct, Chain, KeptAbove;
    var v' := Finished(p, v);
    FlightDone(p, u, v);
    if v'.gcRound > v.gcRound {
      CollectStorageInv(p, u, v, v');
      CollectGraphInv(p, u, v, v');
      CollectReadyInv(p, u, v, v');
      CollectBlocks(p, u, v, v');
    } else {
      NoFlightInv(p, u, v);
    }
  }

  lemma CollectBlocks(p: Protocol, u: Universe, v: Validator, v': Validator)
    requires IdsInv(p, u, v) && LedgerInv(p, u, v) && v'.dag == v.dag && v'.accepted == v.accepted
    ensures IdsInv(p, u, v') && LedgerInv(p, u, v')
  {
    hide BlocksOf, Committable, IsRecentlyCommitted;
  }

  /* Block sync. */

  /** The anchor of the next block is the next one of everyone. */
  lemma NextAnchorIsCommittable(p: Protocol, u: Universe, v: Validator, b: Block)
    requires WellFormed(p, u) && LedgerInv(p, u, v) && IsNextBlock(p, u, v, b)
    ensures Committable(p, u, AnchorsOf(v.accepted) + [b.anchor])
  {
    hide WellFormed, Committable, Complete, HasVotes, InSuccession, AllSubdagsChecked, Authorized, BlocksOf, Shaped, SameDone;
    var pending: seq<Pending>, k: nat :| IsTaken(p, u, v.accepted, b, pending, k);
    var anchors, added := AnchorsOf(v.accepted), AnchorsOf(BlocksIn(pending[..k + 1]));
    AnchorsCommittableIff(p, u, anchors, pending, k);
    CommittablePrefix(p, u, anchors + added, |anchors| + 1);
    assert (anchors + added)[..|anchors| + 1] == anchors + [b.anchor];
  }

  /** What is checked of the next block itself. */
  lemma NextIsChecked(p: Protocol, u: Universe, v: Validator, b: Block) returns (x: Pending)
    requires IsNextBlock(p, u, v, b)
    ensures x.block == b && SubdagChecked(p, u, x) && Authorized(p, LastRound(AnchorsOf(v.accepted)), x)
    ensures Complete(u, PastOf(v.accepted, p.maxGcRounds), x)
  {
    hide Complete, HasVotes, InSuccession, SubdagChecked, Authorized, AnchorsOf, PastOf;
    var pending: seq<Pending>, k: nat :| IsTaken(p, u, v.accepted, b, pending, k);
    x := pending[0];
  }

  lemma NextIsShaped(p: Protocol, u: Universe, v: Validator, b: Block)
    requires IsNextBlock(p, u, v, b)
    ensures IsShaped(u, b) && b.anchor.round > LastRound(AnchorsOf(v.accepted))
  {
    hide IsNextBlock, Complete, Atomic, LeavesKnown, AnchorsOf;
    var x := NextIsChecked(p, u, v, b);
    assert Keyed(u) by { NextIsKeyed(p, u, v, b); }
    AnchorIsTaken(p, u, x);
  }

  lemma NextIsKeyed(p: Protocol, u: Universe, v: Validator, b: Block)
    requires IsNextBlock(p, u, v, b)
    ensures Keyed(u) && p.maxGcRounds + 1 >= MAX_ROUNDS
  {
  }

  lemma TakenCommitsFound(p: Protocol, u: Universe, v: Validator, b: Block)
    requires WellFormed(p, u) && p.maxGcRounds >= 1 && LedgerInv(p, u, v) && IsNextBlock(p, u, v, b)
    ensures Keyed(u) && DoneIds(v.accepted) + IdsOf(b.subdag)
            == DoneIds(v.accepted) + IdsOf(SubdagOf(u, v.accepted, p.maxGcRounds, b.anchor))
  {
    hide WellFormed, IsNextBlock, SubdagChecked, Authorized, Complete, LedgerInv, SubdagOf, DoneIds, IdsOf, PastValid, PastOf, IsTaken;
    LedgerPast(p, u, v);
    NextIsKeyed(p, u, v, b);
    var x := NextIsChecked(p, u, v, b);
    TakenIsFoundIff(p, u, v.accepted, x);
    var done, ids := DoneIds(v.accepted), IdsOf(b.subdag);
    assert done + ids == done + NewIds(done, b.subdag);
  }

  lemma CommitBlockInv(p: Protocol, u: Universe, v: Validator, b: Block)
    requires WellFormed(p, u) && p.maxGcRounds >= 1 && Inv(p, u, v) && v.flight.None? && IsNextBlock(p, u, v, b)
    ensures Inv(p, u, BlockCommitted(p, v, b))
  {
    hide WellFormed, StorageInv, GraphInv, IdsInv, LedgerInv, ReadyInv, GcInv, CommittedAll, Flatten, GraphShrinks, DoneIds, IdsOf,
         AnchorsOf, Filed, InGraph, IsNextBlock, IsShaped, Checked, SubdagOf, Committable;
    var v' := BlockCommitted(p, v, b);
    LedgerIsShaped(p, u, v);
    GraphIsFiled(p, u, v);
    NextAnchorIsCommittable(p, u, v, b);
    NextIsShaped(p, u, v, b);
    TakenCommitsFound(p, u, v, b);
    CommitSubdag(u, v.dag, b, p.maxGcRounds);
    DecidedGraphInv(p, u, v, v');
    DecidedRestInv(p, u, v, v');
    LedgerGrows(p, u, v, b, v');
    RecordedIdsInv(p, u, v, v', b.subdag);
  }

  /* A start from the ledger. */

  /** Anchors are at least two rounds apart. */
  lemma {:induction false} AnchorsSpread(p: Protocol, u: Universe, anchors: seq<Certificate>, k: nat)
    requires LeadersAscend(p, u, anchors) && k < |anchors|
    ensures anchors[k].round + 2 * (|anchors| - 1 - k) <= LastRound(anchors)
    decreases |anchors| - k
  {
    if k + 1 < |anchors| {
      AnchorsSpread(p, u, anchors, k + 1);
      assert IsLeader(p, u, anchors[k]) && IsLeader(p, u, anchors[k + 1]);
    }
  }

  /** A committed certificate that is recent is in one of the recent blocks. */
  lemma {:induction false} DoneSomewhere(blocks: seq<Block>, i: CertificateId) returns (k: nat)
    requires i in DoneIds(blocks)
    ensures k < |blocks| && i in IdsOf(blocks[k].subdag)
    decreases |blocks|
  {
    var n := |blocks| - 1;
    if i in IdsOf(blocks[n].subdag) {
      k := n;
    } else {
      k := DoneSomewhere(blocks[..n], i);
    }
  }

  lemma RecentHolds(p: Protocol, u: Universe, v: Validator, i: CertificateId)
    requires WellFormed(p, u) && LedgerInv(p, u, v) && i in DoneIds(v.accepted)
    requires i in u && u[i].round + p.maxGcRounds > LastRound(AnchorsOf(v.accepted))
    ensures u[i] in CertificatesOf(Recent(v.accepted, p.maxGcRounds))
  {
    hide WellFormed, BlocksOf, SameDone, Committable, DoneIds, IdsOf, FiledByRound;
    var blocks, recent, anchors := v.accepted, Recent(v.accepted, p.maxGcRounds), AnchorsOf(v.accepted);
    var k := DoneSomewhere(blocks, i);
    assert IsShaped(u, blocks[k]);
    InIdsOf(u, blocks[k].subdag, i);
    CommittableShape(p, u, anchors);
    AnchorsSpread(p, u, anchors, k);
    var start := |blocks| - |recent|;
    assert k >= start;
    assert recent[k - start] == blocks[k];
    RecentIsFiled(p, u, v);
    InCertificatesOf(recent, u[i]);
    assert InBlock(recent, k - start, u[i]);
  }

  lemma RecentIsFiled(p: Protocol, u: Universe, v: Validator)
    requires Shaped(u, v.accepted)
    ensures WellFiled(Recent(v.accepted, p.maxGcRounds))
  {
    hide FiledByRound, RowsBelow;
    var blocks, recent := v.accepted, Recent(v.accepted, p.maxGcRounds);
    forall k | 0 <= k < |recent| ensures FiledByRound(recent[k].subdag) && RowsBelow(recent[k]) {
      assert recent[k] == blocks[k + |blocks| - |recent|];
      assert IsShaped(u, recent[k]);
    }
  }

  /** What the recent blocks hold is committed. */
  lemma RecentIsDone(p: Protocol, u: Universe, v: Validator, c: Certificate)
    requires Shaped(u, v.accepted) && Keyed(u) && c in CertificatesOf(Recent(v.accepted, p.maxGcRounds))
    ensures Member(u, c) && c.id in DoneIds(v.accepted)
  {
    hide FiledByRound, DoneIds, CertificatesOf;
    var blocks, recent := v.accepted, Recent(v.accepted, p.maxGcRounds);
    RecentIsFiled(p, u, v);
    InCertificatesOf(recent, c);
    var k: nat :| InBlock(recent, k, c);
    var m := k + |blocks| - |recent|;
    assert recent[k] == blocks[m];
    assert IsShaped(u, blocks[m]);
    assert c.id in IdsOf(blocks[m].subdag);
    DoneContains(blocks, m);
  }

  /** The last committed round is that of the last anchor again. */
  lemma RebootLast(p: Protocol, u: Universe, v: Validator)
    requires WellFormed(p, u) && p.maxGcRounds >= 1 && LedgerInv(p, u, v)
    ensures Rebooted(p, v).dag.lastCommittedRound == LastRound(AnchorsOf(v.accepted))
  {
    hide WellFormed, LedgerInv, DoneIds, Refilled, Recent, CertificatesOf, AnchorsOf, IdsRecorded, GraphFrom, Reloaded;
    var last := LastRound(AnchorsOf(v.accepted));
    var cs := CertificatesOf(Recent(v.accepted, p.maxGcRounds));
    RefilledEffect(cs, p.maxGcRounds);
    forall c | c in cs ensures c.round <= last {
      RecentIsLow(p, u, v, c);
    }
    if v.accepted == [] {
      NothingRecent(v.accepted, p.maxGcRounds);
    } else {
      LastIsRecent(p, u, v);
    }
  }

  lemma RecentIsLow(p: Protocol, u: Universe, v: Validator, c: Certificate)
    requires WellFormed(p, u) && p.maxGcRounds >= 1 && LedgerInv(p, u, v)
    requires c in CertificatesOf(Recent(v.accepted, p.maxGcRounds))
    ensures c.round <= LastRound(AnchorsOf(v.accepted))
  {
    hide WellFormed, LedgerInv, DoneIds, Recent, CertificatesOf, AnchorsOf, Shaped, DoneClosed;
    LedgerPast(p, u, v);
    LedgerIsShaped(p, u, v);
    RecentIsDone(p, u, v, c);
  }

  /** The last anchor is among the recent certificates. */
  lemma LastIsRecent(p: Protocol, u: Universe, v: Validator)
    requires WellFormed(p, u) && p.maxGcRounds >= 1 && LedgerInv(p, u, v) && v.accepted != []
    ensures var anchor := v.accepted[|v.accepted| - 1].anchor;
            && anchor in CertificatesOf(Recent(v.accepted, p.maxGcRounds)) && anchor.round == LastRound(AnchorsOf(v.accepted))
  {
    hide WellFormed, LedgerInv, DoneIds, IdsOf, Recent, CertificatesOf;
    var n := |v.accepted| - 1;
    var anchor := v.accepted[n].anchor;
    LedgerIsShaped(p, u, v);
    assert IsShaped(u, v.accepted[n]);
    InIdsOf(u, v.accepted[n].subdag, anchor.id);
    DoneContains(v.accepted, n);
    RecentHolds(p, u, v, anchor.id);
  }

  lemma NothingRecent(blocks: seq<Block>, maxGcRounds: nat)
    requires blocks == []
    ensures CertificatesOf(Recent(blocks, maxGcRounds)) == [] && LastRound(AnchorsOf(blocks)) == 0
  {
  }

  /** Storage holds just the committed certificates above the collected rounds. */
  lemma RebootHolds(p: Protocol, u: Universe, v: Validator, i: CertificateId)
    requires WellFormed(p, u) && LedgerInv(p, u, v)
    ensures var v' := Rebooted(p, v);
            && (i in v'.storage <==> i in DoneIds(v.accepted) && i in u && u[i].round > v'.gcRound)
            && (i in v'.storage ==> v'.storage[i] == u[i])
  {
    hide WellFormed, LedgerInv, Refilled, Recent, CertificatesOf, Reloaded, DoneIds, AnchorsOf, Shaped;
    var v' := Rebooted(p, v);
    var cs := CertificatesOf(Recent(v.accepted, p.maxGcRounds));
    LedgerIsShaped(p, u, v);
    ReloadedEffect(v'.gcRound, cs, i);
    if i in v'.storage {
      RecentIsDone(p, u, v, v'.storage[i]);
    }
    if i in DoneIds(v.accepted) && i in u && u[i].round > v'.gcRound {
      RecentHolds(p, u, v, i);
      assert u[i].id == i;
    }
  }

  lemma RebootGraphInv(p: Protocol, u: Universe, v: Validator)
    requires WellFormed(p, u) && p.maxGcRounds >= 1 && LedgerInv(p, u, v)
    ensures GraphInv(p, u, Rebooted(p, v))
  {
    hide WellFormed, LedgerInv, Refilled, Recent, CertificatesOf, InGraph, Filed, Reloaded, DoneIds, Shaped;
    var v' := Rebooted(p, v);
    var cs := CertificatesOf(Recent(v.accepted, p.maxGcRounds));
    LedgerIsShaped(p, u, v);
    RebootLast(p, u, v);
    RefilledEffect(cs, p.maxGcRounds);
    forall c | InGraph(v'.dag.graph, c)
      ensures Member(u, c) && (c.round + p.maxGcRounds > v'.dag.lastCommittedRound ==> StoredIn(v', c))
    {
      RecentIsDone(p, u, v, c);
      RebootHolds(p, u, v, c.id);
      assert c.round >= 1 by { MemberIsValid(p, u, c); }
    }
  }

  lemma MemberIsValid(p: Protocol, u: Universe, c: Certificate)
    requires WellFormed(p, u) && Member(u, c)
    ensures c.round >= 1
  {
    assert CertificateValid(p, u, c);
  }

  lemma LedgerIsShaped(p: Protocol, u: Universe, v: Validator)
    requires LedgerInv(p, u, v)
    ensures Shaped(u, v.accepted) && Keyed(u) && v.dag.lastCommittedRound == LastRound(AnchorsOf(v.accepted))
  {
  }

  lemma GraphIsFiled(p: Protocol, u: Universe, v: Validator)
    requires GraphInv(p, u, v)
    ensures Filed(v.dag.graph)
  {
  }

  lemma RebootStorageInv(p: Protocol, u: Universe, v: Validator)
    requires WellFormed(p, u) && p.maxGcRounds >= 1 && LedgerInv(p, u, v)
    ensures StorageInv(u, Rebooted(p, v))
  {
    hide WellFormed, LedgerInv, Rebooted, DoneIds, Shaped;
    var v' := Rebooted(p, v);
    forall i ensures i in v'.storage <==> i in DoneIds(v.accepted) && i in u && u[i].round > v'.gcRound
             ensures i in v'.storage ==> v'.storage[i] == u[i]
    {
      RebootHolds(p, u, v, i);
    }
    LedgerIsShaped(p, u, v);
    forall c, i | StoredIn(v', c) && c.round > v'.gcRound + 1 && i in c.previous ensures i in v'.storage {
      ParentInUniverse(p, u, c, i);
      ReferenceIsDone(p, u, v, c, i);
    }
  }

  lemma ReferenceIsDone(p: Protocol, u: Universe, v: Validator, c: Certificate, i: CertificateId)
    requires WellFormed(p, u) && p.maxGcRounds >= 1 && LedgerInv(p, u, v) && Member(u, c) && c.id in DoneIds(v.accepted)
    requires i in c.previous && i in u && u[i].round > Rebooted(p, v).gcRound
    ensures i in DoneIds(v.accepted)
  {
    hide WellFormed, LedgerInv, DoneIds, AnchorsOf, Refilled, Reloaded, Recent, CertificatesOf;
    LedgerPast(p, u, v);
    assert AboveCutoff(PastOf(v.accepted, p.maxGcRounds), u[i]);
  }

  /** A certificate is committed anew just when it was, as far as it is recent. */
  lemma RecommitIff(p: Protocol, u: Universe, v: Validator, r: nat, i: CertificateId)
    requires WellFormed(p, u) && LedgerInv(p, u, v) && r + p.maxGcRounds > LastRound(AnchorsOf(v.accepted))
    ensures CommitsNow(CertificatesOf(Recent(v.accepted, p.maxGcRounds)), r, i) <==>
            i in DoneIds(v.accepted) && i in u && u[i].round == r
  {
    hide WellFormed, LedgerInv, Recent, CertificatesOf, DoneIds, AnchorsOf, Shaped;
    var cs := CertificatesOf(Recent(v.accepted, p.maxGcRounds));
    LedgerIsShaped(p, u, v);
    if CommitsNow(cs, r, i) {
      var c :| c in cs && c.round == r && c.id == i;
      RecentIsDone(p, u, v, c);
    }
    if i in DoneIds(v.accepted) && i in u && u[i].round == r {
      RecentHolds(p, u, v, i);
      assert u[i].id == i;
    }
  }

  lemma RebootIdsInv(p: Protocol, u: Universe, v: Validator)
    requires WellFormed(p, u) && p.maxGcRounds >= 1 && LedgerInv(p, u, v)
    ensures IdsInv(p, u, Rebooted(p, v))
  {
    hide WellFormed, LedgerInv, Refilled, Recent, CertificatesOf, Reloaded, DoneIds, AnchorsOf, GraphFrom, CommitsNow, IsRecentlyCommitted;
    var v' := Rebooted(p, v);
    var cs := CertificatesOf(Recent(v.accepted, p.maxGcRounds));
    RebootLast(p, u, v);
    RefilledEffect(cs, p.maxGcRounds);
    forall r: nat, i: CertificateId
      ensures IsRecentlyCommitted(v'.dag, r, i) <==>
              && r + p.maxGcRounds > v'.dag.lastCommittedRound && i in DoneIds(v.accepted) && i in u && u[i].round == r
    {
      NothingCommitted(r, i);
      if r + p.maxGcRounds > v'.dag.lastCommittedRound {
        RecommitIff(p, u, v, r, i);
      }
      if cs == [] {
        NothingCommits(r, i);
        NothingRefilled(p.maxGcRounds);
      }
    }
  }

  lemma NothingCommitted(r: nat, i: CertificateId)
    ensures !IsRecentlyCommitted(EMPTY_DAG, r, i)
  {
  }

  lemma NothingCommits(r: nat, i: CertificateId)
    ensures !CommitsNow([], r, i)
  {
  }

  /** A validator that starts from its ledger is in a state that it could have been in before. */
  lemma RebootInv(p: Protocol, u: Universe, v: Validator)
    requires WellFormed(p, u) && p.maxGcRounds >= 1 && Inv(p, u, v)
    ensures Inv(p, u, Rebooted(p, v))
  {
    hide WellFormed, StorageInv, GraphInv, IdsInv, Refilled, Reloaded, Recent, CertificatesOf, BlocksOf, SameDone, Shaped, Committable;
    RebootLast(p, u, v);
    RebootGraphInv(p, u, v);
    RebootStorageInv(p, u, v);
    RebootIdsInv(p, u, v);
  }

  /** The blocks up to one of them have committed what they reference above the cutoff. */
  lemma PrefixPast(p: Protocol, u: Universe, v: Validator, k: nat)
    requires WellFormed(p, u) && p.maxGcRounds >= 1 && LedgerInv(p, u, v) && k < |v.accepted|
    ensures DoneClosed(u, PastOf(v.accepted[..k + 1], p.maxGcRounds))
    ensures LastRound(AnchorsOf(v.accepted[..k + 1])) <= LastRound(AnchorsOf(v.accepted))
  {
    hide WellFormed, BlocksOf, Committable, DoneIds, DoneClosed, Shaped;
    var anchors := AnchorsOf(v.accepted);
    var blocks := BlocksOf(u, p.maxGcRounds, anchors);
    CommittableShape(p, u, anchors);
    assert LeadersAscend(p, u, anchors[..k + 1]);
    PastIsValid(p, u, p.maxGcRounds, anchors[..k + 1]);
    BlocksOfPrefix(u, p.maxGcRounds, anchors[..k + 1], anchors);
    assert |BlocksOf(u, p.maxGcRounds, anchors[..k + 1])| == k + 1 by { SameLength(u, p.maxGcRounds, anchors[..k + 1]); }
    assert blocks[..k + 1] == BlocksOf(u, p.maxGcRounds, anchors[..k + 1]);
    SameDonePast(v.accepted, blocks, k + 1, p.maxGcRounds);
    assert AnchorsOf(v.accepted[..k + 1]) == anchors[..k + 1];
  }

  lemma SameLength(u: Universe, maxGcRounds: nat, anchors: seq<Certificate>)
    requires Keyed(u)
    ensures |BlocksOf(u, maxGcRounds, anchors)| == |anchors|
  {
    hide BlocksOf;
    assert |AnchorsOf(BlocksOf(u, maxGcRounds, anchors))| == |anchors|;
  }

  /** While the recent certificates are loaded in order, whatever one of them references has been loaded before it. */
  lemma ReferencesComeFirst(p: Protocol, u: Universe, v: Validator, n: nat, i: CertificateId)
    requires WellFormed(p, u) && p.maxGcRounds >= 1 && LedgerInv(p, u, v)
    requires n < |CertificatesOf(Recent(v.accepted, p.maxGcRounds))|
    requires var c := CertificatesOf(Recent(v.accepted, p.maxGcRounds))[n];
             c.round > Rebooted(p, v).gcRound + 1 && i in c.previous
    ensures i in Reloaded(Rebooted(p, v).gcRound, CertificatesOf(Recent(v.accepted, p.maxGcRounds))[..n])
  {
    hide WellFormed, LedgerInv, Refilled, Reloaded, CertificatesOf, DoneIds, AnchorsOf, Shaped, InBlock;
    var gcRound, blocks, recent := Rebooted(p, v).gcRound, v.accepted, Recent(v.accepted, p.maxGcRounds);
    var cs := CertificatesOf(recent);
    var c := cs[n];
    LedgerIsShaped(p, u, v);
    RecentIsFiled(p, u, v);
    var m := EarlierComesFirst(recent, n);
    RecentIsDone(p, u, v, c);
    ParentInUniverse(p, u, c, i);
    ReferenceIsEarlier(p, u, v, m, c, i);
    assert u[i] in cs[..n];
    ReloadedEffect(gcRound, cs[..n], i);
    assert u[i].id == i;
  }

  lemma ReferenceIsEarlier(p: Protocol, u: Universe, v: Validator, m: nat, c: Certificate, i: CertificateId)
    requires WellFormed(p, u) && p.maxGcRounds >= 1 && LedgerInv(p, u, v) && Member(u, c)
    requires InBlock(Recent(v.accepted, p.maxGcRounds), m, c) && i in c.previous && i in u && u[i].round + 1 == c.round
    requires u[i].round > Rebooted(p, v).gcRound
    ensures InBlock(Recent(v.accepted, p.maxGcRounds), m, u[i]) ||
            exists k: nat :: k < m && InBlock(Recent(v.accepted, p.maxGcRounds), k, u[i])
  {
    hide WellFormed, LedgerInv, Rebooted, Recent, DoneIds, IdsOf, FiledByRound;
    var blocks, recent := v.accepted, Recent(v.accepted, p.maxGcRounds);
    var start := |blocks| - |recent|;
    RecentIsSuffix(blocks, p.maxGcRounds);
    var k := ReferenceIsInBlock(p, u, v, start + m, c, i);
    RecentStartsBelow(p, u, v, k, i);
    assert recent[k - start] == blocks[k];
    assert InBlock(recent, k - start, u[i]);
  }

  lemma RecentIsSuffix(blocks: seq<Block>, maxGcRounds: nat)
    ensures var recent := Recent(blocks, maxGcRounds); |recent| <= |blocks| && recent == blocks[|blocks| - |recent|..]
  {
  }

  /** A committed certificate above the collected rounds references only what is in the same block or in an earlier one. */
  lemma ReferenceIsInBlock(p: Protocol, u: Universe, v: Validator, top: nat, c: Certificate, i: CertificateId) returns (k: nat)
    requires WellFormed(p, u) && p.maxGcRounds >= 1 && LedgerInv(p, u, v) && Member(u, c) && top < |v.accepted|
    requires InSubdag(v.accepted[top].subdag, c) && i in c.previous && i in u && u[i].round > Rebooted(p, v).gcRound
    ensures k <= top && InSubdag(v.accepted[k].subdag, u[i])
  {
    hide WellFormed, LedgerInv, DoneIds, IdsOf, FiledByRound, Refilled, Reloaded, Recent, CertificatesOf, AnchorsOf;
    var blocks := v.accepted;
    LedgerIsShaped(p, u, v);
    PrefixPast(p, u, v, top);
    HeldIsDone(u, blocks, top, c);
    var past := PastOf(blocks[..top + 1], p.maxGcRounds);
    assert AboveCutoff(past, u[i]);
    assert i in past.done;
    k := DoneSomewhere(blocks[..top + 1], i);
    assert blocks[..top + 1][k] == blocks[k];
    assert IsShaped(u, blocks[k]);
    InIdsOf(u, blocks[k].subdag, i);
  }

  lemma HeldIsDone(u: Universe, blocks: seq<Block>, k: nat, c: Certificate)
    requires Shaped(u, blocks) && Keyed(u) && k < |blocks| && InSubdag(blocks[k].subdag, c)
    ensures c.id in DoneIds(blocks[..k + 1])
  {
    hide DoneIds, FiledByRound;
    assert IsShaped(u, blocks[k]);
    InIdsOf(u, blocks[k].subdag, c.id);
    assert blocks[..k + 1][k] == blocks[k];
    DoneContains(blocks[..k + 1], k);
  }

  /** A block that holds something above the collected rounds is a recent one. */
  lemma RecentStartsBelow(p: Protocol, u: Universe, v: Validator, k: nat, i: CertificateId)
    requires WellFormed(p, u) && LedgerInv(p, u, v) && k < |v.accepted| && i in u && InSubdag(v.accepted[k].subdag, u[i])
    requires u[i].round > Rebooted(p, v).gcRound
    ensures k >= |v.accepted| - |Recent(v.accepted, p.maxGcRounds)|
  {
    hide WellFormed, BlocksOf, SameDone, Committable, Refilled, Reloaded, CertificatesOf;
    var anchors := AnchorsOf(v.accepted);
    CommittableShape(p, u, anchors);
    AnchorsSpread(p, u, anchors, k);
    assert IsShaped(u, v.accepted[k]);
  }

  /** Every step keeps the invariant. */
  lemma StepKeepsInv(p: Protocol, u: Universe, w: Validator, a: Action, v: Validator)
    requires WellFormed(p, u) && p.maxGcRounds >= 1 && Inv(p, u, w) && Moves(p, u, w, a, v)
    ensures Inv(p, u, v)
  {
    hide WellFormed, Inv, WithStored, WithFiled, WithSynced, BlockCommitted, Locked, Decided, Finished, Rebooted, Insertable, DoneIds,
         IsNextBlock, LocksInTime;
    match a
    case Store(c) => StoreInv(p, u, w, c);
    case File(c) => FileInv(p, u, w, c);
    case FileSynced(c) => FileSyncedInv(p, u, w, c);
    case CommitBlock(b) => CommitBlockInv(p, u, w, b);
    case Lock(leader) => LockInv(p, u, w, leader);
    case Decide(ledger, accept) => DecideInv(p, u, w, ledger, accept);
    case Finish => FinishInv(p, u, w);
    case Abort => NoFlightInv(p, u, w);
    case Reboot => RebootInv(p, u, w);
  }

  lemma {:induction false} RunsKeepInv(p: Protocol, u: Universe, actions: seq<Action>, v: Validator)
    requires WellFormed(p, u) && p.maxGcRounds >= 1 && IsRun(p, u, actions, v)
    ensures Inv(p, u, v)
    decreases |actions|
  {
    hide WellFormed, Inv, Moves;
    if actions == [] {
      GenesisInv(p, u);
    } else {
      var n := |actions| - 1;
      var w :| IsRun(p, u, actions[..n], w) && Moves(p, u, w, actions[n], v);
      RunsKeepInv(p, u, actions[..n], w);
      StepKeepsInv(p, u, w, actions[n], v);
    }
  }

  /** Every block has passed the checks on its subdag. */
  lemma {:induction false} AcceptedPass(p: Protocol, u: Universe, actions: seq<Action>, v: Validator, k: nat)
    requires IsRun(p, u, actions, v) && k < |v.accepted|
    ensures Passes(v.accepted[k].subdag, v.accepted[k].anchor.round)
    decreases |actions|
  {
    hide Passes, Moves;
    if actions != [] {
      var n := |actions| - 1;
      var w :| IsRun(p, u, actions[..n], w) && Moves(p, u, w, actions[n], v);
      hide IsRun;
      StepAccepts(p, u, w, actions[n], v);
      if k < |w.accepted| {
        AcceptedPass(p, u, actions[..n], w, k);
      }
    }
  }

  /** A step adds at most one block, and one that passes. */
  lemma StepAccepts(p: Protocol, u: Universe, w: Validator, a: Action, v: Validator)
    requires Moves(p, u, w, a, v)
    ensures v.accepted == w.accepted ||
            exists b :: v.accepted == w.accepted + [b] && Passes(b.subdag, b.anchor.round) && (a == CommitBlock(b) || a.Decide?)
  {
    hide Passes, OrderDag, LocalWalk, CommittedAll, Flatten, WithStored, WithFiled, WithSynced, Rebooted, Insertable, DoneIds, KeptAbove,
         IsNextBlock;
    match a
    case CommitBlock(b) =>
      NextBlockPasses(p, u, w, b);
    case Decide(ledger, accept) =>
      var anchor := w.flight.value.remaining[0];
      var r := OrderDag(Env(w.dag, w.storage, ledger, p.maxGcRounds), anchor);
      if v.accepted != w.accepted {
        assert v.accepted == w.accepted + [Block(anchor, r.value)];
      }
    case Store(c) => assert WithStored(w, c).accepted == w.accepted by { StoringAcceptsNothing(p, w, c); }
    case File(c) => StoringAcceptsNothing(p, w, c);
    case FileSynced(c) => StoringAcceptsNothing(p, w, c);
    case Lock(_) =>
    case Finish =>
    case Abort =>
    case Reboot => assert Rebooted(p, w).accepted == w.accepted by { RebootAcceptsNothing(p, w); }
  }

  lemma StoringAcceptsNothing(p: Protocol, v: Validator, c: Certificate)
    ensures WithStored(v, c).accepted == WithFiled(p, v, c).accepted == WithSynced(v, c).accepted == v.accepted
  {
    hide Elected, Inserted;
  }

  lemma RebootAcceptsNothing(p: Protocol, v: Validator)
    ensures Rebooted(p, v).accepted == v.accepted
  {
    hide Refilled, Reloaded, CertificatesOf, Recent;
  }

  lemma NextBlockPasses(p: Protocol, u: Universe, v: Validator, b: Block)
    requires IsNextBlock(p, u, v, b)
    ensures Passes(b.subdag, b.anchor.round)
  {
    hide IsNextBlock, Passes, Complete, IsPartOf, Atomic, LeavesKnown, Authorized;
    var x := NextIsChecked(p, u, v, b);
  }

  /** The block at `k` is what the search finds after the blocks before it, in the order of the search. */
  ghost predicate IsOwn(p: Protocol, u: Universe, blocks: seq<Block>, k: nat)
    requires Keyed(u)
  {
    k < |blocks| && blocks[k].subdag == SubdagOf(u, blocks[..k], p.maxGcRounds, blocks[k].anchor)
  }

  /** Every block that was not taken from a peer is what the search finds. */
  lemma {:induction false} OwnUnlessTaken(p: Protocol, u: Universe, actions: seq<Action>, v: Validator, k: nat)
    requires WellFormed(p, u) && p.maxGcRounds >= 1 && IsRun(p, u, actions, v) && k < |v.accepted| && Keyed(u)
    ensures IsOwn(p, u, v.accepted, k) || CommitBlock(v.accepted[k]) in actions
    decreases |actions|
  {
    hide WellFormed, Moves, Inv, SubdagOf, OrderDag;
    if actions != [] {
      var n := |actions| - 1;
      var w :| IsRun(p, u, actions[..n], w) && Moves(p, u, w, actions[n], v);
      RunsKeepInv(p, u, actions[..n], w);
      hide IsRun;
      StepAccepts(p, u, w, actions[n], v);
      if k < |w.accepted| {
        OwnUnlessTaken(p, u, actions[..n], w, k);
        assert v.accepted[..k] == w.accepted[..k];
      } else {
        assert v.accepted[..k] == w.accepted;
        if actions[n].Decide? {
          DecideFinds(p, u, w, actions[n], v);
        }
      }
    }
  }

  lemma DecideFinds(p: Protocol, u: Universe, w: Validator, a: Action, v: Validator)
    requires WellFormed(p, u) && p.maxGcRounds >= 1 && Inv(p, u, w) && Moves(p, u, w, a, v) && a.Decide? && Keyed(u)
    requires |v.accepted| == |w.accepted| + 1
    ensures var b := v.accepted[|w.accepted|]; b.subdag == SubdagOf(u, w.accepted, p.maxGcRounds, b.anchor)
  {
    hide WellFormed, Inv, OrderDag, Exact, CommittedAll, Flatten, UniverseEnv, DoneIds, Passes, PastOf;
    SearchSucceeds(p, u, w, a.ledger);
  }
}
