# AleoBFT in Dafny

A model of the consensus core of a snarkOS node, with proofs that hold for every input, every run and every
interleaving it admits. The core is AleoBFT: Bullshark ordering over a Narwhal DAG of batch certificates.

The main result is `Certification.NoFork`. As long as less than a third of the stake of any committee is faulty, any two
honest validators commit the same anchors as far as both have got, and each block adds the same certificates for both.
Blocks that both found themselves are the same to the last detail, order included. The proof runs from the signatures on
batches to the blocks. It covers runs with any arrival order, commit calls queued on the lock, rejected and repeated
calls, commits in chunks of different sizes, garbage collected at different times, restarts from the ledger, and blocks
taken over from peers. What it asks for beyond the bound on faults is listed under "What is assumed".

The hard part of the way there is that an honest signer may sign a batch without checking what it references, namely
just above the rounds it has collected. `Certification.KnownIsWellFormed` shows, by induction over time, that some other
honest signer has checked all the same. `FallingBack.ReliableIff` says exactly how far primaries may fall back for that.

Two results say what stands in the way. `SubdagShapes.NobodyGetsPast`: an anchor whose history reaches too deep is
refused, exactly under the condition of `SubdagShapes.SubdagPasses`, and then no run accepts another block.
`BlockAnchors.AnchorsCommittableIff` and `BlockChecks.TakenIsFoundIff`: exactly when blocks that are taken from a peer, with
all that is checked by then, are the blocks that everyone else has.

## How the project is laid out

Consensus, from the bottom up:

- `Committee.dfy`: stake thresholds in saturating 64-bit arithmetic, and why quorums intersect.
- `CertificateGraph.dfy`, `Anchors.dfy`: all certificates seen from outside any validator, and why walking back from
  any two committed leaders selects the same anchors.
- `Dag.dfy`, `DagCommits.dfy`, `Views.dfy`: one validator's DAG, what commits do to it, and why a view that is closed
  backwards selects the same anchors as the whole.
- `Ordering.dfy`, `Subdags.dfy`, `Levels.dfy`, `Blocks.dfy`: the explicit-stack search for what an anchor commits, what it
  yields and in which order, and why blocks are a function of the anchors alone.
- `Storage.dfy`, `Sync.dfy`: the certificate storage with its garbage collection, and the recursive sync.
- `Rebuilds.dfy`, `CommitRuns.dfy`, `Safety.dfy`: a validator as a state machine over all its runs, restarts included, the
  invariant, and the theorems. `Arrivals.dfy` and `Witness.dfy` have a concrete run that does commit, and
  `UnfiledVote.dfy` one that goes wrong because a caller takes the lock too early.
- `SubdagChecks.dfy`, `SubdagShapes.dfy`, `LongChain.dfy`: the checks on a subdag, exactly when they refuse an anchor,
  what follows for all validators, and a case of it at the constants of the source.
- `BlockChecks.dfy`, `BlockAnchors.dfy`, `UnlinkedBlock.dfy`: what is checked of a block from a peer, what that says about
  its contents and its anchor, and cases in which the anchor is wrong.
- `Bft.dfy`, `Transmissions.dfy`, `Rounds.dfy`: the imperative procedures, proved to do what the runs are made of.
  `CommitCalls.dfy` says exactly when a commit call gets all the way.
- `PrimaryEvents.dfy`, `Primary.dfy`, `PrimaryRuns.dfy`: proposing and signing, as events, as the methods that are
  proved to be such events, and over the whole life of a primary. `LostContents.dfy` has a case of lost contents.
  `Progress.dfy` says what keeps a primary going.
- `Certification.dfy`, `Worlds.dfy`, `TwoAuthors.dfy`, `FallingBack.dfy`: from there to a well-formed set of certificates
  and to agreement, a small world, and worlds in which primaries fall back too far.

Beside it:

- `FourMembers.dfy`: a committee that the concrete cases are about, and certificates that are listed in a table.
- `Ready.dfy`, `Batch.dfy`: the queue of verified transmissions, and how a batch is drained from it.
- `TransactionsQueue.dfy`, `QueueContents.dfy`: the fee-ordered memory pool, and what becomes of what is put into it.
- `Cdn.dfy`: the loader that feeds the ledger blocks from a content delivery network.

A source procedure that changes state is a method, proved against a function of the state. What is promised of it is
proved about that function, where runs and other procedures can use it. `hide` statements keep definitions that a
proof does not need away from the solver.

## What is assumed

- IDs are hashes: equal IDs mean equal headers, and what was signed is what is certified.
- The lookback committee and the leader of a round are functions of the round, the same for all validators. A failed
  lookup ends a commit call, which runs allow at any point.
- A caller that takes the commit lock finds every stored certificate above the last committed round in the DAG, or at
  least none missing on whose account a leader loses its path. Storing and inserting are two steps, and in between
  another call may take the lock. `CommitRuns.LockCompletesIff` says that the call selects the anchors of everyone if and
  only if no path is lost, and `UnfiledVote.LockTooEarly` shows a fork otherwise.
- The commit lock is held by one call at a time, and certificates may arrive while it is held. Block sync does not
  take the lock; in runs it commits a block only while no call holds it.
- A block that is taken over from a peer has passed the checks of the ledger and has waited for votes as in the source:
  its own subdag and authority are checked, and of the blocks that wait behind it the subdags. Beyond that, runs ask for
  two things that have not been checked when it is taken. The anchors up to the one with the votes succeed one another
  (`BlockAnchors.InSuccession`): each leads its round, lies above the one before, has a path to it, and no leader in
  between escapes the checks. And the block is complete (`BlockChecks.Complete`): it leaves out nothing new that lies 99 or
  more rounds below its anchor, or that was in a block when its subdag was checked and is in none when it is taken.
- The ledger confirms only certificates that are in blocks; it may fail to confirm any of them.
- Events have an order in time. A certificate exists once its honest signers have signed it, and what a primary sees of
  its storage is what some run over the certificates of that time leads to.
- Committees overlap: every quorum of a round shares an honest member with all quorums of some round above it, within
  the depth of collection (`Certification.Overlap`). For a committee that does not change this is a condition on the
  depth alone (`OneCommitteeOverlapsIff`): at depth 100, that no restart leaves a primary more than 97 rounds below the
  last round it proposed in.
- One author's proposals are handled one at a time. `PrimaryRuns.OverlapSignsTwice` shows why.
- A primary that restarts was shut down cleanly. It starts in the round of the last block of its ledger, which some run
  over the certificates of that time leads to.

## Where the code and its comments differ

- The quorum threshold is `N - f` only up to a total stake of 2^63. Above that its multiplication saturates
  (`Committees.QuorumIsNMinusF`). The saturation in the availability threshold is harmless.
- Comments in the memory pool say that the low-priority queue is empty when the priority queue is at capacity. That is
  false (`LowNotEmptyWhenHighIsFull`), and `FullBesideLowIff` says exactly which insertions make it so. `OverfillIff`
  says exactly when a pool grows past its capacity, and `AlwaysBounded` proves the bound that does hold,
  `2 * capacity - 1`.
- A comment says that a certificate's quorum of signers guarantees that an honest one checked it. An honest signer
  leaves the references of a header unchecked exactly when it is one round above the collected ones
  (`Storages.UncheckedIff`), so the guarantee does not come from the quorum alone. It holds under the assumptions on
  restarts and committees above. For one committee and an even depth it holds if and only if primaries fall back by at
  most three rounds less than the depth (`FallingBack.ReliableIff`), and the source does not bound that.
- A comment says that the safety of block sync rests on the checks on pending blocks. When the first of them is taken,
  nobody has looked for a path from one anchor to the one before it (`UnlinkedBlock.TakenAnchorsDiffer`), nor, of the
  blocks behind it, whether the anchor leads its round (`UnlinkedBlock.VotedIsNotElected`) and whether the header states
  the right one, on which the checks of the subdag depend (`UnlinkedBlock.RoundIsNotVerified`).
  `BlockAnchors.AnchorsCommittableIff` has the exact condition; once each block has passed all checks in turn, the paths
  are all that is left of it (`BlockAnchors.LinkedSufficesIff`).
- The checks let a block leave out what lies 99 or more rounds below its anchor (`BlockChecks.ChecksDetermineIff`), even of
  an anchor that is refused to everyone who finds it (`LongChain.CutIsChecked`). They do not look at the order of a row
  (`BlockChecks.OrderIsNotChecked`), nor at whether certificates are in an earlier block already.
- A block is required to hold a certificate of the round of the last anchor. That is all that an own block may lack
  besides being too long (`BlockAnchors.OwnIsCheckedIff`).
- The comment on the signature record says that its check makes only one handler sign. It refuses only the round
  recorded last, so overlapping handlers can sign two batches of a round, exactly when another round was recorded in
  between (`OverlapSignsTwice`).
- The request loop of the block loader asks for all bundles under every schedule if and only if the range does not end
  one block into a bundle (`Cdn.CoverageIff`). Ranges that end with a whole file, as the network's height does, are
  covered.
- A subdag is said to be bounded by the collection depth. It is not: the search goes down to the collection depth below
  the *previous* anchor, so at the source's constants it may span more than the 100 rounds that are allowed. Of the
  checks on a subdag only that limit can fail, and it does exactly when the anchor's history holds a certificate that
  is in no block, above the cutoff, and 100 or more rounds below the anchor (`SubdagShapes.SubdagPasses`,
  `LongChain.SomeRunIsRefused`).
- Moving fast forward drops the live proposal without giving its contents back. Each of them is lost unless it is in
  the queue, in storage or in the ledger (`Primaries.Primary.FastForward`, `LostContents.FastForwardLoses`). All other
  ways a proposal ends keep them findable.

## Model

| member | source | states |
|---|---|---|
| `Committees.AvailabilityIsFPlusOne` | snarkVM/ledger/committee/src/lib.rs:171-176 | the availability threshold is `f + 1` on the whole 64-bit range |
| `Committees.QuorumIsNMinusF` | snarkVM/ledger/committee/src/lib.rs:178-184 | the quorum threshold is `N - f` if and only if the total stake is at most 2^63 |
| `Committees.QuorumMeetsAvailability` | snarkVM/ledger/committee/src/lib.rs:147-184 | every quorum and every set that reaches availability share a member |
| `Committees.TwoQuorumsShareHonest` | snarkVM/ledger/committee/src/lib.rs:160-184 | two quorums share a member that is not faulty, given at most `f` faulty stake |
| `Committees.DisjointNotBoth` | node/bft/src/bft.rs:553-556 | disjoint sets never reach a quorum and availability at once |
| `Committees.QuorumLeavesTooFew` | snarkVM/ledger/committee/src/lib.rs:147-184 | a set is a quorum just when the members outside it do not reach availability |
| `Committees.AccumulateStake` | snarkVM/ledger/committee/src/lib.rs:147-169 | summing in any order gives the stake of the set, capped at the 64-bit maximum |
| `Committees.IsQuorumThresholdReached` | snarkVM/ledger/committee/src/lib.rs:160-169 | true just when the stake of the addresses reaches the quorum threshold |
| `Committees.IsAvailabilityThresholdReached` | snarkVM/ledger/committee/src/lib.rs:147-156 | true just when the stake of the addresses reaches the availability threshold |
| `Committees.NewCommittee` | snarkVM/ledger/committee/src/lib.rs:79-106 | a committee is built just when size, stakes, commissions and the checked total are in range, and then its total is the stake of its members |
| `CertificateGraph.VotesMakeUnavoidable` | node/bft/src/bft.rs:351-375 | a certificate two or more rounds above one with `f + 1` votes has a path to it |
| `Anchors.DirectIsUnavoidable` | node/bft/src/bft.rs:362-374 | every later leader has a path to a directly committed one |
| `Anchors.WalkBackPassesThrough` | node/bft/src/bft.rs:630-671 | walking back from a certificate with a path to an unavoidable leader selects all of that leader's chain |
| `Anchors.DirectChainsNest` | node/bft/src/bft.rs:604-672 | of two directly committed leaders, the lower one's chain of anchors is a prefix of the upper one's |
| `Anchors.CommittableAgree` | node/bft/src/bft.rs:807-821 | any two sequences of anchors that validators may have committed are prefixes of one another |
| `Anchors.ChainResumes` | node/bft/src/bft.rs:630-631 | the walk of one commit call resumes exactly where the anchors committed so far end |
| `Dags.Dag.constructor` | node/bft/src/helpers/dag.rs:58-60 | a new DAG is empty |
| `Dags.Dag.Insert` | node/bft/src/helpers/dag.rs:105-121 | a certificate is filed under its round and author unless it was recently committed |
| `Dags.Dag.Commit` | node/bft/src/helpers/dag.rs:124-166 | the ID is recorded, the last committed round rises, rounds at or below the cutoff and the author's older certificates go |
| `Dags.Dag.IsLinked` | node/bft/src/helpers/dag.rs:169-194 | succeeds just when the rounds are in order and none between is missing, and then says whether there is a path |
| `Dags.SearchStep` | node/bft/src/helpers/dag.rs:180-190 | one step down keeps every path to the target and adds none |
| `DagCommits.CommittedAllEffect` | node/bft/src/bft.rs:790-799 | committing a subdag raises the last round to the highest seen, records exactly its IDs above the cutoff, and loses nothing above the last round |
| `DagCommits.CommittedAllLeaves` | node/bft/src/helpers/dag.rs:124-166 | after committing a subdag the graph has just what is above the cutoff and above all that was committed of the same author |
| `Views.LocalWalkIsWalkBack` | node/bft/src/bft.rs:630-671 | on a view closed backwards the walk selects the same anchors as on all certificates |
| `Views.LocalWalkFollows` | node/bft/src/bft.rs:630-671 | on any view the walk selects those anchors if each is there with a path from the next |
| `Views.NoRoundMissing` | node/bft/src/helpers/dag.rs:180-190 | a closed view has every round between the last committed one and any certificate of it |
| `Ordering.StepProgress` | node/bft/src/bft.rs:843-895 | every step of the search marks a new certificate or shortens the stack, so the search ends |
| `Subdags.RunIsExact` | node/bft/src/bft.rs:843-895 | the search collects each certificate it reaches exactly once, and nothing else |
| `Subdags.RetainKeepsAll` | node/bft/src/bft.rs:896-897 | the final `retain` removes nothing |
| `Subdags.OrderDagIsExact` | node/bft/src/bft.rs:832-900 | the search never fails on all certificates, and yields exactly what the leader reaches above the cutoff and outside earlier blocks |
| `Subdags.OrderDagAgrees` | node/bft/src/bft.rs:851-889 | a validator that can answer what is asked gets the same subdag, order included, as a search over all certificates |
| `Subdags.ReachesIffHistory` | node/bft/src/bft.rs:846-869 | stopping at committed and old certificates cuts nothing off: what is reached is the causal history that is new and recent enough |
| `Levels.OrderDagIsByLevel` | node/bft/src/bft.rs:846-889 | each row of the subdag is, in this order, the first occurrences among the references of the certificates of the row above that are neither committed nor below the cutoff |
| `Blocks.BlocksOfPrefix` | node/bft/src/bft.rs:807-821 | the blocks of a prefix of the anchors are a prefix of the blocks, whatever the chunks |
| `Blocks.BlockIsHistory` | node/bft/src/bft.rs:832-900 | a block is the part of its anchor's history that is above the cutoff and in no earlier block, and the anchor |
| `Blocks.BlocksDisjoint` | node/bft/src/bft.rs:859-869 | no certificate is in two blocks |
| `Blocks.FlattenSplits` | node/bft/src/bft.rs:791-798 | the rows of a subdag are put one after the other, lower rounds first, each in its own order |
| `Storages.Storage.constructor` | node/bft/src/helpers/storage.rs:111-142 | storage starts empty at round 1 or later, collected up to the depth below that |
| `Storages.Storage.ContainsInRoundFrom` | node/bft/src/helpers/storage.rs:288-290 | the index answers for the stored certificates |
| `Storages.Storage.AuthorsOfReferences` | node/bft/src/helpers/storage.rs:511-532 | the loop succeeds just when all references are stored, of the round before, and of different authors |
| `Storages.Storage.CheckReferences` | node/bft/src/helpers/storage.rs:495-537 | passes just when the round before is collected, or the references are stored, of that round, of different authors, and a quorum |
| `Storages.Storage.CheckBatchHeader` | node/bft/src/helpers/storage.rs:458-540 | says that a batch is stored already, or valid, just when it is; references of a collected round are not checked |
| `Storages.Storage.CheckIncomingCertificate` | node/bft/src/helpers/storage.rs:553-583 | passes just when the signers are members and reach a quorum |
| `Storages.Storage.CheckCertificate` | node/bft/src/helpers/storage.rs:606-667 | passes just when ID and slot are free, the header is valid and the signers hold |
| `Storages.Storage.InsertCertificate` | node/bft/src/helpers/storage.rs:686-737 | inserts just what it accepts; index, one certificate per author and round, and closure under references are kept |
| `Storages.Storage.RemoveCertificate` | node/bft/src/helpers/storage.rs:757-794 | removes one certificate, and its round from the index if it was the last |
| `Storages.Storage.CollectRound` | node/bft/src/helpers/storage.rs:254-262 | removes exactly the certificates of one round |
| `Storages.Storage.GarbageCollect` | node/bft/src/helpers/storage.rs:239-271 | keeps exactly the certificates above the new collected round, refuses to go back, and keeps closure |
| `Storages.Storage.SyncRoundWithBlock` | node/bft/src/helpers/storage.rs:808-823 | the round rises to that of the block, or stays |
| `Storages.Storage.IncrementToNextRound` | node/bft/src/helpers/storage.rs:178-230 | the current round never goes back; which round is returned, and exactly when it fails |
| `Storages.InsertKeepsClosed` | node/bft/src/helpers/storage.rs:506-537 | inserting a certificate whose references hold keeps storage closed |
| `Storages.CollectKeepsClosed` | node/bft/src/helpers/storage.rs:252-265 | collecting rounds keeps storage closed above the new collected round |
| `Storages.UncheckedIff` | node/bft/src/helpers/storage.rs:495-498 | of the headers above the collected rounds, the references go unchecked just for those of the first round |
| `Sync.FetchMissingCertificates` | node/bft/src/primary.rs:1997-2045 | fetches exactly the certificates that ledger and storage lack, and fails just when one of them is not answered |
| `Sync.NotifyBft` | node/bft/src/primary.rs:1817-1820 | a commit collects up to the depth below its round, fails just when that lies below what is collected already, and changes nothing else; without a commit nothing changes |
| `Sync.SyncWithCertificate` | node/bft/src/primary.rs:1780-1825 | ends because references have no cycles; keeps storage closed and loses only collected certificates; `Ok` means stored or collected; for every newly stored certificate whose arrival makes the DAG commit, garbage has been collected up to the depth below that commit; if all is answered and valid it fails only if a commit collected garbage meanwhile, or tried to collect backwards, and not at all without a commit |
| `Sync.StoreAndNotify` | node/bft/src/primary.rs:1811-1823 | a valid certificate whose references are settled is refused just when its round has been collected; `Ok` means that what its commit calls for is collected |
| `Sync.SyncWithBatchHeader` | node/bft/src/primary.rs:1828-1912 | refuses a collected round, and any while the node is syncing; fetches nothing for the first round above the collected ones; otherwise `Ok` means that every reference is in the ledger, stored, or of a collected round, and signed by a quorum if that is to be checked; it fails only as `SyncWithCertificate` does |
| `Sync.SyncOne` | node/bft/src/primary.rs:1886-1899 | a missing certificate is synced unless its signers are to be checked and are no quorum, which is reported and changes nothing |
| `Sync.SyncAll` | node/bft/src/primary.rs:1882-1911 | each missing certificate is synced whether or not others fail; any failure is reported; what is not signed by a quorum is not synced if that is to be checked |
| `Sync.StorageAccepts` | node/bft/src/primary.rs:1209-1213 | once the references are stored, the checks on a valid certificate are redundant |
| `CommitRuns.GenesisInv` | node/bft/src/helpers/dag.rs:50-60 | a fresh validator satisfies the invariant of all runs |
| `CommitRuns.ViewIsClosed` | node/bft/src/primary.rs:1209-1211 | a validator's DAG is closed backwards above its last committed round |
| `CommitRuns.SearchIsServed` | node/bft/src/bft.rs:851-889 | the cutoff of the search is never below that of storage, so whatever it asks for is at hand |
| `CommitRuns.SearchSucceeds` | node/bft/src/bft.rs:832-900 | the search of the next anchor succeeds with exactly the subdag that the anchors determine |
| `CommitRuns.ElectedIsDirect` | node/bft/src/bft.rs:351-375 | a leader that a validator finds ready has `f + 1` votes among all certificates |
| `CommitRuns.FiledReadyIff` | node/bft/src/bft.rs:299-382 | filing a certificate makes just that leader ready which it may vote for, if it is above the last committed round and the certificates in the DAG give it `f + 1` votes |
| `CommitRuns.StoreInv` | node/bft/src/helpers/storage.rs:686-737 | storing a certificate keeps the invariant, also during a commit |
| `CommitRuns.FileInv` | node/bft/src/bft.rs:299-382 | so does inserting a stored certificate into the DAG, at any later time, and the election that follows |
| `CommitRuns.FilingKeepsClosedIff` | node/bft/src/primary.rs:1811-1820 | inserting a certificate into the DAG keeps it closed just when what it references is there already |
| `CommitRuns.FileSyncedInv` | node/bft/src/sync/mod.rs:697-704 | so does inserting a certificate of a block from a peer, also one that is old, without an election |
| `CommitRuns.CommitBlockInv` | node/bft/src/sync/mod.rs:947-985 | committing a block taken from a peer keeps the invariant, whatever order its rows have, whatever it repeats and whatever waits behind the block with the votes |
| `CommitRuns.NextAnchorIsCommittable` | node/bft/src/sync/mod.rs:899-917 | the anchor of a block that is taken comes next for every validator |
| `CommitRuns.TakenCommitsFound` | snarkVM/ledger/src/check_next_block.rs:335-381 | the block commits what the search for its anchor would find |
| `CommitRuns.RebootInv` | node/bft/src/sync/mod.rs:372-473 | a validator that rebuilds storage and DAG from its ledger satisfies the invariant |
| `CommitRuns.RecentHolds` | node/bft/src/sync/mod.rs:386-398 | the blocks that are loaded hold every committed certificate that is in range |
| `CommitRuns.ReferencesComeFirst` | node/bft/src/sync/mod.rs:414-440 | while they are loaded in order, whatever a certificate references has been loaded before it |
| `CommitRuns.LockCompletesIff` | node/bft/src/bft.rs:607-672 | the walk of one call completes the chain of its leader just when no leader of the walk over all certificates has lost its path in the DAG |
| `CommitRuns.FiledSeesWholeWalk` | node/bft/src/bft.rs:630-671 | none has if every stored certificate is in the DAG |
| `CommitRuns.LockInv` | node/bft/src/bft.rs:600-672 | taking the lock and walking back keeps the invariant, also for a leader committed already |
| `CommitRuns.DecideInv` | node/bft/src/bft.rs:675-803 | deciding one anchor, accepted, rejected or skipped, keeps the invariant |
| `CommitRuns.FinishInv` | node/bft/src/bft.rs:822-824 | collecting garbage at the end of a chunk keeps the invariant |
| `CommitRuns.RunsKeepInv` | node/bft/src/bft.rs:594-829 | the invariant holds in every state of every run |
| `CommitRuns.AcceptedPass` | node/bft/src/bft.rs:744-747 | every accepted block has passed the checks on its subdag |
| `CommitRuns.OwnUnlessTaken` | node/bft/src/bft.rs:744-803 | every block that was not taken from a peer is what the search finds, in its order |
| `Safety.AnchorAgreement` | node/bft/src/bft.rs:604-672 | the anchors committed in any two runs are prefixes of one another, with restarts and with blocks taken from peers |
| `Safety.BlockAgreement` | node/bft/src/bft.rs:790-824 | each block that two runs have adds the same certificates to the same ones in both; if both found it themselves it is the same, order included |
| `Safety.OwnBlockAgreement` | node/bft/src/bft.rs:790-824 | the blocks of any two runs that take none from peers are prefixes of one another: same certificates, same order |
| `Safety.AcceptedGrows` | node/bft/src/bft.rs:761-785 | no step takes back a block |
| `Safety.AcceptedAtMostOnce` | node/bft/src/bft.rs:600-628 | accepted anchors have strictly increasing even rounds, and a block that a validator found itself holds nothing that an earlier one does |
| `Safety.AcceptedIsHistory` | node/bft/src/bft.rs:832-900 | each block adds exactly the new and recent part of its anchor's causal history |
| `Safety.OwnIsByLevel` | node/bft/src/bft.rs:846-859 | in a block that a validator found itself, in any run, each row lists what the row above references, from left to right, each certificate once |
| `Safety.SearchNeverFails` | node/bft/src/bft.rs:879-887 | the missing-certificate error is unreachable, whatever the ledger answers |
| `Safety.WalkNeverFails` | node/bft/src/bft.rs:659-661 | no path search of a commit call can miss a round |
| `Safety.CollectionNeverDecreases` | node/bft/src/helpers/storage.rs:266-268 | the error of collecting backwards is unreachable |
| `SubdagChecks.PassesIff` | snarkVM/ledger/narwhal/subdag/src/lib.rs:134-152 | a subdag is non-empty, sequential, connected, with the anchor alone on top, so it passes just when it is short enough |
| `BlockChecks.PassesIffHeaded` | snarkVM/ledger/narwhal/subdag/src/lib.rs:134-162 | for any subdag whatever: it passes if and only if one certificate of an even round heads it alone, all else is history of that certificate within it, and it spans no more rounds than allowed |
| `SubdagChecks.RefusedIff` | snarkVM/ledger/narwhal/subdag/src/lib.rs:134-162 | a subdag is refused just when the anchor's history holds a certificate in no block, above the cutoff, and 100 or more rounds below it |
| `SubdagChecks.CloseLeaderPasses` | snarkVM/ledger/narwhal/subdag/src/lib.rs:160-163 | an anchor is never refused if its distance from the one before it and the collection depth are within the limit together |
| `BlockChecks.TakenIsFoundIff` | snarkVM/ledger/src/check_next_block.rs:335-381 | a block that passes the checks adds what the search would find just when it leaves out nothing new that lies 99 or more rounds below its anchor or was in a block only when its subdag was checked |
| `BlockChecks.ChecksDetermineIff` | snarkVM/ledger/src/check_next_block.rs:363-369 | the checks determine what a block adds just when no new certificate of the anchor's history lies that deep |
| `BlockChecks.TruncatedIsChecked` | snarkVM/ledger/src/check_next_block.rs:363-369 | a block that passes still does without its rows that lie that deep |
| `BlockChecks.OrderIsNotChecked` | snarkVM/ledger/narwhal/subdag/src/lib.rs:53-86 | a block that passes still does with its rows in any other order |
| `BlockAnchors.NoLeaderBetween` | snarkVM/ledger/src/check_next_block.rs:429-488 | a leader between two anchors has a path from the upper one, in the block or outside of it, just when it escapes the checks on the subdag |
| `BlockAnchors.VotedIsDirectIff` | node/bft/src/sync/mod.rs:713-760 | votes found in later blocks are votes among all certificates, so the anchor that has enough can be committed just when it leads its round |
| `BlockAnchors.DirectGetsVotes` | node/bft/src/sync/mod.rs:713-760 | an anchor that can be committed directly has its votes once the blocks with all certificates that vote for it have arrived |
| `BlockAnchors.AnchorsCommittableIff` | node/bft/src/sync/mod.rs:892-917 | the anchors of waiting blocks up to one with its votes are those of every validator just when they lead their rounds, rise, are linked, and no leader in between escapes the checks on subdags |
| `BlockAnchors.NothingEscapes` | snarkVM/ledger/block/src/verify.rs:169-192 | from a block that passes all checks on top of the ones before no leader escapes, owing to the rounds that have to be present or, for the first, to its being complete |
| `BlockAnchors.LinkedSufficesIff` | node/bft/src/sync/mod.rs:907-911 | if each block passes all checks in turn, the anchors are those of every validator just when each has a path to the one before it |
| `BlockAnchors.OwnIsCheckedIff` | snarkVM/ledger/block/src/verify.rs:169-192 | an own block passes the checks of others just when its subdag passes and it adds something of the round of the last anchor |
| `UnlinkedBlock.TakenAnchorsDiffer` | node/bft/src/sync/mod.rs:899-917 | three blocks that pass all checks, the second with its votes, and the anchor of the first is one that nobody else commits |
| `UnlinkedBlock.VotedIsNotElected` | node/bft/src/sync/mod.rs:947-968 | the same of linked blocks, the first of which is taken before it turns out that the anchor with the votes does not lead its round |
| `UnlinkedBlock.RoundIsNotVerified` | snarkVM/ledger/src/check_next_block.rs:354-369 | the same of linked blocks of leaders, where the header of the block with the votes states a later round, so that its references are not looked up |
| `SubdagShapes.SubdagPasses` | snarkVM/ledger/narwhal/subdag/src/lib.rs:134-162 | the condition of `RefusedIff`, on the state before the search, decides for the next anchor in every state of every run |
| `SubdagShapes.NobodyGetsPast` | node/bft/src/bft.rs:744-747 | if the anchor after a committable sequence is too deep, no validator ever accepts more blocks than that sequence has, in any run |
| `SubdagShapes.RefusedForAll` | node/bft/src/bft.rs:744-747 | once one validator is refused, no validator ever gets further than it then was |
| `SubdagShapes.CallsAcceptNothing` | node/bft/src/bft.rs:604-747 | in front of a refused anchor every commit call, for whatever leader is ready, accepts nothing |
| `CommitCalls.CallCommitsAllIff` | node/bft/src/bft.rs:676-824 | a commit call commits all anchors up to its leader if and only if each of them, in turn, is not too deep, has its transmissions at hand and is accepted; then the leader's round is the last committed one and garbage is collected up to the depth below it |
| `CommitCalls.LeaderCommitsIff` | node/bft/src/bft.rs:591-824 | so it is in every state of every run for every ready leader, with the part of its chain that is not committed yet; a leader of the last committed round adds nothing |
| `LongChain.SomeRunIsRefused` | snarkVM/ledger/narwhal/subdag/src/lib.rs:137-141 | a run at the source's constants, with a committee that could be built, that finds the subdag of its anchor and is refused |
| `LongChain.NobodyEverCommits` | snarkVM/ledger/narwhal/subdag/src/lib.rs:137-141 | no run over those certificates ever accepts a block |
| `LongChain.CutIsChecked` | snarkVM/ledger/src/check_next_block.rs:363-369 | a first block with that anchor that passes every check and does not hold what the search finds |
| `UnfiledVote.LockTooEarly` | node/bft/src/primary.rs:1811-1820 | a caller that takes the lock while a stored vote is not in the DAG accepts a block |
| `UnfiledVote.OthersCommitVoted` | node/bft/src/bft.rs:604-672 | every other validator commits another anchor first |
| `Witness.SomeRunCommits` | node/bft/src/bft.rs:594-829 | there is a run over well-formed certificates of four members that accepts a block |
| `Bfts.Bft.constructor` | node/bft/src/helpers/storage.rs:111-142 | a new instance is empty, collected up to the depth below its starting round; it is the start of a run if that round does not exceed the depth |
| `Bfts.Bft.AddNewCertificate` | node/bft/src/bft.rs:299-382 | inserts into the DAG and finds the leader that the certificate makes committable, if any |
| `Bfts.Bft.ReceiveCertificate` | node/bft/src/primary.rs:1811-1820 | storing and inserting a certificate are two steps of a run, or nothing changes |
| `Bfts.Bft.WalkBackLeaders` | node/bft/src/bft.rs:607-672 | the loop yields the anchors of the walk, oldest first, and fails only if a round is missing |
| `Bfts.Bft.FindCertificate` | node/bft/src/bft.rs:872-889 | looks into the DAG, then into storage |
| `Bfts.Bft.OrderDagWithDfs` | node/bft/src/bft.rs:832-900 | the nested loops compute the search of `Ordering.OrderDag`, errors included; `Levels.OrderDagIsByLevel` says what that is, row by row |
| `Bfts.Bft.CommitSubdag` | node/bft/src/bft.rs:790-799 | commits the certificates of a subdag in order |
| `Bfts.Bft.CommitAnchor` | node/bft/src/bft.rs:675-803 | one anchor: nothing changes unless the subdag is found, complete, well-shaped and accepted, and then all of it does |
| `Bfts.Bft.CommitAnchors` | node/bft/src/bft.rs:674-824 | all anchors of one call, until one is not accepted, and the collection at the end |
| `Bfts.Bft.CommitLeaderCertificate` | node/bft/src/bft.rs:594-829 | one commit call from the lock to the collection, as a function of the state before it and the answers it gets; from a state of a run it leads to a state of a run |
| `Bfts.CallIsRun` | node/bft/src/bft.rs:594-829 | a commit call is a stretch of a run, so all that is proved of runs holds around it |
| `Bfts.CommitCallIsRun` | node/bft/src/bft.rs:594-829 | the same from the moment a caller takes the lock, whatever other leaders are ready |
| `Bfts.Bft.SyncCertificate` | node/bft/src/helpers/storage.rs:827-917 | stores a certificate of a block unless it is collected or stored already; a step of a run |
| `Bfts.Bft.AddBlockSubdag` | node/bft/src/sync/mod.rs:676-708 | stores all certificates of a block and then files all, or stops at the first that is refused; from a state of a run either leads to one |
| `Bfts.MissingStoredIs` | node/bft/src/sync/mod.rs:676-708 | storage then has what it had and all certificates of the block that are not collected, and nothing else changes |
| `Bfts.SyncedAllIs` | node/bft/src/sync/mod.rs:676-708 | the DAG then has what it had and all certificates of the block that are not committed recently, and nothing else changes |
| `Bfts.Bft.RefillDag` | node/bft/src/sync/mod.rs:443-454 | inserting and committing each loaded certificate in turn keeps every ID in one row and ends in the DAG that `Rebuilds.RefilledEffect` describes |
| `Rebuilds.RefilledIsEmpty` | node/bft/src/sync/mod.rs:443-454 | the rebuilt DAG holds no certificate, only the record of what is committed |
| `Bfts.Bft.ReloadStorage` | node/bft/src/sync/mod.rs:414-440 | stores the recent certificates in order, and on the blocks of a run none is refused just when signatures, contents and number of references of each are as storage demands |
| `Bfts.Bft.SyncStorageWithLedger` | node/bft/src/sync/mod.rs:372-473 | rebuilds the state of `CommitRuns.Rebooted`, fails on the blocks of a run only in that case and then leaves the DAG alone, and is a step of the run |
| `Bfts.Bft.CommitSyncedBlock` | node/bft/src/sync/mod.rs:974-985 | from a state of a run and a block that may be taken, it leads to a state of a run |
| `Transmissions.ExtractTransmissions` | node/bft/src/bft.rs:681-743 | completes just when there is no ratification and every kept transmission is stored, and then yields the kept ones in order |
| `Transmissions.ExtractedDistinct` | node/bft/src/bft.rs:692-709 | no transaction or solution is extracted twice, and none that the ledger has |
| `Transmissions.ExtractedComplete` | node/bft/src/bft.rs:711-719 | a transmission is left out only if the ledger has it or an earlier one of the same object was kept |
| `Transmissions.ExtractedInOrder` | node/bft/src/bft.rs:688-743 | the extracted transmissions keep the order of their first occurrences |
| `Transmissions.KeyTestImplied` | node/bft/src/bft.rs:711-714 | the test for the transmission itself is implied by the seen-sets |
| `Rounds.CountersPartition` | node/bft/src/bft.rs:560-589 | the stake with and without the leader add up to the stake of the round |
| `Rounds.CountersExclusive` | node/bft/src/bft.rs:553-556 | the two thresholds are never reached together |
| `Rounds.AllPresentDecides` | node/bft/src/bft.rs:553-556 | once all members' certificates are there, exactly one threshold is reached |
| `Rounds.FullRoundEnds` | node/bft/src/bft.rs:509-557 | so an odd round with all members' certificates ends without the timer, whatever the leader |
| `Rounds.StaleLeaderNeverBlocks` | node/bft/src/bft.rs:541-556 | with a leader certificate of another round, a quorum is a quorum without the leader |
| `Rounds.StaleLeaderDoesNotHoldUp` | node/bft/src/bft.rs:509-557 | so an odd round that has a quorum ends without the timer |
| `Rounds.EvenRoundEndsIff` | node/bft/src/bft.rs:404-496 | an even round ends when the timer has expired just when it has a quorum, and before that if the certificate of its leader is there as well |
| `Rounds.OddRoundEndsIff` | node/bft/src/bft.rs:509-557 | an odd round ends when the timer has expired just when it has a quorum, and before that if the leader moreover has `f + 1` votes, or the members that have not voted otherwise are too few to give it as many |
| `Rounds.SkipExclusion` | node/bft/src/bft.rs:547-556 | a leader that a quorum of the next round does without can never be committed directly |
| `Rounds.SkippedIsNeverReady` | node/bft/src/bft.rs:362-374 | no validator, in any state of any run, finds such a leader ready |
| `Rounds.ComputeStake` | node/bft/src/bft.rs:560-589 | the loop yields the stake with and without the leader, capped |
| `Rounds.Advancer.UpdateLeaderToEvenRound` | node/bft/src/bft.rs:404-496 | sets the leader certificate, and says just when an even round may end |
| `Rounds.Advancer.IsLeaderQuorumOrNonleadersAvailable` | node/bft/src/bft.rs:509-557 | says just when an odd round may end |
| `Rounds.Advancer.TryAdvanceToNextRound` | node/bft/src/bft.rs:227-296 | advances just when the current round may end, to which round, and never back |
| `ReadyQueue.Ready.constructor` | node/bft/src/helpers/ready.rs:50-52 | a new queue is empty |
| `ReadyQueue.Ready.Contains` | node/bft/src/helpers/ready.rs:114-116 | the index answers for the queue |
| `ReadyQueue.Ready.Get` | node/bft/src/helpers/ready.rs:119-124 | the payload found through index and offset is the one queued under that ID |
| `ReadyQueue.Ready.Insert` | node/bft/src/helpers/ready.rs:128-139 | appends a new ID; index and queue stay in agreement |
| `ReadyQueue.Ready.InsertFront` | node/bft/src/helpers/ready.rs:144-160 | prepends a new ID; index and queue stay in agreement |
| `ReadyQueue.Ready.RemoveFront` | node/bft/src/helpers/ready.rs:163-178 | takes the first entry, also when the offset is reset |
| `ReadyQueue.Ready.ClearSolutions` | node/bft/src/helpers/ready.rs:181-190 | leaves exactly the entries that are not solutions, in order, and rebuilds the index |
| `ReadyQueue.WithoutSolutionsInOrder` | node/bft/src/helpers/ready.rs:181-190 | what is left are all entries that are not solutions, in their order |
| `ReadyQueue.ReinsertedKeepsAll` | node/bft/src/worker.rs:184-251 | putting entries back drops nothing that was queued, and leaves each of them findable |
| `ReadyQueue.ReinsertedInOrder` | node/bft/src/worker.rs:184-251 | what is put back stands behind the queue, in its order, and is just what was found nowhere else |
| `ReadyQueue.Reinsert` | node/bft/src/primary.rs:1760-1768 | each entry is put back unless it can be found elsewhere |
| `Batches.DrainIsBatch` | node/bft/src/primary.rs:568-702 | the batch is an in-order selection from the consumed prefix, within both limits and all checked; what is left is an exact suffix |
| `Batches.DrainTakesWhatBelongs` | node/bft/src/primary.rs:577-702 | without naming the fate of single entries: the batch is just what belongs into it, entry by entry, and draining ends only when the queue is empty, the batch full, the next worthy transaction too costly, or an entry undecodable |
| `Batches.PassedOver` | node/bft/src/primary.rs:586-690 | an entry that is passed over was not worthy, or in storage after something was chosen, or made the cost overflow |
| `Batches.DrainReady` | node/bft/src/primary.rs:577-702 | the loop over the queue, with its push-backs, chooses just the entries that belong into the batch, up to the one place at which draining ends, and leaves the rest in order |
| `Batches.DrainIsAffordable` | node/bft/src/primary.rs:921-1000 | a signer with the same costs and limit accepts what a proposer drained |
| `Batches.CheckSpend` | node/bft/src/primary.rs:918-1000 | the signer's loop accepts just when costs are known and no prefix exceeds the limit |
| `Primaries.Primary.constructor` | node/bft/src/primary.rs:202-237 | a primary without a cache has proposed and signed nothing |
| `Primaries.Primary.ReinsertContents` | node/bft/src/primary.rs:1760-1768 | every transmission given back stays findable |
| `Primaries.Primary.CheckForExpiration` | node/bft/src/primary.rs:1576-1592 | a proposal goes just when its round is over, and its contents stay findable |
| `Primaries.Primary.ReadyToPropose` | node/bft/src/primary.rs:427-566 | just when a proposal is allowed, always above the round last proposed, and that it references a quorum of the round before |
| `Primaries.Primary.ProposeBatch` | node/bft/src/primary.rs:410-751 | just when a batch is proposed, or the round is certified already; what is proposed, recorded and left in the queue; each outcome is an event of a life |
| `Primaries.Primary.FastForward` | node/bft/src/primary.rs:1595-1606 | ends at the round before the target; drops the proposal just when it moves, and which of its contents stay findable; an event of a life |
| `Primaries.Primary.ReviewProposal` | node/bft/src/primary.rs:798-850 | lets through just the proposals of others in rounds above the last one signed for them |
| `Primaries.Primary.RecordSignature` | node/bft/src/primary.rs:1011-1033 | records unless the round is the one recorded last |
| `Primaries.SigningRounds` | node/bft/src/primary.rs:1638-1660 | a primary signs for its own round and those ahead, up to the depth of collection, and for the round before just as long as it has no proposal of its own |
| `Primaries.Primary.HandleProposal` | node/bft/src/primary.rs:765-1047 | a signature is given just for a sound, new, affordable header above the collected rounds, close to the current round and above the last round signed, whose references pass; an event of a life |
| `Primaries.Primary.Certify` | node/bft/src/primary.rs:1134-1156 | the certificate is stored just when storage accepts it; if it is not, or passing it on fails, the contents are given back; either way they stay findable |
| `Primaries.Primary.AddSignature` | node/bft/src/primary.rs:1082-1139 | a new member's signature is added, and the proposal taken when its signers reach a quorum |
| `Primaries.LiveWhileNotEnough` | node/bft/src/primary.rs:1082-1139 | after any messages that are not enough, a new proposal is endorsed by just the members with a verified signature on it |
| `Primaries.CompleteOnceEnough` | node/bft/src/primary.rs:1082-1139 | as soon as they and the primary are a quorum it is complete, once, with just those endorsers, whatever comes later |
| `Primaries.Primary.ProcessSignature` | node/bft/src/primary.rs:1056-1157 | just when the live proposal is certified and stored; no contents are lost; events of a life |
| `Primaries.Primary.ShutDown` | node/bft/src/primary.rs:2055-2080 | saves a cache that the next start accepts |
| `Primaries.Primary.LoadCache` | node/bft/src/primary.rs:202-214 | restores what was saved, a restart in the life of the primary, and refuses a cache that does not fit |
| `Primaries.Primary.LoadPending` | node/bft/src/primary.rs:216-231 | pending certificates go back into storage, which stays closed; one that fails is skipped |
| `LostContents.FastForwardLoses` | node/bft/src/primary.rs:1595-1606 | a proposed transmission that is nowhere to be found after moving fast forward |
| `PrimaryRuns.LiveProposalIsLatest` | node/bft/src/primary.rs:704-751 | a live proposal is of the round recorded as last proposed |
| `PrimaryRuns.LifeGoesOn` | node/bft/src/primary.rs:410-1157 | a life followed by the events of one more call is a life, so any sequence of calls makes one |
| `PrimaryRuns.SavedIsLatest` | node/bft/src/primary.rs:2065-2075 | the saved round is never lower than any round proposed, and the cache is valid |
| `PrimaryRuns.ForeignCacheIff` | node/bft/src/helpers/proposal_cache.rs:53-61 | what another primary has saved is accepted if and only if it has no live proposal and has signed nothing |
| `PrimaryRuns.ProposalStays` | node/bft/src/primary.rs:410-1157 | a proposal stays with its contents and all its endorsers until its round is over or it is certified, also across restarts |
| `PrimaryRuns.ProposalsIncrease` | node/bft/src/primary.rs:436-519 | proposals have strictly increasing rounds through expiry, fast-forward, certification, shutdown and reload |
| `PrimaryRuns.SignaturesIncrease` | node/bft/src/primary.rs:818-850 | for each author, the rounds signed strictly increase |
| `PrimaryRuns.RecordIsLastSigned` | node/bft/src/primary.rs:1011-1033 | in any life the record has just the authors that were signed for, each with round and ID of the last batch signed |
| `PrimaryRuns.VouchesOnce` | node/bft/src/primary.rs:818-850 | an honest primary vouches for at most one batch of an author and round |
| `PrimaryRuns.OverlapSignsTwice` | node/bft/src/primary.rs:1011-1033 | overlapping handlers sign two batches of one round if and only if another round was recorded last in between |
| `Progress.NextRoundCanPropose` | node/bft/src/primary.rs:427-566 | once a round has ended, a primary may propose in the next one just when it has not proposed there yet, is connected to a quorum, and its last proposal, if any, is long enough ago |
| `Progress.CertifiedRoundIsLeft` | node/bft/src/primary.rs:493-519 | once its own batch of the round is certified, a primary proposes no other there, and tries to advance as soon as it may act |
| `Progress.ConnectedAreEnough` | node/bft/src/primary.rs:521-538 | a primary proposes only what can be certified: the signatures of those it is connected to are enough |
| `Certification.CertificatesUnique` | node/bft/src/primary.rs:1082-1139 | with at most `f` faulty stake, no author and round has two certificates, whoever checked what |
| `Certification.CertifiedIsSound` | snarkVM/ledger/narwhal/batch-header/src/lib.rs:140-165 | whatever is certified has at most 50 transmissions, and has references just when it is of a round above the first |
| `Certification.CertificatesWellFormed` | node/bft/src/helpers/storage.rs:542-552 | every certificate references a quorum of the round before |
| `Certification.CollectedIsDeep` | node/bft/src/bft.rs:822-824 | a validator has collected a round only after each round up to the depth above it has a quorum of authors |
| `Certification.EarlierSigner` | node/bft/src/primary.rs:1638-1650 | if a signer did not check, another honest signer did, or signed at an earlier time |
| `Certification.KnownIsWellFormed` | node/bft/src/helpers/storage.rs:542-552 | at any time, the certificates that exist are well-formed |
| `Certification.OneCommitteeOverlapsIff` | snarkVM/ledger/committee/src/lib.rs:160-184 | a committee that does not change meets the assumption just when primaries fall back by at most three rounds less than the depth |
| `FallingBack.ReliableIff` | node/bft/src/helpers/storage.rs:495-552 | for one committee with two honest members and an even depth, certificates are well-formed in every world just under that condition |
| `TwoAuthors.Collects` | node/bft/src/bft.rs:822-824 | a run that commits the leaders of all even rounds and collects up to the depth, for any depth |
| `Worlds.SmallWorldIsWorld` | node/bft/src/primary.rs:410-751 | there is a world that meets all that agreement asks for |
| `Certification.NoFork` | node/bft/src/bft.rs:807-821 | any two honest validators have the same anchors, and each block adds the same for both; without blocks from peers, their blocks are prefixes of one another |
| `TransactionsQueue.PriorityQueue.constructor` | node/consensus/src/transactions_queue.rs:147-152 | a new priority queue is empty |
| `TransactionsQueue.PriorityQueue.Insert` | node/consensus/src/transactions_queue.rs:159-168 | a new transaction gets its place by fee and arrival and is kept under its ID; the two maps stay in agreement |
| `TransactionsQueue.PriorityQueue.CompareInsert` | node/consensus/src/transactions_queue.rs:170-190 | the lowest entry makes way if its fee is no higher; the two maps stay in agreement |
| `TransactionsQueue.PriorityQueue.Pop` | node/consensus/src/transactions_queue.rs:192-195 | the first entry comes out with its transaction, which is always there |
| `TransactionsQueue.TransactionsQueueInner.constructor` | node/consensus/src/transactions_queue.rs:79-85 | a new pool is empty |
| `TransactionsQueue.TransactionsQueueInner.Insert` | node/consensus/src/transactions_queue.rs:95-131 | which queue takes the transaction, what it displaces, and just when the pool is full |
| `TransactionsQueue.TransactionsQueueInner.Pop` | node/consensus/src/transactions_queue.rs:133-135 | the priority queue first, then the least recently used |
| `TransactionsQueue.InsertedAgrees` | node/consensus/src/transactions_queue.rs:159-168 | an insertion keeps the IDs a bijection, ordered, with sequence numbers below the counter |
| `TransactionsQueue.CompareInsertedAgrees` | node/consensus/src/transactions_queue.rs:170-190 | so does a competing insertion, which never makes the queue longer |
| `TransactionsQueue.PoppedAgrees` | node/consensus/src/transactions_queue.rs:192-195 | so does a pop, and the popped ID has its transaction |
| `TransactionsQueue.DrainOrder` | node/consensus/src/transactions_queue.rs:133-195 | draining loses nothing: IDs with their transactions, falling fees, first come first served among equals, then least recently used |
| `TransactionsQueue.AlwaysBounded` | node/consensus/src/transactions_queue.rs:95-131 | after any operations the pool holds at most `2 * capacity - 1` transactions, and its maps agree |
| `TransactionsQueue.LowNotEmptyWhenHighIsFull` | node/consensus/src/transactions_queue.rs:124-125 | four insertions after which the priority queue is full and the low-priority queue is not empty |
| `TransactionsQueue.FullBesideLowIff` | node/consensus/src/transactions_queue.rs:112-127 | exactly which insertions leave the priority queue full beside a low-priority queue that is not empty |
| `TransactionsQueue.OverfillIff` | node/consensus/src/transactions_queue.rs:112-117 | a pool grows past its capacity just when it is full and given a new transaction without a fee, with low-priority ones in it |
| `TransactionsQueue.SortedFeesExact` | node/consensus/src/transactions_queue.rs:95-131 | the reference list of fees has each non-zero fee as often as it was inserted |
| `TransactionsQueue.TopFeesRetained` | node/consensus/src/transactions_queue.rs:95-190 | after any stream of insertions with distinct IDs the priority queue holds exactly the `capacity` largest non-zero fees |
| `QueueContents.UseExchanges` | node/consensus/src/transactions_queue.rs:112-127 | a new transaction without a fee is added as it is; only when the low-priority queue is full does the first one make way |
| `QueueContents.LowestIsLowest` | node/consensus/src/transactions_queue.rs:170-190 | what makes way in the priority queue has the lowest fee in it |
| `QueueContents.InsertExchanges` | node/consensus/src/transactions_queue.rs:95-131 | an insertion of a new ID adds the transaction with its fee and takes out just what makes way |
| `QueueContents.PopTakes` | node/consensus/src/transactions_queue.rs:133-195 | a pop takes out just the transaction it returns, and returns none only if there is none |
| `QueueContents.HeldWasInserted` | node/consensus/src/transactions_queue.rs:95-135 | after any operations, whatever the pool holds was inserted with that ID, that transaction and that fee |
| `QueueContents.PoppedWasInserted` | node/consensus/src/transactions_queue.rs:133-195 | so whatever is popped was inserted with that ID and that transaction |
| `QueueContents.NothingIsLost` | node/consensus/src/transactions_queue.rs:95-195 | after any operations with distinct IDs, what is held, what was popped and what made way add up to what was inserted |
| `QueueContents.DrainYieldsTheRest` | node/consensus/src/transactions_queue.rs:133-195 | so draining yields exactly what was inserted less what was popped before and what made way |
| `QueueContents.LowIsByUse` | node/consensus/src/transactions_queue.rs:112-127 | after any operations the low-priority queue is in the order of last use |
| `QueueContents.FirstComeFirstServed` | node/consensus/src/transactions_queue.rs:159-168 | after any operations with distinct IDs, of two entries with the same fee the one inserted first is first |
| `Cdn.CdnHeight` | node/cdn/src/blocks.rs:468-471 | the least whole number of files above the tip less ten |
| `Cdn.RequestsOnce` | node/cdn/src/blocks.rs:334-422 | no bundle is requested twice, and none above the end |
| `Cdn.RequestsCover` | node/cdn/src/blocks.rs:334-422 | every bundle that starts below the last block is requested |
| `Cdn.CoverageIff` | node/cdn/src/blocks.rs:335-365 | all needed bundles are requested under every schedule if and only if the range does not end one block into a bundle |
| `Cdn.SendBatch` | node/cdn/src/blocks.rs:357-365 | sends the requests of a round that do not start above the end |
| `Cdn.DownloadBundles` | node/cdn/src/blocks.rs:334-426 | the nested loops send the requests of `Cdn.Requests` |
| `Cdn.PendingBlocks.constructor` | node/cdn/src/blocks.rs:228-228 | the buffer starts empty |
| `Cdn.PendingBlocks.InsertBlock` | node/cdn/src/blocks.rs:392-397 | binary search finds the place; the buffer stays sorted and gains just that height |
| `Cdn.PendingBlocks.InsertBundle` | node/cdn/src/blocks.rs:391-397 | the buffer stays a sorted union of whole bundles |
| `Cdn.PendingBlocks.TakeBundle` | node/cdn/src/blocks.rs:276-279 | there always is a whole file to split off, and it is the lowest bundle |
| `Cdn.ProcessBundle` | node/cdn/src/blocks.rs:285-314 | the ledger sees the next heights in order; it goes on to the end of the bundle unless a look at the stop flag finds it set, which ends it, or a height fails, which is reported; no failing height counts as processed |
| `Cdn.ConsumeRound` | node/cdn/src/blocks.rs:257-317 | takes out the next bundle if it is there, never another, and waits otherwise; stops and fails as `Cdn.ProcessBundle` does |
| `Cdn.Consume` | node/cdn/src/blocks.rs:248-320 | consecutive heights from the start, whatever the order of arrival; under every schedule it gets to the end if the needed files are in by some round and as many rounds follow as there are files; it fails just at a height whose processing fails, and each height was preceded by a look of its own that found the stop flag unset |
| `Cdn.LoadBlocks` | node/cdn/src/blocks.rs:195-320 | for every range: rejected, waiting, failed or loaded; loaded means that exactly the heights up to the result were processed, all of them unless stopped; failed means that the next one fails, and none that fails was processed; once all files are in it is loaded or failed |

## Left out

- `CommitRuns.RebootInv`: bootup is from the ledger alone; not modelled is bootup after a sync without the DAG, which keeps what storage and DAG hold, loads waiting blocks too and collects up to the depth below the last of those.
- Block sync far below the collection depth, which leaves storage and DAG alone.
- `BlockChecks.SubdagChecked`, `BlockChecks.Authorized`: the loops of the checks on a block are modelled by what they decide; hashes, heights, timestamps, committee IDs, beacon blocks and the checks on transmissions are left out.
- `FallingBack.ReliableIff`: requires an even depth, as in the source. A restart is in the round of a block, which is even, and the case that shows the bound to be sharp needs an even depth for that. That the bound suffices is proved for every depth (`Certification.CertificatesWellFormed`).
- Overlapping block commits and commit calls: block sync does not take the lock, and runs keep the two apart.
- `Subdag::from`: its second traversal of the subdag is modelled by what it decides, that every certificate below the anchor is referenced from the round above.
- Election of a leader and the contents of committees: functions of the round.
- Transmissions in storage: a transmission is in storage as long as a stored certificate lists it; the service that keeps them, aborted transmissions and the checks on time and contents are answers from outside.
- The fast-forward inside the certificate sync, its pending requests and its concurrency: missing certificates are synced one after the other, with garbage collected in between.
- Gateway, peers, rate limits, timers, retries and timeouts: their outcomes are parameters.
- Signatures, hashing, encodings and the disk format of the proposal cache.
- A crash between a proposal and a clean shutdown.
- `Primaries.Primary.ProposeBatch`: does not model the rebroadcast of a live proposal, which changes nothing; that the round is certified already is an outcome, and the attempt to advance it is `Rounds.Advancer.TryAdvanceToNextRound`.
- The bound on the number of references that a header may have: configuration.
- `Primaries.Primary.HandleProposal`: the sync of what the header references comes before it, see `Sync.SyncWithBatchHeader`.
- More than one worker: the source fixes their number at one.
- `Batches.DrainReady`: on an undecodable transaction the entries drained so far are lost with it, as in the source.
- `TransactionsQueue.TopFeesRetained`: requires distinct IDs, since a competing insertion of an ID that is queued already drops an entry and adds none.
- Overflow of round numbers, block heights and of the memory pool's sequence numbers, and of the queue's offset.
- The height that the block loader reports on failure.
- Everything else of the node: routing, REST, ledger, proving, command line, metrics, logging.
