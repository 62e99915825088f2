/** A concrete world that meets all that agreement asks for. */
module Worlds {
  import opened Types
  import opened Committees
  import opened FourMembers
  import opened CertificateGraph
  import opened PrimaryEvents
  import opened PrimaryRuns
  import opened Certification
  import CommitRuns

  /** One batch, which one member proposes and two others sign. */
  const BATCH := Certificate(1, 0, 1, [], [])
  const STARTING := PrimaryState(1, None, None, map[])
  const PROPOSAL := Propose(BATCH, [], map[])
  const SIGNATURE := Sign(BATCH, map[], 0)
  const PROPOSING := Life([PROPOSAL], [STARTING, Proposed(STARTING, BATCH, [])])
  const SIGNING := Life([SIGNATURE], [STARTING, Recorded(STARTING, BATCH)])
  const SMALL_WORLD := World(map[1 := BATCH], map[1 := {0, 1, 2}], {}, map[0 := PROPOSING, 1 := SIGNING, 2 := SIGNING],
                             map[0 := [0], 1 := [0], 2 := [0]])

  lemma SmallWorldIsWorld()
    ensures IsWorld(FIRST_LEADS, SMALL_WORLD) && FallsBackAtMost(SMALL_WORLD, 97) && Overlap(FIRST_LEADS, SMALL_WORLD.faulty, 97)
  {
    hide Stake, IsLife, SeesState, Overlap, FaultsBounded, HasQuorum, IsBacked, TimesRise, FallsBackAtMost;
    var p, w := FIRST_LEADS, SMALL_WORLD;
    SmallIsSound();
    NoRestarts();
    forall a | a in w.lives
      ensures a !in w.faulty && IsLife(p, a, w.lives[a]) && |w.lives[a].events| == 1 && w.times[a] == [0]
      ensures SeesState(p, w, 0, w.lives[a].events[0]) && IsBacked(w, a, BATCH)
    {
      LivesAre(a);
      Sees(a);
    }
    assert forall c :: Member(w.certificates, c) ==> c == BATCH;
    OneCommitteeOverlapsIff(p, w, 97);
  }

  lemma NoRestarts()
    ensures FallsBackAtMost(SMALL_WORLD, 97) && TimesRise(SMALL_WORLD)
  {
  }

  lemma Sees(a: Address)
    requires a in SMALL_WORLD.lives
    ensures SeesState(FIRST_LEADS, SMALL_WORLD, 0, SMALL_WORLD.lives[a].events[0]) && IsBacked(SMALL_WORLD, a, BATCH)
  {
    hide Known, Reached;
    NothingReached(FIRST_LEADS, Known(SMALL_WORLD, 0));
    assert Vouches(a, SMALL_WORLD.lives[a], 0, BATCH);
  }

  lemma SmallIsSound()
    ensures FaultsBounded(FIRST_LEADS, SMALL_WORLD) && HasQuorum(FIRST_LEADS, SMALL_WORLD, BATCH)
  {
    hide Stake, Committee.Sound;
    FourIsSound();
    Thresholds({});
    assert |{0, 1, 2}| == 3;
    Thresholds({0, 1, 2});
  }

  lemma LivesAre(a: Address)
    requires a in SMALL_WORLD.lives
    ensures IsLife(FIRST_LEADS, a, SMALL_WORLD.lives[a])
  {
    if a == 0 {
      assert Occurs(FIRST_LEADS.committee, 0, STARTING, PROPOSAL, Proposed(STARTING, BATCH, []));
    } else {
      assert Occurs(FIRST_LEADS.committee, a, STARTING, SIGNATURE, Recorded(STARTING, BATCH));
    }
  }

  /** The empty storage is where every run begins. */
  lemma NothingReached(p: Protocol, u: Universe)
    ensures Reached(p, u, map[], 0)
  {
    assert CommitRuns.IsRun(p, u, [], CommitRuns.GENESIS);
  }
}
