/**
 The committee: stake-weighted thresholds, in the saturating 64-bit arithmetic of the source,
 and the quorum-intersection facts on which the whole protocol rests.
 */
module Committees {
  import opened Types

  const U64_MAX: nat := 0xFFFF_FFFF_FFFF_FFFF

  /** The largest total stake for which `2 * total / 3` survives the saturating multiplication. */
  const MAX_EXACT_STAKE: nat := 0x8000_0000_0000_0000

  const MIN_VALIDATOR_STAKE: nat := 10_000_000_000_000

  const MIN_COMMITTEE_SIZE: nat := 3

  function SaturatingAdd(a: nat, b: nat): nat {
    if a + b > U64_MAX then U64_MAX else a + b
  }

  function SaturatingMul(a: nat, b: nat): nat {
    if a * b > U64_MAX then U64_MAX else a * b
  }

  function StakeOf(members: map<Address, nat>, a: Address): nat {
    if a in members then members[a] else 0
  }

  /** The combined stake of a set of addresses; a non-member weighs nothing. */
  ghost function Stake(members: map<Address, nat>, s: set<Address>): nat {
    if s == {} then 0
    else
      var a :| a in s;
      StakeOf(members, a) + Stake(members, s - {a})
  }

  datatype Committee = Committee(members: map<Address, nat>, totalStake: nat) {

    /** What `Committee::new` establishes. */
    ghost predicate Valid() {
      && totalStake == Stake(members, members.Keys)
      && 1 <= totalStake <= U64_MAX
    }

    /** `f`, the largest stake below a third of the total. */
    ghost function FaultBound(): nat
      requires 1 <= totalStake
    {
      (totalStake - 1) / 3
    }

    function AvailabilityThreshold(): nat {
      SaturatingAdd(totalStake, 2) / 3
    }

    function QuorumThreshold(): nat {
      SaturatingAdd(SaturatingMul(totalStake, 2) / 3, 1)
    }

    ghost predicate IsAvailable(s: set<Address>) {
      Stake(members, s) >= AvailabilityThreshold()
    }

    ghost predicate IsQuorum(s: set<Address>) {
      Stake(members, s) >= QuorumThreshold()
    }

    /** A committee whose thresholds are not distorted by 64-bit saturation. */
    ghost predicate Sound() {
      Valid() && totalStake <= MAX_EXACT_STAKE
    }
  }

  /** The stake of a set, one chosen member at a time. */
  lemma {:induction false} StakeRemove(members: map<Address, nat>, s: set<Address>, a: Address)
    requires a in s
    ensures Stake(members, s) == StakeOf(members, a) + Stake(members, s - {a})
    decreases s
  {
    var b :| b in s && Stake(members, s) == StakeOf(members, b) + Stake(members, s - {b});
    if b != a {
      StakeRemove(members, s - {b}, a);
      StakeRemove(members, s - {a}, b);
      assert s - {b} - {a} == s - {a} - {b};
    }
  }

  lemma {:induction false} StakeSplit(members: map<Address, nat>, s: set<Address>, t: set<Address>)
    ensures Stake(members, s) + Stake(members, t) == Stake(members, s + t) + Stake(members, s * t)
    decreases s
  {
    if s == {} {
      assert s + t == t;
      assert s * t == {};
    } else {
      var a :| a in s;
      var s' := s - {a};
      StakeSplit(members, s', t);
      StakeRemove(members, s, a);
      if a in t {
        assert s + t == s' + t;
        assert s * t - {a} == s' * t;
        StakeRemove(members, s * t, a);
      } else {
        assert s + t - {a} == s' + t;
        assert s * t == s' * t;
        StakeRemove(members, s + t, a);
      }
    }
  }

  lemma StakeMonotone(members: map<Address, nat>, s: set<Address>, t: set<Address>)
    requires s <= t
    ensures Stake(members, s) <= Stake(members, t)
  {
    StakeSplit(members, s, t - s);
    assert s + (t - s) == t;
    assert s * (t - s) == {};
  }

  /** Non-members contribute nothing, so no set of addresses outweighs the committee. */
  lemma {:induction false} StakeBounded(members: map<Address, nat>, s: set<Address>)
    ensures Stake(members, s) <= Stake(members, members.Keys)
    decreases s
  {
    if s <= members.Keys {
      StakeMonotone(members, s, members.Keys);
    } else {
      var a :| a in s && a !in members.Keys;
      StakeRemove(members, s, a);
      StakeBounded(members, s - {a});
    }
  }

  /** The availability threshold is `f + 1` on the whole 64-bit range: its saturation is harmless. */
  lemma AvailabilityIsFPlusOne(c: Committee)
    requires c.Valid()
    ensures c.AvailabilityThreshold() == c.FaultBound() + 1
  {
  }

  /** The quorum threshold is `N - f` exactly up to a total stake of 2^63. */
  lemma QuorumIsNMinusF(c: Committee)
    requires c.Valid()
    ensures c.QuorumThreshold() == c.totalStake - c.FaultBound() <==> c.totalStake <= MAX_EXACT_STAKE
  {
    var n := c.totalStake;
    if n > MAX_EXACT_STAKE {
      assert SaturatingMul(n, 2) == U64_MAX;
    }
  }

  /** Every quorum and every availability set share a member, so long as the thresholds are exact. */
  lemma QuorumMeetsAvailability(c: Committee, quorum: set<Address>, available: set<Address>)
    returns (a: Address)
    requires c.Sound() && c.IsQuorum(quorum) && c.IsAvailable(available)
    ensures a in quorum && a in available
  {
    AvailabilityIsFPlusOne(c);
    QuorumIsNMinusF(c);
    StakeSplit(c.members, quorum, available);
    StakeBounded(c.members, quorum + available);
    assert quorum * available != {};
    a :| a in quorum * available;
  }

  /** Two quorums share more stake than may be faulty, hence an honest member. */
  lemma TwoQuorumsShareHonest(c: Committee, q1: set<Address>, q2: set<Address>, faulty: set<Address>)
    returns (a: Address)
    requires c.Sound() && c.IsQuorum(q1) && c.IsQuorum(q2)
    requires Stake(c.members, faulty) <= c.FaultBound()
    ensures a in q1 && a in q2 && a !in faulty
  {
    QuorumIsNMinusF(c);
    StakeSplit(c.members, q1, q2);
    StakeBounded(c.members, q1 + q2);
    if q1 * q2 <= faulty {
      StakeMonotone(c.members, q1 * q2, faulty);
      assert false;
    }
    a :| a in q1 * q2 && a !in faulty;
  }

  /** Disjoint sets cannot reach a quorum and availability at once. */
  lemma DisjointNotBoth(c: Committee, s: set<Address>, t: set<Address>)
    requires c.Sound() && s !! t
    ensures !(c.IsQuorum(s) && c.IsAvailable(t))
  {
    if c.IsQuorum(s) && c.IsAvailable(t) {
      var a := QuorumMeetsAvailability(c, s, t);
      assert false;
    }
  }

  /** A set is a quorum just when the members outside it are not enough for availability. */
  lemma QuorumLeavesTooFew(c: Committee, s: set<Address>)
    requires c.Sound()
    ensures c.IsQuorum(s) <==> !c.IsAvailable(c.members.Keys - s)
  {
    AvailabilityIsFPlusOne(c);
    QuorumIsNMinusF(c);
    var rest := c.members.Keys - s;
    StakeSplit(c.members, s, rest);
    assert s * rest == {};
    StakeBounded(c.members, s + rest);
    StakeMonotone(c.members, c.members.Keys, s + rest);
  }

  /** Accumulates the stake of a set of addresses, saturating as the source does. */
  method AccumulateStake(members: map<Address, nat>, addresses: set<Address>) returns (stake: nat)
    ensures stake == if Stake(members, addresses) <= U64_MAX then Stake(members, addresses) else U64_MAX
  {
    stake := 0;
    var rest := addresses;
    while rest != {}
      invariant rest <= addresses
      invariant stake <= U64_MAX
      invariant stake == if Stake(members, addresses) - Stake(members, rest) <= U64_MAX
                         then Stake(members, addresses) - Stake(members, rest) else U64_MAX
      decreases rest
    {
      var a :| a in rest;
      StakeRemove(members, rest, a);
      StakeMonotone(members, rest, addresses);
      stake := SaturatingAdd(stake, StakeOf(members, a));
      rest := rest - {a};
    }
  }

  method IsQuorumThresholdReached(c: Committee, addresses: set<Address>) returns (reached: bool)
    ensures reached <==> c.IsQuorum(addresses)
  {
    var stake := AccumulateStake(c.members, addresses);
    reached := stake >= c.QuorumThreshold();
  }

  method IsAvailabilityThresholdReached(c: Committee, addresses: set<Address>) returns (reached: bool)
    ensures reached <==> c.IsAvailable(addresses)
  {
    var stake := AccumulateStake(c.members, addresses);
    reached := stake >= c.AvailabilityThreshold();
  }

  /** Why a committee is refused. */
  datatype CommitteeError = TooFewMembers | TooManyMembers | TooLittleStake | TooMuchCommission | StakeOverflow

  /** Builds a committee, summing the stake with a checked addition. */
  method NewCommittee(members: map<Address, nat>, commissions: map<Address, nat>, maxSize: nat)
    returns (r: Result<Committee, CommitteeError>)
    ensures r.Ok? ==> r.value.members == members && r.value.Valid()
    ensures r.Ok? <==>
            && MIN_COMMITTEE_SIZE <= |members| <= maxSize
            && (forall a :: a in members ==> members[a] >= MIN_VALIDATOR_STAKE)
            && (forall a :: a in commissions ==> commissions[a] <= 100)
            && Stake(members, members.Keys) <= U64_MAX
  {
    if |members| < MIN_COMMITTEE_SIZE {
      return Err(TooFewMembers);
    }
    if |members| > maxSize {
      return Err(TooManyMembers);
    }
    if exists a :: a in members && members[a] < MIN_VALIDATOR_STAKE {
      return Err(TooLittleStake);
    }
    if exists a :: a in commissions && commissions[a] > 100 {
      return Err(TooMuchCommission);
    }
    var total := 0;
    var rest := members.Keys;
    while rest != {}
      invariant rest <= members.Keys
      invariant total == Stake(members, members.Keys) - Stake(members, rest)
      invariant total <= U64_MAX
      decreases rest
    {
      var a :| a in rest;
      StakeRemove(members, rest, a);
      if total + members[a] > U64_MAX {
        return Err(StakeOverflow);
      }
      total := total + members[a];
      rest := rest - {a};
    }
    assert total >= 1 by {
      assert members.Keys != {};
      var a :| a in members.Keys;
      StakeRemove(members, members.Keys, a);
    }
    r := Ok(Committee(members, total));
  }
}
