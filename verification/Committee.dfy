/**
 The voting committee of one epoch: a stake for every authority, and the two
 stake thresholds the protocol counts votes against.
 */
module Committees {
  import opened Outcomes

  /** Authorities are numbered from 0; `stakes[a]` is the voting power of `a`. */
  datatype Committee = Committee(stakes: seq<nat>) {

    function Size(): nat {
      |stakes|
    }

    /** The stake of the members of `s` that are numbered below `n`. */
    function StakeBelow(s: set<nat>, n: nat): nat
      requires n <= Size()
    {
      if n == 0 then 0
      else StakeBelow(s, n - 1) + if n - 1 in s then stakes[n - 1] else 0
    }

    /** The stake held together by the distinct authorities in `s`. */
    function StakeOf(s: set<nat>): nat {
      StakeBelow(s, Size())
    }

    function TotalStake(): nat {
      StakeOf(Everyone())
    }

    predicate Exists(a: nat) {
      a < Size()
    }

    function Everyone(): set<nat> {
      set a | 0 <= a < Size() && Exists(a)
    }

    function QuorumThreshold(): nat {
      2 * TotalStake() / 3 + 1
    }

    function ValidityThreshold(): nat {
      (TotalStake() + 2) / 3
    }

    predicate ReachedQuorum(stake: nat) {
      stake >= QuorumThreshold()
    }

    predicate ReachedValidity(stake: nat) {
      stake >= ValidityThreshold()
    }

    predicate IsQuorum(s: set<nat>) {
      ReachedQuorum(StakeOf(s))
    }

    /** The Byzantine fault assumption: the authorities outside `honest` hold less
        than the validity threshold. */
    ghost predicate FaultTolerant(honest: set<nat>) {
      !ReachedValidity(StakeOf(Everyone() - honest))
    }
  }

  const U32_MAX: nat := 0xFFFF_FFFF

  /** A committee is usable when its authorities can be numbered and hold some stake. */
  function NewCommittee(stakes: seq<nat>): (c: Option<Committee>)
    ensures c.Some? <==> |stakes| < U32_MAX && exists a :: 0 <= a < |stakes| && stakes[a] > 0
    ensures c.Some? ==> c.value.Size() > 0 && c.value.IsQuorum(c.value.Everyone())
  {
    var c := Committee(stakes);
    SumPositive(c, c.Everyone(), c.Size());
    if stakes != [] && |stakes| < U32_MAX && c.TotalStake() != 0 then Some(c) else None
  }

  lemma {:induction false} SumPositive(c: Committee, s: set<nat>, n: nat)
    requires n <= c.Size()
    ensures c.StakeBelow(s, n) > 0 <==> exists a :: 0 <= a < n && a in s && c.stakes[a] > 0
  {
    if n > 0 {
      SumPositive(c, s, n - 1);
    }
  }

  /** Stake is additive: union and intersection together weigh as much as the two sets. */
  lemma {:induction false} StakeOfUnion(c: Committee, s: set<nat>, t: set<nat>, n: nat)
    requires n <= c.Size()
    ensures c.StakeBelow(s, n) + c.StakeBelow(t, n) == c.StakeBelow(s + t, n) + c.StakeBelow(s * t, n)
  {
    if n > 0 {
      StakeOfUnion(c, s, t, n - 1);
    }
  }

  /** A set weighs no more than a set that has its committee members. */
  lemma {:induction false} StakeMonotone(c: Committee, s: set<nat>, t: set<nat>, n: nat)
    requires n <= c.Size()
    requires forall a :: 0 <= a < n && a in s ==> a in t
    ensures c.StakeBelow(s, n) <= c.StakeBelow(t, n)
  {
    if n > 0 {
      StakeMonotone(c, s, t, n - 1);
    }
  }

  lemma {:induction false} StakeOfAdded(c: Committee, s: set<nat>, a: nat, n: nat)
    requires n <= c.Size() && a !in s
    ensures c.StakeBelow(s + {a}, n) == c.StakeBelow(s, n) + if a < n then c.stakes[a] else 0
  {
    if n > 0 {
      StakeOfAdded(c, s, a, n - 1);
    }
  }

  lemma {:induction false} StakeOfNobody(c: Committee, n: nat)
    requires n <= c.Size()
    ensures c.StakeBelow({}, n) == 0
  {
    if n > 0 {
      StakeOfNobody(c, n - 1);
    }
  }

  lemma NobodyIsNoQuorum(c: Committee)
    ensures !c.IsQuorum({})
  {
    StakeOfNobody(c, c.Size());
  }

  /** The two thresholds are complementary for every stake distribution. */
  lemma ThresholdsComplementary(c: Committee)
    ensures c.QuorumThreshold() + c.ValidityThreshold() == c.TotalStake() + 1
    ensures 2 * c.QuorumThreshold() >= c.TotalStake() + c.ValidityThreshold()
  {
  }

  /** A quorum is more than two thirds of the stake, validity is at least one third. */
  lemma ThresholdsExact(c: Committee, stake: nat)
    ensures c.ReachedQuorum(stake) <==> 3 * stake > 2 * c.TotalStake()
    ensures c.ReachedValidity(stake) <==> 3 * stake >= c.TotalStake()
  {
    var total := c.TotalStake();
    assert 2 * total / 3 + 1 <= stake <==> 2 * total < 3 * stake;
    assert (total + 2) / 3 <= stake <==> total <= 3 * stake;
  }

  lemma {:induction false} StakeOfRest(c: Committee, s: set<nat>, n: nat)
    requires n <= c.Size()
    ensures c.StakeBelow(s, n) + c.StakeBelow(c.Everyone() - s, n) == c.StakeBelow(c.Everyone(), n)
  {
    if n > 0 {
      StakeOfRest(c, s, n - 1);
      assert c.Exists(n - 1) && n - 1 in c.Everyone();
    }
  }

  /** A set is a quorum exactly when the others stay below validity. */
  lemma QuorumComplement(c: Committee, s: set<nat>)
    ensures c.IsQuorum(s) <==> !c.ReachedValidity(c.StakeOf(c.Everyone() - s))
  {
    StakeOfRest(c, s, c.Size());
    ThresholdsComplementary(c);
  }

  /** Growing a set of voters keeps a quorum. */
  lemma QuorumMonotone(c: Committee, s: set<nat>, t: set<nat>)
    requires s <= t
    ensures c.StakeOf(s) <= c.StakeOf(t)
    ensures c.IsQuorum(s) ==> c.IsQuorum(t)
  {
    StakeMonotone(c, s, t, c.Size());
  }

  /** Any two quorums share at least the validity threshold of stake. */
  lemma QuorumsOverlap(c: Committee, s: set<nat>, t: set<nat>)
    requires c.IsQuorum(s) && c.IsQuorum(t)
    ensures c.ReachedValidity(c.StakeOf(s * t))
  {
    ThresholdsComplementary(c);
    StakeOfUnion(c, s, t, c.Size());
    StakeMonotone(c, s + t, c.Everyone(), c.Size());
  }

  /** Hence any two quorums share an honest authority. */
  lemma HonestInBoth(c: Committee, s: set<nat>, t: set<nat>, honest: set<nat>) returns (a: nat)
    requires c.IsQuorum(s) && c.IsQuorum(t)
    requires c.FaultTolerant(honest)
    ensures a in s && a in t && a in honest
  {
    QuorumsOverlap(c, s, t);
    if forall b :: 0 <= b < c.Size() && b in s * t ==> b in c.Everyone() - honest {
      StakeMonotone(c, s * t, c.Everyone() - honest, c.Size());
      assert false;
    }
    a :| 0 <= a < c.Size() && a in s * t && a !in c.Everyone() - honest;
  }

  /** A quorum has at least one member of the committee. */
  lemma QuorumInhabited(c: Committee, s: set<nat>) returns (a: nat)
    requires c.IsQuorum(s)
    ensures a in s && a < c.Size()
  {
    SumPositive(c, s, c.Size());
    a :| 0 <= a < c.Size() && a in s;
  }
}
