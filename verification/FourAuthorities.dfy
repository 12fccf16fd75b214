/** A committee of four authorities with equal stake, for concrete block graphs. */
module FourAuthorities {
  import opened Blocks
  import opened Committees
  import opened Dags

  const FOUR := Committee([1, 1, 1, 1])

  const ALL: set<Authority> := {0, 1, 2, 3}
  const LAST_THREE: set<Authority> := {1, 2, 3}

  function Member(s: set<Authority>, a: Authority): nat {
    if a in s then 1 else 0
  }

  lemma StakeOfFour(s: set<Authority>)
    ensures FOUR.StakeOf(s) == Member(s, 0) + Member(s, 1) + Member(s, 2) + Member(s, 3)
  {
    assert FOUR.StakeBelow(s, 1) == Member(s, 0);
    assert FOUR.StakeBelow(s, 2) == FOUR.StakeBelow(s, 1) + Member(s, 1);
    assert FOUR.StakeBelow(s, 3) == FOUR.StakeBelow(s, 2) + Member(s, 2);
    assert FOUR.StakeBelow(s, 4) == FOUR.StakeBelow(s, 3) + Member(s, 3);
  }

  /** Three authorities are a quorum, and one may be faulty. */
  lemma ThreeOfFour(s: set<Authority>)
    ensures FOUR.IsQuorum(s) <==> Member(s, 0) + Member(s, 1) + Member(s, 2) + Member(s, 3) >= 3
    ensures 1 in s && 2 in s && 3 in s ==> FOUR.FaultTolerant(s)
  {
    StakeOfFour(FOUR.Everyone());
    StakeOfFour(s);
    StakeOfFour(FOUR.Everyone() - s);
    assert forall a :: 0 <= a < 4 ==> a in FOUR.Everyone();
    assert FOUR.TotalStake() == 4;
  }

  lemma OneMayBeFaulty()
    ensures FOUR.FaultTolerant(ALL) && FOUR.FaultTolerant(LAST_THREE)
  {
    ThreeOfFour(ALL);
    ThreeOfFour(LAST_THREE);
  }

  /** A reference whose digest only tells the blocks of a slot apart. */
  function Ref(round: Round, author: Authority, digest: Digest): BlockRef {
    BlockRef(round, author, digest)
  }

  /** A block as a validator that lags behind nobody proposes it: it references its author's block
      of the round before and other blocks of that round, so there is nothing to compress. */
  predicate KeepsUp(b: Block) {
    && (forall a :: a in b.ancestors ==> a.round + 1 == b.Round())
    && (b.Round() > GENESIS_ROUND ==> b.Author() in ParentAuthors(b))
  }

  lemma GenesisParents(b: Block)
    requires b.Round() == GENESIS_ROUND && b.ancestors == []
    ensures HasParentQuorum(FOUR, b) && KeepsUp(b)
  {
  }

  lemma ThreeParents(b: Block, p: BlockRef, q: BlockRef, r: BlockRef)
    requires b.ancestors == [p, q, r] && p.round + 1 == q.round + 1 == r.round + 1 == b.Round()
    requires p.author < 4 && q.author < 4 && r.author < 4
    requires p.author != q.author && p.author != r.author && q.author != r.author
    requires b.Author() == p.author || b.Author() == q.author || b.Author() == r.author
    ensures HasParentQuorum(FOUR, b) && KeepsUp(b)
  {
    assert p in b.ancestors && q in b.ancestors && r in b.ancestors;
    assert ParentAuthors(b) == {p.author, q.author, r.author};
    ThreeOfFour(ParentAuthors(b));
  }

  lemma FourParents(b: Block, p: BlockRef, q: BlockRef, r: BlockRef, s: BlockRef)
    requires b.ancestors == [p, q, r, s] && p.round + 1 == q.round + 1 == r.round + 1 == s.round + 1 == b.Round()
    requires p.author == 0 && q.author == 1 && r.author == 2 && s.author == 3 && b.Author() < 4
    ensures HasParentQuorum(FOUR, b) && KeepsUp(b)
  {
    assert p in b.ancestors && q in b.ancestors && r in b.ancestors && s in b.ancestors;
    assert ParentAuthors(b) == {0, 1, 2, 3};
    ThreeOfFour(ParentAuthors(b));
  }

  lemma SoundPartsGlobal(d: Dag, honest: set<Authority>)
    requires FOUR.FaultTolerant(honest)
    requires forall r :: r in d ==> d[r].reference == r && r.author < 4 && (r.author in honest ==> r.digest == 0)
    requires forall r :: r in d ==> AncestorsPresent(d, r)
    requires forall r :: r in d ==> HasParentQuorum(FOUR, d[r])
    ensures IsGlobal(FOUR, d, honest)
  {
    hide AncestorsPresent, HasParentQuorum;
  }
}
