/**
 The block graph: what it means for a validator's view of it to be complete, and
 the assumptions under which the commit rule is safe.
 */
module Dags {
  import opened Blocks
  import opened Committees

  type Dag = map<BlockRef, Block>

  /** A view: blocks stored under their own reference, written by committee members,
      whose ancestors are all present at strictly lower rounds. */
  ghost predicate IsView(c: Committee, d: Dag) {
    && (forall r :: r in d ==> d[r].reference == r && c.Exists(r.author))
    && (forall r :: r in d ==> AncestorsPresent(d, r))
  }

  ghost predicate AncestorsPresent(d: Dag, r: BlockRef)
    requires r in d
  {
    forall a :: a in d[r].ancestors ==> a in d && a.round < r.round
  }

  /** `x` is a strict ancestor of `r`. */
  ghost predicate Reaches(c: Committee, d: Dag, r: BlockRef, x: BlockRef)
    requires IsView(c, d) && r in d
    decreases r.round
  {
    assert AncestorsPresent(d, r);
    exists a :: a in d[r].ancestors && (a == x || Reaches(c, d, a, x))
  }

  ghost predicate Includes(small: Dag, large: Dag) {
    forall r :: r in small ==> r in large && small[r] == large[r]
  }

  /** The authors of the blocks of the previous round that `b` references. */
  function ParentAuthors(b: Block): set<Authority> {
    set a | a in b.ancestors && a.round + 1 == b.Round() :: a.author
  }

  ghost predicate HasParentQuorum(c: Committee, b: Block) {
    b.Round() > GENESIS_ROUND ==> c.IsQuorum(ParentAuthors(b))
  }

  /** An authority that never puts two blocks in one slot. */
  ghost predicate NeverEquivocates(d: Dag, a: Authority) {
    forall r, s :: r in d && s in d && r.author == a && r.ToSlot() == s.ToSlot() ==> r == s
  }

  /** All blocks that exist anywhere. The honest authorities do not equivocate, the others
      hold less than the validity threshold, and every block past genesis references a
      quorum of the previous round. */
  ghost predicate IsGlobal(c: Committee, g: Dag, honest: set<Authority>) {
    && IsView(c, g)
    && c.FaultTolerant(honest)
    && (forall r :: r in g ==> HasParentQuorum(c, g[r]))
    && (forall a :: a in honest ==> NeverEquivocates(g, a))
  }

  /** The highest round of the blocks of a view, 0 when there are none. */
  ghost function HighestRound(d: Dag): (h: Round)
    ensures forall r :: r in d ==> r.round <= h
    ensures h == 0 || exists r :: r in d && r.round == h
  {
    if d == map[] then 0
    else
      GreatestExists(d.Keys);
      var m :| m in d.Keys && forall r :: r in d.Keys ==> r.AtMost(m);
      m.round
  }

  lemma {:induction false} ReachesLower(c: Committee, d: Dag, r: BlockRef, x: BlockRef)
    requires IsView(c, d) && r in d && Reaches(c, d, r, x)
    ensures x in d && x.round < r.round
    decreases r.round
  {
    assert AncestorsPresent(d, r);
    var a :| a in d[r].ancestors && (a == x || Reaches(c, d, a, x));
    if a != x {
      ReachesLower(c, d, a, x);
    }
  }

  /** History does not depend on how much else a view has seen. */
  lemma {:induction false} ReachesStable(c: Committee, small: Dag, large: Dag, r: BlockRef, x: BlockRef)
    requires IsView(c, small) && IsView(c, large) && Includes(small, large)
    requires r in small
    ensures Reaches(c, small, r, x) <==> Reaches(c, large, r, x)
    decreases r.round
  {
    assert AncestorsPresent(small, r) && AncestorsPresent(large, r);
    forall a | a in small[r].ancestors
      ensures Reaches(c, small, a, x) <==> Reaches(c, large, a, x)
    {
      ReachesStable(c, small, large, a, x);
    }
  }

  lemma {:induction false} ReachesTransitive(c: Committee, d: Dag, r: BlockRef, x: BlockRef, y: BlockRef)
    requires IsView(c, d) && r in d && x in d
    requires Reaches(c, d, r, x) && Reaches(c, d, x, y)
    ensures Reaches(c, d, r, y)
    decreases r.round
  {
    assert AncestorsPresent(d, r);
    var a :| a in d[r].ancestors && (a == x || Reaches(c, d, a, x));
    if a != x {
      ReachesTransitive(c, d, a, x, y);
    }
  }
}
