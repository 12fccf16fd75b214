/** Blocks, the references that identify them, and the slots they occupy. */
module Blocks {

  type Round = nat
  type Authority = nat

  const GENESIS_ROUND: Round := 0

  /** A digest is 32 bytes, compared lexicographically: a number below 2^256. */
  const DIGEST_MAX: nat := 0xFFFF_FFFF_FFFF_FFFF_FFFF_FFFF_FFFF_FFFF_FFFF_FFFF_FFFF_FFFF_FFFF_FFFF_FFFF_FFFF

  type Digest = d: nat | d <= DIGEST_MAX

  datatype Transaction = Transaction(data: seq<bv8>)

  /** A reference names one block; two different blocks never share one. */
  datatype BlockRef = BlockRef(round: Round, author: Authority, digest: Digest) {

    /** References are ordered by round, then author, then digest. */
    predicate Less(other: BlockRef) {
      || round < other.round
      || (round == other.round && author < other.author)
      || (round == other.round && author == other.author && digest < other.digest)
    }

    predicate AtMost(other: BlockRef) {
      this == other || Less(other)
    }

    function ToSlot(): Slot {
      Slot(round, author)
    }
  }

  /** The position of an authority in a round. An equivocating authority can put
      several blocks there. */
  datatype Slot = Slot(round: Round, authority: Authority)

  datatype Block = Block(reference: BlockRef, ancestors: seq<BlockRef>, payload: seq<Transaction>) {

    function Round(): Round {
      reference.round
    }

    function Author(): Authority {
      reference.author
    }
  }

  ghost predicate StrictlyAscending(refs: seq<BlockRef>) {
    forall i, j :: 0 <= i < j < |refs| ==> refs[i].Less(refs[j])
  }

  /** A non-empty finite set of references has a greatest one. */
  lemma {:induction false} GreatestExists(refs: set<BlockRef>)
    requires refs != {}
    ensures exists m :: m in refs && forall r :: r in refs ==> r.AtMost(m)
    decreases |refs|
  {
    var r :| r in refs;
    var rest := refs - {r};
    if rest == {} {
      assert refs == {r};
    } else {
      GreatestExists(rest);
      var m :| m in rest && forall x :: x in rest ==> x.AtMost(m);
      var greatest := if m.Less(r) then r else m;
      forall x | x in refs
        ensures x.AtMost(greatest)
      {
        if x != r {
          assert x in rest;
        }
      }
      assert greatest in refs;
    }
  }

  /** The iteration order of an ordered set of references. */
  method InOrder(refs: set<BlockRef>) returns (sorted: seq<BlockRef>)
    ensures StrictlyAscending(sorted)
    ensures forall r :: r in sorted <==> r in refs
  {
    sorted := [];
    var rest := refs;
    while rest != {}
      invariant StrictlyAscending(sorted)
      invariant rest <= refs
      invariant forall r :: r in refs <==> r in rest || r in sorted
      invariant forall i, r :: 0 <= i < |sorted| && r in rest ==> r.Less(sorted[i])
      decreases |rest|
    {
      GreatestExists(rest);
      var m :| m in rest && forall r :: r in rest ==> r.AtMost(m);
      sorted, rest := [m] + sorted, rest - {m};
    }
  }

  /** An ascending sequence has no repetitions, so it is as long as its set of members. */
  lemma {:induction false} AscendingLength(refs: seq<BlockRef>, members: set<BlockRef>)
    requires StrictlyAscending(refs)
    requires forall r :: r in members <==> r in refs
    ensures |members| == |refs|
  {
    if refs != [] {
      var last := refs[|refs| - 1];
      var front := refs[..|refs| - 1];
      assert refs == front + [last];
      forall r
        ensures r in members - {last} <==> r in front
      {
        assert r in front ==> exists i :: 0 <= i < |front| && refs[i] == r && refs[i].Less(last);
      }
      AscendingLength(front, members - {last});
    } else {
      assert members == {};
    }
  }
}
