/** The blocks a validator has accepted, and the queries the commit rule makes of them. */
module DagStates {
  import opened Blocks
  import opened Committees
  import opened Dags

  /** `blocks` lists the blocks of `d` under the references `refs`, in reference order. */
  ghost predicate Lists(d: Dag, refs: set<BlockRef>, blocks: seq<Block>) {
    && (forall i, j :: 0 <= i < j < |blocks| ==> blocks[i].reference.Less(blocks[j].reference))
    && (forall b :: b in blocks ==> b.reference in refs && b.reference in d && d[b.reference] == b)
    && (forall r :: r in refs ==> r in d && d[r] in blocks)
  }

  function RefsInRange(d: Dag, lo: BlockRef, hi: BlockRef, hiIncluded: bool): set<BlockRef> {
    set r | r in d && lo.AtMost(r) && (r.Less(hi) || (hiIncluded && r == hi))
  }

  ghost function RefsAtSlot(d: Dag, slot: Slot): set<BlockRef> {
    set r | r in d && r.ToSlot() == slot
  }

  /** The references of each authority's blocks, by authority. */
  ghost predicate CachesRefs(d: Dag, cached: seq<set<BlockRef>>) {
    && (forall r :: r in d ==> r.author < |cached| && r in cached[r.author])
    && (forall a, r :: 0 <= a < |cached| && r in cached[a] ==> r in d && r.author == a)
  }

  ghost function RefsAtRound(d: Dag, round: Round): set<BlockRef> {
    set r | r in d && r.round == round
  }

  /** The strict ancestors of `r` at `round`. */
  ghost function HistoryAtRound(c: Committee, d: Dag, r: BlockRef, round: Round): set<BlockRef>
    requires IsView(c, d) && r in d
  {
    set x | x in d && x.round == round && Reaches(c, d, r, x)
  }

  ghost predicate Consistent(own: Authority, d: Dag, cached: seq<set<BlockRef>>, highest: Round) {
    && (forall r :: r in d ==> d[r].reference == r)
    && CachesRefs(d, cached)
    && highest == HighestRound(d)
    && NeverEquivocates(d, own)
  }

  class DagState {
    const ownIndex: Authority
    var recentBlocks: Dag
    var cachedRefs: seq<set<BlockRef>>
    var highestAcceptedRound: Round
    var lastCommitRound: Round

    ghost predicate Valid()
      reads this
    {
      Consistent(ownIndex, recentBlocks, cachedRefs, highestAcceptedRound)
    }

    constructor (ownIndex: Authority, committeeSize: nat, lastCommitRound: Round)
      ensures Valid() && recentBlocks == map[] && |cachedRefs| == committeeSize
      ensures this.ownIndex == ownIndex && this.lastCommitRound == lastCommitRound
    {
      this.ownIndex := ownIndex;
      this.lastCommitRound := lastCommitRound;
      recentBlocks, highestAcceptedRound := map[], 0;
      cachedRefs := seq(committeeSize, _ => {});
    }

    /** Accepts a block, unless it is our own and our slot is taken. The source panics then. */
    method AcceptBlock(block: Block) returns (ok: bool)
      requires Valid() && block.Author() < |cachedRefs|
      requires block.reference in recentBlocks ==> recentBlocks[block.reference] == block
      modifies this`recentBlocks, this`cachedRefs, this`highestAcceptedRound
      ensures Valid() && |cachedRefs| == old(|cachedRefs|)
      ensures ok <==> block.Author() != ownIndex || old(RefsAtSlot(recentBlocks, block.reference.ToSlot())) == {}
      ensures recentBlocks == if ok then old(recentBlocks)[block.reference := block] else old(recentBlocks)
    {
      var r := block.reference;
      ok := true;
      if r.author == ownIndex {
        var existing := GetUncommittedBlocksAtSlot(r.ToSlot());
        ok := existing == [];
        ListsNothing(recentBlocks, RefsAtSlot(recentBlocks, r.ToSlot()), existing);
      }
      if ok {
        StaysConsistent(ownIndex, recentBlocks, cachedRefs, highestAcceptedRound, block);
        recentBlocks := recentBlocks[r := block];
        cachedRefs := cachedRefs[r.author := cachedRefs[r.author] + {r}];
        if highestAcceptedRound < r.round {
          highestAcceptedRound := r.round;
        }
      }
    }

    /** The blocks whose references lie in a range of the reference order. */
    method Range(lo: BlockRef, hi: BlockRef, hiIncluded: bool) returns (blocks: seq<Block>)
      requires Valid()
      ensures Lists(recentBlocks, RefsInRange(recentBlocks, lo, hi, hiIncluded), blocks)
    {
      var keys := RefsInRange(recentBlocks, lo, hi, hiIncluded);
      var sorted := InOrder(keys);
      blocks := Lookup(keys, sorted);
    }

    method Lookup(ghost refs: set<BlockRef>, sorted: seq<BlockRef>) returns (blocks: seq<Block>)
      requires Valid() && StrictlyAscending(sorted)
      requires forall r :: r in sorted <==> r in refs
      requires forall r :: r in refs ==> r in recentBlocks
      ensures Lists(recentBlocks, refs, blocks)
    {
      var d := recentBlocks;
      blocks := [];
      for i := 0 to |sorted|
        invariant |blocks| == i
        invariant forall k :: 0 <= k < i ==> blocks[k] == d[sorted[k]]
      {
        blocks := blocks + [d[sorted[i]]];
      }
      LookupLists(d, refs, sorted, blocks);
    }

    method GetUncommittedBlocksAtSlot(slot: Slot) returns (blocks: seq<Block>)
      requires Valid()
      ensures Lists(recentBlocks, RefsAtSlot(recentBlocks, slot), blocks)
    {
      var lo, hi := BlockRef(slot.round, slot.authority, 0), BlockRef(slot.round, slot.authority, DIGEST_MAX);
      blocks := Range(lo, hi, true);
      assert RefsInRange(recentBlocks, lo, hi, true) == RefsAtSlot(recentBlocks, slot);
    }

    /** The source panics on rounds with committed blocks. */
    method GetUncommittedBlocksAtRound(round: Round) returns (blocks: seq<Block>)
      requires Valid() && round > lastCommitRound
      ensures Lists(recentBlocks, RefsAtRound(recentBlocks, round), blocks)
    {
      var lo, hi := BlockRef(round, 0, 0), BlockRef(round + 1, 0, 0);
      blocks := Range(lo, hi, false);
      assert RefsInRange(recentBlocks, lo, hi, false) == RefsAtRound(recentBlocks, round);
    }

    /** The source panics when the round has committed blocks or is not below the block. */
    method AncestorsAtUncommittedRound(c: Committee, laterBlock: Block, earlierRound: Round)
      returns (blocks: seq<Block>)
      requires Valid() && IsView(c, recentBlocks)
      requires laterBlock.reference in recentBlocks && recentBlocks[laterBlock.reference] == laterBlock
      requires lastCommitRound < earlierRound < laterBlock.Round()
      ensures Lists(recentBlocks, HistoryAtRound(c, recentBlocks, laterBlock.reference, earlierRound), blocks)
    {
      var linked := Descend(c, recentBlocks, laterBlock.reference, earlierRound);
      var sorted := InOrder(linked);
      blocks := Lookup(linked, sorted);
    }
  }

  /** Walks the history of a block down to a round, always expanding the greatest reference
      left, so that no reference is expanded twice. */
  method Descend(c: Committee, d: Dag, top: BlockRef, round: Round) returns (linked: set<BlockRef>)
    requires IsView(c, d) && top in d
    ensures linked == HistoryAtRound(c, d, top, round)
  {
    linked := set a | a in d[top].ancestors;
    WalkStarts(c, d, top, linked, round);
    ghost var expanded: set<BlockRef> := {};
    assert Below(linked, expanded);
    hide Found, Below;
    while linked != {}
      invariant Walk(c, d, top, linked, round)
      invariant expanded <= d.Keys && Below(linked, expanded)
      decreases |d.Keys - expanded|
    {
      GreatestExists(linked);
      var r :| r in linked && forall x :: x in linked ==> x.AtMost(r);
      if r.round <= round {
        break;
      }
      ghost var before := linked;
      linked := linked - {r} + set a | a in d[r].ancestors;
      WalkContinues(c, d, top, before, linked, r, round);
      StaysBelow(c, d, before, linked, r, expanded);
      expanded := expanded + {r};
    }
    ghost var all := linked;
    linked := set x | x in linked && BlockRef(round, 0, 0).AtMost(x);
    WalkEnds(c, d, top, all, round, linked);
  }

  ghost predicate Below(linked: set<BlockRef>, expanded: set<BlockRef>) {
    forall x, y :: x in linked && y in expanded ==> x.Less(y)
  }

  lemma StaysBelow(
      c: Committee, d: Dag, before: set<BlockRef>, after: set<BlockRef>, r: BlockRef, expanded: set<BlockRef>)
    requires IsView(c, d) && r in d && r in before
    requires forall x :: x in before ==> x.AtMost(r)
    requires after == before - {r} + set a | a in d[r].ancestors
    requires expanded <= d.Keys && Below(before, expanded)
    ensures Below(after, expanded + {r}) && |d.Keys - (expanded + {r})| < |d.Keys - expanded|
  {
    assert AncestorsPresent(d, r);
    assert r !in expanded;
    assert d.Keys - expanded == (d.Keys - (expanded + {r})) + {r};
  }

  /** `x` is in the worklist, or in the history of one of its members. */
  ghost predicate Found(c: Committee, d: Dag, linked: set<BlockRef>, x: BlockRef)
    requires IsView(c, d) && forall y :: y in linked ==> y in d
  {
    x in linked || exists y :: y in linked && Reaches(c, d, y, x)
  }

  /** The worklist stays within the history of `top` and leads to all of it at `round`. */
  ghost predicate Walk(c: Committee, d: Dag, top: BlockRef, linked: set<BlockRef>, round: Round)
    requires IsView(c, d) && top in d
  {
    && (forall x :: x in linked ==> x in d && Reaches(c, d, top, x))
    && (forall x :: x in d && x.round == round && Reaches(c, d, top, x) ==> Found(c, d, linked, x))
  }

  lemma WalkStarts(c: Committee, d: Dag, top: BlockRef, linked: set<BlockRef>, round: Round)
    requires IsView(c, d) && top in d && linked == set a | a in d[top].ancestors
    ensures Walk(c, d, top, linked, round)
  {
    assert AncestorsPresent(d, top);
  }

  /** Replacing a reference above the target round by its ancestors loses nothing. */
  lemma WalkContinues(
      c: Committee, d: Dag, top: BlockRef, before: set<BlockRef>, after: set<BlockRef>, r: BlockRef, round: Round)
    requires IsView(c, d) && top in d && r in before && r.round > round
    requires Walk(c, d, top, before, round)
    requires after == before - {r} + set a | a in d[r].ancestors
    ensures Walk(c, d, top, after, round)
  {
    assert AncestorsPresent(d, r);
    forall a | a in d[r].ancestors
      ensures Reaches(c, d, top, a)
    {
      assert Reaches(c, d, r, a);
      ReachesTransitive(c, d, top, r, a);
    }
    forall x | x in d && x.round == round && Reaches(c, d, top, x)
      ensures Found(c, d, after, x)
    {
      assert Found(c, d, before, x);
      if x !in before {
        var y :| y in before && Reaches(c, d, y, x);
        if y == r {
          var a :| a in d[r].ancestors && (a == x || Reaches(c, d, a, x));
          assert a in after;
        }
      }
    }
  }

  lemma WalkEnds(c: Committee, d: Dag, top: BlockRef, linked: set<BlockRef>, round: Round, keys: set<BlockRef>)
    requires IsView(c, d) && top in d && Walk(c, d, top, linked, round)
    requires forall x :: x in linked ==> x.round <= round
    requires keys == set x | x in linked && BlockRef(round, 0, 0).AtMost(x)
    ensures keys == HistoryAtRound(c, d, top, round)
  {
    forall x | x in HistoryAtRound(c, d, top, round)
      ensures x in keys
    {
      assert Found(c, d, linked, x);
      if x !in linked {
        var y :| y in linked && Reaches(c, d, y, x);
        ReachesLower(c, d, y, x);
        assert false;
      }
    }
  }

  lemma LookupLists(d: Dag, refs: set<BlockRef>, sorted: seq<BlockRef>, blocks: seq<Block>)
    requires StrictlyAscending(sorted) && |blocks| == |sorted|
    requires forall r :: r in sorted <==> r in refs
    requires forall r :: r in refs ==> r in d && d[r].reference == r
    requires forall k :: 0 <= k < |sorted| ==> sorted[k] in d && blocks[k] == d[sorted[k]]
    ensures Lists(d, refs, blocks)
  {
    forall k | 0 <= k < |sorted|
      ensures blocks[k].reference == sorted[k]
    {
      assert sorted[k] in refs;
    }
    forall r | r in refs
      ensures d[r] in blocks
    {
      var k :| 0 <= k < |sorted| && sorted[k] == r;
      assert blocks[k] == d[r];
    }
  }

  lemma StaysConsistent(own: Authority, d: Dag, cached: seq<set<BlockRef>>, highest: Round, block: Block)
    requires Consistent(own, d, cached, highest) && block.Author() < |cached|
    requires block.Author() == own ==> RefsAtSlot(d, block.reference.ToSlot()) == {}
    ensures Consistent(own, d[block.reference := block],
                       cached[block.Author() := cached[block.Author()] + {block.reference}],
                       if highest < block.Round() then block.Round() else highest)
  {
    OwnSlotFree(d, block, own);
    HighestRaised(d, block, highest);
  }

  lemma OwnSlotFree(d: Dag, block: Block, own: Authority)
    requires NeverEquivocates(d, own)
    requires block.Author() == own ==> RefsAtSlot(d, block.reference.ToSlot()) == {}
    ensures NeverEquivocates(d[block.reference := block], own)
  {
    assert block.Author() == own ==> forall r :: r in d && r.ToSlot() == block.reference.ToSlot()
                                                 ==> r in RefsAtSlot(d, block.reference.ToSlot());
  }

  lemma HighestRaised(d: Dag, block: Block, before: Round)
    requires before == HighestRound(d)
    ensures HighestRound(d[block.reference := block]) == if before < block.Round() then block.Round() else before
  {
    var e := d[block.reference := block];
    if before >= block.Round() && before > 0 {
      var r :| r in d && r.round == before;
      assert r in e;
    }
    assert block.reference in e;
  }

  lemma ListsNothing(d: Dag, refs: set<BlockRef>, blocks: seq<Block>)
    requires Lists(d, refs, blocks)
    ensures blocks == [] <==> refs == {}
  {
    if blocks != [] {
      assert blocks[0] in blocks;
    }
  }
}
