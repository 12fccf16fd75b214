/** Accepting received blocks: in round order, each of them once. */
module BlockManagers {
  import opened Blocks

  ghost predicate ByRound(blocks: seq<Block>) {
    forall i, j :: 0 <= i < j < |blocks| ==> blocks[i].Round() <= blocks[j].Round()
  }

  ghost predicate DistinctRefs(blocks: seq<Block>) {
    forall i, j :: 0 <= i < j < |blocks| ==> blocks[i].reference != blocks[j].reference
  }

  ghost function RefsOf(blocks: seq<Block>): set<BlockRef> {
    set b | b in blocks :: b.reference
  }

  /** The blocks of a round, in the order they come. */
  function AtRound(blocks: seq<Block>, round: Round): seq<Block> {
    if blocks == [] then []
    else AtRound(blocks[..|blocks| - 1], round) + OneAtRound(blocks[|blocks| - 1], round)
  }

  function OneAtRound(b: Block, round: Round): seq<Block> {
    if b.Round() == round then [b] else []
  }

  lemma {:induction false} AtRoundConcat(a: seq<Block>, b: seq<Block>, round: Round)
    ensures AtRound(a + b, round) == AtRound(a, round) + AtRound(b, round)
  {
    if b == [] {
      assert a + b == a;
    } else {
      var front, last := b[..|b| - 1], b[|b| - 1];
      assert (a + b)[..|a + b| - 1] == a + front && (a + b)[|a + b| - 1] == last;
      AtRoundConcat(a, front, round);
    }
  }

  lemma {:induction false} NoneAtRound(blocks: seq<Block>, round: Round)
    requires forall b :: b in blocks ==> b.Round() != round
    ensures AtRound(blocks, round) == []
  {
    if blocks != [] {
      NoneAtRound(blocks[..|blocks| - 1], round);
    }
  }

  /** In `out` the block comes after those of its round, and all others keep their order. */
  ghost predicate AddsInOrder(sorted: seq<Block>, b: Block, out: seq<Block>) {
    forall round :: AtRound(out, round) == AtRound(sorted, round) + OneAtRound(b, round)
  }

  /** Inserts after the blocks of the same round, as a stable sort does. */
  method InsertByRound(sorted: seq<Block>, b: Block) returns (out: seq<Block>)
    requires ByRound(sorted)
    ensures ByRound(out) && multiset(out) == multiset(sorted) + multiset{b} && AddsInOrder(sorted, b, out)
  {
    hide AddsInOrder;
    var k := |sorted|;
    while k > 0 && sorted[k - 1].Round() > b.Round()
      invariant 0 <= k <= |sorted|
      invariant forall i :: k <= i < |sorted| ==> sorted[i].Round() > b.Round()
    {
      k := k - 1;
    }
    out := sorted[..k] + [b] + sorted[k..];
    InsertedMembers(sorted, b, k);
    InsertedByRound(sorted, b, k);
    InsertedInOrder(sorted, b, k);
  }

  lemma InsertedInOrder(sorted: seq<Block>, b: Block, k: nat)
    requires k <= |sorted| && forall i :: k <= i < |sorted| ==> sorted[i].Round() > b.Round()
    ensures AddsInOrder(sorted, b, sorted[..k] + [b] + sorted[k..])
  {
    hide AtRound, OneAtRound;
    var front, back := sorted[..k], sorted[k..];
    assert front + back == sorted;
    assert forall x :: x in back ==> x.Round() > b.Round();
    forall round
      ensures AtRound(front + [b] + back, round) == AtRound(sorted, round) + OneAtRound(b, round)
    {
      InsertedAtRound(front, b, back, round);
    }
  }

  lemma InsertedAtRound(front: seq<Block>, b: Block, back: seq<Block>, round: Round)
    requires forall x :: x in back ==> x.Round() > b.Round()
    ensures AtRound(front + [b] + back, round) == AtRound(front + back, round) + OneAtRound(b, round)
  {
    hide AtRound;
    AtRoundSingle(b, round);
    AtRoundConcat(front + [b], back, round);
    AtRoundConcat(front, [b], round);
    AtRoundConcat(front, back, round);
    if round == b.Round() {
      NoneAtRound(back, round);
    }
    Swap(AtRound(front, round), OneAtRound(b, round), AtRound(back, round));
  }

  lemma Swap(a: seq<Block>, b: seq<Block>, c: seq<Block>)
    requires b == [] || c == []
    ensures a + b + c == a + c + b
  {
  }

  lemma AtRoundSingle(b: Block, round: Round)
    ensures AtRound([b], round) == OneAtRound(b, round)
  {
    assert [b][..0] == [];
  }

  lemma InsertedMembers(sorted: seq<Block>, b: Block, k: nat)
    requires k <= |sorted|
    ensures multiset(sorted[..k] + [b] + sorted[k..]) == multiset(sorted) + multiset{b}
  {
    assert sorted == sorted[..k] + sorted[k..];
  }

  lemma InsertedByRound(sorted: seq<Block>, b: Block, k: nat)
    requires ByRound(sorted) && k <= |sorted|
    requires k > 0 ==> sorted[k - 1].Round() <= b.Round()
    requires forall i :: k <= i < |sorted| ==> sorted[i].Round() > b.Round()
    ensures ByRound(sorted[..k] + [b] + sorted[k..])
  {
    var out := sorted[..k] + [b] + sorted[k..];
    forall i, j | 0 <= i < j < |out|
      ensures out[i].Round() <= out[j].Round()
    {
      assert out[i] == if i < k then sorted[i] else if i == k then b else sorted[i - 1];
      assert out[j] == if j < k then sorted[j] else if j == k then b else sorted[j - 1];
      assert i < k ==> sorted[i].Round() <= b.Round();
    }
  }

  ghost predicate SameOrder(a: seq<Block>, b: seq<Block>) {
    forall round :: AtRound(a, round) == AtRound(b, round)
  }

  lemma SameOrderAdded(sorted: seq<Block>, out: seq<Block>, blocks: seq<Block>, b: Block)
    requires SameOrder(sorted, blocks) && AddsInOrder(sorted, b, out)
    ensures SameOrder(out, blocks + [b])
  {
    forall round
      ensures AtRound(out, round) == AtRound(blocks + [b], round)
    {
      AtRoundSingle(b, round);
      hide AtRound, OneAtRound;
      AtRoundConcat(blocks, [b], round);
    }
  }

  /** A stable sort: blocks of the same round keep their order. */
  method SortByRound(blocks: seq<Block>) returns (sorted: seq<Block>)
    ensures ByRound(sorted) && multiset(sorted) == multiset(blocks) && SameOrder(sorted, blocks)
  {
    sorted := [];
    for i := 0 to |blocks|
      invariant ByRound(sorted) && multiset(sorted) == multiset(blocks[..i]) && SameOrder(sorted, blocks[..i])
    {
      hide SameOrder, AddsInOrder;
      assert blocks[..i + 1] == blocks[..i] + [blocks[i]];
      var before := sorted;
      sorted := InsertByRound(before, blocks[i]);
      SameOrderAdded(before, sorted, blocks[..i], blocks[i]);
    }
    assert blocks[..|blocks|] == blocks;
  }

  class BlockManager {
    var acceptedBlocks: set<BlockRef>

    constructor ()
      ensures acceptedBlocks == {}
    {
      acceptedBlocks := {};
    }

    /** Returns, by round, the blocks that were not accepted before, one per reference. */
    method AddBlocks(blocks: seq<Block>) returns (accepted: seq<Block>)
      modifies this
      ensures ByRound(accepted) && DistinctRefs(accepted)
      ensures forall b :: b in accepted ==> b in blocks && b.reference !in old(acceptedBlocks)
      ensures acceptedBlocks == old(acceptedBlocks) + RefsOf(blocks)
      ensures RefsOf(accepted) == RefsOf(blocks) - old(acceptedBlocks)
    {
      ghost var before := acceptedBlocks;
      var sorted := SortByRound(blocks);
      accepted := [];
      for i := 0 to |sorted|
        invariant acceptedBlocks == before + RefsOf(sorted[..i])
        invariant RefsOf(accepted) == RefsOf(sorted[..i]) - before
        invariant ByRound(accepted) && DistinctRefs(accepted)
        invariant forall b :: b in accepted ==> b in sorted[..i] && b.reference !in before
      {
        var b := sorted[i];
        assert sorted[..i + 1] == sorted[..i] + [b];
        assert RefsOf(sorted[..i + 1]) == RefsOf(sorted[..i]) + {b.reference};
        if b.reference !in acceptedBlocks {
          AppendKeeps(accepted, b, sorted, i);
          acceptedBlocks := acceptedBlocks + {b.reference};
          accepted := accepted + [b];
        }
      }
      assert sorted[..|sorted|] == sorted;
      SameMembers(sorted, blocks);
    }
  }

  lemma AppendKeeps(accepted: seq<Block>, b: Block, sorted: seq<Block>, i: nat)
    requires i < |sorted| && b == sorted[i] && ByRound(sorted)
    requires ByRound(accepted) && DistinctRefs(accepted) && b.reference !in RefsOf(accepted)
    requires forall a :: a in accepted ==> a in sorted[..i]
    ensures ByRound(accepted + [b]) && DistinctRefs(accepted + [b])
    ensures RefsOf(accepted + [b]) == RefsOf(accepted) + {b.reference}
  {
    forall k | 0 <= k < |accepted|
      ensures accepted[k].Round() <= b.Round() && accepted[k].reference != b.reference
    {
      assert accepted[k] in accepted;
      var j :| 0 <= j < i && sorted[j] == accepted[k];
    }
  }

  lemma SameMembers(a: seq<Block>, b: seq<Block>)
    requires multiset(a) == multiset(b)
    ensures (forall x :: x in a <==> x in b) && RefsOf(a) == RefsOf(b)
  {
    assert forall x :: x in a <==> x in multiset(a);
    assert forall x :: x in b <==> x in multiset(b);
  }
}
