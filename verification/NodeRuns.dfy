/**
 Whole runs of a validator: any interleaving of receiving and proposing. Its own blocks are
 exactly as sound as the commit rule assumes honest blocks to be.
 */
module NodeRuns {
  import opened Blocks
  import opened Committees
  import opened Dags
  import opened Nodes

  datatype Move = Receive(blocks: seq<Block>, accepted: seq<Block>) | Propose(block: Block)

  ghost predicate Allowed(c: Committee, own: Authority, n: Node, m: Move) {
    match m
    case Receive(blocks, accepted) => Receivable(c, own, n.known, blocks) && AcceptsNew(n, blocks, accepted)
    case Propose(b) => CanPropose(c, own, n, b)
  }

  function Apply(c: Committee, n: Node, m: Move): Node {
    match m
    case Receive(_, accepted) => AfterAccepting(c, n, accepted)
    case Propose(b) => AfterProposal(c, n, b)
  }

  /** The node after some moves. */
  function Play(c: Committee, n: Node, moves: seq<Move>): Node {
    if moves == [] then n
    else Apply(c, Play(c, n, moves[..|moves| - 1]), moves[|moves| - 1])
  }

  ghost predicate IsRun(c: Committee, own: Authority, n: Node, moves: seq<Move>) {
    forall i :: 0 <= i < |moves| ==> Allowed(c, own, Play(c, n, moves[..i]), moves[i])
  }

  function Proposals(moves: seq<Move>): seq<Block> {
    if moves == [] then []
    else
      var front := Proposals(moves[..|moves| - 1]);
      match moves[|moves| - 1]
      case Receive(_, _) => front
      case Propose(b) => front + [b]
  }

  lemma IsRunFront(c: Committee, own: Authority, n: Node, moves: seq<Move>)
    requires IsRun(c, own, n, moves) && moves != []
    ensures IsRun(c, own, n, moves[..|moves| - 1])
    ensures Allowed(c, own, Play(c, n, moves[..|moves| - 1]), moves[|moves| - 1])
  {
    var front := moves[..|moves| - 1];
    forall i | 0 <= i < |front|
      ensures Allowed(c, own, Play(c, n, front[..i]), front[i])
    {
      assert front[..i] == moves[..i];
    }
  }

  lemma MoveKeepsInv(c: Committee, own: Authority, n: Node, m: Move)
    requires NodeInv(c, own, n) && Allowed(c, own, n, m)
    ensures NodeInv(c, own, Apply(c, n, m))
  {
    match m
    case Receive(blocks, accepted) => AcceptingKeepsInv(c, own, n, blocks, accepted);
    case Propose(b) => ProposalKeepsInv(c, own, n, b);
  }

  /** In every reachable state nothing accepted is lost, and the rest of the invariant holds. */
  lemma {:induction false} RunKeepsInv(c: Committee, own: Authority, n: Node, moves: seq<Move>)
    requires NodeInv(c, own, n) && IsRun(c, own, n, moves)
    ensures NodeInv(c, own, Play(c, n, moves))
  {
    hide NodeInv;
    if moves != [] {
      IsRunFront(c, own, n, moves);
      RunKeepsInv(c, own, n, moves[..|moves| - 1]);
      MoveKeepsInv(c, own, Play(c, n, moves[..|moves| - 1]), moves[|moves| - 1]);
    }
  }

  /** What the commit rule assumes of a block of an honest authority. */
  ghost predicate SoundProposal(c: Committee, own: Authority, b: Block) {
    && b.Author() == own
    && HasParentQuorum(c, b)
    && forall a :: a in b.ancestors ==> a.round < b.Round()
  }

  ghost predicate RoundsIncrease(above: Round, blocks: seq<Block>) {
    && (forall i, j :: 0 <= i < j < |blocks| ==> blocks[i].Round() < blocks[j].Round())
    && (forall b :: b in blocks ==> above < b.Round())
  }

  /** Each proposal references the one before it. */
  ghost predicate Chained(first: Block, blocks: seq<Block>) {
    forall i :: 0 <= i < |blocks| ==> LastOf(first, blocks[..i]).reference in blocks[i].ancestors
  }

  function LastOf(first: Block, blocks: seq<Block>): Block {
    if blocks == [] then first else blocks[|blocks| - 1]
  }

  lemma ExtendProposals(first: Block, blocks: seq<Block>, b: Block)
    requires RoundsIncrease(first.Round(), blocks) && Chained(first, blocks)
    requires LastOf(first, blocks).Round() < b.Round() && LastOf(first, blocks).reference in b.ancestors
    ensures RoundsIncrease(first.Round(), blocks + [b]) && Chained(first, blocks + [b])
  {
    var more := blocks + [b];
    forall i | 0 <= i < |blocks|
      ensures blocks[i].Round() < b.Round()
    {
      assert blocks[i].Round() <= LastOf(first, blocks).Round();
    }
    assert blocks != [] ==> first.Round() < LastOf(first, blocks).Round();
    forall i | 0 <= i < |more|
      ensures LastOf(first, more[..i]).reference in more[i].ancestors
    {
      assert more[..i] == blocks[..i];
      assert blocks[..|blocks|] == blocks;
    }
  }

  /** The proposals `blocks` bring the last proposal from `first` to `last`. */
  ghost predicate ProposedSoundly(c: Committee, own: Authority, first: Block, blocks: seq<Block>, last: Block) {
    && RoundsIncrease(first.Round(), blocks)
    && Chained(first, blocks)
    && (forall b :: b in blocks ==> SoundProposal(c, own, b))
    && last == LastOf(first, blocks)
  }

  lemma ProposeOnce(c: Committee, own: Authority, first: Block, blocks: seq<Block>, n: Node, b: Block)
    requires NodeInv(c, own, n) && CanPropose(c, own, n, b) && ProposedSoundly(c, own, first, blocks, n.last)
    ensures ProposedSoundly(c, own, first, blocks + [b], b)
  {
    hide NodeInv;
    hide CanPropose;
    ProposalValid(c, own, n, b);
    ExtendProposals(first, blocks, b);
  }

  /** In every run the proposals have strictly increasing rounds, each references its
      predecessor, lower rounds only, and a quorum of the round below. */
  lemma {:induction false} RunProposals(c: Committee, own: Authority, n: Node, moves: seq<Move>)
    requires NodeInv(c, own, n) && IsRun(c, own, n, moves)
    ensures ProposedSoundly(c, own, n.last, Proposals(moves), Play(c, n, moves).last)
  {
    hide NodeInv;
    hide CanPropose;
    if moves != [] {
      hide ProposedSoundly;
      hide IsRun;
      var front := moves[..|moves| - 1];
      IsRunFront(c, own, n, moves);
      RunProposals(c, own, n, front);
      RunKeepsInv(c, own, n, front);
      if moves[|moves| - 1].Propose? {
        ProposeOnce(c, own, n.last, Proposals(front), Play(c, n, front), moves[|moves| - 1].block);
      }
    }
  }

  /** The blocks of an honest validator that runs this code satisfy what the commit rule assumes:
      if its node knows all of its blocks in `g`, then no two share a slot and all have a quorum
      of parents. */
  lemma HonestNodeSuffices(c: Committee, g: Dag, own: Authority, n: Node)
    requires NodeInv(c, own, n)
    requires forall r :: r in g && r.author == own ==> r in n.known && n.known[r] == g[r]
    ensures NeverEquivocates(g, own)
    ensures forall r :: r in g && r.author == own ==> HasParentQuorum(c, g[r])
  {
    assert NeverEquivocates(n.known, own);
  }
}
