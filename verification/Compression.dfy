/**
 What reference compression leaves out: a proposal lists no block twice over. Together with the
 invariant that nothing is lost, the references are as few as they can be.
 */
module Compression {
  import opened Blocks
  import opened Committees
  import opened Dags
  import opened Nodes
  import opened NodeRuns

  /** Besides the last own proposal, only pending blocks are referenced that no pending block
      below the clock references. */
  ghost predicate Minimal(n: Node, b: Block) {
    forall x :: x in b.ancestors && x != n.last.reference ==>
      && (exists p :: p in PendingBelow(n.pending, n.clock.round) && p.reference == x)
      && forall q :: q in PendingBelow(n.pending, n.clock.round) ==> x !in q.ancestors
  }

  lemma ProposalMinimal(c: Committee, own: Authority, n: Node, b: Block)
    requires CanPropose(c, own, n, b)
    ensures Minimal(n, b) && n.last.reference in b.ancestors
  {
    var blocks := PendingBelow(n.pending, n.clock.round);
    hide PendingBelow;
    forall x | x in b.ancestors && x != n.last.reference
      ensures (exists p :: p in blocks && p.reference == x) && forall q :: q in blocks ==> x !in q.ancestors
    {
      assert x in Compressed(n) && x !in ParentsOf(blocks);
    }
    assert n.last.reference in Compressed(n);
  }

  /** In every run, every proposal is minimal in the state it was made in. */
  lemma RunMinimal(c: Committee, own: Authority, n: Node, moves: seq<Move>, i: nat)
    requires IsRun(c, own, n, moves) && i < |moves| && moves[i].Propose?
    ensures Minimal(Play(c, n, moves[..i]), moves[i].block)
  {
    assert Allowed(c, own, Play(c, n, moves[..i]), moves[i]);
    hide IsRun, Play, Minimal, CanPropose;
    ProposalMinimal(c, own, Play(c, n, moves[..i]), moves[i].block);
  }

  // ----- No reference is implied by another -----

  /** A block that references a pending one is pending too. */
  ghost predicate Upward(n: Node) {
    forall z, x :: z in n.known && x in n.known[z].ancestors && x in n.known && IsPending(n.pending, n.known[x]) ==>
      IsPending(n.pending, n.known[z])
  }

  /** No reference but that to the last proposal is in the history of another. */
  ghost predicate Irredundant(c: Committee, n: Node, b: Block)
    requires IsView(c, n.known)
  {
    forall x, y :: x in b.ancestors && x != n.last.reference && y in b.ancestors && y in n.known ==>
      !Reaches(c, n.known, y, x)
  }

  lemma {:induction false} LastStep(c: Committee, d: Dag, y: BlockRef, x: BlockRef) returns (z: BlockRef)
    requires IsView(c, d) && y in d && Reaches(c, d, y, x)
    ensures z in d && x in d[z].ancestors && z.round <= y.round
    decreases y.round
  {
    assert AncestorsPresent(d, y);
    var a :| a in d[y].ancestors && (a == x || Reaches(c, d, a, x));
    if a == x {
      z := y;
    } else {
      z := LastStep(c, d, a, x);
    }
  }

  lemma PendingIsBelow(n: Node, z: BlockRef)
    requires PendingKnown(n) && z in n.known && IsPending(n.pending, n.known[z]) && n.known[z].reference == z
    requires z.round < n.clock.round
    ensures n.known[z] in PendingBelow(n.pending, n.clock.round)
  {
  }

  lemma ProposalIrredundant(c: Committee, own: Authority, n: Node, b: Block)
    requires NodeInv(c, own, n) && Upward(n) && CanPropose(c, own, n, b)
    ensures IsView(c, n.known) && Irredundant(c, n, b)
  {
    assert IsView(c, n.known) && PendingKnown(n);
    ProposalMinimal(c, own, n, b);
    ProposalValid(c, own, n, b);
    hide NodeInv, CanPropose;
    forall x, y | x in b.ancestors && x != n.last.reference && y in b.ancestors && y in n.known
      ensures !Reaches(c, n.known, y, x)
    {
      if Reaches(c, n.known, y, x) {
        var z := LastStep(c, n.known, y, x);
        ListedPending(n, b, x);
        PendingIsBelow(n, z);
      }
    }
  }

  lemma ListedPending(n: Node, b: Block, x: BlockRef)
    requires PendingKnown(n) && Minimal(n, b) && x in b.ancestors && x != n.last.reference
    ensures x in n.known && IsPending(n.pending, n.known[x])
  {
    var p :| p in PendingBelow(n.pending, n.clock.round) && p.reference == x;
  }

  // ----- Over runs -----

  ghost predicate Fresh(n: Node, m: Move) {
    m.Receive? ==> forall b :: b in m.accepted ==> b.reference !in n.known
  }

  lemma AcceptingUpward(c: Committee, n: Node, after: Node, accepted: seq<Block>)
    requires IsView(c, n.known) && Upward(n) && Grown(n, after, accepted)
    requires forall b :: b in accepted ==> b.reference !in n.known
    ensures Upward(after)
  {
    forall z, x | z in after.known && x in after.known[z].ancestors && x in after.known
                  && IsPending(after.pending, after.known[x])
      ensures IsPending(after.pending, after.known[z])
    {
      if z in n.known {
        assert AncestorsPresent(n.known, z) && x in n.known;
        assert after.known[x] == n.known[x] && n.known[x].reference == x;
        assert after.known[x] !in accepted;
        assert IsPending(n.pending, n.known[x]);
      } else {
        assert ReceivedRef(accepted, z);
      }
    }
  }

  lemma ProposingUpward(c: Committee, own: Authority, n: Node, b: Block)
    requires NodeInv(c, own, n) && CanPropose(c, own, n, b)
    ensures Upward(AfterProposal(c, n, b))
  {
    ProposalValid(c, own, n, b);
    assert IsView(c, n.known) && ClockCovers(n.known, n.clock) && b.Round() == n.clock.round;
    hide NodeInv, CanPropose;
    var after := AfterProposal(c, n, b);
    forall x | x in after.known && IsPending(after.pending, after.known[x])
      ensures x.round >= n.clock.round
    {
      assert x != b.reference ==> n.known[x].reference == x;
    }
    forall z, x | z in after.known && x in after.known[z].ancestors
      ensures x.round < n.clock.round
    {
      assert z != b.reference ==> AncestorsPresent(n.known, z);
    }
  }

  lemma MoveUpward(c: Committee, own: Authority, n: Node, m: Move)
    requires NodeInv(c, own, n) && Upward(n) && Allowed(c, own, n, m) && Fresh(n, m)
    ensures Upward(Apply(c, n, m))
  {
    match m
    case Receive(blocks, accepted) =>
      assert IsView(c, n.known) && OneBlockPerRef(n.known, accepted);
      hide NodeInv, Upward, Receivable, AcceptsNew;
      AcceptingGrows(c, n, accepted);
      AcceptingUpward(c, n, AfterAccepting(c, n, accepted), accepted);
    case Propose(b) =>
      hide NodeInv, Upward;
      ProposingUpward(c, own, n, b);
  }

  /** A run in which no block is accepted that is known already. */
  ghost predicate IsFreshRun(c: Committee, own: Authority, n: Node, moves: seq<Move>) {
    IsRun(c, own, n, moves) && forall i :: 0 <= i < |moves| ==> Fresh(Play(c, n, moves[..i]), moves[i])
  }

  lemma {:induction false} RunUpward(c: Committee, own: Authority, n: Node, moves: seq<Move>, i: nat)
    requires NodeInv(c, own, n) && Upward(n) && IsFreshRun(c, own, n, moves) && i <= |moves|
    ensures NodeInv(c, own, Play(c, n, moves[..i])) && Upward(Play(c, n, moves[..i]))
  {
    if i > 0 {
      assert Allowed(c, own, Play(c, n, moves[..i - 1]), moves[i - 1]);
      assert Fresh(Play(c, n, moves[..i - 1]), moves[i - 1]);
      assert moves[..i][..i - 1] == moves[..i - 1];
      hide NodeInv, Upward, Allowed, Fresh, Apply;
      RunUpward(c, own, n, moves, i - 1);
      MoveKeepsInv(c, own, Play(c, n, moves[..i - 1]), moves[i - 1]);
      MoveUpward(c, own, Play(c, n, moves[..i - 1]), moves[i - 1]);
    }
  }

  /** In every such run no proposal references a block that another reference implies. */
  lemma RunIrredundant(c: Committee, own: Authority, n: Node, moves: seq<Move>, i: nat)
    requires NodeInv(c, own, n) && Upward(n) && IsFreshRun(c, own, n, moves) && i < |moves| && moves[i].Propose?
    ensures IsView(c, Play(c, n, moves[..i]).known) && Irredundant(c, Play(c, n, moves[..i]), moves[i].block)
  {
    RunUpward(c, own, n, moves, i);
    assert Allowed(c, own, Play(c, n, moves[..i]), moves[i]);
    hide NodeInv, Upward, Play, IsRun, CanPropose, Irredundant;
    ProposalIrredundant(c, own, Play(c, n, moves[..i]), moves[i].block);
  }

  /** A node that knows only blocks without ancestors can start such a run. */
  lemma GenesisUpward(n: Node)
    requires forall r :: r in n.known ==> n.known[r].ancestors == []
    ensures Upward(n)
  {
  }

  /** The condition matters: when a block that is known and no longer pending is accepted again, a
      proposal that no pending block covers it for references it although it is in the history of
      the last proposal. */
  lemma AcceptedAgain(c: Committee, own: Authority, n: Node, x: BlockRef, b: Block)
    requires NodeInv(c, own, n) && x in n.known && x != n.last.reference && !IsPending(n.pending, n.known[x])
    requires var m := AfterAccepting(c, n, [n.known[x]]);
             && x.round < m.clock.round && CanPropose(c, own, m, b)
             && forall q :: q in PendingBelow(m.pending, m.clock.round) ==> x !in q.ancestors
    ensures x in b.ancestors && Reaches(c, n.known, n.last.reference, x) && n.last.reference in b.ancestors
  {
    var again := n.known[x];
    var m := AfterAccepting(c, n, [again]);
    assert n.known[x].reference == x && Accounted(c, n, x);
    assert OneBlockPerRef(n.known, [again]);
    hide NodeInv;
    AcceptingGrows(c, n, [again]);
    assert again in [again] && IsPending(m.pending, again);
    assert again in PendingBelow(m.pending, m.clock.round);
    hide PendingBelow;
    assert x in Compressed(m) && m.last.reference in Compressed(m);
  }
}
