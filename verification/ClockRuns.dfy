/** The clock over whole runs: it always shows what the known blocks say, own proposals included. */
module ClockRuns {
  import opened Blocks
  import opened Committees
  import opened Dags
  import opened ThresholdClocks
  import opened Nodes
  import opened NodeRuns
  import opened Cores
  import opened Consensus

  lemma {:induction false} TicksOnward(c: Committee, seen: set<BlockRef>, s: ClockState, refs: seq<BlockRef>)
    requires NoSingleQuorum(c) && (forall r :: r in refs ==> c.Exists(r.author)) && Reflects(c, seen, 0, s)
    ensures Reflects(c, seen + Seen(refs), 0, Ticks(c, s, refs))
  {
    if refs == [] {
      assert seen + Seen(refs) == seen;
    } else {
      var front, last := refs[..|refs| - 1], refs[|refs| - 1];
      assert refs == front + [last] && Seen(refs) == Seen(front) + {last};
      hide Reflects, Tick;
      TicksOnward(c, seen, s, front);
      TickReflects(c, seen + Seen(front), 0, Ticks(c, s, front), last);
      assert seen + Seen(front) + {last} == seen + Seen(refs);
    }
  }

  lemma RefsSeen(blocks: seq<Block>)
    ensures forall r :: r in Seen(Refs(blocks)) <==> exists b :: b in blocks && b.reference == r
  {
    forall r
      ensures r in Seen(Refs(blocks)) <==> exists b :: b in blocks && b.reference == r
    {
      if r in Refs(blocks) {
        var i :| 0 <= i < |blocks| && Refs(blocks)[i] == r;
        assert blocks[i] in blocks;
      }
      if b :| b in blocks && b.reference == r {
        var i :| 0 <= i < |blocks| && blocks[i] == b;
        assert Refs(blocks)[i] == r;
      }
    }
  }

  lemma LearnedKeys(d: Dag, accepted: seq<Block>)
    requires OneBlockPerRef(d, accepted)
    ensures Learn(d, accepted).Keys == d.Keys + Seen(Refs(accepted))
  {
    LearnExact(d, accepted);
    RefsSeen(accepted);
    hide Learn, OneBlockPerRef, Refs, Seen;
  }

  lemma ReceiveReflects(c: Committee, own: Authority, n: Node, blocks: seq<Block>, accepted: seq<Block>)
    requires NoSingleQuorum(c) && Receivable(c, own, n.known, blocks) && AcceptsNew(n, blocks, accepted)
    requires Reflects(c, n.known.Keys, 0, n.clock)
    ensures Reflects(c, AfterAccepting(c, n, accepted).known.Keys, 0, AfterAccepting(c, n, accepted).clock)
  {
    assert OneBlockPerRef(n.known, accepted);
    hide Reflects, Learn, OneBlockPerRef, NoSingleQuorum, Ticks;
    AuthorsExist(c, blocks, accepted);
    hide Receivable, AcceptsNew, Refs;
    LearnedKeys(n.known, accepted);
    TicksOnward(c, n.known.Keys, n.clock, Refs(accepted));
  }

  lemma MoveReflects(c: Committee, own: Authority, n: Node, m: Move)
    requires NoSingleQuorum(c) && NodeInv(c, own, n) && Allowed(c, own, n, m) && Reflects(c, n.known.Keys, 0, n.clock)
    ensures Reflects(c, Apply(c, n, m).known.Keys, 0, Apply(c, n, m).clock)
  {
    match m
    case Receive(blocks, accepted) =>
      hide NodeInv, Reflects, Receivable, AcceptsNew, NoSingleQuorum;
      ReceiveReflects(c, own, n, blocks, accepted);
    case Propose(b) =>
      assert c.Exists(b.Author());
      hide Reflects, NodeInv, Tick, NoSingleQuorum, CanPropose;
      assert Apply(c, n, m).known.Keys == n.known.Keys + {b.reference};
      TickReflects(c, n.known.Keys, 0, n.clock, b.reference);
  }

  lemma {:induction false} RunReflects(c: Committee, own: Authority, n: Node, moves: seq<Move>)
    requires NoSingleQuorum(c) && NodeInv(c, own, n) && NodeRuns.IsRun(c, own, n, moves)
    requires Reflects(c, n.known.Keys, 0, n.clock)
    ensures Reflects(c, Play(c, n, moves).known.Keys, 0, Play(c, n, moves).clock)
  {
    hide NodeInv, Reflects;
    if moves != [] {
      var front := moves[..|moves| - 1];
      IsRunFront(c, own, n, moves);
      RunReflects(c, own, n, front);
      RunKeepsInv(c, own, n, front);
      MoveReflects(c, own, Play(c, n, front), moves[|moves| - 1]);
    }
  }

  lemma StartReflects(c: Committee, own: Authority, genesis: seq<Block>)
    requires NoSingleQuorum(c) && c.Exists(own) && IsGenesis(c, genesis)
    ensures Reflects(c, Start(c, own, genesis).known.Keys, 0, Start(c, own, genesis).clock)
  {
    var all := genesis[..own] + genesis[own + 1..] + [genesis[own]];
    GenesisOrder(c, own, genesis, all);
    GenesisLearned(c, genesis, all);
    RefsSeen(all);
    AuthorsExist(c, all, all);
    TicksReflect(c, 0, Refs(all));
    assert Seen(Refs(all)) == Learn(map[], all).Keys;
  }

  /** In every run from genesis, when no authority is a quorum alone, the clock shows the round after
      the highest one of which a quorum is known, or the highest one known. */
  lemma ClockExact(c: Committee, genesis: seq<Block>, own: Authority, moves: seq<Move>)
    requires NoSingleQuorum(c) && c.IsQuorum(c.Everyone()) && c.Exists(own) && IsGenesis(c, genesis)
    requires Played(c, genesis, own, moves)
    ensures var n := Play(c, Start(c, own, genesis), moves); n.clock.round == RoundOf(c, n.known.Keys, 0)
  {
    StartInv(c, own, genesis);
    StartReflects(c, own, genesis);
    assert NodeRuns.IsRun(c, own, Start(c, own, genesis), moves);
    hide NodeInv, Start, Play;
    RunReflects(c, own, Start(c, own, genesis), moves);
  }
}
