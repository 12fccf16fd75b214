/**
 The whole consensus: honest validators play the node's moves from genesis, the others do as they
 like within their stake, and any two validators commit the same sequence.
 */
module Consensus {
  import opened Outcomes
  import opened Blocks
  import opened Committees
  import opened Dags
  import opened ThresholdClocks
  import opened CommitRule
  import opened LeaderSlots
  import opened Runs
  import opened Nodes
  import opened NodeRuns
  import opened Cores

  /** A validator that knows the genesis blocks only, as it starts. */
  function Start(c: Committee, own: Authority, genesis: seq<Block>): Node
    requires own < |genesis|
  {
    var all := genesis[..own] + genesis[own + 1..] + [genesis[own]];
    Node(Learn(map[], all), genesis[own], PushAll(map[], all), Ticks(c, ClockState(0, {}), Refs(all)))
  }

  ghost predicate Played(c: Committee, genesis: seq<Block>, own: Authority, moves: seq<Move>) {
    own < |genesis| && NodeRuns.IsRun(c, own, Start(c, own, genesis), moves)
  }

  /** `b` is the author's genesis block or one of its proposals. */
  ghost predicate Authored(genesis: seq<Block>, own: Authority, moves: seq<Move>, b: Block) {
    own < |genesis| && (b == genesis[own] || b in Proposals(moves))
  }

  /** All blocks that exist: those of the validators in `moves` come from their runs from genesis,
      the others hold little stake and only have to reference a quorum of parents. */
  ghost predicate Arises(c: Committee, genesis: seq<Block>, moves: map<Authority, seq<Move>>, g: Dag) {
    && IsGenesis(c, genesis) && IsView(c, g) && c.FaultTolerant(moves.Keys)
    && (forall a :: a in moves ==> Played(c, genesis, a, moves[a]))
    && (forall r :: r in g && r.author in moves ==> Authored(genesis, r.author, moves[r.author], g[r]))
    && (forall r :: r in g && r.author !in moves ==> HasParentQuorum(c, g[r]))
  }

  lemma StartInv(c: Committee, own: Authority, genesis: seq<Block>)
    requires c.IsQuorum(c.Everyone()) && c.Exists(own) && IsGenesis(c, genesis)
    ensures NodeInv(c, own, Start(c, own, genesis))
    ensures genesis[own].reference in Start(c, own, genesis).known
    ensures Start(c, own, genesis).known[genesis[own].reference] == genesis[own]
  {
    var all := genesis[..own] + genesis[own + 1..] + [genesis[own]];
    GenesisOrder(c, own, genesis, all);
    GenesisNode(c, own, genesis, all);
    assert Start(c, own, genesis).last == genesis[own];
  }

  ghost predicate Knows(n: Node, b: Block) {
    b.reference in n.known && n.known[b.reference] == b
  }

  /** A node never forgets or replaces a block. */
  lemma MoveKeepsKnown(c: Committee, own: Authority, n: Node, m: Move)
    requires Allowed(c, own, n, m)
    ensures Includes(n.known, Apply(c, n, m).known)
    ensures m.Propose? ==> Knows(Apply(c, n, m), m.block)
  {
    if m.Receive? {
      assert OneBlockPerRef(n.known, m.accepted);
      LearnExact(n.known, m.accepted);
    }
  }

  lemma {:induction false} RunKnows(c: Committee, own: Authority, n: Node, moves: seq<Move>)
    requires NodeRuns.IsRun(c, own, n, moves)
    ensures Includes(n.known, Play(c, n, moves).known)
    ensures forall b :: b in Proposals(moves) ==> Knows(Play(c, n, moves), b)
  {
    if moves != [] {
      IsRunFront(c, own, n, moves);
      var front := moves[..|moves| - 1];
      RunKnows(c, own, n, front);
      MoveKeepsKnown(c, own, Play(c, n, front), moves[|moves| - 1]);
      hide NodeRuns.IsRun, Allowed, Apply;
    }
  }

  /** An honest author's node ends its run in a sound state that knows all its author's blocks. */
  lemma PlayedSound(c: Committee, genesis: seq<Block>, own: Authority, moves: seq<Move>)
    requires c.IsQuorum(c.Everyone()) && c.Exists(own) && IsGenesis(c, genesis) && Played(c, genesis, own, moves)
    ensures NodeInv(c, own, Play(c, Start(c, own, genesis), moves))
    ensures forall b :: Authored(genesis, own, moves, b) ==> Knows(Play(c, Start(c, own, genesis), moves), b)
  {
    StartInv(c, own, genesis);
    hide NodeInv, Start;
    RunKeepsInv(c, own, Start(c, own, genesis), moves);
    RunKnows(c, own, Start(c, own, genesis), moves);
  }

  lemma HonestSound(c: Committee, genesis: seq<Block>, moves: map<Authority, seq<Move>>, g: Dag, a: Authority)
    requires c.IsQuorum(c.Everyone()) && Arises(c, genesis, moves, g) && a in moves
    ensures NeverEquivocates(g, a)
    ensures forall r :: r in g && r.author == a ==> HasParentQuorum(c, g[r])
  {
    assert Played(c, genesis, a, moves[a]);
    PlayedSound(c, genesis, a, moves[a]);
    var n := Play(c, Start(c, a, genesis), moves[a]);
    hide NodeInv, Played, Start, Play, NeverEquivocates, HasParentQuorum;
    forall r | r in g && r.author == a
      ensures r in n.known && n.known[r] == g[r]
    {
      assert Authored(genesis, a, moves[a], g[r]);
    }
    HonestNodeSuffices(c, g, a, n);
  }

  /** What arises from honest runs is all the commit rule needs. */
  lemma ArisesGlobal(c: Committee, genesis: seq<Block>, moves: map<Authority, seq<Move>>, g: Dag)
    requires c.IsQuorum(c.Everyone()) && Arises(c, genesis, moves, g)
    ensures IsGlobal(c, g, moves.Keys)
  {
    hide IsView, NeverEquivocates, HasParentQuorum, Played, Authored, IsGenesis;
    forall a | a in moves.Keys
      ensures NeverEquivocates(g, a)
    {
      HonestSound(c, genesis, moves, g, a);
    }
    forall r | r in g
      ensures HasParentQuorum(c, g[r])
    {
      if r.author in moves {
        HonestSound(c, genesis, moves, g, r.author);
      }
    }
  }

  /** From genesis to agreement: if the honest validators run the code, the logs of any two
      validators, whatever they have seen and whenever they called, are prefixes of one another. */
  lemma ConsensusAgreement(
      c: Committee, genesis: seq<Block>, moves: map<Authority, seq<Move>>, g: Dag, u: UniversalCommitter,
      lastDecided: Slot, mine: seq<Dag>, yours: seq<Dag>)
    requires c.IsQuorum(c.Everyone()) && Arises(c, genesis, moves, g)
    requires u.Valid() && u.wave == DEFAULT_WAVE_LENGTH && u.DistinctLeaders()
    requires IsHistory(c, g, mine) && IsHistory(c, g, yours)
    ensures Log(c, u, mine, lastDecided).Ok? && Log(c, u, yours, lastDecided).Ok?
    ensures var s, t := Log(c, u, mine, lastDecided).value, Log(c, u, yours, lastDecided).value;
            s <= t || t <= s
  {
    ArisesGlobal(c, genesis, moves, g);
    hide *;
    RunAgreement(c, g, moves.Keys, u, lastDecided, mine, yours);
  }
}
