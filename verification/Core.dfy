/** One validator: it accepts blocks, advances its clock and proposes a block per round at most. */
module Cores {
  import opened Outcomes
  import opened Blocks
  import opened Committees
  import opened Dags
  import opened BlockManagers
  import opened ThresholdClocks
  import opened Transactions
  import opened Nodes

  /** One genesis block per authority, in index order. */
  ghost predicate IsGenesis(c: Committee, genesis: seq<Block>) {
    && |genesis| == c.Size()
    && forall i :: 0 <= i < |genesis| ==>
         genesis[i].Round() == GENESIS_ROUND && genesis[i].Author() == i && genesis[i].ancestors == []
  }

  /** A digest no block in sight has: a new block never collides with one. */
  ghost predicate FreshDigest(d: Dag, blocks: seq<Block>, digest: Digest) {
    && (forall r :: r in d ==> r.digest != digest)
    && (forall b :: b in blocks ==> b.reference.digest != digest)
  }

  class Core {
    const committee: Committee
    const ownIndex: Authority
    const clock: ThresholdClock
    const blockManager: BlockManager
    const consumer: TransactionsConsumer
    var lastProposedBlock: Block
    var pendingAncestors: Pending

    /** Every block accepted so far. */
    ghost var known: Dag

    ghost function State(): Node
      reads this, clock, clock.aggregator
    {
      Node(known, lastProposedBlock, pendingAncestors, clock.State())
    }

    ghost predicate Valid()
      reads this, clock, clock.aggregator, blockManager
    {
      && clock.Valid() && clock.committee == committee && committee.Exists(ownIndex)
      && NodeInv(committee, ownIndex, State())
      && blockManager.acceptedBlocks <= known.Keys
      && (forall r :: r in known && r.round > GENESIS_ROUND ==> r in blockManager.acceptedBlocks)
    }

    /** Starts from the genesis blocks, our own last, which move the clock to round 1. */
    constructor (committee: Committee, ownIndex: Authority, genesis: seq<Block>, consumer: TransactionsConsumer)
      requires committee.IsQuorum(committee.Everyone()) && committee.Exists(ownIndex)
      requires IsGenesis(committee, genesis)
      ensures Valid() && fresh(clock) && fresh(clock.aggregator) && fresh(blockManager)
      ensures this.committee == committee && this.ownIndex == ownIndex && this.consumer == consumer
      ensures clock.round == 1 && lastProposedBlock == genesis[ownIndex]
      ensures forall r :: r in known <==> ReceivedRef(genesis, r)
    {
      hide NodeInv;
      this.committee := committee;
      this.ownIndex := ownIndex;
      this.consumer := consumer;
      blockManager := new BlockManager();
      var all := genesis[..ownIndex] + genesis[ownIndex + 1..] + [genesis[ownIndex]];
      GenesisOrder(committee, ownIndex, genesis, all);
      GenesisNode(committee, ownIndex, genesis, all);
      var thresholdClock, pending := LoadGenesis(committee, all);
      clock := thresholdClock;
      lastProposedBlock := genesis[ownIndex];
      pendingAncestors := pending;
      known := Learn(map[], all);
    }

    /** Accepts blocks and proposes one if that is possible without waiting for leaders. The
        source returns the references still missing, always none. */
    method AddBlocks(blocks: seq<Block>, digest: Digest) returns (proposed: Option<Block>, ghost accepted: seq<Block>)
      requires Valid() && Receivable(committee, ownIndex, known, blocks) && FreshDigest(known, blocks, digest)
      modifies this, clock, clock.aggregator, blockManager, consumer, consumer.channel
      ensures Valid() && Includes(old(known), known) && AllKnown(known, blocks)
      ensures AcceptsNew(old(State()), blocks, accepted)
      ensures forall b :: b in accepted && b.reference in old(known) ==> b.Round() == GENESIS_ROUND
      ensures Follows(AfterAccepting(committee, old(State()), accepted), old(consumer.State()), proposed)
      ensures committee.Size() > 0
      ensures var n := AfterAccepting(committee, old(State()), accepted);
              proposed.Some? <==> n.last.Round() < n.clock.round && LeaderPending(committee, n.clock.round, n.pending)
      ensures proposed.Some? ==> ListsLeader(committee, proposed.value)
    {
      hide NodeInv, Receivable, FreshDigest, AcceptsNew, Includes, AllKnown, Learn, RefsOf;
      ghost var n := State();
      var newBlocks := blockManager.AddBlocks(blocks);
      accepted := newBlocks;
      AcceptedNew(committee, ownIndex, n, blocks, accepted, old(blockManager.acceptedBlocks));
      AcceptedDigests(n.known, blocks, accepted, digest);
      ManagerCovers(n.known, blocks, accepted, old(blockManager.acceptedBlocks));
      var _ := clock.AddBlocks(Refs(newBlocks));
      PushPending(newBlocks);
      known := Learn(known, accepted);
      assert State() == AfterAccepting(committee, n, accepted);
      ghost var learned := known;
      proposed := TryNewBlock(false, digest);
      StillKnown(n.known, learned, known, blocks);
      if proposed.Some? {
        LeaderListed(committee, ownIndex, AfterAccepting(committee, n, accepted), proposed.value);
      }
    }

    method PushPending(accepted: seq<Block>)
      modifies this`pendingAncestors
      ensures pendingAncestors == PushAll(old(pendingAncestors), accepted)
    {
      for i := 0 to |accepted|
        invariant pendingAncestors == PushAll(old(pendingAncestors), accepted[..i])
      {
        assert accepted[..i + 1][..i] == accepted[..i];
        pendingAncestors := Push(pendingAncestors, accepted[i]);
      }
      assert accepted[..|accepted|] == accepted;
    }

    /** Proposes for a round even if its leaders are missing, after a timeout. */
    method ForceNewBlock(round: Round, digest: Digest) returns (proposed: Option<Block>)
      requires Valid() && FreshDigest(known, [], digest)
      modifies this, clock, clock.aggregator, blockManager, consumer, consumer.channel
      ensures Valid() && Includes(old(known), known)
      ensures Follows(old(State()), old(consumer.State()), proposed)
      ensures proposed.Some? <==> old(lastProposedBlock.Round()) < round && old(lastProposedBlock.Round() < clock.round)
    {
      if lastProposedBlock.Round() < round {
        proposed := TryNewBlock(true, digest);
      } else {
        proposed := None;
      }
    }

    /** The state follows from `n` and the queue by proposing nothing, or one block. */
    ghost predicate Follows(n: Node, waiting: Waiting, proposed: Option<Block>)
      reads this, clock, clock.aggregator, consumer, consumer.channel
    {
      match proposed
      case None => State() == n && consumer.State() == waiting
      case Some(b) =>
        && CanPropose(committee, ownIndex, n, b)
        && State() == AfterProposal(committee, n, b)
        && (b.payload, consumer.State()) == Pull(consumer.limits, waiting)
    }

    method TryNewBlock(ignoreLeadersCheck: bool, digest: Digest) returns (proposed: Option<Block>)
      requires Valid() && forall r :: r in known ==> r.digest != digest
      modifies this, clock, clock.aggregator, blockManager, consumer, consumer.channel
      ensures Valid() && Includes(old(known), known)
      ensures Follows(old(State()), old(consumer.State()), proposed)
      ensures proposed.Some?
              <==> old(lastProposedBlock.Round() < clock.round && (ignoreLeadersCheck || QuorumLeadersExist()))
    {
      hide NodeInv, Compressed;
      var clockRound := clock.round;
      if clockRound <= lastProposedBlock.Round() || !(ignoreLeadersCheck || QuorumLeadersExist()) {
        return None;
      }
      ghost var n := State();
      var ancestors := AncestorsToPropose(clockRound);
      var payload := consumer.Next();
      var block := Block(BlockRef(clockRound, ownIndex, digest), ancestors, payload);
      assert CanPropose(committee, ownIndex, n, block);
      ProposalKeepsInv(committee, ownIndex, n, block);
      hide CanPropose, Pull, Tick, Push, Includes;
      KnownGrows(known, block);
      clock.AddBlock(block.reference);
      pendingAncestors := Push(pendingAncestors, block);
      var _ := blockManager.AddBlocks([block]);
      lastProposedBlock := block;
      known := known[block.reference := block];
      assert State() == AfterProposal(committee, n, block);
      proposed := Some(block);
    }

    /** Takes the pending blocks below a round, leaving out those the others reference. */
    method AncestorsToPropose(clockRound: Round) returns (ancestors: seq<BlockRef>)
      requires clockRound == clock.round
      modifies this`pendingAncestors
      ensures forall a :: a in ancestors <==> a in old(Compressed(State()))
      ensures pendingAncestors == map r | r in old(pendingAncestors) && r >= clockRound :: old(pendingAncestors)[r]
    {
      var blocks: set<Block> := {};
      for r := 0 to clockRound
        invariant blocks == PendingBelow(pendingAncestors, r)
      {
        assert PendingBelow(pendingAncestors, r + 1)
            == PendingBelow(pendingAncestors, r)
               + if r in pendingAncestors then (set b | b in pendingAncestors[r]) else {};
        if r in pendingAncestors {
          blocks := blocks + set b | b in pendingAncestors[r];
        }
      }
      var parents := set b, a | b in blocks && a in b.ancestors :: a;
      var toPropose := (set b | b in blocks && b.reference !in parents :: b.reference) + {lastProposedBlock.reference};
      ancestors := Listed(toPropose);
      pendingAncestors := map r | r in pendingAncestors && r >= clockRound :: pendingAncestors[r];
    }

    /** Whether the leader of the round below the clock has a pending block there. */
    predicate QuorumLeadersExist()
      requires committee.Size() > 0
      reads this, clock
    {
      LeaderPending(committee, clock.round, pendingAncestors)
    }
  }

  lemma KnownGrows(d: Dag, b: Block)
    ensures b.reference !in d ==> Includes(d, d[b.reference := b])
  {
  }

  /** The block references one of the round below by that round's leader; leaders rotate by round. */
  ghost predicate ListsLeader(c: Committee, b: Block)
    requires c.Size() > 0
  {
    exists x :: x in b.ancestors && x.round + 1 == b.Round() && x.author == x.round % c.Size()
  }

  lemma LeaderListed(c: Committee, own: Authority, n: Node, b: Block)
    requires NodeInv(c, own, n) && CanPropose(c, own, n, b) && c.Size() > 0
    requires LeaderPending(c, n.clock.round, n.pending)
    ensures ListsLeader(c, b)
  {
    var round := n.clock.round - 1;
    var p :| p in n.pending[round] && p.Author() == round % c.Size();
    assert PendingKnown(n);
    TopNotCompressed(c, own, n, p.reference);
    hide NodeInv;
    assert p.reference in b.ancestors;
  }

  /** Leaders rotate by round. */
  predicate LeaderPending(c: Committee, clockRound: Round, pending: Pending)
    requires c.Size() > 0
  {
    var quorumRound := if clockRound == 0 then 0 else clockRound - 1;
    quorumRound in pending && exists b :: b in pending[quorumRound] && b.Author() == quorumRound % c.Size()
  }

  /** Feeds the genesis blocks to a new clock and makes them pending. */
  method LoadGenesis(c: Committee, all: seq<Block>) returns (clock: ThresholdClock, pending: Pending)
    requires forall b :: b in all ==> c.Exists(b.Author())
    ensures fresh(clock) && fresh(clock.aggregator) && clock.Valid() && clock.committee == c
    ensures clock.State() == Ticks(c, ClockState(0, {}), Refs(all)) && pending == PushAll(map[], all)
  {
    clock := new ThresholdClock(0, c);
    pending := map[];
    for i := 0 to |all|
      invariant fresh(clock) && fresh(clock.aggregator) && clock.Valid() && clock.committee == c
      invariant clock.State() == Ticks(c, ClockState(0, {}), Refs(all[..i]))
      invariant pending == PushAll(map[], all[..i])
    {
      assert all[..i + 1][..i] == all[..i];
      assert Refs(all[..i + 1])[..i] == Refs(all[..i]);
      assert all[i] in all;
      clock.AddBlock(all[i].reference);
      pending := Push(pending, all[i]);
    }
    assert all[..|all|] == all;
  }

  /** The references in some order: the source iterates over a hash set. */
  method Listed(refs: set<BlockRef>) returns (listed: seq<BlockRef>)
    ensures forall r :: r in listed <==> r in refs
    ensures |listed| == |refs|
  {
    listed := [];
    var rest := refs;
    while rest != {}
      invariant rest <= refs && forall r :: r in refs <==> r in rest || r in listed
      invariant |listed| + |rest| == |refs|
      decreases |rest|
    {
      var r :| r in rest;
      listed, rest := listed + [r], rest - {r};
    }
  }

  /** The block manager accepts what the node needs to stay sound. */
  lemma AcceptedNew(
      c: Committee, own: Authority, n: Node, blocks: seq<Block>, accepted: seq<Block>, before: set<BlockRef>)
    requires NodeInv(c, own, n) && Receivable(c, own, n.known, blocks) && before <= n.known.Keys
    requires RefsOf(accepted) == RefsOf(blocks) - before && forall b :: b in accepted ==> b in blocks
    ensures NodeInv(c, own, AfterAccepting(c, n, accepted)) && AcceptsNew(n, blocks, accepted)
    ensures Includes(n.known, Learn(n.known, accepted)) && AllKnown(Learn(n.known, accepted), blocks)
    ensures forall r :: r in Refs(accepted) ==> c.Exists(r.author)
    ensures before + RefsOf(blocks) <= Learn(n.known, accepted).Keys
  {
    hide NodeInv;
    ManagerAccepts(n, blocks, accepted, before);
    AcceptingKeepsInv(c, own, n, blocks, accepted);
    LearnExact(n.known, accepted);
    AuthorsExist(c, blocks, accepted);
  }

  ghost predicate AllKnown(d: Dag, blocks: seq<Block>) {
    forall b :: b in blocks ==> b.reference in d && d[b.reference] == b
  }

  lemma StillKnown(d: Dag, learned: Dag, e: Dag, blocks: seq<Block>)
    requires Includes(d, learned) && Includes(learned, e) && AllKnown(learned, blocks)
    ensures Includes(d, e) && AllKnown(e, blocks)
  {
  }

  lemma ManagerAccepts(n: Node, blocks: seq<Block>, accepted: seq<Block>, before: set<BlockRef>)
    requires OneBlockPerRef(n.known, blocks) && before <= n.known.Keys
    requires RefsOf(accepted) == RefsOf(blocks) - before && forall b :: b in accepted ==> b in blocks
    ensures AcceptsNew(n, blocks, accepted) && OneBlockPerRef(n.known, accepted)
  {
    forall b | b in blocks && b.reference !in n.known
      ensures b in accepted
    {
      assert b.reference in RefsOf(blocks) - before;
      var a :| a in accepted && a.reference == b.reference;
    }
  }

  /** The block manager has seen every known block past genesis. */
  lemma ManagerCovers(d: Dag, blocks: seq<Block>, accepted: seq<Block>, before: set<BlockRef>)
    requires forall r :: r in d && r.round > GENESIS_ROUND ==> r in before
    requires forall b :: b in accepted ==> b in blocks
    ensures forall r :: r in Learn(d, accepted) && r.round > GENESIS_ROUND ==> r in before + RefsOf(blocks)
    decreases accepted
  {
    if accepted != [] {
      var front, last := accepted[..|accepted| - 1], accepted[|accepted| - 1];
      assert last in accepted && last.reference in RefsOf(blocks);
      ManagerCovers(d, blocks, front, before);
    }
  }

  lemma AuthorsExist(c: Committee, blocks: seq<Block>, accepted: seq<Block>)
    requires forall b :: b in blocks ==> c.Exists(b.Author())
    requires forall b :: b in accepted ==> b in blocks
    ensures forall r :: r in Refs(accepted) ==> c.Exists(r.author)
  {
    forall r | r in Refs(accepted)
      ensures c.Exists(r.author)
    {
      var i :| 0 <= i < |accepted| && Refs(accepted)[i] == r;
      assert accepted[i] in blocks;
    }
  }

  lemma AcceptedDigests(d: Dag, blocks: seq<Block>, accepted: seq<Block>, digest: Digest)
    requires FreshDigest(d, blocks, digest) && forall b :: b in accepted ==> b in blocks
    ensures forall r :: r in Learn(d, accepted) ==> r.digest != digest
    decreases accepted
  {
    if accepted != [] {
      assert accepted[|accepted| - 1] in accepted;
      AcceptedDigests(d, blocks, accepted[..|accepted| - 1], digest);
    }
  }

  lemma GenesisOrder(c: Committee, own: Authority, genesis: seq<Block>, all: seq<Block>)
    requires c.Exists(own) && IsGenesis(c, genesis)
    requires all == genesis[..own] + genesis[own + 1..] + [genesis[own]]
    ensures forall b :: b in all <==> b in genesis
    ensures forall b :: b in all ==> c.Exists(b.Author())
  {
    assert genesis == genesis[..own] + [genesis[own]] + genesis[own + 1..];
  }

  /** A clock at the round of the blocks counts them until they are a quorum. */
  lemma {:induction false} SameRoundTicks(c: Committee, refs: seq<BlockRef>)
    requires forall r :: r in refs ==> r.round == 0
    ensures var authors := set r | r in refs :: r.author;
            Ticks(c, ClockState(0, {}), refs)
            == if c.IsQuorum(authors) then ClockState(1, {}) else ClockState(0, authors)
  {
    var authors := set r | r in refs :: r.author;
    if refs == [] {
      NobodyIsNoQuorum(c);
      assert authors == {};
    } else {
      var front, last := refs[..|refs| - 1], refs[|refs| - 1];
      assert refs == front + [last];
      SameRoundTicks(c, front);
      var before := set r | r in front :: r.author;
      assert authors == before + {last.author};
      QuorumMonotone(c, before, authors);
    }
  }

  /** A clock that has seen the genesis blocks is at round 1. */
  lemma GenesisClock(c: Committee, genesis: seq<Block>, all: seq<Block>)
    requires c.IsQuorum(c.Everyone()) && IsGenesis(c, genesis)
    requires forall b :: b in all <==> b in genesis
    ensures Ticks(c, ClockState(0, {}), Refs(all)) == ClockState(1, {})
  {
    var refs := Refs(all);
    forall r | r in refs
      ensures r.round == 0
    {
      var i :| 0 <= i < |all| && refs[i] == r;
      assert all[i] in all;
    }
    forall a | a in c.Everyone()
      ensures a in set r | r in refs :: r.author
    {
      assert genesis[a] in all;
      var i :| 0 <= i < |all| && all[i] == genesis[a];
      assert refs[i] in refs;
    }
    SameRoundTicks(c, refs);
    QuorumMonotone(c, c.Everyone(), set r | r in refs :: r.author);
  }

  /** `d` holds exactly the genesis blocks. */
  ghost predicate OnlyGenesis(d: Dag, genesis: seq<Block>) {
    && AllKnown(d, genesis)
    && forall r :: r in d ==> ReceivedRef(genesis, r)
  }

  lemma GenesisGraph(c: Committee, genesis: seq<Block>, d: Dag)
    requires c.IsQuorum(c.Everyone()) && IsGenesis(c, genesis) && OnlyGenesis(d, genesis)
    ensures SoundBlocks(c, d) && (forall r :: r in d ==> r.round == 0)
    ensures forall a :: NeverEquivocates(d, a)
    ensures c.IsQuorum(KnownAuthors(d, 0))
  {
    forall r | r in d
      ensures d[r].reference == r && c.Exists(r.author) && AncestorsPresent(d, r) && HasParentQuorum(c, d[r])
      ensures r.round == 0 && r == genesis[r.author].reference
    {
      var i :| 0 <= i < |genesis| && genesis[i].reference == r;
      assert genesis[i] in genesis;
    }
    forall a | a in c.Everyone()
      ensures a in KnownAuthors(d, 0)
    {
      assert genesis[a] in genesis;
      assert genesis[a].reference in d;
    }
    QuorumMonotone(c, c.Everyone(), KnownAuthors(d, 0));
  }

  lemma GenesisInv(c: Committee, own: Authority, genesis: seq<Block>, n: Node)
    requires c.IsQuorum(c.Everyone()) && c.Exists(own) && IsGenesis(c, genesis) && OnlyGenesis(n.known, genesis)
    requires n.last == genesis[own] && n.clock == ClockState(1, {})
    requires OnlyPending(n.pending, genesis)
    ensures NodeInv(c, own, n)
  {
    GenesisGraph(c, genesis, n.known);
    assert genesis[own] in genesis;
    assert NeverEquivocates(n.known, own);
    forall r | r in n.known
      ensures IsPending(n.pending, n.known[r]) && Accounted(c, n, r)
    {
      assert ReceivedRef(genesis, r);
    }
  }

  /** The genesis blocks alone satisfy the invariant, at round 1. */
  lemma GenesisNode(c: Committee, own: Authority, genesis: seq<Block>, all: seq<Block>)
    requires c.IsQuorum(c.Everyone()) && c.Exists(own) && IsGenesis(c, genesis)
    requires forall b :: b in all <==> b in genesis
    ensures var n := Node(Learn(map[], all), genesis[own], PushAll(map[], all), Ticks(c, ClockState(0, {}), Refs(all)));
            NodeInv(c, own, n) && n.clock.round == 1
    ensures forall r :: r in Learn(map[], all) <==> ReceivedRef(genesis, r)
  {
    hide NodeInv;
    GenesisClock(c, genesis, all);
    GenesisPending(c, genesis, all, Learn(map[], all), PushAll(map[], all));
    hide IsGenesis, Learn, PushAll, IsPending;
    GenesisInv(c, own, genesis, Node(Learn(map[], all), genesis[own], PushAll(map[], all), ClockState(1, {})));
  }

  lemma GenesisPending(c: Committee, genesis: seq<Block>, all: seq<Block>, d: Dag, pending: Pending)
    requires IsGenesis(c, genesis) && d == Learn(map[], all) && pending == PushAll(map[], all)
    requires forall b :: b in all <==> b in genesis
    ensures OnlyGenesis(d, genesis) && forall r :: r in d <==> ReceivedRef(genesis, r)
    ensures OnlyPending(pending, genesis)
  {
    GenesisLearned(c, genesis, all);
    PushAllExact(map[], all);
    hide OnlyGenesis, PushAll;
  }

  lemma GenesisLearned(c: Committee, genesis: seq<Block>, all: seq<Block>)
    requires IsGenesis(c, genesis) && forall b :: b in all <==> b in genesis
    ensures OnlyGenesis(Learn(map[], all), genesis) && forall r :: r in Learn(map[], all) <==> ReceivedRef(genesis, r)
  {
    assert OneBlockPerRef(map[], all);
    LearnExact(map[], all);
  }

  /** `pending` holds exactly the given blocks, each under its round. */
  ghost predicate OnlyPending(pending: Pending, blocks: seq<Block>) {
    && (forall b :: IsPending(pending, b) <==> b in blocks)
    && (forall round, b :: round in pending && b in pending[round] ==> b in blocks && b.Round() == round)
  }
}
