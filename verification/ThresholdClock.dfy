/** The round a validator may propose for: it advances on a quorum of blocks of a round. */
module ThresholdClocks {
  import opened Outcomes
  import opened Blocks
  import opened Committees
  import opened StakeAggregators

  /** The round of the clock and the authors seen at that round. */
  datatype ClockState = ClockState(round: Round, votes: set<Authority>)

  function Tick(c: Committee, s: ClockState, block: BlockRef): ClockState {
    if block.round < s.round then s
    else if block.round > s.round then ClockState(block.round, {block.author})
    else
      var votes := s.votes + {block.author};
      if c.IsQuorum(votes) then ClockState(s.round + 1, {}) else ClockState(s.round, votes)
  }

  /** The clock after a sequence of blocks. */
  function Ticks(c: Committee, s: ClockState, blocks: seq<BlockRef>): ClockState {
    if blocks == [] then s
    else Tick(c, Ticks(c, s, blocks[..|blocks| - 1]), blocks[|blocks| - 1])
  }

  class ThresholdClock {
    const aggregator: StakeAggregator
    const committee: Committee
    var round: Round

    ghost predicate Valid()
      reads this, aggregator
    {
      aggregator.Valid(committee) && aggregator.threshold == QuorumThreshold
    }

    ghost function State(): ClockState
      reads this, aggregator
    {
      ClockState(round, aggregator.votes)
    }

    constructor (round: Round, committee: Committee)
      ensures Valid() && fresh(aggregator) && this.committee == committee
      ensures State() == ClockState(round, {})
    {
      this.committee := committee;
      this.round := round;
      aggregator := new StakeAggregator(QuorumThreshold, committee);
    }

    method AddBlock(block: BlockRef)
      requires Valid() && committee.Exists(block.author)
      modifies this, aggregator
      ensures Valid() && State() == Tick(committee, old(State()), block)
    {
      if block.round > round {
        aggregator.Clear(committee);
        var _ := aggregator.Add(block.author, committee);
        round := block.round;
      } else if block.round == round {
        var reached := aggregator.Add(block.author, committee);
        if reached {
          aggregator.Clear(committee);
          round := block.round + 1;
        }
      }
    }

    /** Returns the new round exactly when the clock advanced. */
    method AddBlocks(blocks: seq<BlockRef>) returns (advanced: Option<Round>)
      requires Valid() && forall b :: b in blocks ==> committee.Exists(b.author)
      modifies this, aggregator
      ensures Valid() && State() == Ticks(committee, old(State()), blocks)
      ensures advanced == if round > old(round) then Some(round) else None
    {
      var previous := round;
      for i := 0 to |blocks|
        invariant Valid() && State() == Ticks(committee, old(State()), blocks[..i])
      {
        assert blocks[..i + 1][..i] == blocks[..i];
        AddBlock(blocks[i]);
      }
      assert blocks[..|blocks|] == blocks;
      advanced := if round > previous then Some(round) else None;
    }
  }

  // ----- Order independence -----

  ghost function AuthorsAt(blocks: set<BlockRef>, round: Round): set<Authority> {
    set b | b in blocks && b.round == round :: b.author
  }

  /** The greatest of `start` and the rounds of the blocks. */
  ghost function TopRound(blocks: set<BlockRef>, start: Round): (top: Round)
    ensures top >= start && forall b :: b in blocks ==> b.round <= top
    ensures top == start || exists b :: b in blocks && b.round == top
  {
    if blocks == {} then start
    else
      GreatestExists(blocks);
      var m :| m in blocks && forall b :: b in blocks ==> b.AtMost(m);
      if m.round < start then start else m.round
  }

  /** The closed form: what the set of blocks seen says the round is, whatever their order. */
  ghost function RoundOf(c: Committee, blocks: set<BlockRef>, start: Round): Round {
    var top := TopRound(blocks, start);
    if c.IsQuorum(AuthorsAt(blocks, top)) then top + 1 else top
  }

  ghost predicate NoSingleQuorum(c: Committee) {
    forall a :: c.Exists(a) ==> !c.IsQuorum({a})
  }

  ghost function Seen(blocks: seq<BlockRef>): set<BlockRef> {
    set b | b in blocks
  }

  /** The clock's state is a function of the set of blocks seen. */
  ghost predicate Reflects(c: Committee, blocks: set<BlockRef>, start: Round, s: ClockState) {
    var top := TopRound(blocks, start);
    && s.round == RoundOf(c, blocks, start)
    && s.votes == if c.IsQuorum(AuthorsAt(blocks, top)) then {} else AuthorsAt(blocks, top)
  }

  lemma AuthorsAtAdded(blocks: set<BlockRef>, b: BlockRef, round: Round)
    ensures AuthorsAt(blocks + {b}, round) == AuthorsAt(blocks, round) + if b.round == round then {b.author} else {}
  {
  }

  lemma TickReflects(c: Committee, blocks: set<BlockRef>, start: Round, s: ClockState, b: BlockRef)
    requires NoSingleQuorum(c) && c.Exists(b.author)
    requires Reflects(c, blocks, start, s)
    ensures Reflects(c, blocks + {b}, start, Tick(c, s, b))
  {
    var top := TopRound(blocks, start);
    var top' := TopRound(blocks + {b}, start);
    assert b in blocks + {b};
    assert forall x :: x in blocks ==> x in blocks + {b};
    assert top' == if b.round > top then b.round else top;
    AuthorsAtAdded(blocks, b, top');
    if b.round > top {
      assert AuthorsAt(blocks + {b}, b.round) == {b.author};
      assert s.round == b.round ==> s.votes + {b.author} == {b.author};
    } else if c.IsQuorum(AuthorsAt(blocks, top)) {
      QuorumMonotone(c, AuthorsAt(blocks, top), AuthorsAt(blocks + {b}, top));
    } else {
      assert AuthorsAt(blocks + {b}, top) == if b.round == top then s.votes + {b.author} else s.votes;
    }
  }

  lemma {:induction false} TicksReflect(c: Committee, start: Round, blocks: seq<BlockRef>)
    requires NoSingleQuorum(c) && forall b :: b in blocks ==> c.Exists(b.author)
    ensures Reflects(c, Seen(blocks), start, Ticks(c, ClockState(start, {}), blocks))
  {
    if blocks == [] {
      assert AuthorsAt(Seen(blocks), start) == {};
      NobodyIsNoQuorum(c);
    } else {
      var front, last := blocks[..|blocks| - 1], blocks[|blocks| - 1];
      assert blocks == front + [last];
      TicksReflect(c, start, front);
      TickReflects(c, Seen(front), start, Ticks(c, ClockState(start, {}), front), last);
      assert Seen(blocks) == Seen(front) + {last};
    }
  }

  /** The round always follows the closed form exactly when no authority holds a quorum alone:
      the clock ignores a quorum that the first block of a round reaches. */
  lemma OrderIndependent(c: Committee, start: Round)
    ensures NoSingleQuorum(c)
            <==> forall blocks: seq<BlockRef> :: (forall b :: b in blocks ==> c.Exists(b.author)) ==>
                   Ticks(c, ClockState(start, {}), blocks).round == RoundOf(c, Seen(blocks), start)
  {
    if NoSingleQuorum(c) {
      forall blocks: seq<BlockRef> | forall b :: b in blocks ==> c.Exists(b.author)
        ensures Ticks(c, ClockState(start, {}), blocks).round == RoundOf(c, Seen(blocks), start)
      {
        TicksReflect(c, start, blocks);
      }
    } else {
      var a :| c.Exists(a) && c.IsQuorum({a});
      LoneQuorumMissed(c, start, a);
    }
  }

  lemma LoneQuorumMissed(c: Committee, start: Round, a: Authority)
    requires c.Exists(a) && c.IsQuorum({a})
    ensures var b := BlockRef(start + 1, a, 0);
            Ticks(c, ClockState(start, {}), [b]).round == start + 1 && RoundOf(c, Seen([b]), start) == start + 2
  {
    var b := BlockRef(start + 1, a, 0);
    assert [b][..0] == [];
    assert Ticks(c, ClockState(start, {}), [b]) == Tick(c, Ticks(c, ClockState(start, {}), []), b);
    assert b in Seen([b]) && forall x :: x in Seen([b]) ==> x == b;
    assert AuthorsAt(Seen([b]), start + 1) == {a};
  }
}
