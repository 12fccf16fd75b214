/** Counting stake: every authority once, against one of the committee's thresholds. */
module StakeAggregators {
  import opened Blocks
  import opened Committees

  datatype Threshold = QuorumThreshold | ValidityThreshold {

    predicate Reached(c: Committee, amount: nat) {
      match this
      case QuorumThreshold => c.ReachedQuorum(amount)
      case ValidityThreshold => c.ReachedValidity(amount)
    }
  }

  class StakeAggregator {
    const threshold: Threshold
    var votes: set<Authority>
    var stake: nat

    /** The running total is the stake of the distinct voters. */
    ghost predicate Valid(c: Committee)
      reads this
    {
      stake == c.StakeOf(votes)
    }

    constructor (threshold: Threshold, ghost c: Committee)
      ensures Valid(c) && votes == {} && this.threshold == threshold
    {
      this.threshold := threshold;
      votes, stake := {}, 0;
      StakeOfNobody(c, c.Size());
    }

    method Add(vote: Authority, c: Committee) returns (reached: bool)
      requires Valid(c) && c.Exists(vote)
      modifies this
      ensures Valid(c) && votes == old(votes) + {vote}
      ensures reached <==> threshold.Reached(c, c.StakeOf(votes))
    {
      if vote !in votes {
        StakeOfAdded(c, votes, vote, c.Size());
        votes, stake := votes + {vote}, stake + c.stakes[vote];
      } else {
        assert votes == votes + {vote};
      }
      reached := threshold.Reached(c, stake);
    }

    method Clear(ghost c: Committee)
      modifies this
      ensures Valid(c) && votes == {}
    {
      votes, stake := {}, 0;
      StakeOfNobody(c, c.Size());
    }
  }
}
