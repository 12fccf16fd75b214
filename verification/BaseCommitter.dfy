/**
 The decision procedures as the validator runs them: loops over the accepted blocks that stop
 as soon as a quorum is reached, remember which blocks are votes, and reject early when the
 stake cannot suffice. Each one computes the rule of `CommitRule`.
 */
module BaseCommitters {
  import opened Outcomes
  import opened Blocks
  import opened Committees
  import opened Dags
  import opened DagStates
  import opened CommitRule
  import opened LeaderSlots
  import opened StakeAggregators

  type VoteCache = map<BlockRef, bool>

  /** Every remembered answer is right for this leader. */
  ghost predicate CacheCorrect(c: Committee, d: Dag, leader: BlockRef, cache: VoteCache)
    requires IsView(c, d)
  {
    forall r :: r in cache ==> r in d && (cache[r] <==> IsVote(c, d, r, leader))
  }

  /** The authors of the votes among `refs`. */
  ghost function VotersIn(c: Committee, d: Dag, refs: seq<BlockRef>, leader: BlockRef): set<Authority>
    requires IsView(c, d) && forall r :: r in refs ==> r in d
  {
    set r | r in refs && IsVote(c, d, r, leader) :: r.author
  }

  ghost function BlamersIn(blocks: seq<Block>, leader: Authority): set<Authority> {
    set b | b in blocks && IsBlame(b, leader) :: b.Author()
  }

  ghost function CertifiersIn(c: Committee, d: Dag, blocks: seq<Block>, leader: BlockRef): set<Authority>
    requires IsView(c, d) && forall b :: b in blocks ==> b.reference in d
  {
    set b | b in blocks && CommitRule.IsCertificate(c, d, b.reference, leader) :: b.Author()
  }

  /** Voters are counted one reference at a time... */
  lemma VotersStep(c: Committee, d: Dag, refs: seq<BlockRef>, i: nat, leader: BlockRef)
    requires IsView(c, d) && (forall r :: r in refs ==> r in d) && i < |refs|
    ensures forall r :: r in refs[..i] ==> r in d
    ensures forall r :: r in refs[..i + 1] ==> r in d
    ensures VotersIn(c, d, refs[..i + 1], leader)
            == VotersIn(c, d, refs[..i], leader) + if IsVote(c, d, refs[i], leader) then {refs[i].author} else {}
    ensures VotersIn(c, d, refs[..i + 1], leader) <= VotersIn(c, d, refs, leader)
  {
    assert refs[..i + 1] == refs[..i] + [refs[i]];
  }

  /** ... and certifiers one block at a time. */
  lemma CertifiersStep(c: Committee, d: Dag, blocks: seq<Block>, i: nat, leader: BlockRef)
    requires IsView(c, d) && (forall b :: b in blocks ==> b.reference in d) && i < |blocks|
    ensures CertifiersIn(c, d, blocks[..i + 1], leader)
            == CertifiersIn(c, d, blocks[..i], leader)
               + if CommitRule.IsCertificate(c, d, blocks[i].reference, leader) then {blocks[i].Author()} else {}
    ensures CertifiersIn(c, d, blocks[..i + 1], leader) <= CertifiersIn(c, d, blocks, leader)
  {
    assert blocks[..i + 1] == blocks[..i] + [blocks[i]];
  }

  /** The stake of the authors of `blocks`, counting repeated authors repeatedly. */
  function AuthorStakes(c: Committee, blocks: seq<Block>): nat
    requires forall b :: b in blocks ==> c.Exists(b.Author())
  {
    if blocks == [] then 0
    else
      assert c.Exists(blocks[0].Author());
      c.stakes[blocks[0].Author()] + AuthorStakes(c, blocks[1..])
  }

  lemma {:induction false} AuthorStakesBound(c: Committee, blocks: seq<Block>)
    requires forall b :: b in blocks ==> c.Exists(b.Author())
    ensures c.StakeOf(set b | b in blocks :: b.Author()) <= AuthorStakes(c, blocks)
  {
    var authors := set b | b in blocks :: b.Author();
    if blocks == [] {
      StakeOfNobody(c, c.Size());
      assert authors == {};
    } else {
      AuthorStakesBound(c, blocks[1..]);
      var rest := set b | b in blocks[1..] :: b.Author();
      var a := blocks[0].Author();
      assert blocks == [blocks[0]] + blocks[1..];
      assert authors == rest + {a};
      if a in rest {
        assert rest + {a} == rest;
      } else {
        StakeOfAdded(c, rest, a, c.Size());
      }
    }
  }

  /** Collecting the qualifying leaders in reference order gives the set's only member, or the
      panic. */
  lemma OnlyFromList(qualified: seq<BlockRef>, leaders: set<BlockRef>, otherwise: LeaderStatus)
    requires StrictlyAscending(qualified) && forall l :: l in qualified <==> l in leaders
    ensures TheOnly(leaders, otherwise)
            == if |qualified| > 1 then Panic
               else if |qualified| == 1 then Ok(Commit(qualified[0]))
               else Ok(otherwise)
  {
    AscendingLength(qualified, leaders);
    if |qualified| == 1 {
      assert qualified[0] in leaders;
      assert leaders == {qualified[0]};
    }
  }

  datatype BaseCommitter = BaseCommitter(committee: Committee, schedule: Schedule, options: CommitterOptions) {

    ghost predicate Ready(dag: DagState)
      reads dag
    {
      options.Valid() && dag.Valid() && IsView(committee, dag.recentBlocks)
    }

    /** `slot` is one this committer leads, and not yet behind the last commit. */
    ghost predicate Leads(dag: DagState, slot: Slot)
      reads dag
    {
      options.Valid() && options.ElectLeader(schedule, slot.round) == Some(slot) && dag.lastCommitRound <= slot.round
    }

    function DecisionRoundFor(slot: Slot): Round
      requires options.Valid()
    {
      options.LastRound(options.WaveNumber(slot.round))
    }

    method IsCertificate(dag: DagState, cert: Block, leader: BlockRef, cache: VoteCache)
      returns (certified: bool, allVotes: VoteCache)
      requires Ready(dag)
      requires cert.reference in dag.recentBlocks && dag.recentBlocks[cert.reference] == cert
      requires CacheCorrect(committee, dag.recentBlocks, leader, cache)
      ensures certified <==> CommitRule.IsCertificate(committee, dag.recentBlocks, cert.reference, leader)
      ensures CacheCorrect(committee, dag.recentBlocks, leader, allVotes)
    {
      ghost var c := committee;
      var d := dag.recentBlocks;
      assert AncestorsPresent(d, cert.reference);
      assert VotersIn(c, d, cert.ancestors, leader) == VoteAuthors(c, d, cert.reference, leader);
      var aggregator := new StakeAggregator(QuorumThreshold, c);
      NobodyIsNoQuorum(c);
      hide VoteAuthors, IsVote, IsView, AncestorsPresent;
      allVotes := cache;
      for i := 0 to |cert.ancestors|
        invariant fresh(aggregator) && aggregator.Valid(c)
        invariant CacheCorrect(c, d, leader, allVotes)
        invariant aggregator.votes == VotersIn(c, d, cert.ancestors[..i], leader)
        invariant !c.IsQuorum(aggregator.votes)
      {
        var r := cert.ancestors[i];
        VotersStep(c, d, cert.ancestors, i, leader);
        var isVote;
        isVote, allVotes := CheckVote(d, r, leader, allVotes);
        if isVote {
          var reached := aggregator.Add(r.author, committee);
          if reached {
            QuorumMonotone(c, aggregator.votes, VotersIn(c, d, cert.ancestors, leader));
            return true, allVotes;
          }
        }
      }
      assert cert.ancestors[..|cert.ancestors|] == cert.ancestors;
      certified := false;
    }

    /** Consults the cache before searching the history of `r`, and records the answer. */
    method CheckVote(d: Dag, r: BlockRef, leader: BlockRef, cache: VoteCache)
      returns (isVote: bool, allVotes: VoteCache)
      requires IsView(committee, d) && r in d && CacheCorrect(committee, d, leader, cache)
      ensures isVote <==> IsVote(committee, d, r, leader)
      ensures CacheCorrect(committee, d, leader, allVotes) && allVotes == cache[r := isVote]
    {
      if r in cache {
        isVote, allVotes := cache[r], cache;
        assert cache == cache[r := isVote];
      } else {
        isVote := IsVote(committee, d, r, leader);
        allVotes := cache[r := isVote];
      }
    }

    method EnoughLeaderBlame(dag: DagState, votingRound: Round, leader: Authority) returns (enough: bool)
      requires Ready(dag) && votingRound > dag.lastCommitRound
      ensures enough <==> committee.IsQuorum(BlameAuthors(dag.recentBlocks, votingRound, leader))
    {
      ghost var c, d := committee, dag.recentBlocks;
      var votingBlocks := dag.GetUncommittedBlocksAtRound(votingRound);
      var aggregator := new StakeAggregator(QuorumThreshold, c);
      NobodyIsNoQuorum(c);
      for i := 0 to |votingBlocks|
        invariant fresh(aggregator) && aggregator.Valid(c)
        invariant aggregator.votes == BlamersIn(votingBlocks[..i], leader)
        invariant !c.IsQuorum(aggregator.votes)
      {
        var b := votingBlocks[i];
        assert votingBlocks[..i + 1] == votingBlocks[..i] + [b];
        if IsBlame(b, leader) {
          var reached := aggregator.Add(b.Author(), committee);
          if reached {
            QuorumMonotone(c, aggregator.votes, BlameAuthors(d, votingRound, leader));
            return true;
          }
        }
      }
      assert votingBlocks[..|votingBlocks|] == votingBlocks;
      forall r | r in d && r.round == votingRound && IsBlame(d[r], leader)
        ensures r.author in BlamersIn(votingBlocks, leader)
      {
        assert r in RefsAtRound(d, votingRound);
        assert d[r] in votingBlocks;
      }
      QuorumMonotone(c, BlameAuthors(d, votingRound, leader), aggregator.votes);
      enough := false;
    }

    method EnoughLeaderSupport(dag: DagState, decisionRound: Round, leader: BlockRef) returns (enough: bool)
      requires Ready(dag) && decisionRound > dag.lastCommitRound
      ensures enough <==> committee.IsQuorum(SupportAuthors(committee, dag.recentBlocks, decisionRound, leader))
    {
      ghost var c, d := committee, dag.recentBlocks;
      var decisionBlocks := dag.GetUncommittedBlocksAtRound(decisionRound);
      SupportersListed(c, d, decisionRound, leader, decisionBlocks);
      var totalStake := AuthorStakes(committee, decisionBlocks);
      if !committee.ReachedQuorum(totalStake) {
        AuthorStakesBound(c, decisionBlocks);
        QuorumMonotone(c, SupportAuthors(c, d, decisionRound, leader), set b | b in decisionBlocks :: b.Author());
        return false;
      }
      enough := CountCertificates(dag, decisionBlocks, leader);
    }

    method CountCertificates(dag: DagState, decisionBlocks: seq<Block>, leader: BlockRef) returns (enough: bool)
      requires Ready(dag)
      requires forall b :: b in decisionBlocks ==> b.reference in dag.recentBlocks && dag.recentBlocks[b.reference] == b
      ensures enough <==> committee.IsQuorum(CertifiersIn(committee, dag.recentBlocks, decisionBlocks, leader))
    {
      ghost var c, d := committee, dag.recentBlocks;
      var aggregator := new StakeAggregator(QuorumThreshold, c);
      NobodyIsNoQuorum(c);
      var allVotes: VoteCache := map[];
      for i := 0 to |decisionBlocks|
        invariant fresh(aggregator) && aggregator.Valid(c)
        invariant CacheCorrect(c, d, leader, allVotes)
        invariant aggregator.votes == CertifiersIn(c, d, decisionBlocks[..i], leader)
        invariant !c.IsQuorum(aggregator.votes)
      {
        var b := decisionBlocks[i];
        CertifiersStep(c, d, decisionBlocks, i, leader);
        var certified;
        certified, allVotes := IsCertificate(dag, b, leader, allVotes);
        if certified {
          var reached := aggregator.Add(b.Author(), committee);
          if reached {
            QuorumMonotone(c, aggregator.votes, CertifiersIn(c, d, decisionBlocks, leader));
            return true;
          }
        }
      }
      assert decisionBlocks[..|decisionBlocks|] == decisionBlocks;
      enough := false;
    }

    method TryDirectDecide(dag: DagState, slot: Slot) returns (status: Outcome<LeaderStatus>)
      requires Ready(dag) && Leads(dag, slot)
      ensures status == DirectDecision(committee, dag.recentBlocks, options.waveLength, slot)
    {
      options.WaveArithmetic(schedule, slot.round);
      var blamed := EnoughLeaderBlame(dag, slot.round + 1, slot.authority);
      if blamed {
        return Ok(Skip(slot));
      }
      var leaderBlocks := dag.GetUncommittedBlocksAtSlot(slot);
      var supported := CollectSupported(dag, slot, leaderBlocks);
      ghost var wanted := SupportedLeaders(committee, dag.recentBlocks, options.waveLength, slot);
      FilterDone(dag.recentBlocks, slot, supported, leaderBlocks, wanted);
      OnlyFromList(supported, wanted, Undecided(slot));
      status := OnlyOne(supported, Undecided(slot));
    }

    /** The leader blocks with enough support, in order. */
    method CollectSupported(dag: DagState, slot: Slot, leaderBlocks: seq<Block>) returns (supported: seq<BlockRef>)
      requires Ready(dag) && Leads(dag, slot)
      requires Lists(dag.recentBlocks, RefsAtSlot(dag.recentBlocks, slot), leaderBlocks)
      ensures Filtered(supported, leaderBlocks, SupportedLeaders(committee, dag.recentBlocks, options.waveLength, slot))
    {
      options.WaveArithmetic(schedule, slot.round);
      supported := [];
      ghost var wanted := SupportedLeaders(committee, dag.recentBlocks, options.waveLength, slot);
      for i := 0 to |leaderBlocks|
        invariant Filtered(supported, leaderBlocks[..i], wanted)
      {
        var l := leaderBlocks[i].reference;
        assert l.ToSlot() == slot && DecisionRoundFor(slot) == DecisionRound(options.waveLength, slot);
        var enough := EnoughLeaderSupport(dag, DecisionRoundFor(slot), l);
        FilterStep(supported, leaderBlocks, i, wanted, enough);
        if enough {
          supported := supported + [l];
        }
      }
      assert leaderBlocks[..|leaderBlocks|] == leaderBlocks;
    }

    method DecideLeaderFromAnchor(dag: DagState, anchor: BlockRef, slot: Slot) returns (status: Outcome<LeaderStatus>)
      requires Ready(dag) && Leads(dag, slot)
      requires anchor in dag.recentBlocks && anchor.round >= slot.round + options.waveLength
      ensures status == AnchorDecision(committee, dag.recentBlocks, options.waveLength, anchor, slot)
    {
      options.WaveArithmetic(schedule, slot.round);
      var leaderBlocks := dag.GetUncommittedBlocksAtSlot(slot);
      var decisionRound := DecisionRoundFor(slot);
      var potential := dag.AncestorsAtUncommittedRound(committee, dag.recentBlocks[anchor], decisionRound);
      var certified: seq<BlockRef> := [];
      ghost var wanted := LinkedLeaders(committee, dag.recentBlocks, options.waveLength, anchor, slot);
      for i := 0 to |leaderBlocks|
        invariant Filtered(certified, leaderBlocks[..i], wanted)
      {
        var l := leaderBlocks[i].reference;
        assert leaderBlocks[..i + 1] == leaderBlocks[..i] + [leaderBlocks[i]];
        assert l.ToSlot() == slot && decisionRound == DecisionRound(options.waveLength, l.ToSlot());
        var linked := AnyCertificate(dag, anchor, potential, l);
        FilterStep(certified, leaderBlocks, i, wanted, linked);
        if linked {
          certified := certified + [l];
        }
      }
      assert leaderBlocks[..|leaderBlocks|] == leaderBlocks;
      FilterDone(dag.recentBlocks, slot, certified, leaderBlocks, wanted);
      OnlyFromList(certified, wanted, Skip(slot));
      status := OnlyOne(certified, Skip(slot));
    }

    /** Whether one of the anchor's ancestors at the decision round certifies the leader. */
    method AnyCertificate(dag: DagState, anchor: BlockRef, potential: seq<Block>, leader: BlockRef)
      returns (linked: bool)
      requires Ready(dag) && anchor in dag.recentBlocks
      requires Lists(dag.recentBlocks,
                     HistoryAtRound(
                       committee, dag.recentBlocks, anchor, DecisionRound(options.waveLength, leader.ToSlot())),
                     potential)
      ensures linked <==> HasCertifiedLink(committee, dag.recentBlocks, options.waveLength, anchor, leader)
    {
      ghost var c, d, w := committee, dag.recentBlocks, options.waveLength;
      var allVotes: VoteCache := map[];
      for i := 0 to |potential|
        invariant CacheCorrect(c, d, leader, allVotes)
        invariant forall k :: 0 <= k < i ==> !CommitRule.IsCertificate(c, d, potential[k].reference, leader)
      {
        var certified;
        certified, allVotes := IsCertificate(dag, potential[i], leader, allVotes);
        if certified {
          assert IsLinkedCertificate(c, d, w, anchor, leader, potential[i].reference);
          return true;
        }
      }
      forall cert | cert in HistoryAtRound(c, d, anchor, DecisionRound(w, leader.ToSlot()))
        ensures !CommitRule.IsCertificate(c, d, cert, leader)
      {
        assert d[cert] in potential;
      }
      linked := false;
    }

    method TryIndirectDecide(dag: DagState, slot: Slot, leaders: seq<LeaderStatus>)
      returns (status: Outcome<LeaderStatus>)
      requires Ready(dag) && Leads(dag, slot) && CommitsPresent(dag.recentBlocks, leaders)
      ensures status == IndirectDecision(committee, dag.recentBlocks, options.waveLength, slot, leaders)
    {
      hide IsView, AnchorDecision, DagState.Valid;
      var from := slot.round + options.waveLength;
      for i := 0 to |leaders|
        invariant FindAnchor(leaders, from) == FindAnchor(leaders[i..], from)
      {
        assert leaders[i..][0] == leaders[i] && leaders[i..][1..] == leaders[i + 1..];
        if from <= leaders[i].Round() {
          match leaders[i]
          case Commit(anchor) =>
            status := DecideLeaderFromAnchor(dag, anchor, slot);
            return;
          case Skip(_) =>
          case Undecided(_) =>
            return Ok(Undecided(slot));
        }
      }
      status := Ok(Undecided(slot));
    }
  }

  lemma SupportersListed(c: Committee, d: Dag, round: Round, leader: BlockRef, blocks: seq<Block>)
    requires IsView(c, d) && Lists(d, RefsAtRound(d, round), blocks)
    ensures forall b :: b in blocks ==> c.Exists(b.Author())
    ensures CertifiersIn(c, d, blocks, leader) == SupportAuthors(c, d, round, leader)
    ensures SupportAuthors(c, d, round, leader) <= set b | b in blocks :: b.Author()
  {
    forall r | r in d && r.round == round && CommitRule.IsCertificate(c, d, r, leader)
      ensures r.author in CertifiersIn(c, d, blocks, leader)
    {
      assert r in RefsAtRound(d, round);
      assert d[r] in blocks && d[r].reference == r;
    }
  }

  // ----- Filtering the leader blocks of a slot -----

  /** `kept` are the references of `blocks` that lie in `leaders`, in order. */
  ghost predicate Filtered(kept: seq<BlockRef>, blocks: seq<Block>, leaders: set<BlockRef>) {
    && StrictlyAscending(kept)
    && forall r :: r in kept <==> r in leaders && exists b :: b in blocks && b.reference == r
  }

  lemma FilterStep(kept: seq<BlockRef>, blocks: seq<Block>, i: nat, leaders: set<BlockRef>, keep: bool)
    requires i < |blocks| && Filtered(kept, blocks[..i], leaders)
    requires forall j, k :: 0 <= j < k < |blocks| ==> blocks[j].reference.Less(blocks[k].reference)
    requires keep <==> blocks[i].reference in leaders
    ensures Filtered(if keep then kept + [blocks[i].reference] else kept, blocks[..i + 1], leaders)
  {
    var l := blocks[i].reference;
    assert blocks[..i + 1] == blocks[..i] + [blocks[i]];
    forall k | 0 <= k < |kept|
      ensures kept[k].Less(l)
    {
      assert kept[k] in kept;
      var b :| b in blocks[..i] && b.reference == kept[k];
    }
  }

  lemma FilterDone(d: Dag, slot: Slot, kept: seq<BlockRef>, blocks: seq<Block>, leaders: set<BlockRef>)
    requires Lists(d, RefsAtSlot(d, slot), blocks) && Filtered(kept, blocks, leaders)
    requires forall l :: l in leaders ==> l in d && l.ToSlot() == slot && d[l].reference == l
    ensures StrictlyAscending(kept) && forall l :: l in kept <==> l in leaders
  {
    forall l | l in leaders
      ensures l in kept
    {
      assert l in RefsAtSlot(d, slot);
      assert d[l] in blocks;
    }
  }

  function OnlyOne(qualified: seq<BlockRef>, otherwise: LeaderStatus): Outcome<LeaderStatus> {
    if |qualified| > 1 then Panic
    else if |qualified| == 1 then Ok(Commit(qualified[0]))
    else Ok(otherwise)
  }
}
