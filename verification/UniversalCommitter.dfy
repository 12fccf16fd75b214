/**
 One attempt to commit, as the validator runs it: a scan from the highest round down to the
 last decided slot, whose later results decide the earlier slots.
 */
module UniversalCommitters {
  import opened Outcomes
  import opened Blocks
  import opened Committees
  import opened Dags
  import opened DagStates
  import opened CommitRule
  import opened LeaderSlots
  import opened BaseCommitters
  import opened Agreement

  /** Deciding stops at the first panic, whatever precedes the slot. */
  lemma {:induction false} PanicSpreads(c: Committee, d: Dag, wave: nat, front: seq<Slot>, slots: seq<Slot>)
    requires IsView(c, d) && wave >= MINIMUM_WAVE_LENGTH && Decisions(c, d, wave, slots).Panic?
    ensures Decisions(c, d, wave, front + slots).Panic?
  {
    if front == [] {
      assert front + slots == slots;
    } else {
      assert (front + slots)[1..] == front[1..] + slots;
      PanicSpreads(c, d, wave, front[1..], slots);
    }
  }

  lemma {:induction false} LeadersSplit(u: UniversalCommitter, round: Round, i: nat) returns (front: seq<Slot>)
    requires u.Valid() && i <= |u.committers|
    ensures u.Leaders(round) == front + u.LeadersFrom(round, i)
    decreases i
  {
    if i == 0 {
      front := [];
    } else {
      front := LeadersSplit(u, round, i - 1);
      var e := u.committers[i - 1].ElectLeader(u.schedule, round);
      if e.Some? {
        front := front + [e.value];
      }
    }
  }

  /** The slots a downward scan has visited when it is at committer `i` of `round`. */
  ghost function Visited(u: UniversalCommitter, round: Round, i: nat, hi: Round): seq<Slot>
    requires u.Valid() && i <= |u.committers|
    decreases |u.committers| - i
  {
    if i == |u.committers| then u.SlotsBetween(round + 1, hi)
    else
      match u.committers[i].ElectLeader(u.schedule, round)
      case Some(slot) => [slot] + Visited(u, round, i + 1, hi)
      case None => Visited(u, round, i + 1, hi)
  }

  lemma {:induction false} VisitedLeaders(u: UniversalCommitter, round: Round, i: nat, hi: Round)
    requires u.Valid() && i <= |u.committers| && round <= hi
    ensures Visited(u, round, i, hi) == u.LeadersFrom(round, i) + u.SlotsBetween(round + 1, hi)
    ensures i == 0 ==> Visited(u, round, i, hi) == u.SlotsBetween(round, hi)
    decreases |u.committers| - i
  {
    if i < |u.committers| {
      VisitedLeaders(u, round, i + 1, hi);
    }
  }

  /** The scan so far: `leaders` are the statuses of the visited slots, `lastDecided` not among them. */
  ghost predicate Scanned(
      c: Committee, d: Dag, u: UniversalCommitter, lastDecided: Slot, visited: seq<Slot>, leaders: seq<LeaderStatus>)
    requires IsView(c, d) && u.Valid()
  {
    && lastDecided !in visited
    && Decisions(c, d, u.wave, visited) == Ok(leaders)
    && CommitsPresent(d, leaders)
  }

  lemma ScannedNothing(c: Committee, d: Dag, u: UniversalCommitter, lastDecided: Slot, hi: Round)
    requires IsView(c, d) && u.Valid()
    ensures Scanned(c, d, u, lastDecided, u.SlotsBetween(hi + 1, hi), [])
  {
  }

  lemma Regroup(a: seq<Slot>, b: seq<Slot>, c: seq<Slot>)
    ensures a + b + c == a + (b + c)
  {
  }

  /** What the scan has visited is the tail of all slots. */
  lemma VisitedIsTail(u: UniversalCommitter, lo: Round, round: Round, hi: Round, i: nat) returns (front: seq<Slot>)
    requires u.Valid() && lo <= round <= hi && i <= |u.committers|
    ensures u.SlotsBetween(lo, hi) == front + Visited(u, round, i, hi)
  {
    VisitedLeaders(u, round, i, hi);
    front := LeadersSplit(u, round, i);
    Regroup(front, u.LeadersFrom(round, i), u.SlotsBetween(round + 1, hi));
    if lo < round {
      SlotsBetweenSplit(u, lo, round - 1, hi);
      Regroup(u.SlotsBetween(lo, round - 1), front, Visited(u, round, i, hi));
      front := u.SlotsBetween(lo, round - 1) + front;
    }
  }

  /** Reaching the last decided slot leaves exactly the visited ones pending. */
  lemma ScanStops(u: UniversalCommitter, lastDecided: Slot, round: Round, hi: Round, i: nat, visited: seq<Slot>)
    requires u.Valid() && lastDecided.round <= round <= hi && i <= |u.committers|
    requires Visited(u, round, i, hi) == [lastDecided] + visited && lastDecided !in visited
    ensures After(u.SlotsBetween(lastDecided.round, hi), lastDecided) == visited
  {
    var front := VisitedIsTail(u, lastDecided.round, round, hi, i);
    assert front + ([lastDecided] + visited) == front + [lastDecided] + visited;
    AfterSplit(front, lastDecided, visited);
  }

  /** A panic anywhere in the scan is the outcome of the whole attempt. */
  lemma ScanPanics(
      c: Committee, d: Dag, u: UniversalCommitter, lastDecided: Slot, round: Round, hi: Round, i: nat,
      visited: seq<Slot>)
    requires IsView(c, d) && u.Valid() && lastDecided.round <= round <= hi && i <= |u.committers|
    requires Visited(u, round, i, hi) == visited && lastDecided !in visited
    requires Decisions(c, d, u.wave, visited).Panic?
    requires hi == LastPending(HighestRound(d))
    ensures CommitSequence(c, d, u, lastDecided).Panic?
  {
    var front := VisitedIsTail(u, lastDecided.round, round, hi, i);
    AfterAppend(front, visited, lastDecided);
    PanicSpreads(c, d, u.wave, After(front, lastDecided), visited);
  }

  lemma ScanCompletes(
      c: Committee, d: Dag, u: UniversalCommitter, lastDecided: Slot, round: Round, hi: Round,
      leaders: seq<LeaderStatus>)
    requires IsView(c, d) && u.Valid() && hi == LastPending(HighestRound(d))
    requires round == lastDecided.round || (round == hi + 1 && round <= lastDecided.round)
    requires Scanned(c, d, u, lastDecided, u.SlotsBetween(round, hi), leaders)
    ensures CommitSequence(c, d, u, lastDecided) == Ok(DecidedPrefix(PastGenesis(leaders)))
  {
    OutputIs(c, d, u, lastDecided, leaders);
  }

  /** Decides one more slot: directly if possible, otherwise from the slots after it. */
  method DecideSlot(
      u: UniversalCommitter, c: Committee, dag: DagState, ghost lastDecided: Slot, i: nat, slot: Slot,
      ghost visited: seq<Slot>, leaders: seq<LeaderStatus>)
      returns (status: Outcome<LeaderStatus>)
    requires u.Valid() && dag.Valid() && IsView(c, dag.recentBlocks)
    requires i < |u.committers| && u.committers[i].ElectLeader(u.schedule, slot.round) == Some(slot)
    requires dag.lastCommitRound <= slot.round && slot != lastDecided
    requires Scanned(c, dag.recentBlocks, u, lastDecided, visited, leaders)
    ensures lastDecided !in [slot] + visited
    ensures status.Panic? ==> Decisions(c, dag.recentBlocks, u.wave, [slot] + visited).Panic?
    ensures status.Ok? ==> Scanned(c, dag.recentBlocks, u, lastDecided, [slot] + visited, [status.value] + leaders)
  {
    var committer := BaseCommitter(c, u.schedule, u.committers[i]);
    status := committer.TryDirectDecide(dag, slot);
    if status.Ok? && !status.value.IsDecided() {
      status := committer.TryIndirectDecide(dag, slot, leaders);
    }
    assert status == SlotDecision(c, dag.recentBlocks, u.wave, slot, leaders);
    assert ([slot] + visited)[1..] == visited;
    assert status.Ok? ==> Decisions(c, dag.recentBlocks, u.wave, [slot] + visited) == Ok([status.value] + leaders);
  }

  /** How the scan of one round ends: with the round done, at the last decided slot, or in a panic. */
  datatype RoundScan = RoundDone(leaders: seq<LeaderStatus>) | ReachedLastDecided(leaders: seq<LeaderStatus>) | Panicked

  /** Decides the leaders of one round from the last committer to the first. */
  method ScanRound(
      u: UniversalCommitter, c: Committee, dag: DagState, lastDecided: Slot, round: Round, ghost hi: Round,
      later: seq<LeaderStatus>)
      returns (scan: RoundScan)
    requires u.Valid() && dag.Valid() && IsView(c, dag.recentBlocks)
    requires dag.lastCommitRound <= lastDecided.round <= round <= hi
    requires hi == LastPending(HighestRound(dag.recentBlocks))
    requires Scanned(c, dag.recentBlocks, u, lastDecided, u.SlotsBetween(round + 1, hi), later)
    ensures scan.RoundDone? ==> Scanned(c, dag.recentBlocks, u, lastDecided, u.SlotsBetween(round, hi), scan.leaders)
    ensures scan.ReachedLastDecided? ==>
              CommitSequence(c, dag.recentBlocks, u, lastDecided) == Ok(DecidedPrefix(PastGenesis(scan.leaders)))
    ensures scan.Panicked? ==> CommitSequence(c, dag.recentBlocks, u, lastDecided).Panic?
  {
    hide PastGenesis, DecidedPrefix, CommitSequence, Decisions;
    ghost var d, visited := dag.recentBlocks, u.SlotsBetween(round + 1, hi);
    var leaders := later;
    var i := |u.committers|;
    while i > 0
      invariant 0 <= i <= |u.committers| && visited == Visited(u, round, i, hi)
      invariant Scanned(c, d, u, lastDecided, visited, leaders)
    {
      i := i - 1;
      var elected := u.committers[i].ElectLeader(u.schedule, round);
      if elected.Some? {
        var leader := elected.value;
        if leader == lastDecided {
          ScanStops(u, lastDecided, round, hi, i, visited);
          OutputIs(c, d, u, lastDecided, leaders);
          return ReachedLastDecided(leaders);
        }
        var status := DecideSlot(u, c, dag, lastDecided, i, leader, visited, leaders);
        visited := [leader] + visited;
        if status.Panic? {
          ScanPanics(c, d, u, lastDecided, round, hi, i, visited);
          return Panicked;
        }
        leaders := [status.value] + leaders;
      }
    }
    VisitedLeaders(u, round, 0, hi);
    scan := RoundDone(leaders);
  }

  method TryCommit(u: UniversalCommitter, c: Committee, dag: DagState, lastDecided: Slot)
    returns (sequence: Outcome<seq<LeaderStatus>>)
    requires u.Valid() && dag.Valid() && IsView(c, dag.recentBlocks)
    requires dag.lastCommitRound <= lastDecided.round
    ensures sequence == CommitSequence(c, dag.recentBlocks, u, lastDecided)
  {
    ghost var d := dag.recentBlocks;
    var hi := LastPending(dag.highestAcceptedRound);
    ScannedNothing(c, d, u, lastDecided, hi);
    hide PastGenesis, DecidedPrefix, CommitSequence, IsView, Scanned, Decisions;
    var leaders: seq<LeaderStatus> := [];
    var round := hi + 1;
    while round > lastDecided.round
      invariant round <= hi + 1 && (round == hi + 1 || round >= lastDecided.round)
      invariant Scanned(c, d, u, lastDecided, u.SlotsBetween(round, hi), leaders)
    {
      round := round - 1;
      var scan := ScanRound(u, c, dag, lastDecided, round, hi, leaders);
      match scan {
        case RoundDone(more) => leaders := more;
        case ReachedLastDecided(more) => return Ok(DecidedPrefix(PastGenesis(more)));
        case Panicked => return Panic;
      }
    }
    ScanCompletes(c, d, u, lastDecided, round, hi, leaders);
    sequence := Ok(DecidedPrefix(PastGenesis(leaders)));
  }
}
