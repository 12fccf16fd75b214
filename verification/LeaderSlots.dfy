/**
 Which slots have a leader: the wave arithmetic of a committer, the committers a universal
 committer is built from, and the order in which their leader slots are decided.
 */
module LeaderSlots {
  import opened Outcomes
  import opened Blocks
  import opened CommitRule

  /** The leader of a round for a leader offset. */
  type Schedule = (Round, nat) -> Authority

  datatype CommitterOptions = CommitterOptions(waveLength: nat, leaderOffset: nat, roundOffset: nat) {

    predicate Valid() {
      waveLength >= MINIMUM_WAVE_LENGTH
    }

    /** Rounds before the offset belong to wave 0. */
    function WaveNumber(round: Round): nat
      requires Valid()
    {
      (if round < roundOffset then 0 else round - roundOffset) / waveLength
    }

    function LeaderRound(wave: nat): Round {
      wave * waveLength + roundOffset
    }

    function LastRound(wave: nat): Round
      requires Valid()
    {
      wave * waveLength + waveLength - 1 + roundOffset
    }

    function ElectLeader(schedule: Schedule, round: Round): Option<Slot>
      requires Valid()
    {
      if LeaderRound(WaveNumber(round)) != round then None
      else Some(Slot(round, schedule(round, leaderOffset)))
    }

    /** A committer leads every `waveLength`-th round from its offset on, and the wave of a
        leader round ends `waveLength - 1` rounds later. */
    lemma WaveArithmetic(schedule: Schedule, round: Round)
      requires Valid()
      ensures ElectLeader(schedule, round).Some? <==> round >= roundOffset && (round - roundOffset) % waveLength == 0
      ensures ElectLeader(schedule, round).Some? ==>
                LastRound(WaveNumber(round)) == DecisionRound(waveLength, Slot(round, 0))
    {
    }
  }

  /** Committers sharing a schedule and a wave length. */
  datatype UniversalCommitter = UniversalCommitter(schedule: Schedule, wave: nat, committers: seq<CommitterOptions>) {

    ghost predicate Valid() {
      && wave >= MINIMUM_WAVE_LENGTH
      && forall o :: o in committers ==> o.waveLength == wave
    }

    /** The leader slots of a round, of the committers from position `i` on. */
    function LeadersFrom(round: Round, i: nat): seq<Slot>
      requires Valid() && i <= |committers|
      decreases |committers| - i
    {
      if i == |committers| then []
      else
        var rest := LeadersFrom(round, i + 1);
        match committers[i].ElectLeader(schedule, round)
        case Some(slot) => [slot] + rest
        case None => rest
    }

    function Leaders(round: Round): seq<Slot>
      requires Valid()
    {
      LeadersFrom(round, 0)
    }

    /** All leader slots of the rounds `lo` to `hi`, by round and then by committer. */
    function SlotsBetween(lo: Round, hi: Round): seq<Slot>
      requires Valid()
      decreases hi + 1 - lo
    {
      if lo > hi then [] else Leaders(lo) + SlotsBetween(lo + 1, hi)
    }

    /** The slots that one call decides: those after `lastDecided`, up to two rounds below
        the highest round seen. */
    function PendingSlots(lastDecided: Slot, highest: Round): seq<Slot>
      requires Valid()
    {
      After(SlotsBetween(lastDecided.round, LastPending(highest)), lastDecided)
    }

    /** No slot has two committers. */
    ghost predicate DistinctLeaders()
      requires Valid()
    {
      forall round :: NoRepeats(Leaders(round))
    }
  }

  /** The last round worth deciding: a direct decision needs blocks two rounds later. */
  function LastPending(highest: Round): Round {
    if highest < 2 then 0 else highest - 2
  }

  ghost predicate ByRound(slots: seq<Slot>) {
    forall i, j :: 0 <= i < j < |slots| ==> slots[i].round <= slots[j].round
  }

  ghost predicate NoRepeats(slots: seq<Slot>) {
    forall i, j :: 0 <= i < j < |slots| ==> slots[i] != slots[j]
  }

  /** What follows the last occurrence of `slot`, or everything if it does not occur. */
  function After(slots: seq<Slot>, slot: Slot): seq<Slot> {
    if slot !in slots then slots
    else if slot in slots[1..] then After(slots[1..], slot)
    else slots[1..]
  }

  lemma {:induction false} AfterSplit(pre: seq<Slot>, slot: Slot, post: seq<Slot>)
    requires slot !in post
    ensures After(pre + [slot] + post, slot) == post
  {
    var all := pre + [slot] + post;
    assert slot in all by { assert all[|pre|] == slot; }
    if pre == [] {
      assert all[1..] == post;
    } else {
      assert all[1..] == pre[1..] + [slot] + post;
      assert slot in all[1..] by { assert all[1..][|pre| - 1] == slot; }
      AfterSplit(pre[1..], slot, post);
    }
  }

  lemma {:induction false} AfterAppend(slots: seq<Slot>, more: seq<Slot>, slot: Slot)
    requires slot !in more
    ensures After(slots + more, slot) == After(slots, slot) + more
  {
    if slot in slots {
      assert (slots + more)[1..] == slots[1..] + more;
      if slot in slots[1..] {
        AfterAppend(slots[1..], more, slot);
      }
    }
  }

  /** Every slot of a round's leaders lies in that round and is elected by some committer. */
  lemma {:induction false} LeadersFromElected(u: UniversalCommitter, round: Round, i: nat, slot: Slot)
    requires u.Valid() && i <= |u.committers|
    ensures slot in u.LeadersFrom(round, i)
            <==> exists k :: i <= k < |u.committers| && u.committers[k].ElectLeader(u.schedule, round) == Some(slot)
    decreases |u.committers| - i
  {
    if i < |u.committers| {
      LeadersFromElected(u, round, i + 1, slot);
    }
  }

  /** The slots between two rounds are exactly the elected ones. */
  lemma {:induction false} SlotsBetweenElected(u: UniversalCommitter, lo: Round, hi: Round, slot: Slot)
    requires u.Valid()
    ensures slot in u.SlotsBetween(lo, hi) <==> lo <= slot.round <= hi && slot in u.Leaders(slot.round)
    decreases hi + 1 - lo
  {
    if lo <= hi {
      SlotsBetweenElected(u, lo + 1, hi, slot);
      LeadersFromElected(u, lo, 0, slot);
    }
  }

  /** ... listed by round. */
  lemma {:induction false} SlotsBetweenAscending(u: UniversalCommitter, lo: Round, hi: Round)
    requires u.Valid()
    ensures ByRound(u.SlotsBetween(lo, hi))
    decreases hi + 1 - lo
  {
    if lo <= hi {
      SlotsBetweenAscending(u, lo + 1, hi);
      forall slot | slot in u.Leaders(lo)
        ensures slot.round == lo
      {
        LeadersFromElected(u, lo, 0, slot);
      }
      forall slot | slot in u.SlotsBetween(lo + 1, hi)
        ensures slot.round > lo
      {
        SlotsBetweenElected(u, lo + 1, hi, slot);
      }
      var slots, n := u.SlotsBetween(lo, hi), |u.Leaders(lo)|;
      forall i, j | 0 <= i < j < |slots|
        ensures slots[i].round <= slots[j].round
      {
        assert if i < n then slots[i] in u.Leaders(lo) else slots[i] == u.SlotsBetween(lo + 1, hi)[i - n];
        assert if j < n then slots[j] in u.Leaders(lo) else slots[j] == u.SlotsBetween(lo + 1, hi)[j - n];
      }
    }
  }

  lemma {:induction false} SlotsBetweenSplit(u: UniversalCommitter, lo: Round, mid: Round, hi: Round)
    requires u.Valid() && lo <= mid + 1 && mid <= hi
    ensures u.SlotsBetween(lo, hi) == u.SlotsBetween(lo, mid) + u.SlotsBetween(mid + 1, hi)
    decreases mid + 1 - lo
  {
    if lo <= mid {
      SlotsBetweenSplit(u, lo + 1, mid, hi);
    }
  }

  lemma NoRepeatsConcat(a: seq<Slot>, b: seq<Slot>)
    requires NoRepeats(a) && NoRepeats(b) && forall slot :: slot in a ==> slot !in b
    ensures NoRepeats(a + b)
  {
    forall i, j | 0 <= i < j < |a + b|
      ensures (a + b)[i] != (a + b)[j]
    {
      assert i < |a| ==> a[i] in a;
      assert j >= |a| ==> b[j - |a|] in b;
    }
  }

  /** When no round repeats a leader, no slot is listed twice. */
  lemma {:induction false} SlotsBetweenDistinct(u: UniversalCommitter, lo: Round, hi: Round)
    requires u.Valid() && u.DistinctLeaders()
    ensures NoRepeats(u.SlotsBetween(lo, hi))
    decreases hi + 1 - lo
  {
    if lo <= hi {
      SlotsBetweenDistinct(u, lo + 1, hi);
      forall slot | slot in u.Leaders(lo)
        ensures slot !in u.SlotsBetween(lo + 1, hi)
      {
        LeadersFromElected(u, lo, 0, slot);
        SlotsBetweenElected(u, lo + 1, hi, slot);
      }
      NoRepeatsConcat(u.Leaders(lo), u.SlotsBetween(lo + 1, hi));
    }
  }

  /** Seeing higher rounds only appends slots. */
  lemma PendingSlotsGrow(u: UniversalCommitter, lastDecided: Slot, highest: Round, higher: Round)
    requires u.Valid() && highest <= higher
    ensures u.PendingSlots(lastDecided, highest) <= u.PendingSlots(lastDecided, higher)
  {
    var lo := lastDecided.round;
    var hi, hi' := LastPending(highest), LastPending(higher);
    if lo <= hi {
      SlotsBetweenSplit(u, lo, hi, hi');
      SlotsBetweenElected(u, hi + 1, hi', lastDecided);
      AfterAppend(u.SlotsBetween(lo, hi), u.SlotsBetween(hi + 1, hi'), lastDecided);
    }
  }

  /** The pending slots are the rest of the last decided round, then all elected slots of the
      rounds above it. */
  lemma PendingExact(u: UniversalCommitter, lastDecided: Slot, highest: Round)
    requires u.Valid() && lastDecided.round <= LastPending(highest)
    ensures u.PendingSlots(lastDecided, highest)
            == After(u.Leaders(lastDecided.round), lastDecided)
               + u.SlotsBetween(lastDecided.round + 1, LastPending(highest))
  {
    SlotsBetweenElected(u, lastDecided.round + 1, LastPending(highest), lastDecided);
    AfterAppend(u.Leaders(lastDecided.round), u.SlotsBetween(lastDecided.round + 1, LastPending(highest)), lastDecided);
  }

  // ----- Building the committers -----

  /** The committers of one pipeline stage: one per leader offset. */
  function Stage(wave: nat, leaders: nat, roundOffset: nat): seq<CommitterOptions> {
    seq(leaders, (k: nat) => CommitterOptions(wave, k, roundOffset))
  }

  function Stages(wave: nat, leaders: nat, stages: nat): seq<CommitterOptions> {
    if stages == 0 then [] else Stages(wave, leaders, stages - 1) + Stage(wave, leaders, stages - 1)
  }

  function PipelineStages(wave: nat, pipeline: bool): nat {
    if pipeline then wave else 1
  }

  method Build(schedule: Schedule, wave: nat, leaders: nat, pipeline: bool) returns (u: UniversalCommitter)
    requires wave >= MINIMUM_WAVE_LENGTH
    ensures u.Valid() && u.schedule == schedule && u.wave == wave
    ensures u.committers == Stages(wave, leaders, PipelineStages(wave, pipeline))
  {
    var committers := [];
    for roundOffset := 0 to PipelineStages(wave, pipeline)
      invariant committers == Stages(wave, leaders, roundOffset)
    {
      ghost var before := committers;
      for leaderOffset := 0 to leaders
        invariant committers == before + Stage(wave, leaders, roundOffset)[..leaderOffset]
      {
        committers := committers + [CommitterOptions(wave, leaderOffset, roundOffset)];
      }
    }
    StagesValid(wave, leaders, PipelineStages(wave, pipeline));
    u := UniversalCommitter(schedule, wave, committers);
  }

  lemma {:induction false} StagesValid(wave: nat, leaders: nat, stages: nat)
    ensures forall o :: o in Stages(wave, leaders, stages) ==> o.waveLength == wave
  {
    if stages > 0 {
      StagesValid(wave, leaders, stages - 1);
    }
  }

  /** The slots of a round that leads at every offset. */
  function RoundLeaders(schedule: Schedule, round: Round, leaders: nat): seq<Slot> {
    seq(leaders, (k: nat) => Slot(round, schedule(round, k)))
  }

  /** A built committer elects the schedule's leaders in offset order: in every round when
      pipelined, otherwise in the first round of each wave. */
  lemma BuiltLeaders(schedule: Schedule, wave: nat, leaders: nat, pipeline: bool, round: Round)
    requires wave >= MINIMUM_WAVE_LENGTH
    ensures var u := UniversalCommitter(schedule, wave, Stages(wave, leaders, PipelineStages(wave, pipeline)));
            && u.Valid()
            && u.Leaders(round)
               == if pipeline || round % wave == 0 then RoundLeaders(schedule, round, leaders) else []
  {
    var stages := PipelineStages(wave, pipeline);
    StagesValid(wave, leaders, stages);
    var u := UniversalCommitter(schedule, wave, Stages(wave, leaders, stages));
    StagesLeaders(u, leaders, stages, round);
  }

  /** Whether the stage of `round` is among the first `stages`. */
  predicate Leads(wave: nat, stages: nat, round: Round)
    requires wave > 0
  {
    round % wave < stages
  }

  lemma {:induction false} StagesLeaders(u: UniversalCommitter, leaders: nat, stages: nat, round: Round)
    requires u.wave >= MINIMUM_WAVE_LENGTH && stages <= u.wave
    requires u.committers == Stages(u.wave, leaders, stages)
    ensures u.Valid()
    ensures u.Leaders(round) == if Leads(u.wave, stages, round) then RoundLeaders(u.schedule, round, leaders) else []
    decreases stages
  {
    StagesValid(u.wave, leaders, stages);
    if stages > 0 {
      var front := Stages(u.wave, leaders, stages - 1);
      var v := u.(committers := front);
      StagesLeaders(v, leaders, stages - 1, round);
      ConcatLeaders(u, v, Stage(u.wave, leaders, stages - 1), round, 0);
      var w := u.(committers := Stage(u.wave, leaders, stages - 1));
      StageLeaders(w, leaders, stages - 1, round, 0);
      assert RoundLeaders(u.schedule, round, leaders)[0..] == RoundLeaders(u.schedule, round, leaders);
    }
  }

  lemma {:induction false} ConcatLeaders(
      u: UniversalCommitter, v: UniversalCommitter, last: seq<CommitterOptions>, round: Round, i: nat)
    requires u.Valid() && v == u.(committers := v.committers) && u.committers == v.committers + last
    requires i <= |v.committers|
    ensures v.Valid() && u.(committers := last).Valid()
    ensures u.LeadersFrom(round, i) == v.LeadersFrom(round, i) + u.(committers := last).Leaders(round)
    decreases |v.committers| - i
  {
    forall o | o in v.committers || o in last
      ensures o.waveLength == u.wave
    {
      assert o in u.committers;
    }
    if i < |v.committers| {
      ConcatLeaders(u, v, last, round, i + 1);
    } else {
      SuffixLeaders(u, u.(committers := last), round, i, 0);
    }
  }

  lemma {:induction false} SuffixLeaders(u: UniversalCommitter, v: UniversalCommitter, round: Round, n: nat, i: nat)
    requires u.Valid() && v.Valid() && v == u.(committers := v.committers)
    requires n <= |u.committers| && u.committers[n..] == v.committers && i <= |v.committers|
    ensures u.LeadersFrom(round, n + i) == v.LeadersFrom(round, i)
    decreases |v.committers| - i
  {
    if i < |v.committers| {
      assert u.committers[n + i] == u.committers[n..][i];
      SuffixLeaders(u, v, round, n, i + 1);
    }
  }

  lemma {:induction false} StageLeaders(u: UniversalCommitter, leaders: nat, roundOffset: nat, round: Round, i: nat)
    requires u.Valid() && u.committers == Stage(u.wave, leaders, roundOffset) && i <= leaders
    requires roundOffset < u.wave
    ensures u.LeadersFrom(round, i)
            == if round % u.wave == roundOffset then RoundLeaders(u.schedule, round, leaders)[i..] else []
    decreases leaders - i
  {
    if i < leaders {
      u.committers[i].WaveArithmetic(u.schedule, round);
      OffsetRound(round, roundOffset, u.wave);
      StageLeaders(u, leaders, roundOffset, round, i + 1);
    }
  }

  lemma OffsetRound(round: nat, offset: nat, wave: nat)
    requires offset < wave
    ensures round >= offset && (round - offset) % wave == 0 <==> round % wave == offset
  {
    if round >= offset && (round - offset) % wave == 0 {
      EuclidUnique(round, wave, (round - offset) / wave, offset);
    }
    if round % wave == offset {
      EuclidUnique(round - offset, wave, round / wave, 0);
    }
  }

  lemma EuclidUnique(x: nat, w: nat, q: nat, r: nat)
    requires r < w && x == q * w + r
    ensures x % w == r
  {
    var k := x / w - q;
    assert k * w == (x / w) * w - q * w;
    assert k >= 1 ==> k * w >= w;
    assert k <= -1 ==> (-k) * w >= w;
  }

  /** With a schedule that elects different leaders at different offsets, a built committer
      never elects a slot twice. */
  lemma BuiltDistinct(schedule: Schedule, wave: nat, leaders: nat, pipeline: bool)
    requires wave >= MINIMUM_WAVE_LENGTH
    requires forall r: Round, j: nat, k: nat :: j < k < leaders ==> schedule(r, j) != schedule(r, k)
    ensures var u := UniversalCommitter(schedule, wave, Stages(wave, leaders, PipelineStages(wave, pipeline)));
            u.Valid() && u.DistinctLeaders()
  {
    var u := UniversalCommitter(schedule, wave, Stages(wave, leaders, PipelineStages(wave, pipeline)));
    StagesValid(wave, leaders, PipelineStages(wave, pipeline));
    forall round
      ensures NoRepeats(u.Leaders(round))
    {
      BuiltLeaders(schedule, wave, leaders, pipeline, round);
    }
  }
}
