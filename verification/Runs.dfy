/**
 Whole runs: a validator keeps calling the commit rule on its growing view, each time from
 the last slot it decided, and appends what it gets to its log.
 */
module Runs {
  import opened Outcomes
  import opened Blocks
  import opened Committees
  import opened Dags
  import opened CommitRule
  import opened LeaderSlots
  import opened Agreement

  function NextDecided(lastDecided: Slot, decided: seq<LeaderStatus>): Slot {
    if decided == [] then lastDecided else decided[|decided| - 1].At()
  }

  /** The log after calls on `views` in turn, starting after `lastDecided`. */
  ghost function Log(
      c: Committee, u: UniversalCommitter, views: seq<Dag>, lastDecided: Slot): Outcome<seq<LeaderStatus>>
    requires u.Valid() && forall v :: v in views ==> IsView(c, v)
  {
    if views == [] then Ok([])
    else
      var first :- CommitSequence(c, views[0], u, lastDecided);
      var rest :- Log(c, u, views[1..], NextDecided(lastDecided, first));
      Ok(first + rest)
  }

  /** The successive views of one validator: complete, growing, and part of `g`. */
  ghost predicate IsHistory(c: Committee, g: Dag, views: seq<Dag>) {
    && (forall v :: v in views ==> IsView(c, v) && Includes(v, g))
    && (forall i, j :: 0 <= i < j < |views| ==> Includes(views[i], views[j]))
  }

  // ----- Sequences of slots and statuses -----

  lemma {:induction false} AfterIsSuffix(slots: seq<Slot>, slot: Slot)
    ensures |After(slots, slot)| <= |slots|
    ensures slots[|slots| - |After(slots, slot)|..] == After(slots, slot)
  {
    if slot in slots && slot in slots[1..] {
      AfterIsSuffix(slots[1..], slot);
    }
  }

  lemma {:induction false} AfterDropsFront(front: seq<Slot>, slots: seq<Slot>, slot: Slot)
    requires slot in slots
    ensures After(front + slots, slot) == After(slots, slot)
  {
    if front == [] {
      assert front + slots == slots;
    } else {
      assert (front + slots)[1..] == front[1..] + slots;
      AfterDropsFront(front[1..], slots, slot);
    }
  }

  lemma {:induction false} DecisionsSuffix(c: Committee, d: Dag, wave: nat, slots: seq<Slot>, n: nat)
    requires IsView(c, d) && wave >= MINIMUM_WAVE_LENGTH && n <= |slots|
    requires Decisions(c, d, wave, slots).Ok?
    ensures |Decisions(c, d, wave, slots).value| == |slots|
    ensures Decisions(c, d, wave, slots[n..]) == Ok(Decisions(c, d, wave, slots).value[n..])
  {
    var all := Decisions(c, d, wave, slots).value;
    assert |all| == |slots|;
    if n == 0 {
      hide *;
      assert slots[0..] == slots && all[0..] == all;
    } else {
      DecisionsUnfold(c, d, wave, slots);
      hide *;
      DecisionsSuffix(c, d, wave, slots[1..], n - 1);
      DropTwice(slots, n);
      DropTwice(all, n);
      assert all[1..] == Decisions(c, d, wave, slots[1..]).value;
    }
  }

  lemma DropTwice<T>(s: seq<T>, n: nat)
    requires 0 < n <= |s|
    ensures s[1..][n - 1..] == s[n..]
  {
  }

  ghost predicate RoundsAscend(statuses: seq<LeaderStatus>) {
    forall i, j :: 0 <= i < j < |statuses| ==> statuses[i].Round() <= statuses[j].Round()
  }

  ghost predicate AllPastGenesis(statuses: seq<LeaderStatus>) {
    forall i :: 0 <= i < |statuses| ==> statuses[i].Round() > 0
  }

  lemma {:induction false} PastGenesisIdentity(statuses: seq<LeaderStatus>)
    requires AllPastGenesis(statuses)
    ensures PastGenesis(statuses) == statuses
  {
    if statuses != [] {
      PastGenesisIdentity(statuses[1..]);
    }
  }

  lemma {:induction false} PastGenesisIsSuffix(statuses: seq<LeaderStatus>) returns (k: nat)
    requires RoundsAscend(statuses)
    ensures k <= |statuses| && PastGenesis(statuses) == statuses[k..] && AllPastGenesis(statuses[k..])
  {
    if statuses == [] {
      k := 0;
    } else if statuses[0].Round() > 0 {
      k := 0;
      PastGenesisIdentity(statuses);
      assert statuses[0..] == statuses;
    } else {
      k := PastGenesisIsSuffix(statuses[1..]);
      assert statuses[1..][k..] == statuses[k + 1..];
      k := k + 1;
    }
  }

  lemma {:induction false} DecidedPrefixSuffix(statuses: seq<LeaderStatus>, n: nat)
    requires n <= |DecidedPrefix(statuses)|
    ensures DecidedPrefix(statuses) <= statuses
    ensures DecidedPrefix(statuses)[n..] == DecidedPrefix(statuses[n..])
  {
    DecidedPrefixExact(statuses);
    var decided := DecidedPrefix(statuses);
    if n == 0 {
      hide DecidedPrefix;
      assert statuses[0..] == statuses && decided[0..] == decided;
    } else {
      assert decided == [statuses[0]] + DecidedPrefix(statuses[1..]);
      hide DecidedPrefix;
      assert decided[1..] == DecidedPrefix(statuses[1..]);
      DecidedPrefixSuffix(statuses[1..], n - 1);
      DropTwice(statuses, n);
      DropTwice(decided, n);
    }
  }

  lemma AfterElement(slots: seq<Slot>, k: nat)
    requires NoRepeats(slots) && k < |slots|
    ensures After(slots, slots[k]) == slots[k + 1..]
  {
    NotLater(slots, k);
    hide NoRepeats, After;
    AfterSplit(slots[..k], slots[k], slots[k + 1..]);
    SplitAt(slots, k);
  }

  lemma SplitAt<T>(s: seq<T>, k: nat)
    requires k < |s|
    ensures s[..k] + [s[k]] + s[k + 1..] == s
  {
  }

  lemma NotLater(slots: seq<Slot>, k: nat)
    requires NoRepeats(slots) && k < |slots|
    ensures slots[k] !in slots[k + 1..]
  {
  }

  lemma AfterFromItsRound(u: UniversalCommitter, lo: Round, hi: Round, slot: Slot)
    requires u.Valid() && slot in u.SlotsBetween(lo, hi)
    ensures After(u.SlotsBetween(lo, hi), slot) == After(u.SlotsBetween(slot.round, hi), slot)
  {
    hide *;
    SlotsBetweenElected(u, lo, hi, slot);
    SlotsBetweenElected(u, slot.round, hi, slot);
    if lo < slot.round {
      SlotsBetweenSplit(u, lo, slot.round - 1, hi);
      AfterDropsFront(u.SlotsBetween(lo, slot.round - 1), u.SlotsBetween(slot.round, hi), slot);
    }
  }

  /** Restarting from a slot that was pending leaves exactly the slots that followed it. */
  lemma PendingAfter(u: UniversalCommitter, lastDecided: Slot, highest: Round, p: nat)
    requires u.Valid() && u.DistinctLeaders()
    requires p < |u.PendingSlots(lastDecided, highest)|
    ensures var slots := u.PendingSlots(lastDecided, highest);
            u.PendingSlots(slots[p], highest) == slots[p + 1..]
  {
    var hi := LastPending(highest);
    var all := u.SlotsBetween(lastDecided.round, hi);
    var slots := u.PendingSlots(lastDecided, highest);
    AfterIsSuffix(all, lastDecided);
    var k := |all| - |slots| + p;
    assert all[k] == slots[p];
    SlotsBetweenDistinct(u, lastDecided.round, hi);
    AfterElement(all, k);
    AfterFromItsRound(u, lastDecided.round, hi, slots[p]);
    assert all[k + 1..] == slots[p + 1..];
  }

  lemma PendingAscend(u: UniversalCommitter, lastDecided: Slot, highest: Round)
    requires u.Valid()
    ensures ByRound(u.PendingSlots(lastDecided, highest))
  {
    var all := u.SlotsBetween(lastDecided.round, LastPending(highest));
    SlotsBetweenAscending(u, lastDecided.round, LastPending(highest));
    AfterIsSuffix(all, lastDecided);
    assert ByRound(all[|all| - |After(all, lastDecided)|..]);
  }

  // ----- Calls add up -----

  /** Where a decided prefix ends among the statuses, and what follows it. */
  lemma OutputSuffix(statuses: seq<LeaderStatus>, decided: seq<LeaderStatus>) returns (p: nat)
    requires RoundsAscend(statuses)
    requires decided != [] && decided <= DecidedPrefix(PastGenesis(statuses))
    ensures p < |statuses| && statuses[p] == decided[|decided| - 1]
    ensures DecidedPrefix(PastGenesis(statuses[p + 1..])) == DecidedPrefix(PastGenesis(statuses))[|decided|..]
  {
    hide PastGenesis, DecidedPrefix, RoundsAscend;
    var k := PastGenesisIsSuffix(statuses);
    var past, n := statuses[k..], |decided|;
    DecidedPrefixSuffix(past, n);
    p := k + n - 1;
    assert statuses[p] == past[n - 1];
    assert statuses[p + 1..] == past[n..];
    PastGenesisIdentity(past[n..]);
  }

  /** Calling again from the last slot of a decided prefix returns exactly the remainder. */
  lemma Continuation(c: Committee, d: Dag, u: UniversalCommitter, lastDecided: Slot, decided: seq<LeaderStatus>)
    requires IsView(c, d) && u.Valid() && u.DistinctLeaders()
    requires CommitSequence(c, d, u, lastDecided).Ok? && decided <= CommitSequence(c, d, u, lastDecided).value
    ensures CommitSequence(c, d, u, NextDecided(lastDecided, decided))
            == Ok(CommitSequence(c, d, u, lastDecided).value[|decided|..])
  {
    if decided != [] {
      var highest := HighestRound(d);
      var slots := u.PendingSlots(lastDecided, highest);
      PendingAscend(u, lastDecided, highest);
      var statuses := Decisions(c, d, u.wave, slots).value;
      var p := OutputSuffix(statuses, decided);
      PendingAfter(u, lastDecided, highest, p);
      DecisionsSuffix(c, d, u.wave, slots, p + 1);
    }
  }

  /** A log built by any number of calls equals what one call on the latest view returns. */
  lemma {:induction false} CallsAddUp(
      c: Committee, g: Dag, honest: set<Authority>, u: UniversalCommitter, views: seq<Dag>, lastDecided: Slot)
    requires IsGlobal(c, g, honest) && u.Valid() && u.wave == DEFAULT_WAVE_LENGTH && u.DistinctLeaders()
    requires IsHistory(c, g, views) && views != []
    ensures Log(c, u, views, lastDecided) == CommitSequence(c, views[|views| - 1], u, lastDecided)
    ensures Log(c, u, views, lastDecided).Ok?
  {
    hide IsGlobal, CommitSequence;
    var last := views[|views| - 1];
    Stability(c, g, honest, u, lastDecided, views[0], last);
    var first := CommitSequence(c, views[0], u, lastDecided).value;
    if |views| == 1 {
      LogStep(c, u, views, lastDecided, first, []);
      assert first + [] == first;
    } else {
      var rest, next := views[1..], NextDecided(lastDecided, first);
      assert rest[|rest| - 1] == last;
      CallsAddUp(c, g, honest, u, rest, next);
      FirstThenRest(c, u, views, lastDecided, first, last);
    }
  }

  lemma FirstThenRest(
      c: Committee, u: UniversalCommitter, views: seq<Dag>, lastDecided: Slot, first: seq<LeaderStatus>, last: Dag)
    requires u.Valid() && u.DistinctLeaders() && views != []
    requires IsView(c, last) && forall v :: v in views ==> IsView(c, v)
    requires CommitSequence(c, views[0], u, lastDecided) == Ok(first)
    requires CommitSequence(c, last, u, lastDecided).Ok? && first <= CommitSequence(c, last, u, lastDecided).value
    requires Log(c, u, views[1..], NextDecided(lastDecided, first))
             == CommitSequence(c, last, u, NextDecided(lastDecided, first))
    ensures Log(c, u, views, lastDecided) == CommitSequence(c, last, u, lastDecided)
  {
    Continuation(c, last, u, lastDecided, first);
    var all := CommitSequence(c, last, u, lastDecided).value;
    LogStep(c, u, views, lastDecided, first, all[|first|..]);
    Rejoin(first, all);
  }

  lemma LogStep(
      c: Committee, u: UniversalCommitter, views: seq<Dag>, lastDecided: Slot,
      first: seq<LeaderStatus>, rest: seq<LeaderStatus>)
    requires u.Valid() && views != [] && forall v :: v in views ==> IsView(c, v)
    requires CommitSequence(c, views[0], u, lastDecided) == Ok(first)
    requires Log(c, u, views[1..], NextDecided(lastDecided, first)) == Ok(rest)
    ensures Log(c, u, views, lastDecided) == Ok(first + rest)
  {
  }

  /** Agreement over whole runs: the logs of any two validators, however their views grew and
      whenever they called, are prefixes of one another. */
  lemma RunAgreement(
      c: Committee, g: Dag, honest: set<Authority>, u: UniversalCommitter, lastDecided: Slot,
      mine: seq<Dag>, yours: seq<Dag>)
    requires IsGlobal(c, g, honest) && u.Valid() && u.wave == DEFAULT_WAVE_LENGTH && u.DistinctLeaders()
    requires IsHistory(c, g, mine) && IsHistory(c, g, yours)
    ensures Log(c, u, mine, lastDecided).Ok? && Log(c, u, yours, lastDecided).Ok?
    ensures var s, t := Log(c, u, mine, lastDecided).value, Log(c, u, yours, lastDecided).value;
            s <= t || t <= s
  {
    if mine != [] {
      CallsAddUp(c, g, honest, u, mine, lastDecided);
    }
    if yours != [] {
      CallsAddUp(c, g, honest, u, yours, lastDecided);
    }
    if mine != [] && yours != [] {
      Agreement.Agreement(c, g, honest, u, lastDecided, mine[|mine| - 1], yours[|yours| - 1]);
    }
  }
}
