/**
 The commit sequence over time and across validators: growing a view extends the sequence,
 calls made one after the other add up to one call, and validators never disagree.
 */
module Agreement {
  import opened Outcomes
  import opened Blocks
  import opened Committees
  import opened Dags
  import opened CommitRule
  import opened LeaderSlots
  import opened Finality

  /** What one attempt to commit returns on a view. */
  ghost function CommitSequence(
      c: Committee, d: Dag, u: UniversalCommitter, lastDecided: Slot): Outcome<seq<LeaderStatus>>
    requires IsView(c, d) && u.Valid()
  {
    var statuses :- Decisions(c, d, u.wave, u.PendingSlots(lastDecided, HighestRound(d)));
    Ok(DecidedPrefix(PastGenesis(statuses)))
  }

  /** The output is the longest prefix of decided statuses, of slots past genesis. */
  lemma {:induction false} DecidedPrefixExact(statuses: seq<LeaderStatus>)
    ensures var decided := DecidedPrefix(statuses);
            && decided <= statuses && (forall s :: s in decided ==> s.IsDecided())
            && (|decided| < |statuses| ==> !statuses[|decided|].IsDecided())
  {
    if statuses != [] && statuses[0].IsDecided() {
      DecidedPrefixExact(statuses[1..]);
    }
  }

  /** A leader above the last pending round cannot have enough support yet, and enough blame only
      in the round below the highest. So not trying it delays no direct commit, but it can delay
      a skip. */
  lemma BeyondReach(c: Committee, d: Dag, wave: nat, slot: Slot)
    requires IsView(c, d) && wave >= MINIMUM_WAVE_LENGTH && slot.round > LastPending(HighestRound(d))
    ensures DirectDecision(c, d, wave, slot) == Ok(if EnoughBlame(c, d, slot) then Skip(slot) else Undecided(slot))
    ensures EnoughBlame(c, d, slot) ==> slot.round + 1 == HighestRound(d)
  {
    NobodyIsNoQuorum(c);
    forall l | l in d && l.ToSlot() == slot
      ensures !EnoughSupport(c, d, wave, l)
    {
      assert SupportAuthors(c, d, DecisionRound(wave, slot), l) == {};
    }
    if slot.round + 1 > HighestRound(d) {
      assert BlameAuthors(d, VotingRound(slot), slot.authority) == {};
    }
  }

  // ----- Stability -----

  /** `newer` has the same slots as `older`, possibly followed by more, and keeps all its decisions. */
  ghost predicate Keeps(older: seq<LeaderStatus>, newer: seq<LeaderStatus>) {
    && |older| <= |newer|
    && forall i :: 0 <= i < |older| ==>
         older[i].At() == newer[i].At() && (older[i].IsDecided() ==> newer[i] == older[i])
  }

  lemma {:induction false} AnchorKept(older: seq<LeaderStatus>, newer: seq<LeaderStatus>, from: Round)
    requires Keeps(older, newer) && FindAnchor(older, from).Some?
    ensures FindAnchor(newer, from) == FindAnchor(older, from)
  {
    assert older[0].At() == newer[0].At();
    if older[0].Round() < from || older[0].Skip? {
      AnchorKept(older[1..], newer[1..], from);
    }
  }

  lemma SlotNeverPanics(
      c: Committee, g: Dag, honest: set<Authority>, d: Dag, slot: Slot, later: seq<LeaderStatus>)
    requires IsGlobal(c, g, honest) && IsView(c, d) && Includes(d, g) && CommitsPresent(d, later)
    ensures SlotDecision(c, d, DEFAULT_WAVE_LENGTH, slot, later).Ok?
  {
    DirectNeverPanics(c, g, honest, d, slot);
    AnchorPresent(d, later, slot.round + DEFAULT_WAVE_LENGTH);
    var anchor := FindAnchor(later, slot.round + DEFAULT_WAVE_LENGTH);
    if anchor.Some? {
      AnchorNeverPanics(c, g, honest, d, anchor.value, slot);
    }
  }

  /** No decision panics in a view of a sound graph. */
  lemma {:induction false} DecisionsNeverPanic(c: Committee, g: Dag, honest: set<Authority>, d: Dag, slots: seq<Slot>)
    requires IsGlobal(c, g, honest) && IsView(c, d) && Includes(d, g)
    ensures Decisions(c, d, DEFAULT_WAVE_LENGTH, slots).Ok?
  {
    if slots != [] {
      DecisionsNeverPanic(c, g, honest, d, slots[1..]);
      SlotNeverPanics(c, g, honest, d, slots[0], Decisions(c, d, DEFAULT_WAVE_LENGTH, slots[1..]).value);
    }
  }

  /** One slot: if the later slots keep their decisions in the larger view, so does this one. */
  lemma SlotDecisionKept(
      c: Committee, g: Dag, honest: set<Authority>, small: Dag, large: Dag, slot: Slot,
      older: seq<LeaderStatus>, newer: seq<LeaderStatus>)
    requires IsGlobal(c, g, honest)
    requires IsView(c, small) && IsView(c, large) && Includes(small, large) && Includes(large, g)
    requires CommitsPresent(small, older) && CommitsPresent(large, newer) && Keeps(older, newer)
    requires SlotDecision(c, small, DEFAULT_WAVE_LENGTH, slot, older).Ok?
    requires SlotDecision(c, small, DEFAULT_WAVE_LENGTH, slot, older).value.IsDecided()
    ensures SlotDecision(c, large, DEFAULT_WAVE_LENGTH, slot, newer)
            == SlotDecision(c, small, DEFAULT_WAVE_LENGTH, slot, older)
  {
    var w := DEFAULT_WAVE_LENGTH;
    if DirectDecision(c, small, w, slot).value.IsDecided() {
      DirectStable(c, g, honest, small, large, slot);
    } else {
      var from := slot.round + w;
      AnchorPresent(small, older, from);
      var anchor := FindAnchor(older, from).value;
      AnchorKept(older, newer, from);
      LinkedLeadersStable(c, small, large, w, anchor, slot);
      DirectNeverPanics(c, g, honest, large, slot);
      if DirectDecision(c, large, w, slot).value.IsDecided() {
        AnchorAgreesWithDirect(c, g, honest, large, small, anchor, slot);
      }
    }
  }

  lemma DecisionsUnfold(c: Committee, d: Dag, wave: nat, slots: seq<Slot>)
    requires IsView(c, d) && wave >= MINIMUM_WAVE_LENGTH && slots != [] && Decisions(c, d, wave, slots).Ok?
    ensures Decisions(c, d, wave, slots[1..]).Ok? && CommitsPresent(d, Decisions(c, d, wave, slots[1..]).value)
    ensures var status := SlotDecision(c, d, wave, slots[0], Decisions(c, d, wave, slots[1..]).value);
            && status.Ok? && status.value.At() == slots[0]
            && Decisions(c, d, wave, slots).value == [status.value] + Decisions(c, d, wave, slots[1..]).value
  {
    assert Decisions(c, d, wave, slots).value[0].At() == slots[0];
  }

  lemma KeepsOneMore(a: LeaderStatus, b: LeaderStatus, older: seq<LeaderStatus>, newer: seq<LeaderStatus>)
    requires Keeps(older, newer) && a.At() == b.At() && (a.IsDecided() ==> a == b)
    ensures Keeps([a] + older, [b] + newer)
  {
  }

  /** All slots: by induction from the last slot to the first. */
  lemma {:induction false} DecisionsKept(
      c: Committee, g: Dag, honest: set<Authority>, small: Dag, large: Dag, slots: seq<Slot>, more: seq<Slot>)
    requires IsGlobal(c, g, honest)
    requires IsView(c, small) && IsView(c, large) && Includes(small, large) && Includes(large, g)
    ensures Decisions(c, small, DEFAULT_WAVE_LENGTH, slots).Ok?
    ensures Decisions(c, large, DEFAULT_WAVE_LENGTH, slots + more).Ok?
    ensures Keeps(Decisions(c, small, DEFAULT_WAVE_LENGTH, slots).value,
                  Decisions(c, large, DEFAULT_WAVE_LENGTH, slots + more).value)
  {
    var w := DEFAULT_WAVE_LENGTH;
    DecisionsNeverPanic(c, g, honest, small, slots);
    DecisionsNeverPanic(c, g, honest, large, slots + more);
    if slots != [] {
      hide IsGlobal, IsView, Includes, SlotDecision, CommitsPresent, Keeps;
      assert (slots + more)[1..] == slots[1..] + more;
      DecisionsKept(c, g, honest, small, large, slots[1..], more);
      DecisionsUnfold(c, small, w, slots);
      DecisionsUnfold(c, large, w, slots + more);
      var older := Decisions(c, small, w, slots[1..]).value;
      var newer := Decisions(c, large, w, slots[1..] + more).value;
      var a := SlotDecision(c, small, w, slots[0], older).value;
      if a.IsDecided() {
        SlotDecisionKept(c, g, honest, small, large, slots[0], older, newer);
      }
      KeepsOneMore(a, SlotDecision(c, large, w, slots[0], newer).value, older, newer);
    }
  }

  lemma {:induction false} PastGenesisKept(older: seq<LeaderStatus>, newer: seq<LeaderStatus>)
    requires Keeps(older, newer)
    ensures Keeps(PastGenesis(older), PastGenesis(newer))
  {
    if older != [] {
      assert older[0].At() == newer[0].At();
      PastGenesisKept(older[1..], newer[1..]);
    }
  }

  lemma {:induction false} DecidedPrefixKept(older: seq<LeaderStatus>, newer: seq<LeaderStatus>)
    requires Keeps(older, newer)
    ensures DecidedPrefix(older) <= DecidedPrefix(newer)
  {
    if older != [] && older[0].IsDecided() {
      assert newer[0] == older[0];
      DecidedPrefixKept(older[1..], newer[1..]);
    }
  }

  lemma OutputKept(older: seq<LeaderStatus>, newer: seq<LeaderStatus>)
    requires Keeps(older, newer)
    ensures DecidedPrefix(PastGenesis(older)) <= DecidedPrefix(PastGenesis(newer))
  {
    PastGenesisKept(older, newer);
    DecidedPrefixKept(PastGenesis(older), PastGenesis(newer));
  }

  lemma HighestGrows(small: Dag, large: Dag)
    requires Includes(small, large)
    ensures HighestRound(small) <= HighestRound(large)
  {
  }

  /** Stability: growing a view extends its commit sequence and revises nothing. */
  lemma Stability(
      c: Committee, g: Dag, honest: set<Authority>, u: UniversalCommitter, lastDecided: Slot, small: Dag, large: Dag)
    requires IsGlobal(c, g, honest) && u.Valid() && u.wave == DEFAULT_WAVE_LENGTH
    requires IsView(c, small) && IsView(c, large) && Includes(small, large) && Includes(large, g)
    ensures CommitSequence(c, small, u, lastDecided).Ok? && CommitSequence(c, large, u, lastDecided).Ok?
    ensures CommitSequence(c, small, u, lastDecided).value <= CommitSequence(c, large, u, lastDecided).value
  {
    assert u.wave >= MINIMUM_WAVE_LENGTH;
    hide *;
    HighestGrows(small, large);
    PendingSlotsGrow(u, lastDecided, HighestRound(small), HighestRound(large));
    var slots := u.PendingSlots(lastDecided, HighestRound(small));
    var all := u.PendingSlots(lastDecided, HighestRound(large));
    Rejoin(slots, all);
    DecisionsKept(c, g, honest, small, large, slots, all[|slots|..]);
    var older, newer := Decisions(c, small, u.wave, slots).value, Decisions(c, large, u.wave, all).value;
    OutputIs(c, small, u, lastDecided, older);
    OutputIs(c, large, u, lastDecided, newer);
    OutputKept(older, newer);
  }

  lemma Rejoin<T>(prefix: seq<T>, all: seq<T>)
    requires prefix <= all
    ensures prefix + all[|prefix|..] == all
  {
  }

  lemma OutputIs(c: Committee, d: Dag, u: UniversalCommitter, lastDecided: Slot, statuses: seq<LeaderStatus>)
    requires IsView(c, d) && u.Valid()
    requires Decisions(c, d, u.wave, u.PendingSlots(lastDecided, HighestRound(d))) == Ok(statuses)
    ensures CommitSequence(c, d, u, lastDecided) == Ok(DecidedPrefix(PastGenesis(statuses)))
  {
  }

  /** Agreement: two validators that start from the same slot output sequences of which one is
      a prefix of the other, whatever part of the graph each has seen. */
  lemma Agreement(
      c: Committee, g: Dag, honest: set<Authority>, u: UniversalCommitter, lastDecided: Slot, d: Dag, e: Dag)
    requires IsGlobal(c, g, honest) && u.Valid() && u.wave == DEFAULT_WAVE_LENGTH
    requires IsView(c, d) && Includes(d, g) && IsView(c, e) && Includes(e, g)
    ensures CommitSequence(c, d, u, lastDecided).Ok? && CommitSequence(c, e, u, lastDecided).Ok?
    ensures var s, t := CommitSequence(c, d, u, lastDecided).value, CommitSequence(c, e, u, lastDecided).value;
            s <= t || t <= s
  {
    Stability(c, g, honest, u, lastDecided, d, g);
    Stability(c, g, honest, u, lastDecided, e, g);
  }
}
