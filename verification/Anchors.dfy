/** Which anchor decides an earlier slot, and that there is no way around it. */
module Anchors {
  import opened Outcomes
  import opened Blocks
  import opened Committees
  import opened Dags
  import opened CommitRule
  import opened Finality
  import opened Agreement

  /** `later[i]` commits a leader at round `from` or later, and all before it at these rounds are
      skipped. */
  ghost predicate AnchorAt(later: seq<LeaderStatus>, from: Round, i: int) {
    && 0 <= i < |later| && later[i].Commit? && later[i].Round() >= from
    && forall j :: 0 <= j < i && later[j].Round() >= from ==> later[j].Skip?
  }

  ghost predicate IsAnchor(later: seq<LeaderStatus>, from: Round, anchor: BlockRef) {
    exists i :: AnchorAt(later, from, i) && later[i].leader == anchor
  }

  /** The search finds the anchor exactly when there is one. */
  lemma AnchorExact(later: seq<LeaderStatus>, from: Round)
    ensures forall anchor :: FindAnchor(later, from) == Some(anchor) <==> IsAnchor(later, from, anchor)
  {
    AnchorPosition(later, from);
    hide FindAnchor;
    if FindAnchor(later, from).Some? {
      var i :| AnchorAt(later, from, i);
    }
  }

  lemma {:induction false} AnchorPosition(later: seq<LeaderStatus>, from: Round)
    ensures forall i :: AnchorAt(later, from, i) ==> FindAnchor(later, from) == Some(later[i].leader)
    ensures FindAnchor(later, from).Some? ==> exists i :: AnchorAt(later, from, i)
  {
    if later != [] {
      var rest := later[1..];
      AnchorPosition(rest, from);
      forall i | AnchorAt(later, from, i)
        ensures FindAnchor(later, from) == Some(later[i].leader)
      {
        if i > 0 {
          assert AnchorAt(rest, from, i - 1) by {
            assert forall j :: 0 <= j < |rest| ==> rest[j] == later[j + 1];
          }
        }
      }
      if FindAnchor(later, from).Some? {
        if later[0].Round() >= from && later[0].Commit? {
          assert AnchorAt(later, from, 0);
        } else {
          var i :| AnchorAt(rest, from, i);
          OneEarlier(later, from, i);
        }
      }
    }
  }

  lemma OneEarlier(later: seq<LeaderStatus>, from: Round, i: int)
    requires later != [] && AnchorAt(later[1..], from, i) && (later[0].Round() >= from ==> later[0].Skip?)
    ensures AnchorAt(later, from, i + 1)
  {
    forall j | 0 <= j < i + 1 && later[j].Round() >= from
      ensures later[j].Skip?
    {
      assert j > 0 ==> later[1..][j - 1] == later[j];
    }
  }

  /** `status` is what an anchor says about a slot: a certified block of it that the anchor is
      linked to is committed, and the slot is skipped if there is none. */
  ghost predicate DecidedFrom(
      c: Committee, d: Dag, wave: nat, anchor: BlockRef, slot: Slot, status: LeaderStatus)
    requires IsView(c, d) && anchor in d && wave >= MINIMUM_WAVE_LENGTH
  {
    match status
    case Commit(l) => l in d && l.ToSlot() == slot && HasCertifiedLink(c, d, wave, anchor, l)
    case Skip(s) => s == slot && forall l :: l in d && l.ToSlot() == slot ==> !HasCertifiedLink(c, d, wave, anchor, l)
    case Undecided(_) => false
  }

  /** The slot is decided exactly when `later` has an anchor, and then as the anchor says. */
  ghost predicate FollowsAnchor(
      c: Committee, d: Dag, wave: nat, slot: Slot, status: LeaderStatus, later: seq<LeaderStatus>, from: Round)
    requires IsView(c, d) && wave >= MINIMUM_WAVE_LENGTH
  {
    && (status.IsDecided() <==> exists anchor :: IsAnchor(later, from, anchor))
    && (forall anchor :: IsAnchor(later, from, anchor) ==>
          anchor in d && DecidedFrom(c, d, wave, anchor, slot, status))
  }

  lemma AnchorSays(c: Committee, d: Dag, wave: nat, anchor: BlockRef, slot: Slot)
    requires IsView(c, d) && anchor in d && wave >= MINIMUM_WAVE_LENGTH
    requires AnchorDecision(c, d, wave, anchor, slot).Ok?
    ensures DecidedFrom(c, d, wave, anchor, slot, AnchorDecision(c, d, wave, anchor, slot).value)
  {
    hide HasCertifiedLink;
    var linked := LinkedLeaders(c, d, wave, anchor, slot);
    assert forall l :: l in linked <==> l in d && l.ToSlot() == slot && HasCertifiedLink(c, d, wave, anchor, l);
  }

  /** A slot that is not decided directly is decided exactly when there is an anchor a wave later,
      and then as the anchor says. */
  lemma SlotExact(c: Committee, d: Dag, wave: nat, slot: Slot, later: seq<LeaderStatus>)
    requires IsView(c, d) && wave >= MINIMUM_WAVE_LENGTH && CommitsPresent(d, later)
    requires DirectDecision(c, d, wave, slot) == Ok(Undecided(slot)) && SlotDecision(c, d, wave, slot, later).Ok?
    ensures FollowsAnchor(
              c, d, wave, slot, SlotDecision(c, d, wave, slot, later).value, later, slot.round + wave)
  {
    var from := slot.round + wave;
    AnchorExact(later, from);
    AnchorPresent(d, later, from);
    hide DirectDecision, AnchorDecision, DecidedFrom, FindAnchor, IsAnchor, IsView;
    match FindAnchor(later, from)
    case None =>
    case Some(anchor) =>
      assert IsAnchor(later, from, anchor);
      AnchorSays(c, d, wave, anchor, slot);
      SaysDecided(c, d, wave, anchor, slot, AnchorDecision(c, d, wave, anchor, slot).value);
  }

  lemma SaysDecided(c: Committee, d: Dag, wave: nat, anchor: BlockRef, slot: Slot, status: LeaderStatus)
    requires IsView(c, d) && anchor in d && wave >= MINIMUM_WAVE_LENGTH
    requires DecidedFrom(c, d, wave, anchor, slot, status)
    ensures status.IsDecided()
  {
  }

  /** The whole scan: every slot has its direct decision, or else what its anchor among the later
      slots says, or is undecided because it has none. */
  lemma {:induction false} ScanExact(c: Committee, d: Dag, wave: nat, slots: seq<Slot>, i: nat)
    requires IsView(c, d) && wave >= MINIMUM_WAVE_LENGTH && i < |slots| && Decisions(c, d, wave, slots).Ok?
    ensures var statuses := Decisions(c, d, wave, slots).value;
            && |statuses| == |slots| && CommitsPresent(d, statuses)
            && DirectDecision(c, d, wave, slots[i]).Ok?
            && SlotSettled(c, d, wave, slots[i], statuses[i], statuses[i + 1..])
  {
    DecisionsUnfold(c, d, wave, slots);
    var statuses := Decisions(c, d, wave, slots).value;
    var rest := Decisions(c, d, wave, slots[1..]).value;
    assert |statuses| == |slots| && CommitsPresent(d, statuses) && statuses == [statuses[0]] + rest;
    hide Decisions, IsView;
    if i == 0 {
      assert statuses[1..] == rest;
      SlotSettles(c, d, wave, slots[0], rest);
    } else {
      ScanExact(c, d, wave, slots[1..], i - 1);
      hide SlotSettled, SlotDecision;
      assert statuses[i] == rest[i - 1] && statuses[i + 1..] == rest[i..] && slots[i] == slots[1..][i - 1];
    }
  }

  ghost predicate SlotSettled(
      c: Committee, d: Dag, wave: nat, slot: Slot, status: LeaderStatus, later: seq<LeaderStatus>)
    requires IsView(c, d) && wave >= MINIMUM_WAVE_LENGTH
  {
    if DirectDecision(c, d, wave, slot) != Ok(Undecided(slot)) then DirectDecision(c, d, wave, slot) == Ok(status)
    else FollowsAnchor(c, d, wave, slot, status, later, slot.round + wave)
  }

  lemma SlotSettles(c: Committee, d: Dag, wave: nat, slot: Slot, later: seq<LeaderStatus>)
    requires IsView(c, d) && wave >= MINIMUM_WAVE_LENGTH && CommitsPresent(d, later)
    requires SlotDecision(c, d, wave, slot, later).Ok?
    ensures DirectDecision(c, d, wave, slot).Ok?
    ensures SlotSettled(c, d, wave, slot, SlotDecision(c, d, wave, slot, later).value, later)
  {
    UndecidedItself(c, d, wave, slot);
    if DirectDecision(c, d, wave, slot) == Ok(Undecided(slot)) {
      SlotExact(c, d, wave, slot, later);
    }
    hide DirectDecision, FollowsAnchor, IndirectDecision;
  }

  lemma UndecidedItself(c: Committee, d: Dag, wave: nat, slot: Slot)
    requires IsView(c, d) && wave >= MINIMUM_WAVE_LENGTH
    ensures var direct := DirectDecision(c, d, wave, slot);
            direct.Ok? && !direct.value.IsDecided() ==> direct == Ok(Undecided(slot))
  {
  }
}
