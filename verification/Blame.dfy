/** When a slot is skipped directly: what keeps a block from blaming the leader. */
module Blames {
  import opened Outcomes
  import opened Blocks
  import opened Committees
  import opened Dags
  import opened CommitRule
  import opened LeaderSlots
  import opened Agreement
  import opened FourAuthorities
  import opened WaveLengths

  /** All blocks of `a` at the voting round list some block by the leader's authority, of whatever
      round. An authority without a block there is reluctant too. */
  ghost predicate Reluctant(d: Dag, slot: Slot, a: Authority) {
    forall r :: r in d && r.round == slot.round + 1 && r.author == a ==>
      exists x :: x in d[r].ancestors && x.author == slot.authority
  }

  /** A slot is blamed enough exactly when the reluctant authorities stay below validity. */
  lemma EnoughBlameIff(c: Committee, d: Dag, slot: Slot)
    ensures EnoughBlame(c, d, slot)
            <==> !c.ReachedValidity(c.StakeOf(set a | a in c.Everyone() && Reluctant(d, slot, a)))
  {
    var blamers := BlameAuthors(d, VotingRound(slot), slot.authority);
    var reluctant := set a | a in c.Everyone() && Reluctant(d, slot, a);
    forall a
      ensures a in blamers <==> !Reluctant(d, slot, a)
    {
      if !Reluctant(d, slot, a) {
        var r :| r in d && r.round == slot.round + 1 && r.author == a
                 && !exists x :: x in d[r].ancestors && x.author == slot.authority;
        assert IsBlame(d[r], slot.authority);
      }
    }
    assert c.Everyone() - blamers == reluctant;
    QuorumComplement(c, blamers);
  }

  // ----- A leader that is not skipped although it has no block -----

  /** Authority 0 stops after round 1, and the others reference its last block in round 3 only. */
  function TardyAncestors(r: BlockRef): seq<BlockRef> {
    if r.round == 0 then []
    else if r.round == 1 then [Ref(0, 0, 0), Ref(0, 1, 0), Ref(0, 2, 0), Ref(0, 3, 0)]
    else
      var below := r.round - 1;
      var three := [Ref(below, 1, 0), Ref(below, 2, 0), Ref(below, 3, 0)];
      if r.round == 3 then three + [Ref(1, 0, 0)] else three
  }

  predicate IsTardy(r: BlockRef) {
    r.round <= 4 && r.author < 4 && r.digest == 0 && (r.author == 0 ==> r.round <= 1)
  }

  function Tardy(): Dag {
    var refs := set round: Round, author: Authority | 0 <= round <= 4 && 0 <= author < 4 :: Ref(round, author, 0);
    map r | r in refs && IsTardy(r) :: Block(r, TardyAncestors(r), [])
  }

  lemma TardyBlocks(r: BlockRef)
    ensures r in Tardy() <==> IsTardy(r)
    ensures r in Tardy() ==> Tardy()[r] == Block(r, TardyAncestors(r), [])
  {
    if IsTardy(r) {
      assert r == Ref(r.round, r.author, 0);
    }
  }

  lemma TardyListed(r: BlockRef)
    requires IsTardy(r)
    ensures forall a :: a in TardyAncestors(r) ==> IsTardy(a) && a.round < r.round
    ensures r.round > 0 ==> Ref(r.round - 1, r.author, 0) in TardyAncestors(r)
  {
  }

  lemma TardyParents(r: BlockRef)
    requires IsTardy(r)
    ensures HasParentQuorum(FOUR, Block(r, TardyAncestors(r), []))
  {
    var b := Block(r, TardyAncestors(r), []);
    if r.round > 0 {
      var below := r.round - 1;
      assert Ref(below, 1, 0) in b.ancestors && Ref(below, 2, 0) in b.ancestors && Ref(below, 3, 0) in b.ancestors;
      hide TardyAncestors;
      assert Ref(below, 1, 0).author in ParentAuthors(b);
      assert Ref(below, 2, 0).author in ParentAuthors(b);
      assert Ref(below, 3, 0).author in ParentAuthors(b);
      ThreeOfFour(ParentAuthors(b));
    }
  }

  lemma TardyPresent(r: BlockRef)
    requires r in Tardy()
    ensures var d := Tardy();
            && d[r].reference == r && r.author < 4 && r.digest == 0
            && AncestorsPresent(d, r) && HasParentQuorum(FOUR, d[r])
            && (r.round > 0 ==> Ref(r.round - 1, r.author, 0) in d[r].ancestors)
  {
    var d := Tardy();
    TardyBlocks(r);
    TardyListed(r);
    TardyParents(r);
    hide Tardy, TardyAncestors, HasParentQuorum;
    forall a | a in d[r].ancestors
      ensures a in d
    {
      TardyBlocks(a);
    }
  }

  lemma TardyIsGlobal()
    ensures IsGlobal(FOUR, Tardy(), ALL)
    ensures forall r :: r in Tardy() && r.round > 0 ==> Ref(r.round - 1, r.author, 0) in Tardy()[r].ancestors
  {
    hide *;
    OneMayBeFaulty();
    var d := Tardy();
    forall r | r in d
      ensures d[r].reference == r && r.author < 4 && r.digest == 0
      ensures AncestorsPresent(d, r) && HasParentQuorum(FOUR, d[r])
      ensures r.round > 0 ==> Ref(r.round - 1, r.author, 0) in d[r].ancestors
    {
      TardyPresent(r);
    }
    SoundPartsGlobal(d, ALL);
  }

  lemma TardyBlame()
    ensures !EnoughBlame(FOUR, Tardy(), Slot(2, 0))
  {
    var d := Tardy();
    var reluctant := set a | a in FOUR.Everyone() && Reluctant(d, Slot(2, 0), a);
    forall a: Authority | a < 4
      ensures a in reluctant
    {
      assert FOUR.Exists(a) && a in FOUR.Everyone();
      forall r | r in d && r.round == 3 && r.author == a
        ensures exists x :: x in d[r].ancestors && x.author == 0
      {
        TardyBlocks(r);
        assert Ref(1, 0, 0) in TardyAncestors(r);
        assert Ref(1, 0, 0) in d[r].ancestors && Ref(1, 0, 0).author == 0;
      }
    }
    EnoughBlameIff(FOUR, d, Slot(2, 0));
    hide Reluctant, EnoughBlame, Tardy;
    ThreeOfFour(reluctant);
    ThresholdsExact(FOUR, FOUR.StakeOf(reluctant));
  }

  lemma TardyHighest()
    ensures HighestRound(Tardy()) == 4
  {
    TardyBlocks(Ref(4, 1, 0));
    forall r | r in Tardy()
      ensures r.round <= 4
    {
      TardyBlocks(r);
    }
    hide Tardy;
  }

  /** A leader that has no block at all is not skipped, because the blocks of the voting round list
      an older block of its authority: it stays undecided and holds up the sequence. */
  lemma OlderBlockPreventsSkip()
    ensures var g, u, slot := Tardy(), EveryRound(DEFAULT_WAVE_LENGTH), Slot(2, 0);
            && IsGlobal(FOUR, g, ALL) && (forall r :: r in g ==> r.ToSlot() != slot)
            && (forall r :: r in g && r.round > 0 ==> Ref(r.round - 1, r.author, 0) in g[r].ancestors)
            && DirectDecision(FOUR, g, u.wave, slot) == Ok(Undecided(slot))
            && u.Valid() && u.PendingSlots(Slot(1, 0), HighestRound(g)) == [slot]
            && CommitSequence(FOUR, g, u, Slot(1, 0)) == Ok([])
  {
    var g, slot := Tardy(), Slot(2, 0);
    TardyIsGlobal();
    TardyHighest();
    TardyBlame();
    TwoPending(DEFAULT_WAVE_LENGTH);
    forall r | r in g
      ensures r.ToSlot() != slot
    {
      TardyBlocks(r);
    }
    hide Tardy, EveryRound, IsGlobal, EnoughBlame;
    assert SupportedLeaders(FOUR, g, DEFAULT_WAVE_LENGTH, slot) == {};
    OneUndecided(FOUR, g, EveryRound(DEFAULT_WAVE_LENGTH), Slot(1, 0), slot);
  }

  lemma TwoPending(wave: nat)
    requires wave >= MINIMUM_WAVE_LENGTH
    ensures EveryRound(wave).Valid() && EveryRound(wave).PendingSlots(Slot(1, 0), 4) == [Slot(2, 0)]
  {
    var u := EveryRound(wave);
    EveryRoundLeads(wave, 1);
    EveryRoundLeads(wave, 2);
    hide EveryRound;
    PendingExact(u, Slot(1, 0), 4);
    assert After([Slot(1, 0)], Slot(1, 0)) == [];
    assert u.SlotsBetween(2, 2) == u.Leaders(2) + u.SlotsBetween(3, 2);
  }

  lemma OneUndecided(c: Committee, d: Dag, u: UniversalCommitter, lastDecided: Slot, slot: Slot)
    requires IsView(c, d) && u.Valid() && u.PendingSlots(lastDecided, HighestRound(d)) == [slot]
    requires DirectDecision(c, d, u.wave, slot) == Ok(Undecided(slot))
    ensures CommitSequence(c, d, u, lastDecided) == Ok([])
  {
    var slots: seq<Slot> := [slot];
    var none: seq<LeaderStatus> := [];
    assert slots[1..] == [] && Decisions(c, d, u.wave, slots[1..]) == Ok(none);
    hide DirectDecision;
    assert SlotDecision(c, d, u.wave, slots[0], none) == Ok(Undecided(slot));
    assert Decisions(c, d, u.wave, slots) == Ok([Undecided(slot)] + none);
    assert [Undecided(slot)] + none == [Undecided(slot)];
    hide Decisions;
    OutputIs(c, d, u, lastDecided, [Undecided(slot)]);
    assert DecidedPrefix(PastGenesis([Undecided(slot)])) == [];
  }
}
