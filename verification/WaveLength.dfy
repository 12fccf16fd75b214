/**
 Why the default wave length is the only safe one: blame counts only the round after the leader,
 so in a longer wave votes that come later can certify a leader that was skipped.
 */
module WaveLengths {
  import opened Outcomes
  import opened Blocks
  import opened Committees
  import opened Dags
  import opened CommitRule
  import opened Finality
  import opened LeaderSlots
  import opened Agreement
  import opened SupportOrder
  import opened FourAuthorities

  const LEADER := Ref(1, 0, 0)

  /** In round 2 all but its author leave the leader of round 1 out. Authority 3 lags behind: from
      round 2 on only it references its own blocks. */
  function LateAncestors(r: BlockRef): seq<BlockRef> {
    if r.round == 0 then []
    else if r.round == 2 && r.author != 0 then [Ref(1, 1, 0), Ref(1, 2, 0), Ref(1, 3, 0)]
    else
      var below := r.round - 1;
      var three := [Ref(below, 0, 0), Ref(below, 1, 0), Ref(below, 2, 0)];
      if r.round == 1 || r.author == 3 then three + [Ref(below, 3, 0)] else three
  }

  predicate IsLate(wave: nat, complete: bool, r: BlockRef) {
    r.round <= wave && r.author < 4 && r.digest == 0 && (complete || r.author != 3 || r.round < 2)
  }

  /** All blocks up to the decision round, or all but those of authority 3 from round 2 on. */
  function Late(wave: nat, complete: bool): Dag {
    var refs := set round: Round, author: Authority | 0 <= round <= wave && 0 <= author < 4 :: Ref(round, author, 0);
    map r | r in refs && IsLate(wave, complete, r) :: Block(r, LateAncestors(r), [])
  }

  lemma LateBlocks(wave: nat, complete: bool, r: BlockRef)
    ensures r in Late(wave, complete) <==> IsLate(wave, complete, r)
    ensures r in Late(wave, complete) ==> Late(wave, complete)[r] == Block(r, LateAncestors(r), [])
  {
    if IsLate(wave, complete, r) {
      assert r == Ref(r.round, r.author, 0);
    }
  }

  lemma LateListed(wave: nat, complete: bool, r: BlockRef)
    requires IsLate(wave, complete, r)
    ensures forall a :: a in LateAncestors(r) ==> IsLate(wave, complete, a) && a.round < r.round
  {
  }

  lemma LateBlock(r: BlockRef)
    requires r.author < 4
    ensures HasParentQuorum(FOUR, Block(r, LateAncestors(r), [])) && KeepsUp(Block(r, LateAncestors(r), []))
  {
    var b := Block(r, LateAncestors(r), []);
    hide HasParentQuorum, KeepsUp;
    if r.round == 0 {
      GenesisParents(b);
    } else if r.round == 1 || (r.author == 3 && r.round != 2) {
      FourParents(b, b.ancestors[0], b.ancestors[1], b.ancestors[2], b.ancestors[3]);
    } else {
      ThreeParents(b, b.ancestors[0], b.ancestors[1], b.ancestors[2]);
    }
  }

  lemma LatePresent(wave: nat, complete: bool, r: BlockRef)
    requires r in Late(wave, complete)
    ensures r.author < 4 && r.digest == 0 && Late(wave, complete)[r].reference == r
    ensures KeepsUp(Late(wave, complete)[r])
    ensures AncestorsPresent(Late(wave, complete), r) && HasParentQuorum(FOUR, Late(wave, complete)[r])
  {
    var d := Late(wave, complete);
    LateBlocks(wave, complete, r);
    LateListed(wave, complete, r);
    LateBlock(r);
    hide HasParentQuorum, KeepsUp, Late, LateAncestors;
    forall a | a in d[r].ancestors
      ensures a in d
    {
      LateBlocks(wave, complete, a);
    }
  }

  /** All four authorities put one block in each slot, and continue their own. */
  lemma LateIsGlobal(wave: nat, complete: bool)
    ensures IsGlobal(FOUR, Late(wave, complete), ALL)
    ensures forall r :: r in Late(wave, complete) ==> KeepsUp(Late(wave, complete)[r])
  {
    var d := Late(wave, complete);
    hide *;
    OneMayBeFaulty();
    forall r | r in d
      ensures d[r].reference == r && r.author < 4 && r.digest == 0 && KeepsUp(d[r])
      ensures AncestorsPresent(d, r) && HasParentQuorum(FOUR, d[r])
    {
      LatePresent(wave, complete, r);
    }
    SoundPartsGlobal(d, ALL);
  }

  /** The leader's author, and from round 3 on every block, supports the leader. */
  lemma {:induction false} LateVotes(wave: nat, complete: bool, r: BlockRef)
    requires IsView(FOUR, Late(wave, complete)) && r in Late(wave, complete)
    requires r.round >= 3 || r == Ref(2, 0, 0)
    ensures FindSupported(FOUR, Late(wave, complete), Slot(1, 0), r) == Some(LEADER)
    decreases r.round
  {
    var d := Late(wave, complete);
    LateBlocks(wave, complete, r);
    hide Late;
    assert AncestorsPresent(d, r) && d[r].ancestors[0] in d[r].ancestors;
    if r.round > 2 {
      LateVotes(wave, complete, d[r].ancestors[0]);
    }
    FirstAncestor(FOUR, d, Slot(1, 0), r, LEADER);
  }

  lemma LateCertificate(wave: nat, complete: bool, cert: BlockRef)
    requires wave >= 4 && IsView(FOUR, Late(wave, complete)) && cert in Late(wave, complete) && cert.round == wave
    ensures IsCertificate(FOUR, Late(wave, complete), cert, LEADER)
  {
    var d := Late(wave, complete);
    LateBlocks(wave, complete, cert);
    hide Late;
    assert AncestorsPresent(d, cert);
    var voters := VoteAuthors(FOUR, d, cert, LEADER);
    forall i | 0 <= i < 3
      ensures i in voters
    {
      var vote := d[cert].ancestors[i];
      assert vote in d[cert].ancestors && vote.author == i;
      LateVotes(wave, complete, vote);
    }
    ThreeOfFour(voters);
  }

  lemma LateSupport(wave: nat, complete: bool)
    requires wave >= 4 && IsView(FOUR, Late(wave, complete))
    ensures EnoughSupport(FOUR, Late(wave, complete), wave, LEADER) && LEADER in Late(wave, complete)
  {
    hide Late, IsView, IsCertificate;
    var d := Late(wave, complete);
    var certifiers := SupportAuthors(FOUR, d, wave, LEADER);
    LateBlocks(wave, complete, LEADER);
    forall i | 0 <= i < 3
      ensures i in certifiers
    {
      LateBlocks(wave, complete, Ref(wave, i, 0));
      LateCertificate(wave, complete, Ref(wave, i, 0));
    }
    hide SupportAuthors;
    ThreeOfFour(certifiers);
  }

  lemma LateBlame(wave: nat, complete: bool)
    requires wave >= 2
    ensures EnoughBlame(FOUR, Late(wave, complete), Slot(1, 0)) <==> complete
  {
    var d := Late(wave, complete);
    var blamers := BlameAuthors(d, 2, 0);
    assert LEADER in LateAncestors(Ref(2, 0, 0));
    forall i: Authority
      ensures i in blamers <==> i == 1 || i == 2 || (i == 3 && complete)
    {
      forall r | r in d && r.round == 2 && IsBlame(d[r], 0)
        ensures r.author == 1 || r.author == 2 || (r.author == 3 && complete)
      {
        LateBlocks(wave, complete, r);
      }
      var r := Ref(2, i, 0);
      LateBlocks(wave, complete, r);
    }
    ThreeOfFour(blamers);
  }

  /** The leader is skipped where all blame is seen, and committed where authority 3's is missing. */
  lemma LateDecision(wave: nat, complete: bool)
    requires wave >= 4 && IsView(FOUR, Late(wave, complete))
    ensures DirectDecision(FOUR, Late(wave, complete), wave, Slot(1, 0))
            == Ok(if complete then Skip(Slot(1, 0)) else Commit(LEADER))
  {
    var d := Late(wave, complete);
    var leaders := SupportedLeaders(FOUR, d, wave, Slot(1, 0));
    LateBlame(wave, complete);
    LateSupport(wave, complete);
    forall l | l in leaders
      ensures l == LEADER
    {
      LateBlocks(wave, complete, l);
    }
    Singleton(leaders, LEADER, Undecided(Slot(1, 0)));
  }

  // ----- Commit sequences -----

  /** One leader per round, in every round: authority 0. */
  function EveryRound(wave: nat): (u: UniversalCommitter)
    requires wave >= MINIMUM_WAVE_LENGTH
    ensures u.wave == wave
  {
    UniversalCommitter((round, offset) => 0, wave, Stages(wave, 1, PipelineStages(wave, true)))
  }

  lemma EveryRoundLeads(wave: nat, round: Round)
    requires wave >= MINIMUM_WAVE_LENGTH
    ensures EveryRound(wave).Valid() && EveryRound(wave).Leaders(round) == [Slot(round, 0)]
  {
    BuiltLeaders((round, offset) => 0, wave, 1, true, round);
  }

  lemma EveryRoundDistinct(wave: nat)
    requires wave >= MINIMUM_WAVE_LENGTH
    ensures EveryRound(wave).Valid() && EveryRound(wave).DistinctLeaders()
  {
    EveryRoundLeads(wave, 0);
    forall round: Round
      ensures NoRepeats(EveryRound(wave).Leaders(round))
    {
      EveryRoundLeads(wave, round);
    }
  }

  /** After genesis, the leader of round 1 is the first to be decided. */
  lemma FirstPending(wave: nat, highest: Round)
    requires wave >= MINIMUM_WAVE_LENGTH && highest >= 3
    ensures EveryRound(wave).Valid()
    ensures var slots := EveryRound(wave).PendingSlots(Slot(0, 0), highest); slots != [] && slots[0] == Slot(1, 0)
  {
    var u := EveryRound(wave);
    EveryRoundLeads(wave, 0);
    EveryRoundLeads(wave, 1);
    PendingExact(u, Slot(0, 0), highest);
    assert After([Slot(0, 0)], Slot(0, 0)) == [];
  }

  lemma LateHighest(wave: nat, complete: bool)
    ensures HighestRound(Late(wave, complete)) == wave
  {
    var d := Late(wave, complete);
    LateBlocks(wave, complete, Ref(wave, 0, 0));
    forall r | r in d
      ensures r.round <= wave
    {
      LateBlocks(wave, complete, r);
    }
    hide Late;
  }

  /** A directly decided first slot is the first output. */
  lemma FirstOutput(c: Committee, d: Dag, u: UniversalCommitter, lastDecided: Slot, status: LeaderStatus)
    requires IsView(c, d) && u.Valid() && status.IsDecided() && status.Round() > 0
    requires DecidesFirst(c, d, u, lastDecided, status)
    requires CommitSequence(c, d, u, lastDecided).Ok?
    ensures var output := CommitSequence(c, d, u, lastDecided).value; output != [] && output[0] == status
  {
    var slots := u.PendingSlots(lastDecided, HighestRound(d));
    assert Decisions(c, d, u.wave, slots).Ok?;
    DecisionsUnfold(c, d, u.wave, slots);
    var statuses := Decisions(c, d, u.wave, slots).value;
    assert statuses[0] == status;
    OutputIs(c, d, u, lastDecided, statuses);
    hide CommitSequence, Decisions, DirectDecision;
    assert PastGenesis(statuses) == [status] + PastGenesis(statuses[1..]);
  }

  /** `status` is the direct decision of the first pending slot. */
  ghost predicate DecidesFirst(c: Committee, d: Dag, u: UniversalCommitter, lastDecided: Slot, status: LeaderStatus)
    requires IsView(c, d) && u.Valid()
  {
    var slots := u.PendingSlots(lastDecided, HighestRound(d));
    slots != [] && DirectDecision(c, d, u.wave, slots[0]) == Ok(status)
  }

  /** Two views of `g` output sequences of which one is a prefix of the other. */
  ghost predicate Agree(c: Committee, u: UniversalCommitter, lastDecided: Slot, d: Dag, e: Dag)
    requires IsView(c, d) && IsView(c, e) && u.Valid()
  {
    var s, t := CommitSequence(c, d, u, lastDecided), CommitSequence(c, e, u, lastDecided);
    s.Ok? && t.Ok? && (s.value <= t.value || t.value <= s.value)
  }

  lemma FirstOutputsDiffer(
      c: Committee, d: Dag, e: Dag, u: UniversalCommitter, lastDecided: Slot, s: LeaderStatus, t: LeaderStatus)
    requires IsView(c, d) && IsView(c, e) && u.Valid() && s != t
    requires s.IsDecided() && s.Round() > 0 && DecidesFirst(c, d, u, lastDecided, s)
    requires t.IsDecided() && t.Round() > 0 && DecidesFirst(c, e, u, lastDecided, t)
    ensures !Agree(c, u, lastDecided, d, e)
  {
    hide CommitSequence, DecidesFirst, IsView;
    if Agree(c, u, lastDecided, d, e) {
      FirstOutput(c, d, u, lastDecided, s);
      FirstOutput(c, e, u, lastDecided, t);
    }
  }

  /** With any longer wave, two validators disagree although no authority ever puts two blocks in
      a slot and every block continues its author's last one. */
  lemma LongWavesDisagree(wave: nat)
    requires wave >= 4
    ensures var g, d, u := Late(wave, true), Late(wave, false), EveryRound(wave);
            && IsGlobal(FOUR, g, ALL) && (forall r :: r in g ==> KeepsUp(g[r]))
            && IsView(FOUR, d) && Includes(d, g)
            && u.Valid() && u.DistinctLeaders() && !Agree(FOUR, u, Slot(0, 0), d, g)
  {
    LateViews(wave);
    LateFirst(wave, true);
    LateFirst(wave, false);
    EveryRoundDistinct(wave);
    hide *;
    FirstOutputsDiffer(
      FOUR, Late(wave, false), Late(wave, true), EveryRound(wave), Slot(0, 0), Commit(LEADER), Skip(Slot(1, 0)));
  }

  lemma LateFirst(wave: nat, complete: bool)
    requires wave >= 4
    ensures IsView(FOUR, Late(wave, complete)) && EveryRound(wave).Valid()
    ensures DecidesFirst(FOUR, Late(wave, complete), EveryRound(wave), Slot(0, 0),
                         if complete then Skip(Slot(1, 0)) else Commit(LEADER))
  {
    LateIsGlobal(wave, complete);
    LateHighest(wave, complete);
    LateDecision(wave, complete);
    FirstPending(wave, wave);
    hide Late, EveryRound, DirectDecision, IsView;
  }

  lemma LateViews(wave: nat)
    ensures IsGlobal(FOUR, Late(wave, true), ALL) && IsView(FOUR, Late(wave, false))
    ensures forall r :: r in Late(wave, true) ==> KeepsUp(Late(wave, true)[r])
    ensures Includes(Late(wave, false), Late(wave, true))
  {
    LateIsGlobal(wave, true);
    LateIsGlobal(wave, false);
    hide Late, KeepsUp;
    forall r | r in Late(wave, false)
      ensures r in Late(wave, true) && Late(wave, false)[r] == Late(wave, true)[r]
    {
      LateBlocks(wave, true, r);
      LateBlocks(wave, false, r);
    }
  }

  /** The scan stops two rounds below the highest one, so it leaves out a leader that the round
      after it skips already. */
  lemma SkipMissed()
    ensures var g, u, slot := Late(2, true), EveryRound(DEFAULT_WAVE_LENGTH), Slot(1, 0);
            && IsGlobal(FOUR, g, ALL) && u.Valid() && u.Leaders(1) == [slot]
            && slot.round + 1 == HighestRound(g) && DirectDecision(FOUR, g, u.wave, slot) == Ok(Skip(slot))
            && CommitSequence(FOUR, g, u, Slot(0, 0)) == Ok([])
  {
    LateIsGlobal(2, true);
    LateHighest(2, true);
    LateBlame(2, true);
    EveryRoundLeads(DEFAULT_WAVE_LENGTH, 1);
    NonePending(DEFAULT_WAVE_LENGTH);
    hide Late, EveryRound, CommitSequence, EnoughBlame, IsGlobal;
    NoOutput(FOUR, Late(2, true), EveryRound(DEFAULT_WAVE_LENGTH), Slot(0, 0));
  }

  lemma NonePending(wave: nat)
    requires wave >= MINIMUM_WAVE_LENGTH
    ensures EveryRound(wave).Valid() && EveryRound(wave).PendingSlots(Slot(0, 0), 2) == []
  {
    EveryRoundLeads(wave, 0);
    hide EveryRound;
    PendingExact(EveryRound(wave), Slot(0, 0), 2);
    assert After([Slot(0, 0)], Slot(0, 0)) == [];
  }

  lemma NoOutput(c: Committee, d: Dag, u: UniversalCommitter, lastDecided: Slot)
    requires IsView(c, d) && u.Valid() && u.PendingSlots(lastDecided, HighestRound(d)) == []
    ensures CommitSequence(c, d, u, lastDecided) == Ok([])
  {
  }

  /** Two views of one graph, if they are views of it, agree. */
  ghost predicate AgreesAt(
      c: Committee, g: Dag, honest: set<Authority>, u: UniversalCommitter, lastDecided: Slot, d: Dag, e: Dag)
  {
    IsGlobal(c, g, honest) && u.Valid() && IsView(c, d) && Includes(d, g) && IsView(c, e) && Includes(e, g) ==>
      Agree(c, u, lastDecided, d, e)
  }

  /** Agreement holds at a wave length exactly when it is the default one. */
  lemma AgreementIff(wave: nat)
    requires wave >= MINIMUM_WAVE_LENGTH
    ensures wave == DEFAULT_WAVE_LENGTH
            <==> forall c, g, honest, u: UniversalCommitter, lastDecided, d, e :: u.wave == wave ==>
                   AgreesAt(c, g, honest, u, lastDecided, d, e)
  {
    hide AgreesAt, Late, EveryRound;
    if wave == DEFAULT_WAVE_LENGTH {
      forall c, g, honest, u: UniversalCommitter, lastDecided, d, e | u.wave == wave
        ensures AgreesAt(c, g, honest, u, lastDecided, d, e)
      {
        DefaultAgrees(c, g, honest, u, lastDecided, d, e);
      }
    } else {
      LongWavesRefute(wave);
    }
  }

  lemma LongWavesRefute(wave: nat)
    requires wave >= 4
    ensures !AgreesAt(FOUR, Late(wave, true), ALL, EveryRound(wave), Slot(0, 0), Late(wave, false), Late(wave, true))
  {
    LongWavesDisagree(wave);
    hide Late, EveryRound, CommitSequence, Agree;
  }

  lemma DefaultAgrees(
      c: Committee, g: Dag, honest: set<Authority>, u: UniversalCommitter, lastDecided: Slot, d: Dag, e: Dag)
    requires u.wave == DEFAULT_WAVE_LENGTH
    ensures AgreesAt(c, g, honest, u, lastDecided, d, e)
  {
    hide IsGlobal, IsView, CommitSequence;
    if IsGlobal(c, g, honest) && u.Valid() && IsView(c, d) && Includes(d, g) && IsView(c, e) && Includes(e, g) {
      Agreement.Agreement(c, g, honest, u, lastDecided, d, e);
    }
  }
}
