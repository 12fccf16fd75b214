/** When validators keep up with one another, every leader is committed as soon as it can be. */
module Liveness {
  import opened Outcomes
  import opened Blocks
  import opened Committees
  import opened Dags
  import opened CommitRule
  import opened Finality
  import opened LeaderSlots
  import opened Agreement

  ghost function AuthorsAt(d: Dag, round: Round): set<Authority> {
    set r | r in d && r.round == round :: r.author
  }

  /** A quorum puts a block in every round, nobody two, and every block lists all of the round
      below. */
  ghost predicate Lockstep(c: Committee, d: Dag) {
    && (forall round :: 0 <= round <= HighestRound(d) ==> c.IsQuorum(AuthorsAt(d, round)))
    && (forall a :: NeverEquivocates(d, a))
    && (forall r, s :: r in d && s in d && r.round == s.round + 1 ==> s in d[r].ancestors)
  }

  lemma LockstepVote(c: Committee, d: Dag, l: BlockRef, vote: BlockRef)
    requires IsView(c, d) && Lockstep(c, d) && l in d && vote in d && vote.round == l.round + 1
    ensures IsVote(c, d, vote, l)
  {
    assert l in d[vote].ancestors && Reaches(c, d, vote, l);
    FindSupportedExact(c, d, l.ToSlot(), vote);
    var found := FindSupported(c, d, l.ToSlot(), vote);
    ReachesLower(c, d, vote, found.value);
    assert NeverEquivocates(d, l.author);
    hide FindSupported, Reaches;
  }

  lemma LockstepCertificate(c: Committee, d: Dag, l: BlockRef, cert: BlockRef)
    requires IsView(c, d) && Lockstep(c, d) && l in d && cert in d && cert.round == l.round + 2
    ensures IsCertificate(c, d, cert, l)
  {
    var voters := VoteAuthors(c, d, cert, l);
    assert c.IsQuorum(AuthorsAt(d, l.round + 1));
    forall a | a in AuthorsAt(d, l.round + 1)
      ensures a in voters
    {
      var vote :| vote in d && vote.round == l.round + 1 && vote.author == a;
      LockstepVote(c, d, l, vote);
    }
    hide VoteAuthors, AuthorsAt, IsVote;
    QuorumMonotone(c, AuthorsAt(d, l.round + 1), voters);
  }

  lemma LockstepSupport(c: Committee, d: Dag, l: BlockRef)
    requires IsView(c, d) && Lockstep(c, d) && l in d && l.round + 2 <= HighestRound(d)
    ensures EnoughSupport(c, d, DEFAULT_WAVE_LENGTH, l)
  {
    var round := l.round + 2;
    var certifiers := SupportAuthors(c, d, round, l);
    assert c.IsQuorum(AuthorsAt(d, round));
    forall a | a in AuthorsAt(d, round)
      ensures a in certifiers
    {
      var cert :| cert in d && cert.round == round && cert.author == a;
      LockstepCertificate(c, d, l, cert);
    }
    hide SupportAuthors, AuthorsAt, IsCertificate;
    QuorumMonotone(c, AuthorsAt(d, round), certifiers);
  }

  lemma LockstepBlame(c: Committee, d: Dag, l: BlockRef)
    requires IsView(c, d) && Lockstep(c, d) && l in d
    ensures !EnoughBlame(c, d, l.ToSlot())
  {
    forall r | r in d && r.round == l.round + 1
      ensures !IsBlame(d[r], l.author)
    {
      assert l in d[r].ancestors;
    }
    assert BlameAuthors(d, l.round + 1, l.author) == {};
    NobodyIsNoQuorum(c);
  }

  /** Then every leader two rounds below the highest is committed directly. */
  lemma LockstepCommits(c: Committee, d: Dag, l: BlockRef)
    requires IsView(c, d) && Lockstep(c, d) && l in d && l.round + 2 <= HighestRound(d)
    ensures DirectDecision(c, d, DEFAULT_WAVE_LENGTH, l.ToSlot()) == Ok(Commit(l))
  {
    LockstepBlame(c, d, l);
    LockstepSupport(c, d, l);
    assert NeverEquivocates(d, l.author);
    hide Lockstep, EnoughBlame, EnoughSupport, IsView;
    var leaders := SupportedLeaders(c, d, DEFAULT_WAVE_LENGTH, l.ToSlot());
    assert l in leaders && forall m :: m in leaders ==> m == l;
    Singleton(leaders, l, Undecided(l.ToSlot()));
  }

  // ----- The whole sequence -----

  ghost predicate HasLeader(d: Dag, slot: Slot) {
    exists l :: l in d && l.ToSlot() == slot
  }

  ghost function LeaderOf(d: Dag, slot: Slot): (l: BlockRef)
    requires HasLeader(d, slot)
    ensures l in d && l.ToSlot() == slot
  {
    var l :| l in d && l.ToSlot() == slot;
    l
  }

  /** A commit for every slot. */
  ghost function Commits(d: Dag, slots: seq<Slot>): seq<LeaderStatus>
    requires forall slot :: slot in slots ==> HasLeader(d, slot)
  {
    if slots == [] then [] else [Commit(LeaderOf(d, slots[0]))] + Commits(d, slots[1..])
  }

  function PastGenesisSlots(slots: seq<Slot>): seq<Slot> {
    if slots == [] then []
    else (if slots[0].round >= 1 then [slots[0]] else []) + PastGenesisSlots(slots[1..])
  }

  lemma {:induction false} LockstepDecisions(c: Committee, d: Dag, slots: seq<Slot>)
    requires IsView(c, d) && Lockstep(c, d)
    requires forall slot :: slot in slots ==> HasLeader(d, slot) && slot.round + 2 <= HighestRound(d)
    ensures Decisions(c, d, DEFAULT_WAVE_LENGTH, slots) == Ok(Commits(d, slots))
  {
    if slots != [] {
      assert slots[0] in slots;
      hide Lockstep, IsView, DirectDecision, IndirectDecision, HasLeader;
      LockstepDecisions(c, d, slots[1..]);
      LockstepCommits(c, d, LeaderOf(d, slots[0]));
    }
  }

  lemma {:induction false} SlotsKept(slots: seq<Slot>)
    ensures forall slot :: slot in PastGenesisSlots(slots) ==> slot in slots
  {
    if slots != [] {
      SlotsKept(slots[1..]);
    }
  }

  lemma CommitsCons(d: Dag, slot: Slot, rest: seq<Slot>)
    requires HasLeader(d, slot) && forall s :: s in rest ==> HasLeader(d, s)
    ensures Commits(d, [slot] + rest) == [Commit(LeaderOf(d, slot))] + Commits(d, rest)
  {
    assert ([slot] + rest)[1..] == rest;
  }

  lemma PastGenesisCons(a: LeaderStatus, rest: seq<LeaderStatus>)
    ensures PastGenesis([a] + rest) == (if a.Round() > 0 then [a] else []) + PastGenesis(rest)
    ensures a.IsDecided() ==> DecidedPrefix([a] + rest) == [a] + DecidedPrefix(rest)
  {
    assert ([a] + rest)[1..] == rest;
  }

  lemma {:induction false} CommitsPastGenesis(d: Dag, slots: seq<Slot>)
    requires forall slot :: slot in slots ==> HasLeader(d, slot)
    ensures forall slot :: slot in PastGenesisSlots(slots) ==> slot in slots
    ensures PastGenesis(Commits(d, slots)) == Commits(d, PastGenesisSlots(slots))
  {
    SlotsKept(slots);
    if slots != [] {
      var first, rest := slots[0], slots[1..];
      assert slots == [first] + rest && first in slots;
      CommitsPastGenesis(d, rest);
      CommitsCons(d, first, rest);
      PastGenesisCons(Commit(LeaderOf(d, first)), Commits(d, rest));
      assert PastGenesisSlots(slots) == (if first.round >= 1 then [first] else []) + PastGenesisSlots(rest);
      hide PastGenesis, Commits, PastGenesisSlots, HasLeader;
      if first.round >= 1 {
        CommitsCons(d, first, PastGenesisSlots(rest));
      } else {
        assert [] + PastGenesisSlots(rest) == PastGenesisSlots(rest);
      }
    }
  }

  lemma {:induction false} CommitsDecided(d: Dag, slots: seq<Slot>)
    requires forall slot :: slot in slots ==> HasLeader(d, slot)
    ensures DecidedPrefix(Commits(d, slots)) == Commits(d, slots)
  {
    if slots != [] {
      var first, rest := slots[0], slots[1..];
      assert slots == [first] + rest && first in slots;
      CommitsDecided(d, rest);
      CommitsCons(d, first, rest);
      hide Commits, HasLeader;
      PastGenesisCons(Commit(LeaderOf(d, first)), Commits(d, rest));
    }
  }

  lemma PendingLow(u: UniversalCommitter, lastDecided: Slot, highest: Round, slot: Slot)
    requires u.Valid() && highest >= 2 && slot in u.PendingSlots(lastDecided, highest)
    ensures slot.round + 2 <= highest
  {
    var all := u.SlotsBetween(lastDecided.round, LastPending(highest));
    AfterMembers(all, lastDecided, slot);
    SlotsBetweenElected(u, lastDecided.round, LastPending(highest), slot);
  }

  lemma {:induction false} AfterMembers(slots: seq<Slot>, last: Slot, slot: Slot)
    requires slot in After(slots, last)
    ensures slot in slots
  {
    if last in slots && last in slots[1..] {
      AfterMembers(slots[1..], last, slot);
    }
  }

  /** In lockstep, one call commits every pending leader past genesis, in order: all elected slots
      up to two rounds below the highest, and none is left out. */
  lemma SteadyProgress(c: Committee, d: Dag, u: UniversalCommitter, lastDecided: Slot)
    requires IsView(c, d) && Lockstep(c, d) && HighestRound(d) >= 2
    requires u.Valid() && u.wave == DEFAULT_WAVE_LENGTH
    requires forall slot :: slot in u.PendingSlots(lastDecided, HighestRound(d)) ==> HasLeader(d, slot)
    ensures var slots := u.PendingSlots(lastDecided, HighestRound(d));
            && (forall slot :: slot in PastGenesisSlots(slots) ==> slot in slots)
            && CommitSequence(c, d, u, lastDecided) == Ok(Commits(d, PastGenesisSlots(slots)))
  {
    var slots := u.PendingSlots(lastDecided, HighestRound(d));
    hide Lockstep, IsView, HasLeader, UniversalCommitter.PendingSlots, CommitSequence;
    forall slot | slot in slots
      ensures slot.round + 2 <= HighestRound(d)
    {
      PendingLow(u, lastDecided, HighestRound(d), slot);
    }
    LockstepDecisions(c, d, slots);
    CommitsPastGenesis(d, slots);
    CommitsDecided(d, PastGenesisSlots(slots));
    OutputIs(c, d, u, lastDecided, Commits(d, slots));
  }

  /** How far a call reaches: the elected slots after the last decided one, up to two rounds below
      the highest. */
  lemma PendingReach(u: UniversalCommitter, lastDecided: Slot, highest: Round, slot: Slot)
    requires u.Valid() && slot.round > lastDecided.round
    ensures slot in u.PendingSlots(lastDecided, highest) <==> slot in u.Leaders(slot.round) && slot.round + 2 <= highest
  {
    if lastDecided.round <= LastPending(highest) {
      PendingExact(u, lastDecided, highest);
      SlotsBetweenElected(u, lastDecided.round + 1, LastPending(highest), slot);
      OnlyOwnRound(u, lastDecided, slot);
    } else {
      SlotsBetweenElected(u, lastDecided.round, LastPending(highest), slot);
      if slot in u.PendingSlots(lastDecided, highest) {
        AfterMembers(u.SlotsBetween(lastDecided.round, LastPending(highest)), lastDecided, slot);
      }
    }
  }

  lemma OnlyOwnRound(u: UniversalCommitter, lastDecided: Slot, slot: Slot)
    requires u.Valid() && slot.round > lastDecided.round
    ensures slot !in After(u.Leaders(lastDecided.round), lastDecided)
  {
    if slot in After(u.Leaders(lastDecided.round), lastDecided) {
      AfterMembers(u.Leaders(lastDecided.round), lastDecided, slot);
      LeadersFromElected(u, lastDecided.round, 0, slot);
    }
  }
}
