/**
 The commit rule as a specification: which blocks vote for, certify, blame and support a
 leader, and what a view decides about a sequence of leader slots.
 */
module CommitRule {
  import opened Outcomes
  import opened Blocks
  import opened Committees
  import opened Dags

  const MINIMUM_WAVE_LENGTH: nat := 3
  const DEFAULT_WAVE_LENGTH: nat := MINIMUM_WAVE_LENGTH

  datatype LeaderStatus = Commit(leader: BlockRef) | Skip(slot: Slot) | Undecided(slot: Slot) {

    function At(): Slot {
      match this
      case Commit(leader) => leader.ToSlot()
      case Skip(s) => s
      case Undecided(s) => s
    }

    function Round(): Round {
      At().round
    }

    predicate IsDecided() {
      !Undecided?
    }
  }

  // ----- Votes -----

  /** The block of `slot` that `r` supports: the first one a depth-first search through
      the ancestors meets, in the order the blocks list them. */
  function FindSupported(c: Committee, d: Dag, slot: Slot, r: BlockRef): Option<BlockRef>
    requires IsView(c, d) && r in d
    decreases r.round, |d[r].ancestors| + 1
  {
    if r.round < slot.round then None else SupportFrom(c, d, slot, r, 0)
  }

  /** The same search, restricted to the ancestors of `r` from position `i` on. */
  function SupportFrom(c: Committee, d: Dag, slot: Slot, r: BlockRef, i: nat): Option<BlockRef>
    requires IsView(c, d) && r in d && i <= |d[r].ancestors|
    decreases r.round, |d[r].ancestors| - i
  {
    if i == |d[r].ancestors| then None
    else
      assert AncestorsPresent(d, r);
      var a := d[r].ancestors[i];
      if a.ToSlot() == slot then Some(a)
      else if a.round <= slot.round then SupportFrom(c, d, slot, r, i + 1)
      else
        var s := FindSupported(c, d, slot, a);
        if s.Some? then s else SupportFrom(c, d, slot, r, i + 1)
  }

  predicate IsVote(c: Committee, d: Dag, vote: BlockRef, leader: BlockRef)
    requires IsView(c, d) && vote in d
  {
    FindSupported(c, d, leader.ToSlot(), vote) == Some(leader)
  }

  // ----- Certificates, blame and support -----

  /** The distinct authors of the votes for `leader` that `cert` references. */
  ghost function VoteAuthors(c: Committee, d: Dag, cert: BlockRef, leader: BlockRef): set<Authority>
    requires IsView(c, d) && cert in d
  {
    assert AncestorsPresent(d, cert);
    set a | a in d[cert].ancestors && IsVote(c, d, a, leader) :: a.author
  }

  ghost predicate IsCertificate(c: Committee, d: Dag, cert: BlockRef, leader: BlockRef)
    requires IsView(c, d) && cert in d
  {
    c.IsQuorum(VoteAuthors(c, d, cert, leader))
  }

  predicate IsBlame(b: Block, leader: Authority) {
    forall a :: a in b.ancestors ==> a.author != leader
  }

  ghost function BlameAuthors(d: Dag, round: Round, leader: Authority): set<Authority> {
    set r | r in d && r.round == round && IsBlame(d[r], leader) :: r.author
  }

  /** The distinct authors of the certificates for `leader` at the decision round. */
  ghost function SupportAuthors(c: Committee, d: Dag, decisionRound: Round, leader: BlockRef): set<Authority>
    requires IsView(c, d)
  {
    set r | r in d && r.round == decisionRound && IsCertificate(c, d, r, leader) :: r.author
  }

  // ----- Deciding one slot -----

  function VotingRound(slot: Slot): Round {
    slot.round + 1
  }

  /** The last round of the wave that starts at the slot. */
  function DecisionRound(wave: nat, slot: Slot): Round
    requires wave >= MINIMUM_WAVE_LENGTH
  {
    slot.round + wave - 1
  }

  ghost predicate EnoughBlame(c: Committee, d: Dag, slot: Slot) {
    c.IsQuorum(BlameAuthors(d, VotingRound(slot), slot.authority))
  }

  ghost predicate EnoughSupport(c: Committee, d: Dag, wave: nat, leader: BlockRef)
    requires IsView(c, d) && wave >= MINIMUM_WAVE_LENGTH
  {
    c.IsQuorum(SupportAuthors(c, d, DecisionRound(wave, leader.ToSlot()), leader))
  }

  /** At most one leader block may qualify: more than one panics. */
  ghost function TheOnly(leaders: set<BlockRef>, otherwise: LeaderStatus): Outcome<LeaderStatus> {
    if leaders == {} then Ok(otherwise)
    else if |leaders| > 1 then Panic
    else
      var l :| l in leaders;
      Ok(Commit(l))
  }

  ghost function SupportedLeaders(c: Committee, d: Dag, wave: nat, slot: Slot): set<BlockRef>
    requires IsView(c, d) && wave >= MINIMUM_WAVE_LENGTH
  {
    set l | l in d && l.ToSlot() == slot && EnoughSupport(c, d, wave, l)
  }

  ghost function DirectDecision(c: Committee, d: Dag, wave: nat, slot: Slot): Outcome<LeaderStatus>
    requires IsView(c, d) && wave >= MINIMUM_WAVE_LENGTH
  {
    if EnoughBlame(c, d, slot) then Ok(Skip(slot))
    else TheOnly(SupportedLeaders(c, d, wave, slot), Undecided(slot))
  }

  /** `anchor` has a certificate for `leader` in its history. */
  ghost predicate HasCertifiedLink(c: Committee, d: Dag, wave: nat, anchor: BlockRef, leader: BlockRef)
    requires IsView(c, d) && anchor in d && wave >= MINIMUM_WAVE_LENGTH
  {
    exists cert :: cert in d && IsLinkedCertificate(c, d, wave, anchor, leader, cert)
  }

  ghost predicate IsLinkedCertificate(
      c: Committee, d: Dag, wave: nat, anchor: BlockRef, leader: BlockRef, cert: BlockRef)
    requires IsView(c, d) && anchor in d && cert in d && wave >= MINIMUM_WAVE_LENGTH
  {
    && cert.round == DecisionRound(wave, leader.ToSlot())
    && Reaches(c, d, anchor, cert)
    && IsCertificate(c, d, cert, leader)
  }

  ghost function LinkedLeaders(c: Committee, d: Dag, wave: nat, anchor: BlockRef, slot: Slot): set<BlockRef>
    requires IsView(c, d) && anchor in d && wave >= MINIMUM_WAVE_LENGTH
  {
    set l | l in d && l.ToSlot() == slot && HasCertifiedLink(c, d, wave, anchor, l)
  }

  ghost function AnchorDecision(
      c: Committee, d: Dag, wave: nat, anchor: BlockRef, slot: Slot): Outcome<LeaderStatus>
    requires IsView(c, d) && anchor in d && wave >= MINIMUM_WAVE_LENGTH
  {
    TheOnly(LinkedLeaders(c, d, wave, anchor, slot), Skip(slot))
  }

  /** The first committed leader at round `from` or later that no undecided one precedes. */
  function FindAnchor(later: seq<LeaderStatus>, from: Round): Option<BlockRef> {
    if later == [] then None
    else if later[0].Round() < from then FindAnchor(later[1..], from)
    else
      match later[0]
      case Commit(leader) => Some(leader)
      case Skip(_) => FindAnchor(later[1..], from)
      case Undecided(_) => None
  }

  ghost predicate CommitsPresent(d: Dag, statuses: seq<LeaderStatus>) {
    forall s :: s in statuses && s.Commit? ==> s.leader in d
  }

  ghost function IndirectDecision(
      c: Committee, d: Dag, wave: nat, slot: Slot, later: seq<LeaderStatus>): Outcome<LeaderStatus>
    requires IsView(c, d) && wave >= MINIMUM_WAVE_LENGTH && CommitsPresent(d, later)
  {
    AnchorPresent(d, later, slot.round + wave);
    match FindAnchor(later, slot.round + wave)
    case Some(anchor) => AnchorDecision(c, d, wave, anchor, slot)
    case None => Ok(Undecided(slot))
  }

  lemma {:induction false} AnchorPresent(d: Dag, later: seq<LeaderStatus>, from: Round)
    requires CommitsPresent(d, later)
    ensures var a := FindAnchor(later, from); a.Some? ==> a.value in d && a.value.round >= from
  {
    if later != [] {
      AnchorPresent(d, later[1..], from);
    }
  }

  // ----- Deciding a sequence of slots -----

  /** The status of `slot`, given the statuses of the slots after it. */
  ghost function SlotDecision(
      c: Committee, d: Dag, wave: nat, slot: Slot, later: seq<LeaderStatus>): Outcome<LeaderStatus>
    requires IsView(c, d) && wave >= MINIMUM_WAVE_LENGTH && CommitsPresent(d, later)
  {
    var direct :- DirectDecision(c, d, wave, slot);
    if direct.IsDecided() then Ok(direct) else IndirectDecision(c, d, wave, slot, later)
  }

  /** Decides the slots from the last to the first. */
  ghost function Decisions(c: Committee, d: Dag, wave: nat, slots: seq<Slot>): (r: Outcome<seq<LeaderStatus>>)
    requires IsView(c, d) && wave >= MINIMUM_WAVE_LENGTH
    ensures r.Ok? ==> StatusesOf(d, slots, r.value)
  {
    if slots == [] then Ok([])
    else
      var later :- Decisions(c, d, wave, slots[1..]);
      var status :- SlotDecision(c, d, wave, slots[0], later);
      Ok([status] + later)
  }

  /** One status per slot, in order, committing only blocks of the view. */
  ghost predicate StatusesOf(d: Dag, slots: seq<Slot>, statuses: seq<LeaderStatus>) {
    && |statuses| == |slots|
    && (forall i :: 0 <= i < |slots| ==> statuses[i].At() == slots[i])
    && CommitsPresent(d, statuses)
  }

  /** The statuses of leaders past genesis. */
  function PastGenesis(statuses: seq<LeaderStatus>): seq<LeaderStatus> {
    if statuses == [] then []
    else (if statuses[0].Round() > 0 then [statuses[0]] else []) + PastGenesis(statuses[1..])
  }

  /** The longest prefix of decided leaders. */
  function DecidedPrefix(statuses: seq<LeaderStatus>): seq<LeaderStatus> {
    if statuses == [] || !statuses[0].IsDecided() then []
    else [statuses[0]] + DecidedPrefix(statuses[1..])
  }
}
