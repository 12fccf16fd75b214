/**
 Why a decision can never be contradicted: at the default wave length, direct commits and
 direct skips are final across all views, and at most one block of a slot is ever certified.
 */
module Finality {
  import opened Outcomes
  import opened Blocks
  import opened Committees
  import opened Dags
  import opened CommitRule

  // ----- The search for the supported block -----

  /** The search finds a block of the slot in the history of `r` exactly when there is one,
      at any wave length. */
  lemma {:induction false} FindSupportedExact(c: Committee, d: Dag, slot: Slot, r: BlockRef)
    requires IsView(c, d) && r in d
    ensures var s := FindSupported(c, d, slot, r);
            && (s.Some? ==> s.value.ToSlot() == slot && Reaches(c, d, r, s.value))
            && (s.None? ==> forall x: BlockRef :: x.ToSlot() == slot ==> !Reaches(c, d, r, x))
    decreases r.round, |d[r].ancestors| + 1
  {
    if r.round >= slot.round {
      SupportFromExact(c, d, slot, r, 0);
      assert d[r].ancestors[0..] == d[r].ancestors;
    } else {
      forall x: BlockRef | x.ToSlot() == slot
        ensures !Reaches(c, d, r, x)
      {
        if Reaches(c, d, r, x) {
          ReachesLower(c, d, r, x);
        }
      }
    }
  }

  lemma {:induction false} SupportFromExact(c: Committee, d: Dag, slot: Slot, r: BlockRef, i: nat)
    requires IsView(c, d) && r in d && i <= |d[r].ancestors|
    ensures var s := SupportFrom(c, d, slot, r, i);
            && AncestorsPresent(d, r)
            && (s.Some? ==> s.value.ToSlot() == slot && Reaches(c, d, r, s.value))
            && (s.None? ==> forall a, x: BlockRef :: a in d[r].ancestors[i..] && x.ToSlot() == slot
                                           ==> a != x && !Reaches(c, d, a, x))
    decreases r.round, |d[r].ancestors| - i
  {
    assert AncestorsPresent(d, r);
    if i < |d[r].ancestors| {
      var a := d[r].ancestors[i];
      assert d[r].ancestors[i..] == [a] + d[r].ancestors[i + 1..];
      FindSupportedExact(c, d, slot, a);
      SupportFromExact(c, d, slot, r, i + 1);
      forall x: BlockRef | x.ToSlot() == slot && a.round <= slot.round
        ensures !Reaches(c, d, a, x)
      {
        if Reaches(c, d, a, x) {
          ReachesLower(c, d, a, x);
        }
      }
    }
  }

  /** What a block supports does not depend on how much else a view has seen. */
  lemma {:induction false} SupportStable(c: Committee, small: Dag, large: Dag, slot: Slot, r: BlockRef)
    requires IsView(c, small) && IsView(c, large) && Includes(small, large) && r in small
    ensures FindSupported(c, small, slot, r) == FindSupported(c, large, slot, r)
    decreases r.round, |small[r].ancestors| + 1
  {
    SupportFromStable(c, small, large, slot, r, 0);
  }

  lemma {:induction false} SupportFromStable(
      c: Committee, small: Dag, large: Dag, slot: Slot, r: BlockRef, i: nat)
    requires IsView(c, small) && IsView(c, large) && Includes(small, large) && r in small
    requires i <= |small[r].ancestors|
    ensures SupportFrom(c, small, slot, r, i) == SupportFrom(c, large, slot, r, i)
    decreases r.round, |small[r].ancestors| - i
  {
    if i < |small[r].ancestors| {
      assert AncestorsPresent(small, r);
      SupportStable(c, small, large, slot, small[r].ancestors[i]);
      SupportFromStable(c, small, large, slot, r, i + 1);
    }
  }

  lemma CertificateStable(c: Committee, small: Dag, large: Dag, cert: BlockRef, leader: BlockRef)
    requires IsView(c, small) && IsView(c, large) && Includes(small, large) && cert in small
    ensures IsCertificate(c, small, cert, leader) <==> IsCertificate(c, large, cert, leader)
  {
    assert AncestorsPresent(small, cert);
    forall a | a in small[cert].ancestors
      ensures IsVote(c, small, a, leader) <==> IsVote(c, large, a, leader)
    {
      SupportStable(c, small, large, leader.ToSlot(), a);
    }
    assert VoteAuthors(c, small, cert, leader) == VoteAuthors(c, large, cert, leader);
  }

  /** Seeing more blocks only adds blame, support and certified links. */
  lemma EvidenceGrows(c: Committee, small: Dag, large: Dag, wave: nat, slot: Slot, leader: BlockRef)
    requires IsView(c, small) && IsView(c, large) && Includes(small, large)
    requires wave >= MINIMUM_WAVE_LENGTH
    ensures EnoughBlame(c, small, slot) ==> EnoughBlame(c, large, slot)
    ensures EnoughSupport(c, small, wave, leader) ==> EnoughSupport(c, large, wave, leader)
  {
    var voting, decision := VotingRound(slot), DecisionRound(wave, leader.ToSlot());
    QuorumMonotone(c, BlameAuthors(small, voting, slot.authority), BlameAuthors(large, voting, slot.authority));
    forall r | r in small
      ensures IsCertificate(c, small, r, leader) <==> IsCertificate(c, large, r, leader)
    {
      CertificateStable(c, small, large, r, leader);
    }
    QuorumMonotone(c, SupportAuthors(c, small, decision, leader), SupportAuthors(c, large, decision, leader));
  }

  /** An anchor's history links it to the same certified blocks in every view that has it. */
  lemma LinkedLeadersStable(c: Committee, small: Dag, large: Dag, wave: nat, anchor: BlockRef, slot: Slot)
    requires IsView(c, small) && IsView(c, large) && Includes(small, large) && anchor in small
    requires wave >= MINIMUM_WAVE_LENGTH
    ensures LinkedLeaders(c, small, wave, anchor, slot) == LinkedLeaders(c, large, wave, anchor, slot)
  {
    forall l, cert | cert in small
      ensures IsLinkedCertificate(c, small, wave, anchor, l, cert)
              <==> IsLinkedCertificate(c, large, wave, anchor, l, cert)
    {
      CertificateStable(c, small, large, cert, l);
      ReachesStable(c, small, large, anchor, cert);
    }
    forall l, cert | cert in large && IsLinkedCertificate(c, large, wave, anchor, l, cert)
      ensures cert in small && l in small
    {
      ReachesStable(c, small, large, anchor, cert);
      ReachesLower(c, small, anchor, cert);
      CertificateStable(c, small, large, cert, l);
      CertifiedPresent(c, small, cert, l);
    }
  }

  /** A view that has a certificate has the leader block it certifies. */
  lemma CertifiedPresent(c: Committee, d: Dag, cert: BlockRef, leader: BlockRef)
    requires IsView(c, d) && cert in d && IsCertificate(c, d, cert, leader)
    ensures leader in d
  {
    var author := QuorumInhabited(c, VoteAuthors(c, d, cert, leader));
    assert AncestorsPresent(d, cert);
    var a :| a in d[cert].ancestors && IsVote(c, d, a, leader) && a.author == author;
    FindSupportedExact(c, d, leader.ToSlot(), a);
    ReachesLower(c, d, a, leader);
  }

  // ----- Finality at the default wave length -----

  /** A certificate two rounds above the leader only counts votes of the round between. */
  lemma VoteAt(c: Committee, d: Dag, cert: BlockRef, leader: BlockRef, author: Authority) returns (vote: BlockRef)
    requires IsView(c, d) && cert in d && cert.round == leader.round + 2
    requires author in VoteAuthors(c, d, cert, leader)
    ensures vote in d && vote.author == author && vote.round == leader.round + 1
    ensures IsVote(c, d, vote, leader) && leader in d[vote].ancestors
  {
    assert AncestorsPresent(d, cert);
    vote :| vote in d[cert].ancestors && IsVote(c, d, vote, leader) && vote.author == author;
    FindSupportedExact(c, d, leader.ToSlot(), vote);
    ReachesLower(c, d, vote, leader);
    assert AncestorsPresent(d, vote);
    var a :| a in d[vote].ancestors && (a == leader || Reaches(c, d, a, leader));
    if a != leader {
      ReachesLower(c, d, a, leader);
    }
  }

  /** Even when a leader equivocates, at most one of its blocks is ever certified. */
  lemma UniqueCertified(
      c: Committee, g: Dag, honest: set<Authority>,
      cert1: BlockRef, leader1: BlockRef, cert2: BlockRef, leader2: BlockRef)
    requires IsGlobal(c, g, honest) && cert1 in g && cert2 in g
    requires leader1.ToSlot() == leader2.ToSlot()
    requires cert1.round == leader1.round + 2 == cert2.round
    requires IsCertificate(c, g, cert1, leader1) && IsCertificate(c, g, cert2, leader2)
    ensures leader1 == leader2
  {
    var a := HonestInBoth(c, VoteAuthors(c, g, cert1, leader1), VoteAuthors(c, g, cert2, leader2), honest);
    var vote1 := VoteAt(c, g, cert1, leader1, a);
    var vote2 := VoteAt(c, g, cert2, leader2, a);
    assert NeverEquivocates(g, a);
  }

  /** Direct skips are final: a quorum of blame rules out any certificate, in any view. */
  lemma BlameIsFinal(c: Committee, g: Dag, honest: set<Authority>, slot: Slot, cert: BlockRef, leader: BlockRef)
    requires IsGlobal(c, g, honest) && cert in g
    requires EnoughBlame(c, g, slot)
    requires leader.ToSlot() == slot && cert.round == slot.round + 2
    ensures !IsCertificate(c, g, cert, leader)
  {
    if IsCertificate(c, g, cert, leader) {
      var a := HonestInBoth(
        c, BlameAuthors(g, VotingRound(slot), slot.authority), VoteAuthors(c, g, cert, leader), honest);
      var vote := VoteAt(c, g, cert, leader, a);
      assert false;
    }
  }

  /** Every block above a round reaches, at that round, a block of an honest member of any
      quorum of authors. */
  lemma {:induction false} QuorumInHistory(
      c: Committee, g: Dag, honest: set<Authority>, r: BlockRef, round: Round, authors: set<Authority>)
      returns (x: BlockRef)
    requires IsGlobal(c, g, honest) && r in g && r.round > round
    requires c.IsQuorum(authors)
    ensures x in g && Reaches(c, g, r, x) && x.round == round && x.author in authors && x.author in honest
    decreases r.round
  {
    assert HasParentQuorum(c, g[r]);
    assert AncestorsPresent(g, r);
    if r.round == round + 1 {
      var a := HonestInBoth(c, ParentAuthors(g[r]), authors, honest);
      x :| x in g[r].ancestors && x.round + 1 == r.round && x.author == a;
    } else {
      var a := QuorumInhabited(c, ParentAuthors(g[r]));
      var p :| p in g[r].ancestors && p.round + 1 == r.round && p.author == a;
      x := QuorumInHistory(c, g, honest, p, round, authors);
    }
  }

  /** Direct commits are final: once a quorum certifies a leader, every block from the round
      after the certificates on has one of them in its history. */
  lemma SupportIsFinal(c: Committee, g: Dag, honest: set<Authority>, leader: BlockRef, r: BlockRef)
    requires IsGlobal(c, g, honest) && r in g
    requires EnoughSupport(c, g, DEFAULT_WAVE_LENGTH, leader)
    requires r.round >= leader.round + DEFAULT_WAVE_LENGTH
    ensures HasCertifiedLink(c, g, DEFAULT_WAVE_LENGTH, r, leader)
  {
    var decision := DecisionRound(DEFAULT_WAVE_LENGTH, leader.ToSlot());
    var x := QuorumInHistory(c, g, honest, r, decision, SupportAuthors(c, g, decision, leader));
    var cert :| cert in g && cert.round == decision && IsCertificate(c, g, cert, leader) && cert.author == x.author;
    assert NeverEquivocates(g, x.author);
    assert IsLinkedCertificate(c, g, DEFAULT_WAVE_LENGTH, r, leader, cert);
  }

  // ----- What each decision means for all views -----

  ghost predicate AtMostOne(leaders: set<BlockRef>) {
    forall l, k :: l in leaders && k in leaders ==> l == k
  }

  lemma Singleton(leaders: set<BlockRef>, l: BlockRef, otherwise: LeaderStatus)
    requires l in leaders && AtMostOne(leaders)
    ensures TheOnly(leaders, otherwise) == Ok(Commit(l))
  {
    assert leaders == {l};
  }

  lemma OnlyNeverPanics(leaders: set<BlockRef>, otherwise: LeaderStatus)
    requires AtMostOne(leaders)
    ensures TheOnly(leaders, otherwise).Ok?
  {
    if leaders != {} {
      var l :| l in leaders;
      Singleton(leaders, l, otherwise);
    }
  }

  /** Choosing panics exactly when two blocks qualify. */
  lemma PanicsIff(leaders: set<BlockRef>, otherwise: LeaderStatus)
    ensures TheOnly(leaders, otherwise).Panic? <==> !AtMostOne(leaders)
    ensures TheOnly(leaders, otherwise) == Ok(otherwise) || leaders != {}
  {
    if AtMostOne(leaders) {
      OnlyNeverPanics(leaders, otherwise);
    } else {
      var a, b :| a in leaders && b in leaders && a != b;
      assert {a, b} <= leaders;
      CardinalityGrows({a, b}, leaders);
    }
  }

  lemma {:induction false} CardinalityGrows(a: set<BlockRef>, b: set<BlockRef>)
    requires a <= b
    ensures |a| <= |b|
    decreases a
  {
    if a != {} {
      var x :| x in a;
      CardinalityGrows(a - {x}, b - {x});
    }
  }

  /** Whatever the view, deciding directly panics exactly when the slot is not blamed enough and two
      of its blocks have enough support; deciding from an anchor, when it is linked to two. */
  lemma DecisionPanicsIff(c: Committee, d: Dag, wave: nat, anchor: BlockRef, slot: Slot)
    requires IsView(c, d) && anchor in d && wave >= MINIMUM_WAVE_LENGTH
    ensures DirectDecision(c, d, wave, slot).Panic?
            <==> !EnoughBlame(c, d, slot)
                 && exists a, b :: Supported(c, d, wave, slot, a) && Supported(c, d, wave, slot, b) && a != b
    ensures AnchorDecision(c, d, wave, anchor, slot).Panic?
            <==> exists a, b :: Linked(c, d, wave, anchor, slot, a) && Linked(c, d, wave, anchor, slot, b) && a != b
  {
    var supported, linked := SupportedLeaders(c, d, wave, slot), LinkedLeaders(c, d, wave, anchor, slot);
    PanicsIff(supported, Undecided(slot));
    PanicsIff(linked, Skip(slot));
    assert forall l :: l in supported <==> Supported(c, d, wave, slot, l);
    assert forall l :: l in linked <==> Linked(c, d, wave, anchor, slot, l);
    hide TheOnly, Supported, Linked, SupportedLeaders, LinkedLeaders, EnoughBlame, IsView;
  }

  ghost predicate Supported(c: Committee, d: Dag, wave: nat, slot: Slot, l: BlockRef)
    requires IsView(c, d) && wave >= MINIMUM_WAVE_LENGTH
  {
    l in d && l.ToSlot() == slot && EnoughSupport(c, d, wave, l)
  }

  ghost predicate Linked(c: Committee, d: Dag, wave: nat, anchor: BlockRef, slot: Slot, l: BlockRef)
    requires IsView(c, d) && anchor in d && wave >= MINIMUM_WAVE_LENGTH
  {
    l in d && l.ToSlot() == slot && HasCertifiedLink(c, d, wave, anchor, l)
  }

  lemma SupportHasCertificate(c: Committee, d: Dag, leader: BlockRef) returns (cert: BlockRef)
    requires IsView(c, d) && EnoughSupport(c, d, DEFAULT_WAVE_LENGTH, leader)
    ensures cert in d && cert.round == leader.round + 2 && IsCertificate(c, d, cert, leader)
  {
    var decision := DecisionRound(DEFAULT_WAVE_LENGTH, leader.ToSlot());
    var a := QuorumInhabited(c, SupportAuthors(c, d, decision, leader));
    cert :| cert in d && cert.round == decision && IsCertificate(c, d, cert, leader) && cert.author == a;
  }

  /** A view never has enough support for two blocks of a slot... */
  lemma SupportedUnique(c: Committee, g: Dag, honest: set<Authority>, d: Dag, slot: Slot)
    requires IsGlobal(c, g, honest) && IsView(c, d) && Includes(d, g)
    ensures AtMostOne(SupportedLeaders(c, d, DEFAULT_WAVE_LENGTH, slot))
  {
    var leaders := SupportedLeaders(c, d, DEFAULT_WAVE_LENGTH, slot);
    forall l, k | l in leaders && k in leaders
      ensures l == k
    {
      var cert1 := SupportHasCertificate(c, d, l);
      var cert2 := SupportHasCertificate(c, d, k);
      CertificateStable(c, d, g, cert1, l);
      CertificateStable(c, d, g, cert2, k);
      UniqueCertified(c, g, honest, cert1, l, cert2, k);
    }
  }

  /** ... and no anchor is linked to two of them. */
  lemma LinkedUnique(c: Committee, g: Dag, honest: set<Authority>, d: Dag, anchor: BlockRef, slot: Slot)
    requires IsGlobal(c, g, honest) && IsView(c, d) && Includes(d, g) && anchor in d
    ensures AtMostOne(LinkedLeaders(c, d, DEFAULT_WAVE_LENGTH, anchor, slot))
  {
    var leaders := LinkedLeaders(c, d, DEFAULT_WAVE_LENGTH, anchor, slot);
    forall l, k | l in leaders && k in leaders
      ensures l == k
    {
      var cert1 :| cert1 in d && IsLinkedCertificate(c, d, DEFAULT_WAVE_LENGTH, anchor, l, cert1);
      var cert2 :| cert2 in d && IsLinkedCertificate(c, d, DEFAULT_WAVE_LENGTH, anchor, k, cert2);
      CertificateStable(c, d, g, cert1, l);
      CertificateStable(c, d, g, cert2, k);
      UniqueCertified(c, g, honest, cert1, l, cert2, k);
    }
  }

  /** So the panics on more than one certified block are unreachable, for direct decisions... */
  lemma DirectNeverPanics(c: Committee, g: Dag, honest: set<Authority>, d: Dag, slot: Slot)
    requires IsGlobal(c, g, honest) && IsView(c, d) && Includes(d, g)
    ensures DirectDecision(c, d, DEFAULT_WAVE_LENGTH, slot).Ok?
  {
    SupportedUnique(c, g, honest, d, slot);
    OnlyNeverPanics(SupportedLeaders(c, d, DEFAULT_WAVE_LENGTH, slot), Undecided(slot));
  }

  /** ... and for decisions from an anchor. */
  lemma AnchorNeverPanics(c: Committee, g: Dag, honest: set<Authority>, d: Dag, anchor: BlockRef, slot: Slot)
    requires IsGlobal(c, g, honest) && IsView(c, d) && Includes(d, g) && anchor in d
    ensures AnchorDecision(c, d, DEFAULT_WAVE_LENGTH, anchor, slot).Ok?
  {
    LinkedUnique(c, g, honest, d, anchor, slot);
    OnlyNeverPanics(LinkedLeaders(c, d, DEFAULT_WAVE_LENGTH, anchor, slot), Skip(slot));
  }

  /** No anchor contradicts a direct decision made in any other view. */
  lemma AnchorAgreesWithDirect(
      c: Committee, g: Dag, honest: set<Authority>, d: Dag, e: Dag, anchor: BlockRef, slot: Slot)
    requires IsGlobal(c, g, honest)
    requires IsView(c, d) && Includes(d, g) && IsView(c, e) && Includes(e, g)
    requires anchor in e && anchor.round >= slot.round + DEFAULT_WAVE_LENGTH
    requires DirectDecision(c, d, DEFAULT_WAVE_LENGTH, slot).Ok?
    requires DirectDecision(c, d, DEFAULT_WAVE_LENGTH, slot).value.IsDecided()
    ensures AnchorDecision(c, e, DEFAULT_WAVE_LENGTH, anchor, slot) == DirectDecision(c, d, DEFAULT_WAVE_LENGTH, slot)
  {
    var w := DEFAULT_WAVE_LENGTH;
    LinkedLeadersStable(c, e, g, w, anchor, slot);
    if EnoughBlame(c, d, slot) {
      EvidenceGrows(c, d, g, w, slot, anchor);
      forall l | l in LinkedLeaders(c, g, w, anchor, slot)
        ensures false
      {
        var cert :| cert in g && IsLinkedCertificate(c, g, w, anchor, l, cert);
        BlameIsFinal(c, g, honest, slot, cert, l);
      }
      assert LinkedLeaders(c, g, w, anchor, slot) == {};
    } else {
      var leaders := SupportedLeaders(c, d, w, slot);
      var l :| l in leaders && DirectDecision(c, d, w, slot) == Ok(Commit(l));
      EvidenceGrows(c, d, g, w, slot, l);
      SupportIsFinal(c, g, honest, l, anchor);
      LinkedUnique(c, g, honest, g, anchor, slot);
      Singleton(LinkedLeaders(c, g, w, anchor, slot), l, Skip(slot));
    }
  }

  /** A direct decision is made again, with the same outcome, in every larger view. */
  lemma DirectStable(c: Committee, g: Dag, honest: set<Authority>, small: Dag, large: Dag, slot: Slot)
    requires IsGlobal(c, g, honest)
    requires IsView(c, small) && IsView(c, large) && Includes(small, large) && Includes(large, g)
    requires DirectDecision(c, small, DEFAULT_WAVE_LENGTH, slot).Ok?
    requires DirectDecision(c, small, DEFAULT_WAVE_LENGTH, slot).value.IsDecided()
    ensures DirectDecision(c, large, DEFAULT_WAVE_LENGTH, slot) == DirectDecision(c, small, DEFAULT_WAVE_LENGTH, slot)
  {
    var w := DEFAULT_WAVE_LENGTH;
    if EnoughBlame(c, small, slot) {
      EvidenceGrows(c, small, large, w, slot, BlockRef(0, 0, 0));
    } else {
      var l :| l in SupportedLeaders(c, small, w, slot) && DirectDecision(c, small, w, slot) == Ok(Commit(l));
      EvidenceGrows(c, small, large, w, slot, l);
      var cert := SupportHasCertificate(c, large, l);
      CertificateStable(c, large, g, cert, l);
      if EnoughBlame(c, large, slot) {
        EvidenceGrows(c, large, g, w, slot, l);
        BlameIsFinal(c, g, honest, slot, cert, l);
        assert false;
      }
      SupportedUnique(c, g, honest, large, slot);
      Singleton(SupportedLeaders(c, large, w, slot), l, Undecided(slot));
    }
  }
}
