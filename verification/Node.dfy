/**
 The state of one block-producing validator, the invariant every run keeps, and why receiving
 blocks and proposing one preserve it.
 */
module Nodes {
  import opened Blocks
  import opened Committees
  import opened Dags
  import opened ThresholdClocks

  type Pending = map<Round, seq<Block>>

  /** Everything accepted so far, the last own proposal, the blocks waiting to be referenced by
      round, and the clock. */
  datatype Node = Node(known: Dag, last: Block, pending: Pending, clock: ClockState)

  predicate IsPending(pending: Pending, b: Block) {
    b.Round() in pending && b in pending[b.Round()]
  }

  ghost function KnownAuthors(d: Dag, round: Round): set<Authority> {
    set r | r in d && r.round == round :: r.author
  }

  // ----- The invariant -----

  ghost predicate SoundBlocks(c: Committee, d: Dag) {
    IsView(c, d) && forall r :: r in d ==> HasParentQuorum(c, d[r])
  }

  ghost predicate PendingKnown(n: Node) {
    forall round, b :: round in n.pending && b in n.pending[round]
                       ==> b.Round() == round && b.reference in n.known && n.known[b.reference] == b
  }

  /** Blocks from the last proposal's round on are all still pending. */
  ghost predicate RecentPending(n: Node) {
    forall r :: r in n.known && r.round >= n.last.Round() ==> IsPending(n.pending, n.known[r])
  }

  /** Every block is pending, or the last proposal or in its history: none is lost. */
  ghost predicate NothingLost(c: Committee, n: Node)
    requires IsView(c, n.known) && n.last.reference in n.known
  {
    forall r :: r in n.known ==> Accounted(c, n, r)
  }

  ghost predicate Accounted(c: Committee, n: Node, r: BlockRef)
    requires IsView(c, n.known) && n.last.reference in n.known && r in n.known
  {
    IsPending(n.pending, n.known[r]) || r == n.last.reference || Reaches(c, n.known, n.last.reference, r)
  }

  /** The clock has counted known authors only, and a quorum of the round before it. */
  ghost predicate ClockSound(c: Committee, d: Dag, s: ClockState) {
    && s.votes <= KnownAuthors(d, s.round)
    && (s.round > 0 ==> c.IsQuorum(KnownAuthors(d, s.round - 1)))
  }

  ghost predicate ClockCovers(d: Dag, s: ClockState) {
    forall r :: r in d ==> r.round <= s.round
  }

  ghost predicate NodeInv(c: Committee, own: Authority, n: Node) {
    && SoundBlocks(c, n.known)
    && c.Exists(own)
    && n.last.reference in n.known && n.known[n.last.reference] == n.last && n.last.Author() == own
    && PendingKnown(n)
    && RecentPending(n)
    && NothingLost(c, n)
    && ClockSound(c, n.known, n.clock)
    && ClockCovers(n.known, n.clock)
    && NeverEquivocates(n.known, own)
    && (forall r :: r in n.known && r.author == own ==> r.round <= n.last.Round())
  }

  // ----- The clock -----

  /** A block brings a quorum of parents, so jumping to its round is sound. */
  lemma TickSound(c: Committee, d: Dag, s: ClockState, r: BlockRef)
    requires SoundBlocks(c, d) && r in d && ClockSound(c, d, s)
    ensures ClockSound(c, d, Tick(c, s, r)) && r.round <= Tick(c, s, r).round && s.round <= Tick(c, s, r).round
  {
    assert r.author in KnownAuthors(d, r.round);
    if r.round > s.round {
      assert HasParentQuorum(c, d[r]) && AncestorsPresent(d, r);
      QuorumMonotone(c, ParentAuthors(d[r]), KnownAuthors(d, r.round - 1));
    } else if r.round == s.round {
      QuorumMonotone(c, s.votes + {r.author}, KnownAuthors(d, s.round));
    }
  }

  lemma {:induction false} TicksSound(c: Committee, d: Dag, s: ClockState, refs: seq<BlockRef>)
    requires SoundBlocks(c, d) && ClockSound(c, d, s) && forall r :: r in refs ==> r in d
    ensures ClockSound(c, d, Ticks(c, s, refs)) && s.round <= Ticks(c, s, refs).round
    ensures forall r :: r in refs ==> r.round <= Ticks(c, s, refs).round
  {
    if refs != [] {
      var front, last := refs[..|refs| - 1], refs[|refs| - 1];
      assert refs == front + [last];
      TicksSound(c, d, s, front);
      TickSound(c, d, Ticks(c, s, front), last);
    }
  }

  lemma ClockSoundGrows(c: Committee, small: Dag, large: Dag, s: ClockState)
    requires Includes(small, large) && ClockSound(c, small, s)
    ensures ClockSound(c, large, s)
  {
    assert KnownAuthors(small, s.round) <= KnownAuthors(large, s.round);
    if s.round > 0 {
      QuorumMonotone(c, KnownAuthors(small, s.round - 1), KnownAuthors(large, s.round - 1));
    }
  }

  // ----- Proposing -----

  /** The pending blocks below a round. */
  ghost function PendingBelow(pending: Pending, round: Round): set<Block> {
    set r, b | r in pending && r < round && b in pending[r] :: b
  }

  ghost function ParentsOf(blocks: set<Block>): set<BlockRef> {
    set b, a | b in blocks && a in b.ancestors :: a
  }

  /** The compressed references: those no other block being included references already, and
      the last own proposal. */
  ghost function Compressed(n: Node): set<BlockRef> {
    var blocks := PendingBelow(n.pending, n.clock.round);
    (set b | b in blocks && b.reference !in ParentsOf(blocks) :: b.reference) + {n.last.reference}
  }

  /** A proposal for the clock round that references exactly the compressed references. */
  ghost predicate IsProposal(own: Authority, n: Node, b: Block) {
    && b.Round() == n.clock.round
    && b.Author() == own
    && (forall a :: a in b.ancestors <==> a in Compressed(n))
    && b.reference !in n.known
  }

  ghost predicate CanPropose(c: Committee, own: Authority, n: Node, b: Block) {
    n.last.Round() < n.clock.round && IsProposal(own, n, b)
  }

  /** Compression loses nothing: every block left out is in the history of a referenced one. */
  lemma {:induction false} CompressionCovers(c: Committee, own: Authority, n: Node, b: Block) returns (x: BlockRef)
    requires NodeInv(c, own, n) && b in PendingBelow(n.pending, n.clock.round)
    ensures x in Compressed(n) && x in n.known && b.reference in n.known
    ensures x == b.reference || Reaches(c, n.known, x, b.reference)
    decreases n.clock.round - b.Round()
  {
    var blocks := PendingBelow(n.pending, n.clock.round);
    if b.reference !in ParentsOf(blocks) {
      x := b.reference;
    } else {
      var child :| child in blocks && b.reference in child.ancestors;
      assert AncestorsPresent(n.known, child.reference);
      x := CompressionCovers(c, own, n, child);
      assert Reaches(c, n.known, child.reference, b.reference);
      if x != child.reference {
        ReachesTransitive(c, n.known, x, child.reference, b.reference);
      }
    }
  }

  /** Blocks of the round just below the clock are never compressed away. */
  lemma TopNotCompressed(c: Committee, own: Authority, n: Node, r: BlockRef)
    requires NodeInv(c, own, n) && r in n.known && n.last.Round() < n.clock.round == r.round + 1
    ensures r in Compressed(n)
  {
    var b, blocks := n.known[r], PendingBelow(n.pending, n.clock.round);
    assert IsPending(n.pending, b);
    assert b in blocks;
    forall child | child in blocks
      ensures r !in child.ancestors
    {
      assert child.reference in n.known && AncestorsPresent(n.known, child.reference);
    }
  }

  lemma CompressedKnown(c: Committee, own: Authority, n: Node)
    requires NodeInv(c, own, n) && n.last.Round() < n.clock.round
    ensures forall a :: a in Compressed(n) ==> a in n.known && a.round < n.clock.round
  {
  }

  /** A proposal references lower rounds only and a quorum of the round below. */
  lemma ProposalValid(c: Committee, own: Authority, n: Node, b: Block)
    requires NodeInv(c, own, n) && CanPropose(c, own, n, b)
    ensures HasParentQuorum(c, b) && n.last.reference in b.ancestors
    ensures b.Author() == own && n.last.Round() < b.Round()
    ensures forall a :: a in b.ancestors ==> a in n.known && a.round < b.Round()
  {
    CompressedKnown(c, own, n);
    TopReferenced(c, own, n, b);
    QuorumMonotone(c, KnownAuthors(n.known, n.clock.round - 1), ParentAuthors(b));
  }

  lemma TopReferenced(c: Committee, own: Authority, n: Node, b: Block)
    requires NodeInv(c, own, n) && CanPropose(c, own, n, b)
    ensures KnownAuthors(n.known, n.clock.round - 1) <= ParentAuthors(b)
  {
    hide NodeInv;
    forall author | author in KnownAuthors(n.known, n.clock.round - 1)
      ensures author in ParentAuthors(b)
    {
      var r :| r in n.known && r.round == n.clock.round - 1 && r.author == author;
      TopNotCompressed(c, own, n, r);
    }
  }

  /** Adding a block whose history is known keeps the graph sound. */
  lemma AddedSound(c: Committee, d: Dag, b: Block)
    requires SoundBlocks(c, d) && b.reference !in d && c.Exists(b.Author()) && HasParentQuorum(c, b)
    requires forall a :: a in b.ancestors ==> a in d && a.round < b.Round()
    ensures SoundBlocks(c, d[b.reference := b])
  {
    var e := d[b.reference := b];
    forall r | r in e
      ensures e[r].reference == r && c.Exists(r.author) && AncestorsPresent(e, r) && HasParentQuorum(c, e[r])
    {
      if r != b.reference {
        assert AncestorsPresent(d, r) && HasParentQuorum(c, d[r]);
      }
    }
  }

  lemma ProposalSound(c: Committee, own: Authority, n: Node, b: Block)
    requires NodeInv(c, own, n) && CanPropose(c, own, n, b)
    ensures SoundBlocks(c, n.known[b.reference := b])
  {
    ProposalValid(c, own, n, b);
    AddedSound(c, n.known, b);
  }

  /** The node after proposing: older pending blocks are dropped, the proposal becomes pending. */
  function AfterProposal(c: Committee, n: Node, b: Block): Node {
    var kept := map r | r in n.pending && r >= n.clock.round :: n.pending[r];
    Node(n.known[b.reference := b], b, Push(kept, b), Tick(c, n.clock, b.reference))
  }

  function Push(pending: Pending, b: Block): Pending {
    pending[b.Round() := (if b.Round() in pending then pending[b.Round()] else []) + [b]]
  }

  lemma ProposalReaches(c: Committee, own: Authority, n: Node, b: Block, r: BlockRef)
    requires NodeInv(c, own, n) && CanPropose(c, own, n, b)
    requires SoundBlocks(c, n.known[b.reference := b])
    requires r in n.known && (r.round < n.clock.round || !IsPending(n.pending, n.known[r]))
    ensures Reaches(c, n.known[b.reference := b], b.reference, r)
  {
    var d := n.known[b.reference := b];
    assert Includes(n.known, d);
    var x := n.last.reference;
    assert Accounted(c, n, r);
    if IsPending(n.pending, n.known[r]) {
      x := CompressionCovers(c, own, n, n.known[r]);
    }
    assert x in d[b.reference].ancestors;
    ReachesStable(c, n.known, d, x, r);
  }

  lemma ProposalKeepsPending(c: Committee, n: Node, b: Block)
    requires PendingKnown(n) && RecentPending(n)
    requires n.last.Round() < n.clock.round == b.Round() && b.reference !in n.known
    requires forall r :: r in n.known ==> n.known[r].reference == r
    ensures PendingKnown(AfterProposal(c, n, b)) && RecentPending(AfterProposal(c, n, b))
  {
    var after := AfterProposal(c, n, b);
    forall r | r in after.known && r.round >= b.Round()
      ensures IsPending(after.pending, after.known[r])
    {
      if r != b.reference {
        assert IsPending(n.pending, n.known[r]);
      }
    }
  }

  lemma ProposalLosesNothing(c: Committee, own: Authority, n: Node, b: Block)
    requires NodeInv(c, own, n) && CanPropose(c, own, n, b)
    requires SoundBlocks(c, n.known[b.reference := b])
    ensures NothingLost(c, AfterProposal(c, n, b))
  {
    var after := AfterProposal(c, n, b);
    forall r | r in after.known
      ensures Accounted(c, after, r)
    {
      if r != b.reference && (r.round < n.clock.round || !IsPending(n.pending, n.known[r])) {
        ProposalReaches(c, own, n, b, r);
      }
    }
  }

  /** The proposal is the only own block of its round. */
  lemma ProposalOwn(c: Committee, own: Authority, n: Node, b: Block)
    requires NodeInv(c, own, n) && CanPropose(c, own, n, b)
    ensures NeverEquivocates(n.known[b.reference := b], own)
    ensures forall r :: r in n.known[b.reference := b] && r.author == own ==> r.round <= b.Round()
  {
  }

  /** Proposing keeps the invariant. */
  lemma ProposalKeepsInv(c: Committee, own: Authority, n: Node, b: Block)
    requires NodeInv(c, own, n) && CanPropose(c, own, n, b)
    ensures NodeInv(c, own, AfterProposal(c, n, b))
  {
    hide PendingKnown, RecentPending, NothingLost;
    var after := AfterProposal(c, n, b);
    ProposalSound(c, own, n, b);
    ProposalOwn(c, own, n, b);
    ProposalKeepsPending(c, n, b);
    ProposalLosesNothing(c, own, n, b);
    ClockSoundGrows(c, n.known, after.known, n.clock);
    TickSound(c, after.known, n.clock, b.reference);
  }

  // ----- Receiving -----

  /** What callers promise about received blocks: well formed, with their history known or
      received with them, no two blocks under one reference, and no forged blocks of our own. */
  ghost predicate Receivable(c: Committee, own: Authority, d: Dag, blocks: seq<Block>) {
    && (forall b :: b in blocks ==> c.Exists(b.Author()) && HasParentQuorum(c, b))
    && (forall b, a :: b in blocks && a in b.ancestors ==> a.round < b.Round() && (a in d || ReceivedRef(blocks, a)))
    && OneBlockPerRef(d, blocks)
    && (forall b :: b in blocks && b.Author() == own ==> b.reference in d)
  }

  ghost predicate OneBlockPerRef(d: Dag, blocks: seq<Block>) {
    && (forall b :: b in blocks && b.reference in d ==> d[b.reference] == b)
    && (forall b, e :: b in blocks && e in blocks && b.reference == e.reference ==> b == e)
  }

  ghost predicate ReceivedRef(blocks: seq<Block>, a: BlockRef) {
    exists b :: b in blocks && b.reference == a
  }

  /** The blocks known after some are accepted. */
  function Learn(d: Dag, blocks: seq<Block>): Dag {
    if blocks == [] then d
    else Learn(d, blocks[..|blocks| - 1])[blocks[|blocks| - 1].reference := blocks[|blocks| - 1]]
  }

  function PushAll(pending: Pending, blocks: seq<Block>): Pending {
    if blocks == [] then pending
    else Push(PushAll(pending, blocks[..|blocks| - 1]), blocks[|blocks| - 1])
  }

  lemma {:induction false} LearnExact(d: Dag, blocks: seq<Block>)
    requires OneBlockPerRef(d, blocks)
    ensures Includes(d, Learn(d, blocks))
    ensures forall b :: b in blocks ==> b.reference in Learn(d, blocks) && Learn(d, blocks)[b.reference] == b
    ensures forall r :: r in Learn(d, blocks) ==> r in d || exists b :: b in blocks && b.reference == r
  {
    if blocks != [] {
      var front, last := blocks[..|blocks| - 1], blocks[|blocks| - 1];
      assert blocks == front + [last];
      LearnExact(d, front);
    }
  }

  lemma {:induction false} PushAllExact(pending: Pending, blocks: seq<Block>)
    ensures forall b :: IsPending(PushAll(pending, blocks), b) <==> IsPending(pending, b) || b in blocks
    ensures forall round, b :: round in PushAll(pending, blocks) && b in PushAll(pending, blocks)[round] ==>
              (round in pending && b in pending[round]) || (b in blocks && b.Round() == round)
  {
    if blocks != [] {
      var front, last := blocks[..|blocks| - 1], blocks[|blocks| - 1];
      assert blocks == front + [last];
      PushAllExact(pending, front);
    }
  }

  function Refs(blocks: seq<Block>): (refs: seq<BlockRef>)
    ensures |refs| == |blocks| && forall i :: 0 <= i < |blocks| ==> refs[i] == blocks[i].reference
  {
    seq(|blocks|, i requires 0 <= i < |blocks| => blocks[i].reference)
  }

  /** The node after accepting blocks. */
  function AfterAccepting(c: Committee, n: Node, accepted: seq<Block>): Node {
    n.(known := Learn(n.known, accepted),
       pending := PushAll(n.pending, accepted),
       clock := Ticks(c, n.clock, Refs(accepted)))
  }

  /** Accepting the new blocks among the received ones makes exactly those known. */
  ghost predicate AcceptsNew(n: Node, blocks: seq<Block>, accepted: seq<Block>) {
    && (forall b :: b in accepted ==> b in blocks)
    && (forall b :: b in blocks && b.reference !in n.known ==> b in accepted)
  }

  /** `after` knows and holds pending exactly what `n` did and the accepted blocks. */
  ghost predicate Grown(n: Node, after: Node, accepted: seq<Block>) {
    && after.last == n.last
    && Includes(n.known, after.known)
    && (forall b :: b in accepted ==> b.reference in after.known && after.known[b.reference] == b)
    && (forall r :: r in after.known ==> r in n.known || ReceivedRef(accepted, r))
    && (forall b :: IsPending(after.pending, b) <==> IsPending(n.pending, b) || b in accepted)
    && (forall round, b :: round in after.pending && b in after.pending[round] ==>
          (round in n.pending && b in n.pending[round]) || (b in accepted && b.Round() == round))
  }

  lemma AcceptingGrows(c: Committee, n: Node, accepted: seq<Block>)
    requires OneBlockPerRef(n.known, accepted)
    ensures Grown(n, AfterAccepting(c, n, accepted), accepted)
  {
    LearnExact(n.known, accepted);
    PushAllExact(n.pending, accepted);
  }

  lemma NewBlockSound(
      c: Committee, own: Authority, n: Node, after: Node, blocks: seq<Block>, accepted: seq<Block>, b: Block)
    requires Receivable(c, own, n.known, blocks) && AcceptsNew(n, blocks, accepted) && Grown(n, after, accepted)
    requires b in accepted
    ensures b.reference in after.known && AncestorsPresent(after.known, b.reference)
    ensures c.Exists(b.Author()) && HasParentQuorum(c, b)
  {
    assert b in blocks && after.known[b.reference] == b;
    hide HasParentQuorum, OneBlockPerRef, IsPending;
    forall a | a in b.ancestors
      ensures a in after.known && a.round < b.Round()
    {
      if a !in n.known {
        assert ReceivedRef(blocks, a);
        var e :| e in blocks && e.reference == a;
        assert e in accepted;
      }
    }
  }

  lemma GrownSound(c: Committee, own: Authority, n: Node, after: Node, blocks: seq<Block>, accepted: seq<Block>)
    requires SoundBlocks(c, n.known) && Receivable(c, own, n.known, blocks) && AcceptsNew(n, blocks, accepted)
    requires Grown(n, after, accepted)
    ensures SoundBlocks(c, after.known)
  {
    var d := after.known;
    forall r | r in d
      ensures d[r].reference == r && c.Exists(r.author) && AncestorsPresent(d, r) && HasParentQuorum(c, d[r])
    {
      if r in n.known {
        assert AncestorsPresent(n.known, r) && HasParentQuorum(c, n.known[r]);
      } else {
        var b :| b in accepted && b.reference == r;
        NewBlockSound(c, own, n, after, blocks, accepted, b);
      }
    }
  }

  /** No received block is ours, so we still do not equivocate. */
  lemma GrownOwn(c: Committee, own: Authority, n: Node, after: Node, blocks: seq<Block>, accepted: seq<Block>)
    requires Receivable(c, own, n.known, blocks) && AcceptsNew(n, blocks, accepted) && Grown(n, after, accepted)
    requires NeverEquivocates(n.known, own)
    ensures NeverEquivocates(after.known, own)
    ensures forall r :: r in after.known && r.author == own ==> r in n.known
  {
  }

  lemma GrownPending(c: Committee, n: Node, after: Node, accepted: seq<Block>)
    requires PendingKnown(n) && RecentPending(n) && Grown(n, after, accepted)
    ensures PendingKnown(after) && RecentPending(after)
  {
    forall r | r in after.known && r.round >= n.last.Round()
      ensures IsPending(after.pending, after.known[r])
    {
      if r in n.known {
        assert IsPending(n.pending, n.known[r]);
      } else {
        assert after.known[r] in accepted;
      }
    }
  }

  lemma GrownLosesNothing(c: Committee, n: Node, after: Node, accepted: seq<Block>)
    requires IsView(c, n.known) && IsView(c, after.known) && n.last.reference in n.known
    requires NothingLost(c, n) && Grown(n, after, accepted)
    ensures NothingLost(c, after)
  {
    forall r | r in after.known
      ensures Accounted(c, after, r)
    {
      if r in n.known {
        assert Accounted(c, n, r);
        ReachesStable(c, n.known, after.known, n.last.reference, r);
      } else {
        assert after.known[r] in accepted;
      }
    }
  }

  lemma GrownClock(c: Committee, n: Node, after: Node, accepted: seq<Block>)
    requires SoundBlocks(c, after.known) && Grown(n, after, accepted)
    requires ClockSound(c, n.known, n.clock) && ClockCovers(n.known, n.clock)
    requires after.clock == Ticks(c, n.clock, Refs(accepted))
    ensures ClockSound(c, after.known, after.clock) && ClockCovers(after.known, after.clock)
  {
    ClockSoundGrows(c, n.known, after.known, n.clock);
    forall r
      ensures r in Refs(accepted) <==> ReceivedRef(accepted, r)
    {
      if ReceivedRef(accepted, r) {
        var i :| 0 <= i < |accepted| && accepted[i].reference == r;
        assert Refs(accepted)[i] == r;
      }
      if r in Refs(accepted) {
        var i :| 0 <= i < |accepted| && Refs(accepted)[i] == r;
        assert accepted[i] in accepted;
      }
    }
    TicksSound(c, after.known, n.clock, Refs(accepted));
  }

  /** Receiving keeps the invariant. */
  lemma AcceptingKeepsInv(c: Committee, own: Authority, n: Node, blocks: seq<Block>, accepted: seq<Block>)
    requires NodeInv(c, own, n) && Receivable(c, own, n.known, blocks) && AcceptsNew(n, blocks, accepted)
    ensures NodeInv(c, own, AfterAccepting(c, n, accepted))
  {
    assert OneBlockPerRef(n.known, accepted);
    AcceptingGrows(c, n, accepted);
    hide Receivable, AcceptsNew, Grown, NodeInv, OneBlockPerRef, Learn, PushAll, Ticks;
    GrownKeepsInv(c, own, n, AfterAccepting(c, n, accepted), blocks, accepted);
  }

  lemma GrownKeepsInv(c: Committee, own: Authority, n: Node, after: Node, blocks: seq<Block>, accepted: seq<Block>)
    requires NodeInv(c, own, n) && Receivable(c, own, n.known, blocks) && AcceptsNew(n, blocks, accepted)
    requires Grown(n, after, accepted) && after.clock == Ticks(c, n.clock, Refs(accepted))
    ensures NodeInv(c, own, after)
  {
    assert after.last == n.last && Includes(n.known, after.known);
    hide AcceptsNew, Grown, PendingKnown, RecentPending, NothingLost, ClockSound, ClockCovers, Receivable, Ticks;
    hide SoundBlocks, NeverEquivocates;
    GrownSound(c, own, n, after, blocks, accepted);
    GrownOwn(c, own, n, after, blocks, accepted);
    GrownPending(c, n, after, accepted);
    SoundIsView(c, n.known);
    SoundIsView(c, after.known);
    hide IsView;
    GrownLosesNothing(c, n, after, accepted);
    GrownClock(c, n, after, accepted);
  }

  lemma SoundIsView(c: Committee, d: Dag)
    requires SoundBlocks(c, d)
    ensures IsView(c, d)
  {
  }
}
