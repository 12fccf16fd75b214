/**
 When a block keeps supporting what an earlier block supports. The search follows the ancestors
 in the order a block lists them, and the validators list them in no particular order.
 */
module SupportOrder {
  import opened Outcomes
  import opened Blocks
  import opened Committees
  import opened Dags
  import opened CommitRule
  import opened Finality
  import opened FourAuthorities

  /** The same blocks, with their ancestors listed in other orders. */
  ghost predicate Reordered(d: Dag, e: Dag) {
    && d.Keys == e.Keys
    && forall r :: r in d ==>
         e[r] == d[r].(ancestors := e[r].ancestors) && multiset(e[r].ancestors) == multiset(d[r].ancestors)
  }

  lemma ReorderedMembers(d: Dag, e: Dag, r: BlockRef, a: BlockRef)
    requires Reordered(d, e) && r in d
    ensures a in e[r].ancestors <==> a in d[r].ancestors
  {
    assert a in multiset(e[r].ancestors) <==> a in multiset(d[r].ancestors);
  }

  lemma ReorderedView(c: Committee, d: Dag, e: Dag)
    requires IsView(c, d) && Reordered(d, e)
    ensures IsView(c, e)
  {
    forall r | r in e
      ensures AncestorsPresent(e, r)
    {
      assert AncestorsPresent(d, r);
      forall a | a in e[r].ancestors
        ensures a in e && a.round < r.round
      {
        ReorderedMembers(d, e, r, a);
      }
    }
  }

  /** Histories do not depend on the order. */
  lemma {:induction false} ReorderedReaches(c: Committee, d: Dag, e: Dag, r: BlockRef, x: BlockRef)
    requires IsView(c, d) && IsView(c, e) && Reordered(d, e) && r in d && Reaches(c, d, r, x)
    ensures Reaches(c, e, r, x)
    decreases r.round
  {
    assert AncestorsPresent(d, r) && AncestorsPresent(e, r);
    var a :| a in d[r].ancestors && (a == x || Reaches(c, d, a, x));
    ReorderedMembers(d, e, r, a);
    if a != x {
      ReorderedReaches(c, d, e, a, x);
    }
  }

  lemma ReorderedBack(d: Dag, e: Dag)
    requires Reordered(d, e)
    ensures Reordered(e, d)
  {
  }

  /** What the first ancestor is or supports, the block supports. */
  lemma FirstAncestor(c: Committee, d: Dag, slot: Slot, r: BlockRef, x: BlockRef)
    requires IsView(c, d) && r in d && d[r].ancestors != [] && AncestorsPresent(d, r) && x.ToSlot() == slot
    requires var a := d[r].ancestors[0];
             a == x || (a.round > slot.round && FindSupported(c, d, slot, a) == Some(x))
    ensures FindSupported(c, d, slot, r) == Some(x)
  {
    assert d[r].ancestors[0] in d[r].ancestors;
    assert SupportFrom(c, d, slot, r, 0) == Some(x);
  }

  /** Where `r` lists a way to `y`. */
  ghost function WayTo(c: Committee, d: Dag, r: BlockRef, y: BlockRef): (i: nat)
    requires IsView(c, d) && r in d && Reaches(c, d, r, y)
    ensures i < |d[r].ancestors| && AncestorsPresent(d, r)
    ensures d[r].ancestors[i] == y || Reaches(c, d, d[r].ancestors[i], y)
  {
    assert AncestorsPresent(d, r);
    var a :| a in d[r].ancestors && (a == y || Reaches(c, d, a, y));
    var i: nat :| i < |d[r].ancestors| && d[r].ancestors[i] == a;
    i
  }

  function ToFront(refs: seq<BlockRef>, i: nat): (front: seq<BlockRef>)
    requires i < |refs|
    ensures front != [] && front[0] == refs[i] && multiset(front) == multiset(refs)
  {
    assert refs == refs[..i] + [refs[i]] + refs[i + 1..];
    [refs[i]] + refs[..i] + refs[i + 1..]
  }

  /** The order in which every block lists a way to `y` first, if it has one. */
  ghost function Favouring(c: Committee, d: Dag, y: BlockRef): (e: Dag)
    requires IsView(c, d)
    ensures Reordered(d, e)
  {
    map r | r in d :: d[r].(ancestors :=
      if Reaches(c, d, r, y) then ToFront(d[r].ancestors, WayTo(c, d, r, y)) else d[r].ancestors)
  }

  /** In that order every block with `y` in its history supports it. */
  lemma {:induction false} FavouredSupported(c: Committee, d: Dag, y: BlockRef, r: BlockRef)
    requires IsView(c, d) && r in d && Reaches(c, d, r, y) && IsView(c, Favouring(c, d, y))
    ensures FindSupported(c, Favouring(c, d, y), y.ToSlot(), r) == Some(y)
    decreases r.round
  {
    var e, a := Favouring(c, d, y), d[r].ancestors[WayTo(c, d, r, y)];
    assert e[r].ancestors != [] && e[r].ancestors[0] == a;
    assert AncestorsPresent(d, r) && AncestorsPresent(e, r) && a in d[r].ancestors;
    if a != y {
      ReachesLower(c, d, a, y);
      FavouredSupported(c, d, y, a);
    }
    hide Favouring;
    FirstAncestor(c, e, y.ToSlot(), r, y);
  }

  ghost predicate OnlyAtSlot(c: Committee, d: Dag, slot: Slot, r: BlockRef, x: BlockRef)
    requires IsView(c, d) && r in d
  {
    forall y: BlockRef :: y.ToSlot() == slot && Reaches(c, d, r, y) ==> y == x
  }

  ghost predicate AlwaysSupports(c: Committee, d: Dag, slot: Slot, r: BlockRef, x: BlockRef)
    requires r in d
  {
    forall e :: Reordered(d, e) && IsView(c, e) ==> FindSupported(c, e, slot, r) == Some(x)
  }

  /** A block supports `x` however ancestors are listed exactly when its history holds no other
      block of the slot. */
  lemma OrderFreeIff(c: Committee, d: Dag, slot: Slot, r: BlockRef, x: BlockRef)
    requires IsView(c, d) && r in d && x.ToSlot() == slot && Reaches(c, d, r, x)
    ensures AlwaysSupports(c, d, slot, r, x) <==> OnlyAtSlot(c, d, slot, r, x)
  {
    if OnlyAtSlot(c, d, slot, r, x) {
      forall e | Reordered(d, e) && IsView(c, e)
        ensures FindSupported(c, e, slot, r) == Some(x)
      {
        OnlySupported(c, d, e, slot, r, x);
      }
    } else {
      var y: BlockRef :| y.ToSlot() == slot && Reaches(c, d, r, y) && y != x;
      ReorderedView(c, d, Favouring(c, d, y));
      FavouredSupported(c, d, y, r);
    }
  }

  lemma OnlySupported(c: Committee, d: Dag, e: Dag, slot: Slot, r: BlockRef, x: BlockRef)
    requires IsView(c, d) && r in d && x.ToSlot() == slot && Reaches(c, d, r, x) && OnlyAtSlot(c, d, slot, r, x)
    requires Reordered(d, e) && IsView(c, e)
    ensures FindSupported(c, e, slot, r) == Some(x)
  {
    FindSupportedExact(c, e, slot, r);
    ReorderedReaches(c, d, e, r, x);
    ReorderedBack(d, e);
    ReorderedReaches(c, e, d, r, FindSupported(c, e, slot, r).value);
  }

  /** So support carries over to every block that includes `a`, directly or not, and has only
      one block of the slot in its history. */
  lemma SupportKept(c: Committee, d: Dag, slot: Slot, a: BlockRef, r: BlockRef, x: BlockRef)
    requires IsView(c, d) && a in d && r in d && Reaches(c, d, r, a)
    requires FindSupported(c, d, slot, a) == Some(x) && OnlyAtSlot(c, d, slot, r, x)
    ensures AlwaysSupports(c, d, slot, r, x) && FindSupported(c, d, slot, r) == Some(x)
  {
    FindSupportedExact(c, d, slot, a);
    ReachesTransitive(c, d, r, a, x);
    OrderFreeIff(c, d, slot, r, x);
    assert Reordered(d, d);
  }

  // ----- A graph where support changes -----

  /** Authority 0 puts two blocks in round 1; authority 2 references one, the others the other. */
  function Listed(r: BlockRef): seq<BlockRef> {
    if r.round == 0 then []
    else if r.round < 3 then
      var below := r.round - 1;
      [Ref(below, 0, if r.ToSlot() == Slot(2, 2) then 1 else 0), Ref(below, 1, 0), Ref(below, 2, 0), Ref(below, 3, 0)]
    else [Ref(2, 2, 0), Ref(2, 1, 0), Ref(2, 3, 0)]
  }

  predicate IsForked(r: BlockRef) {
    && r.round <= 3 && r.author < 4
    && (r.digest == 0 || (r.digest == 1 && r.ToSlot() == Slot(1, 0)))
    && (r.round == 2 ==> r.author != 0) && (r.round == 3 ==> r.author == 1)
  }

  function Forked(): Dag {
    var refs := set round: Round, author: Authority, digest: Digest |
                  0 <= round <= 3 && 0 <= author < 4 && 0 <= digest <= 1 :: Ref(round, author, digest);
    map r | r in refs && IsForked(r) :: Block(r, Listed(r), [])
  }

  lemma ForkedBlocks(r: BlockRef)
    ensures r in Forked() <==> IsForked(r)
    ensures r in Forked() ==> Forked()[r] == Block(r, Listed(r), [])
  {
    if IsForked(r) {
      assert r == Ref(r.round, r.author, r.digest);
    }
  }

  lemma ForkedListed(r: BlockRef)
    requires IsForked(r)
    ensures forall a :: a in Listed(r) ==> IsForked(a) && a.round + 1 == r.round
  {
  }

  lemma ForkedBlock(r: BlockRef)
    requires IsForked(r)
    ensures HasParentQuorum(FOUR, Block(r, Listed(r), [])) && KeepsUp(Block(r, Listed(r), []))
  {
    var b := Block(r, Listed(r), []);
    hide HasParentQuorum, KeepsUp;
    if r.round == 0 {
      GenesisParents(b);
    } else if r.round < 3 {
      FourParents(b, b.ancestors[0], b.ancestors[1], b.ancestors[2], b.ancestors[3]);
    } else {
      ThreeParents(b, b.ancestors[0], b.ancestors[1], b.ancestors[2]);
    }
  }

  lemma ForkedPresent(r: BlockRef)
    requires r in Forked()
    ensures var d := Forked();
            && d[r].reference == r && r.author < 4 && (r.author in LAST_THREE ==> r.digest == 0)
            && AncestorsPresent(d, r) && HasParentQuorum(FOUR, d[r]) && KeepsUp(d[r])
  {
    var d := Forked();
    ForkedBlocks(r);
    ForkedBlock(r);
    ForkedListed(r);
    hide Forked, Listed, HasParentQuorum, KeepsUp;
    forall a | a in d[r].ancestors
      ensures a in d
    {
      ForkedBlocks(a);
    }
  }

  lemma ForkedParts()
    ensures var d := Forked();
            && (forall r :: r in d ==>
                  d[r].reference == r && r.author < 4 && (r.author in LAST_THREE ==> r.digest == 0))
            && (forall r :: r in d ==> AncestorsPresent(d, r))
            && (forall r :: r in d ==> HasParentQuorum(FOUR, d[r]))
            && (forall r :: r in d ==> KeepsUp(d[r]))
  {
    hide *;
    forall r | r in Forked() {
      ForkedPresent(r);
    }
  }

  lemma ForkedIsGlobal()
    ensures IsGlobal(FOUR, Forked(), LAST_THREE)
    ensures forall r :: r in Forked() ==> KeepsUp(Forked()[r])
  {
    hide *;
    OneMayBeFaulty();
    ForkedParts();
    SoundPartsGlobal(Forked(), LAST_THREE);
  }

  /** Under the very assumptions of the commit rule, an honest author supports one block of a
      slot, and then, in a block that includes the first, another one. */
  lemma SupportChanges()
    ensures IsGlobal(FOUR, Forked(), LAST_THREE) && forall r :: r in Forked() ==> KeepsUp(Forked()[r])
    ensures var d, slot, earlier, later := Forked(), Slot(1, 0), Ref(2, 1, 0), Ref(3, 1, 0);
            && earlier in d && later in d && earlier in d[later].ancestors
            && FindSupported(FOUR, d, slot, earlier) == Some(Ref(1, 0, 0))
            && FindSupported(FOUR, d, slot, later) == Some(Ref(1, 0, 1))
  {
    ForkedIsGlobal();
    var d, slot, rival, earlier, later := Forked(), Slot(1, 0), Ref(2, 2, 0), Ref(2, 1, 0), Ref(3, 1, 0);
    ForkedBlocks(earlier);
    ForkedBlocks(rival);
    ForkedBlocks(later);
    hide Forked, IsGlobal, KeepsUp;
    assert AncestorsPresent(d, earlier) && AncestorsPresent(d, rival) && AncestorsPresent(d, later);
    FirstAncestor(FOUR, d, slot, earlier, Ref(1, 0, 0));
    FirstAncestor(FOUR, d, slot, rival, Ref(1, 0, 1));
    FirstAncestor(FOUR, d, slot, later, Ref(1, 0, 1));
    assert earlier == d[later].ancestors[1];
  }
}
