/** Freeing handles: what FreeHandle and ReleasePrimHandle do to the invariant, and exactly when
    FreeHandle breaks it. */
module HandleFree {
  import opened HandleTable
  import opened HandleOps
  import opened HandleStack
  import opened HandleCounts
  import opened HandleChains
  import opened HandleInv

  /** What releasing a slot does, the chains aside. */
  ghost predicate Released(s: Sys, t: Sys, j: Index) {
    && t.tail == s.tail && t.free == s.free + 1 && s.free < MAX_HANDLES
    && t.hserial == s.hserial && t.made == s.made && t.born == s.born
    && t.created == s.created && t.destroyed == s.destroyed
    && SameCore(s.h[j].(state := Unset), t.h[j])
    && t.openCount == (var ty := s.h[j].htype; s.openCount[ty := Dec32(s.openCount[ty])])
    && (forall x: Index {:trigger t.h[x].freeID} :: t.h[x].freeID == if x == s.free + 1 then j else s.h[x].freeID)
    && (forall x: Index {:trigger t.h[x]} :: x != j ==> SameCore(s.h[x], t.h[x]))
  }

  lemma UnlinkCore(h: Table, p: Index, j: Index, x: Index)
    ensures SameCore(h[x], Unlink(h, p, j)[x]) && Unlink(h, p, j)[x].freeID == h[x].freeID
  {
  }

  lemma ReleaseDoes(s: Sys, j: Index)
    requires StackOk(s) && !s.h[j].state.Unset?
    ensures Released(s, Release(s, j), j)
  {
    hide Unlink, OwnerSlot;
    Room(s, j);
    hide StackOk;
    var p := OwnerSlot(s, s.h[j].owner);
    forall x: Index ensures SameCore(s.h[x], Disown(s, j).h[x]) && Disown(s, j).h[x].freeID == s.h[x].freeID {
      UnlinkCore(s.h, p, j, x);
    }
  }

  lemma ReleasedRest(s: Sys, t: Sys, j: Index)
    requires StackOk(s) && TypesOk(s) && SerialsOk(s) && !s.h[j].state.Unset? && Released(s, t, j)
    ensures StackOk(t) && TypesOk(t) && SerialsOk(t)
  {
    StackVacated(s, t, j);
    TypesVacated(s, t, j);
    forall x: Index | !t.h[x].state.Unset? ensures 1 <= t.born[x] && t.h[x].serial == SerialOf(t.born[x]) {
      assert SameCore(s.h[x], t.h[x]);
    }
  }

  lemma UnlinkDoes(h: Table, p: Index, c: seq<Index>, j: Index)
    requires p != 0 && IsChain(h, p, c) && j in c
    ensures var h' := Unlink(h, p, j);
      && IsChain(h', p, Without(c, j))
      && h'[p].refcount == Dec32(h[p].refcount)
      && (forall x: Index {:trigger h'[x]} :: SameCore(h[x], h'[x]))
      && (forall x: Index {:trigger h'[x]} :: x != p ==> h'[x].refcount == h[x].refcount)
      && (forall x: Index {:trigger h'[x]} :: x != p && x !in c ==> h'[x] == h[x])
  {
    var k :| 0 <= k < |c| && c[k] == j && Without(c, j) == Cut(c, k);
    UnlinkChain(h, p, c, k);
    forall x: Index ensures var h' := Unlink(h, p, j);
      && SameCore(h[x], h'[x]) && (x != p ==> h'[x].refcount == h[x].refcount)
      && (x != p && x !in c ==> h'[x] == h[x])
      && (x == p ==> h'[x].refcount == Dec32(h[x].refcount))
    {
      UnlinkFrame(h, p, c, k, x);
    }
  }

  /** The links after a slot has left its chain, by Disown or not at all. */
  lemma DisownDoes(s: Sys, ch: Chains, j: Index)
    requires ChainsOk(s, ch) && s.h[j].state.Used?
    ensures var t, p := Disown(s, j), OwnerSlot(s, s.h[j].owner);
      && (p != 0 ==> IsChain(t.h, p, Without(ch[p], j)) && t.h[p].refcount == s.h[p].refcount - 1)
      && (forall x: Index {:trigger t.h[x]} :: SameCore(s.h[x], t.h[x]))
      && (forall x: Index {:trigger t.h[x]} :: x != p ==> t.h[x].refcount == s.h[x].refcount)
      && (forall x: Index {:trigger t.h[x]} :: x != p && x !in ch[p] ==> t.h[x] == s.h[x])
      && t == s.(h := t.h)
  {
    var p := OwnerSlot(s, s.h[j].owner);
    if p != 0 {
      assert (j in ch[p]) == Owns(s, p, j);
      OwnsFacts(s, ch, p, j);
      UnlinkDoes(s.h, p, ch[p], j);
    }
  }

  lemma ChainIgnoresState(h: Table, h': Table, q: Index, c: seq<Index>)
    requires IsChain(h, q, c)
    requires forall x: Index {:trigger h'[x]} :: h'[x].prev == h[x].prev && h'[x].next == h[x].next
    ensures IsChain(h', q, c)
  {
    ChainFrame(h, h', q, c);
  }

  lemma LeavesUsed(s: Sys, ch: Chains, j: Index)
    requires StackOk(s) && ChainsOk(s, ch) && s.h[j].state.Used?
    ensures LeftEffect(s, Release(s, j), ch, j)
  {
    Room(s, j);
    DisownDoes(s, ch, j);
    var d, t, p := Disown(s, j), Release(s, j), Chained(s, j);
    assert forall x: Index {:trigger t.h[x]} ::
      t.h[x] == d.h[x].(state := if x == j then Unset else d.h[x].state, freeID := t.h[x].freeID);
    if p != 0 {
      assert s.h[p].state.Identity?;
      ChainIgnoresState(d.h, t.h, p, Without(ch[p], j));
    }
  }

  /** An original that was freed earlier and whose owner has gone, or never was, is on no chain. */
  lemma LeavesFreed(s: Sys, ch: Chains, j: Index)
    requires StackOk(s) && ChainsOk(s, ch) && s.h[j].state.Freed? && OwnerSlot(s, s.h[j].owner) == 0
    ensures LeftEffect(s, Release(s, j), ch, j)
  {
    Room(s, j);
  }

  /** Releasing a slot keeps everything but the clone accounting and the objects. */
  lemma ReleaseKeeps(s: Sys, ch: Chains, j: Index)
    requires StackOk(s) && ChainsOk(s, ch) && TypesOk(s) && SerialsOk(s)
    requires s.h[j].state.Used? || (s.h[j].state.Freed? && OwnerSlot(s, s.h[j].owner) == 0)
    ensures var t := Release(s, j);
      && Released(s, t, j) && LeftEffect(s, t, ch, j)
      && StackOk(t) && TypesOk(t) && SerialsOk(t) && ChainsOk(t, ChainsLeft(s, ch, j))
  {
    var t := Release(s, j);
    ReleaseDoes(s, j);
    if s.h[j].state.Used? { LeavesUsed(s, ch, j); } else { LeavesFreed(s, ch, j); }
    ReleasedRest(s, t, j);
    assert t.h[0].state.Unset? by { assert SameCore(s.h[0], t.h[0]); }
    LeftChains(s, t, ch, j);
  }

  // ----- FreeHandle on a clone -----

  lemma TokenAfter(s: Sys, t: Sys, j: Index, o: Owner)
    requires t.tail == s.tail && !s.h[j].state.Unset? && t.h[j].state.Unset?
    requires forall x: Index {:trigger t.h[x]} :: x != j ==> SameCore(s.h[x], t.h[x])
    ensures OwnerSlot(t, o) == if OwnerSlot(s, o) == j then 0 else OwnerSlot(s, o)
  {
    if o.Token? {
      var q := o.ident % 0x10000;
      if 0 < q <= s.tail && q != j { assert SameCore(s.h[q], t.h[q]); }
    }
  }

  /** The one case in which FreeHandle unlinks a slot a second time: j is the last clone of an
      original that was freed while it had an owner, and that owner still resolves. */
  predicate Stale(s: Sys, j: Index) {
    var m := s.h[j].clone;
    && m != 0 && s.h[m].state.Freed? && s.h[m].refcount == 1
    && OwnerSlot(s, s.h[m].owner) != 0 && OwnerSlot(s, s.h[m].owner) != j
  }

  /** A clone's slot released and its original's count dropped. */
  function Unclone(s: Sys, j: Index): Sys {
    Drop(Release(s, j), s.h[j].clone)
  }

  ghost predicate Parts(s: Sys, ch: Chains) {
    StackOk(s) && ChainsOk(s, ch) && TypesOk(s) && SerialsOk(s)
  }

  lemma DropKeeps(s: Sys, ch: Chains, m: Index)
    requires Parts(s, ch) && Plain(s.h[m])
    ensures Parts(Drop(s, m), ch)
  {
    var t := Drop(s, m);
    assert forall x: Index {:trigger t.h[x]} :: t.h[x] == s.h[x].(refcount := t.h[x].refcount);
    AsideKeeps(s, t);
    Unseen(s, t, ch, m);
  }

  /** The records of all slots but j and m, as the clone accounting sees them. */
  ghost predicate Elsewhere(h: Table, h': Table, j: Index, m: Index) {
    && (forall x: Index {:trigger h'[x]} :: x != j && x != m ==> SameClone(h[x], h'[x]) && h'[x].obj == h[x].obj)
    && (forall x: Index {:trigger h'[x]} :: x != j && x != m && Plain(h[x]) ==> h'[x].refcount == h[x].refcount)
  }

  lemma ElsewhereTrans(h: Table, h1: Table, h2: Table, j: Index, m: Index)
    requires Elsewhere(h, h1, j, m) && Elsewhere(h1, h2, j, m)
    ensures Elsewhere(h, h2, j, m)
  {
    forall x: Index | x != j && x != m
      ensures SameClone(h[x], h2[x]) && h2[x].obj == h[x].obj && (Plain(h[x]) ==> h2[x].refcount == h[x].refcount)
    {
      assert SameClone(h[x], h1[x]) && SameClone(h1[x], h2[x]);
    }
  }

  lemma ReleaseElsewhere(s: Sys, t: Sys, ch: Chains, j: Index, m: Index)
    requires ChainsOk(s, ch) && Released(s, t, j) && LeftEffect(s, t, ch, j)
    ensures Elsewhere(s.h, t.h, j, m)
    ensures m != j && Plain(s.h[m]) ==>
      t.h[m].refcount == s.h[m].refcount && SameCore(s.h[m], t.h[m])
  {
    var p := Chained(s, j);
    assert p != 0 ==> s.h[p].state.Identity?;
    forall x: Index | x != j
      ensures SameClone(s.h[x], t.h[x]) && t.h[x].obj == s.h[x].obj
      ensures (Plain(s.h[x]) ==> t.h[x].refcount == s.h[x].refcount)
    {
      assert SameCore(s.h[x], t.h[x]);
    }
  }

  lemma UncloneKeeps(s: Sys, ch: Chains, j: Index)
    requires Inv(s, ch) && s.h[j].state.Used? && s.h[j].clone != 0
    ensures var t, m := Unclone(s, j), s.h[j].clone;
      && SameCore(s.h[j].(state := Unset), t.h[j])
      && Parts(t, ChainsLeft(s, ch, j)) && Elsewhere(s.h, t.h, j, m)
      && m != j && t.h[j].state.Unset? && t.tail == s.tail
      && t.h[m].refcount == s.h[m].refcount - 1 && SameCore(s.h[m], t.h[m])
      && t.created == s.created && t.destroyed == s.destroyed
      && (forall o: Owner {:trigger OwnerSlot(t, o)} ::
            OwnerSlot(t, o) == if OwnerSlot(s, o) == j then 0 else OwnerSlot(s, o))
  {
    assert Counted(s.h, s.h[j].clone) && Original(s.h[s.h[j].clone]);
    ReleaseKeeps(s, ch, j);
    UncloneFrom(s, Release(s, j), ch, j);
  }

  lemma UncloneFrom(s: Sys, u: Sys, ch: Chains, j: Index)
    requires ChainsOk(s, ch) && s.h[j].state.Used? && s.h[j].clone != 0
    requires Original(s.h[s.h[j].clone]) && s.h[s.h[j].clone].refcount > 0
    requires Released(s, u, j) && LeftEffect(s, u, ch, j) && Parts(u, ChainsLeft(s, ch, j))
    ensures var m := s.h[j].clone; var t := Drop(u, m);
      && SameCore(s.h[j].(state := Unset), t.h[j])
      && Parts(t, ChainsLeft(s, ch, j)) && Elsewhere(s.h, t.h, j, m)
      && m != j && t.h[j].state.Unset? && t.tail == s.tail
      && t.h[m].refcount == s.h[m].refcount - 1 && SameCore(s.h[m], t.h[m])
      && t.created == s.created && t.destroyed == s.destroyed
      && (forall o: Owner {:trigger OwnerSlot(t, o)} ::
            OwnerSlot(t, o) == if OwnerSlot(s, o) == j then 0 else OwnerSlot(s, o))
  {
    var m := s.h[j].clone;
    var t := Drop(u, m);
    ReleaseElsewhere(s, u, ch, j, m);
    DropKeeps(u, ChainsLeft(s, ch, j), m);
    assert forall x: Index {:trigger t.h[x]} :: x != j ==> SameCore(s.h[x], t.h[x]) by {
      assert forall x: Index {:trigger u.h[x]} :: x != j ==> SameCore(s.h[x], u.h[x]);
    }
    forall o: Owner ensures OwnerSlot(t, o) == if OwnerSlot(s, o) == j then 0 else OwnerSlot(s, o) {
      TokenAfter(s, t, j, o);
    }
  }

  lemma LastCloneMeansFreed(h: Table, j: Index)
    requires ClonesOk(h) && h[j].state.Used? && h[j].clone != 0 && h[h[j].clone].refcount == 1
    ensures h[h[j].clone].state.Freed?
  {
    assert Counted(h, h[j].clone) && j in ClonesOf(h, h[j].clone);
  }

  lemma ObjectsUncloned(s: Sys, t: Sys, j: Index, m: Index)
    requires ObjectsOk(s) && s.h[j].clone == m != 0 && t.h[j].state.Unset?
    requires HeldBy(t.h[m]) == HeldBy(s.h[m]) && Elsewhere(s.h, t.h, j, m)
    requires t.created == s.created && t.destroyed == s.destroyed
    ensures ObjectsOk(t)
  {
    HeldSame(s.h, t.h);
  }

  lemma ObjectsDied(s: Sys, t: Sys, j: Index, m: Index)
    requires ObjectsOk(s) && Original(s.h[m]) && t.h[m].state.Unset?
    requires j != m ==> s.h[j].clone == m != 0 && t.h[j].state.Unset?
    requires Elsewhere(s.h, t.h, j, m)
    requires t.created == s.created && t.destroyed == s.destroyed + [Object(s.h[m].htype, s.h[m].obj)]
    ensures ObjectsOk(t)
  {
    HeldUpdate(s.h, t.h, m);
    hide Held;
    assert multiset(t.destroyed) == multiset(s.destroyed) + HeldBy(s.h[m]);
    Regroup(multiset(s.destroyed), HeldBy(s.h[m]), Held(s.h), Held(t.h));
  }

  lemma Regroup(d: multiset<Object>, x: multiset<Object>, before: multiset<Object>, after: multiset<Object>)
    requires after + x == before + multiset{}
    ensures (d + x) + after == d + before
  {
    assert (d + x) + after == d + (after + x);
    assert before + multiset{} == before;
  }

  lemma FreeCloneSurvived(s: Sys, ch: Chains, j: Index)
    requires Inv(s, ch) && s.h[j].state.Used? && s.h[j].clone != 0 && s.h[s.h[j].clone].refcount > 1
    ensures Inv(Unclone(s, j), ChainsLeft(s, ch, j))
  {
    var t, m := Unclone(s, j), s.h[j].clone;
    UncloneKeeps(s, ch, j);
    ClonesReleased(s.h, t.h, j);
    ObjectsUncloned(s, t, j, m);
  }

  /** An original on no chain is destroyed. */
  lemma DestroyFreed(t: Sys, ch: Chains, m: Index)
    requires Parts(t, ch) && t.h[m].state.Freed? && OwnerSlot(t, t.h[m].owner) == 0
    ensures var u := Destroy(t, m);
      && Parts(u, ch) && Elsewhere(t.h, u.h, m, m) && SameCore(t.h[m].(state := Unset), u.h[m])
      && u.created == t.created && u.destroyed == t.destroyed + [Object(t.h[m].htype, t.h[m].obj)]
      && (forall x: Index {:trigger u.h[x]} :: x != m ==> SameCore(t.h[x], u.h[x]))
  {
    var t' := t.(destroyed := t.destroyed + [Object(t.h[m].htype, t.h[m].obj)]);
    AsideKeeps(t, t');
    Unseen(t, t', ch, m);
    assert OwnerSlot(t', t'.h[m].owner) == 0;
    ReleaseKeeps(t', ch, m);
    ReleaseElsewhere(t', Destroy(t, m), ch, m, m);
  }

  /** What destroying an original does to the other slots, whatever unlinking it does to the links. */
  lemma DestroyDoes(t: Sys, m: Index)
    requires StackOk(t) && !t.h[m].state.Unset?
    ensures var u := Destroy(t, m);
      && u.tail == t.tail && SameCore(t.h[m].(state := Unset), u.h[m])
      && u.destroyed == t.destroyed + [Object(t.h[m].htype, t.h[m].obj)]
      && (forall x: Index {:trigger u.h[x]} :: x != m ==> SameCore(t.h[x], u.h[x]))
  {
    var t' := t.(destroyed := t.destroyed + [Object(t.h[m].htype, t.h[m].obj)]);
    StackSame(t, t');
    ReleaseDoes(t', m);
  }

  lemma FreeCloneLast(s: Sys, ch: Chains, j: Index)
    requires Inv(s, ch) && s.h[j].state.Used? && s.h[j].clone != 0 && s.h[s.h[j].clone].refcount == 1
    requires !Stale(s, j)
    ensures Inv(Destroy(Unclone(s, j), s.h[j].clone), ChainsLeft(s, ch, j))
  {
    var t, m := Unclone(s, j), s.h[j].clone;
    UncloneKeeps(s, ch, j);
    LastCloneMeansFreed(s.h, j);
    DestroyFreed(t, ChainsLeft(s, ch, j), m);
    var u := Destroy(t, m);
    assert SameCore(t.h[j], u.h[j]);
    ElsewhereTrans(s.h, t.h, u.h, j, m);
    ClonesReleased(s.h, u.h, j);
    ObjectsDied(s, u, j, m);
  }

  // ----- FreeHandle on an original -----

  /** An original without clones, its count dropped to zero, is destroyed. */
  lemma FreeOriginalAlone(s: Sys, ch: Chains, j: Index)
    requires Inv(s, ch) && s.h[j].state.Used? && s.h[j].clone == 0 && s.h[j].refcount == 1
    ensures Inv(Destroy(Drop(s, j), j), ChainsLeft(s, ch, j))
  {
    var t := Doom(s, j);
    DoomKeeps(s, ch, j);
    ReleaseKeeps(t, ch, j);
    AloneRest(s, t, Release(t, j), ch, j);
  }

  /** The state in which ReleasePrimHandle is called on a dying original. */
  function Doom(s: Sys, j: Index): Sys {
    Drop(s, j).(destroyed := s.destroyed + [Object(s.h[j].htype, s.h[j].obj)])
  }

  lemma DoomKeeps(s: Sys, ch: Chains, j: Index)
    requires Parts(s, ch) && s.h[j].state.Used?
    ensures Parts(Doom(s, j), ch) && Chained(Doom(s, j), j) == Chained(s, j)
    ensures Elsewhere(s.h, Doom(s, j).h, j, j)
  {
    var d, t := Drop(s, j), Doom(s, j);
    DropKeeps(s, ch, j);
    AsideKeeps(d, t);
    Unseen(d, t, ch, j);
    SameTokens(s, t, s.h[j].owner);
  }

  lemma AloneRest(s: Sys, t: Sys, u: Sys, ch: Chains, j: Index)
    requires Inv(s, ch) && s.h[j].state.Used? && s.h[j].clone == 0 && s.h[j].refcount == 1
    requires t == Doom(s, j) && Elsewhere(s.h, t.h, j, j) && Chained(t, j) == Chained(s, j)
    requires ChainsOk(t, ch) && Released(t, u, j) && LeftEffect(t, u, ch, j) && Parts(u, ChainsLeft(t, ch, j))
    ensures Inv(u, ChainsLeft(s, ch, j))
  {
    ReleaseElsewhere(t, u, ch, j, j);
    ElsewhereTrans(s.h, t.h, u.h, j, j);
    ClonesDied(s.h, u.h, j);
    ObjectsDied(s, u, j, j);
  }

  lemma SameTokens(s: Sys, t: Sys, o: Owner)
    requires t.tail == s.tail
    requires forall x: Index {:trigger t.h[x]} :: t.h[x].state == s.h[x].state && t.h[x].serial == s.h[x].serial
    ensures OwnerSlot(t, o) == OwnerSlot(s, o)
  {
  }

  function Mark(s: Sys, j: Index): Sys {
    var t := Drop(s, j);
    t.(h := t.h[j := t.h[j].(state := Freed)])
  }

  lemma MarkToken(s: Sys, ch: Chains, j: Index)
    requires ChainsOk(s, ch) && s.h[j].state.Used?
    ensures OwnerSlot(Mark(s, j), s.h[j].owner) == OwnerSlot(s, s.h[j].owner)
  {
    if s.h[j].owner.Token? {
      assert s.h[OwnerSlot(s, s.h[j].owner)].state.Identity?;
      ResolveStable(s, Mark(s, j), s.h[j].owner);
    }
  }

  lemma MarkLeaves(s: Sys, ch: Chains, j: Index)
    requires ChainsOk(s, ch) && s.h[j].state.Used?
    ensures var t := Disown(Mark(s, j), j);
      && LeftEffect(s, t, ch, j)
      && t == s.(h := t.h)
      && t.h[j].state.Freed? && t.h[j].htype == s.h[j].htype && t.h[j].serial == s.h[j].serial
      && t.h[j].owner == s.h[j].owner
      && t.h[j].obj == s.h[j].obj && t.h[j].refcount == Dec32(s.h[j].refcount)
      && (forall x: Index {:trigger t.h[x].freeID} :: t.h[x].freeID == s.h[x].freeID)
  {
    var u, p := Mark(s, j), Chained(s, j);
    MarkToken(s, ch, j);
    if p != 0 {
      assert (j in ch[p]) == Owns(s, p, j);
      OwnsFacts(s, ch, p, j);
      ChainIgnoresState(s.h, u.h, p, ch[p]);
      UnlinkDoes(u.h, p, ch[p], j);
      UnlinkCores(u.h, p, j);
    }
  }

  lemma UnlinkCores(h: Table, p: Index, j: Index)
    ensures forall x: Index {:trigger Unlink(h, p, j)[x]} ::
      Unlink(h, p, j)[x].freeID == h[x].freeID && SameCore(h[x], Unlink(h, p, j)[x])
  {
    forall x: Index ensures Unlink(h, p, j)[x].freeID == h[x].freeID && SameCore(h[x], Unlink(h, p, j)[x]) {
      UnlinkCore(h, p, j, x);
    }
  }

  /** An original with clones stays for them, marked as freed, off its owner's chain. */
  lemma FreeOriginalCloned(s: Sys, ch: Chains, j: Index)
    requires Inv(s, ch) && s.h[j].state.Used? && s.h[j].clone == 0 && s.h[j].refcount > 1
    ensures Inv(Disown(Mark(s, j), j), ChainsLeft(s, ch, j))
  {
    var t := Disown(Mark(s, j), j);
    MarkLeaves(s, ch, j);
    MarkedRest(s, t, ch, j);
  }

  lemma MarkedRest(s: Sys, t: Sys, ch: Chains, j: Index)
    requires Inv(s, ch) && s.h[j].state.Used? && s.h[j].clone == 0 && s.h[j].refcount > 1
    requires LeftEffect(s, t, ch, j) && t == s.(h := t.h)
    requires t.h[j].state.Freed? && t.h[j].htype == s.h[j].htype && t.h[j].serial == s.h[j].serial
    requires t.h[j].obj == s.h[j].obj && t.h[j].refcount == Dec32(s.h[j].refcount)
    requires forall x: Index {:trigger t.h[x].freeID} :: t.h[x].freeID == s.h[x].freeID
    ensures Inv(t, ChainsLeft(s, ch, j))
  {
    var p := Chained(s, j);
    assert p != 0 ==> s.h[p].state.Identity?;
    assert forall x: Index {:trigger t.h[x]} :: x != j ==> SameCore(s.h[x], t.h[x]);
    assert Elsewhere(s.h, t.h, j, j);
    assert t.h[0].state.Unset?;
    hide ChainsOk, Held;
    LeftChains(s, t, ch, j);
    AsideKeeps(s, t);
    ClonesFreed(s.h, t.h, j);
    HeldSame(s.h, t.h);
  }

  // ----- FreeHandle -----

  lemma FreeSlotCases(s: Sys, j: Index)
    ensures FreeSlot(s, j) ==
      if s.h[j].clone != 0 then
        (if Unclone(s, j).h[s.h[j].clone].refcount == 0 then Destroy(Unclone(s, j), s.h[j].clone) else Unclone(s, j))
      else
        (if Dec32(s.h[j].refcount) == 0 then Destroy(Drop(s, j), j) else Disown(Mark(s, j), j))
  {
  }

  /** Outside the stale case FreeHandle keeps the invariant, and the only chain that changes is that
      of the handle's owner, which loses the handle. */
  lemma FreeKeeps(s: Sys, ch: Chains, j: Index)
    requires Inv(s, ch) && s.h[j].state.Used? && !Stale(s, j)
    ensures Inv(FreeSlot(s, j), ChainsLeft(s, ch, j))
  {
    FreeSlotCases(s, j);
    if s.h[j].clone != 0 {
      var m := s.h[j].clone;
      UncloneKeeps(s, ch, j);
      assert Counted(s.h, m) && Original(s.h[m]);
      if s.h[m].refcount == 1 { FreeCloneLast(s, ch, j); } else { FreeCloneSurvived(s, ch, j); }
    } else {
      assert Counted(s.h, j);
      if s.h[j].refcount == 1 { FreeOriginalAlone(s, ch, j); } else { FreeOriginalCloned(s, ch, j); }
    }
  }
}
