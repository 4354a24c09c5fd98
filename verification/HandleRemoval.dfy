/** RemoveType on any system: what the sweep does when freed originals of the type have owners that still
    resolve, and exactly when it keeps the invariant. */
module HandleRemoval {
  import opened HandleTable
  import opened HandleOps
  import opened HandleStack
  import opened HandleCounts
  import opened HandleChains
  import opened HandleInv
  import opened HandleFree
  import opened HandleSweep
  import opened HandleLevel

  function Only(ty: TypeId): Types { (t: TypeId) => t == ty }

  /** The sweep at slot i; nothing is said of the chains. */
  ghost predicate SweepCore(s: Sys, ty: TypeId, i: nat) {
    Ground(s, Only(ty)) && Sweeping(s.h, ty, i) && ObjectsOk(s)
  }

  lemma GoesReleased(s: Sys, j: Index, of: Types)
    requires Ground(s, of) && Plain(s.h[j]) && Owes(s.h[j], of)
    ensures var t := Release(s, j); Ground(t, of) && Goes(s, t, j) && SameLevels(s, t, of)
  {
    hide Release, StackOk, TypesOk, SerialsOk, SameLevels;
    ReleaseGround(s, j, of);
    ReleaseCounts(s, j);
    GoesMade(s, Release(s, j), j, of);
  }

  lemma GoesMade(s: Sys, t: Sys, j: Index, of: Types)
    requires Fit(s, of) && Released(s, t, j) && Plain(s.h[j]) && Owes(s.h[j], of)
    requires forall x: Index {:trigger t.h[x]} :: var p := OwnerSlot(s, s.h[j].owner);
      t.h[x].refcount == if x == p && p != 0 then Dec32(s.h[x].refcount) else s.h[x].refcount
    ensures Goes(s, t, j)
  {
    forall x: Index | x != j ensures SameCore(s.h[x], t.h[x]) {
    }
  }

  lemma DropSlight(s: Sys, m: Index)
    requires !s.h[m].state.Identity?
    ensures Slight(s, Drop(s, m)) && forall ty :: Shrinks(s, Drop(s, m), ty)
  {
  }

  lemma DestroyGone(s: Sys, m: Index, of: Types)
    requires Ground(s, of) && Plain(s.h[m]) && Owes(s.h[m], of)
    ensures Ground(Destroy(s, m), of) && SameLevels(s, Destroy(s, m), of)
    ensures var d := s.destroyed + [Object(s.h[m].htype, s.h[m].obj)];
      Goes(s.(destroyed := d), Destroy(s, m), m)
  {
    hide Ground, SameLevels, Release, Goes;
    var t := s.(destroyed := s.destroyed + [Object(s.h[m].htype, s.h[m].obj)]);
    SlightGround(s, t, of);
    GoesReleased(t, m, of);
    LevelsTrans(s, t, Release(t, m), of);
  }

  lemma CoreAtClone(s: Sys, ty: TypeId, i: Index)
    requires SweepCore(s, ty, i) && s.h[i].state.Used? && s.h[i].htype == ty && s.h[i].clone != 0
    ensures var u := SweepSlot(s, ty, i);
      SweepCore(u, ty, i + 1) && Shrinks(s, u, ty) && SameLevels(s, u, Only(ty))
  {
    hide Ground, SameLevels, Release, Destroy, Drop, Sweeping, ObjectsOk;
    var m, of := s.h[i].clone, Only(ty);
    CloneFacts(s.h, ty, i);
    var t := Drop(s, m);
    DropSlight(s, m);
    DropIs(s, m);
    SlightGround(s, t, of);
    if t.h[m].refcount == 0 {
      DestroyGone(t, m, of);
      var u := Destroy(t, m);
      assert u.h[i].state == t.h[i].state && u.h[i].htype == ty by {
        assert SameCore(t.h[i].(state := u.h[i].state), u.h[i]);
      }
      GoesReleased(u, i, of);
      CloneAndOriginalGo(s, t, u, Release(u, i), ty, i, m);
      LevelsTrans(s, t, u, of);
      LevelsTrans(s, u, Release(u, i), of);
    } else {
      GoesReleased(t, i, of);
      CloneGoes(s, t, Release(t, i), ty, i, m);
      LevelsTrans(s, t, Release(t, i), of);
    }
  }

  lemma DropIs(s: Sys, m: Index)
    ensures var t := Drop(s, m);
      t.h[m].refcount == Dec32(s.h[m].refcount) && t.destroyed == s.destroyed
      && (forall x: Index {:trigger t.h[x]} :: t.h[x] == s.h[x].(refcount := t.h[x].refcount))
      && (forall x: Index {:trigger t.h[x]} :: x != m ==> t.h[x].refcount == s.h[x].refcount)
  {
  }

  lemma CloneFacts(h: Table, ty: TypeId, i: Index)
    requires Sweeping(h, ty, i) && h[i].state.Used? && h[i].htype == ty && h[i].clone != 0
    ensures var m := h[i].clone; h[m].htype == ty && m != i && !h[m].state.Identity?
    ensures Plain(h[h[i].clone]) || Dec32(h[h[i].clone].refcount) != 0
  {
    assert SweptClone(h, ty, i, i);
  }

  lemma CoreAtOriginal(s: Sys, ty: TypeId, i: Index)
    requires SweepCore(s, ty, i) && Original(s.h[i]) && s.h[i].htype == ty
    ensures var u := SweepSlot(s, ty, i);
      SweepCore(u, ty, i + 1) && Shrinks(s, u, ty) && SameLevels(s, u, Only(ty))
  {
    hide Ground, SameLevels, Release, Destroy, Drop, Sweeping, ObjectsOk, Held;
    CountFacts(s.h, ty, i);
    var t, of := Drop(s, i), Only(ty);
    DropSlight(s, i);
    DropIs(s, i);
    SlightGround(s, t, of);
    if t.h[i].refcount == 0 {
      DestroyGone(t, i, of);
      OriginalGoes(s, t, Destroy(t, i), ty, i);
      LevelsTrans(s, t, Destroy(t, i), of);
    } else {
      SweepOriginal(s.h, t.h, ty, i);
      DropObjects(s, i);
    }
  }

  lemma CountFacts(h: Table, ty: TypeId, i: Index)
    requires Sweeping(h, ty, i) && Original(h[i]) && h[i].htype == ty
    ensures 0 < h[i].refcount
  {
    assert SweptCount(h, ty, i, i);
  }

  lemma DropObjects(s: Sys, m: Index)
    requires ObjectsOk(s)
    ensures ObjectsOk(Drop(s, m))
  {
    HeldSame(s.h, Drop(s, m).h);
  }

  lemma CoreStep(s: Sys, ty: TypeId, i: Index)
    requires SweepCore(s, ty, i)
    ensures var u := SweepSlot(s, ty, i);
      SweepCore(u, ty, i + 1) && Shrinks(s, u, ty) && SameLevels(s, u, Only(ty))
  {
    hide Ground, ObjectsOk;
    if s.h[i].state.Unset? || s.h[i].htype != ty {
      SweepSkips(s.h, ty, i);
      SelfLevels(s, Only(ty));
    } else if s.h[i].clone != 0 {
      CoreAtClone(s, ty, i);
    } else {
      CoreAtOriginal(s, ty, i);
    }
  }

  /** What is left when the loop is done: everything but, perhaps, the chains. */
  ghost predicate Swept(s: Sys, t: Sys, ty: TypeId) {
    && Ground(t, Only(ty)) && ClonesOk(t.h) && ObjectsOk(t) && Shrinks(s, t, ty) && SameLevels(s, t, Only(ty))
    && forall j: Index :: t.h[j].state.Unset? || t.h[j].htype != ty
  }

  lemma {:induction false} SweepCores(s: Sys, ty: TypeId, i: nat)
    requires SweepCore(s, ty, i)
    ensures Swept(s, Sweep(s, ty, i), ty)
    decreases MAX_HANDLES + 1 - i
  {
    hide SweepSlot, SameLevels, ObjectsOk, Shrinks;
    if i > s.tail {
      SweepStops(s, ty, i);
      SelfSwept(s, ty);
    } else {
      var t := SweepSlot(s, ty, i);
      CoreStep(s, ty, i);
      if !s.h[i].state.Unset? && s.h[i].htype == ty && t.openCount[ty] == 0 {
        NoneOpen(t, ty);
        SweepEnds(t.h, ty, i + 1);
      } else {
        SweepCores(t, ty, i + 1);
        ShrinksTrans(s, t, Sweep(t, ty, i + 1), ty);
        LevelsTrans(s, t, Sweep(t, ty, i + 1), Only(ty));
      }
    }
  }

  lemma SweepStops(s: Sys, ty: TypeId, i: nat)
    requires SweepCore(s, ty, i) && i > s.tail
    ensures ClonesOk(s.h) && forall j: Index :: s.h[j].state.Unset? || s.h[j].htype != ty
  {
    SweepEnds(s.h, ty, i);
  }

  lemma SelfSwept(s: Sys, ty: TypeId)
    ensures Shrinks(s, s, ty) && SameLevels(s, s, Only(ty))
  {
    SelfLevels(s, Only(ty));
  }

  lemma SelfLevels(s: Sys, of: Types)
    ensures SameLevels(s, s, of)
  {
    forall q: Index ensures SameLevel(s, s, of, q) {
      hide Level;
    }
  }

  lemma NoneOpen(s: Sys, ty: TypeId)
    requires TypesOk(s) && s.openCount[ty] == 0
    ensures forall j: Index :: s.h[j].state.Unset? || s.h[j].htype != ty
  {
    assert OfType(s.h, ty) == {};
    assert forall j: Index :: !s.h[j].state.Unset? && s.h[j].htype == ty ==> j in OfType(s.h, ty);
  }

  /** Freed originals of the type have owners that are identities, where they resolve. */
  ghost predicate FreedFit(s: Sys, ty: TypeId) {
    forall m: Index {:trigger s.h[m]} ::
          s.h[m].state.Freed? && s.h[m].htype == ty && OwnerSlot(s, s.h[m].owner) != 0 ==>
      s.h[OwnerSlot(s, s.h[m].owner)].state.Identity?
  }

  lemma CoreStarts(s: Sys, ch: Chains, ty: TypeId)
    requires Inv(s, ch) && NoIdentity(s.h, ty) && FreedFit(s, ty)
    ensures SweepCore(s, ty, 1)
  {
    SweepStarts(s.h, ty);
    forall x: Index | Owes(s.h[x], Only(ty)) && OwnerSlot(s, s.h[x].owner) != 0
      ensures s.h[OwnerSlot(s, s.h[x].owner)].state.Identity?
    {
      assert s.h[x].state.Used? ==> s.h[x].owner.Token?;
    }
  }

  /** RemoveType always leaves nothing of the type, and always destroys each of its objects once. */
  lemma RemovalLeavesNone(s: Sys, ch: Chains, ty: TypeId)
    requires Inv(s, ch) && NoIdentity(s.h, ty) && FreedFit(s, ty)
    ensures Swept(s, RemoveHandles(s, ty), ty)
  {
    CoreStarts(s, ch, ty);
    if s.openCount[ty] == 0 {
      NoneOpen(s, ty);
      SelfSwept(s, ty);
    } else {
      SweepCores(s, ty, 1);
    }
  }

  // ----- exactly when the chains survive -----

  ghost function OwnedBy(s: Sys, q: Index): set<Index> {
    set x: Index | 0 <= x <= MAX_HANDLES && s.h[x].state.Used? && OwnerSlot(s, s.h[x].owner) == q
  }

  ghost function FreedOf(s: Sys, ty: TypeId, q: Index): set<Index> {
    set x: Index | 0 <= x <= MAX_HANDLES && s.h[x].state.Freed? && s.h[x].htype == ty && OwnerSlot(s, s.h[x].owner) == q
  }

  lemma {:induction false} ChainCount(s: Sys, ch: Chains, q: Index)
    requires ChainsOk(s, ch) && s.h[q].state.Identity?
    ensures s.h[q].refcount == 1 + |OwnedBy(s, q)|
  {
    forall x: Index ensures x in ch[q] <==> x in OwnedBy(s, q) {
      assert (x in ch[q]) == Owns(s, q, x);
    }
    ElementsCount(ch[q], OwnedBy(s, q));
  }

  lemma {:induction false} ElementsCount(c: seq<Index>, e: set<Index>)
    requires Distinct(c) && forall x: Index :: x in c <==> x in e
    ensures |c| == |e|
  {
    if c != [] {
      var n := |c| - 1;
      assert c == c[..n] + [c[n]];
      ElementsCount(c[..n], e - {c[n]});
    } else {
      assert e == {};
    }
  }

  lemma OwingIs(s: Sys, ty: TypeId, q: Index)
    ensures |Owing(s, Only(ty), q)| == |OwnedBy(s, q)| + |FreedOf(s, ty, q)|
  {
    assert Owing(s, Only(ty), q) == OwnedBy(s, q) + FreedOf(s, ty, q);
    assert OwnedBy(s, q) !! FreedOf(s, ty, q);
  }

  lemma FewFreed(s: Sys, ty: TypeId, q: Index)
    ensures |FreedOf(s, ty, q)| <= MAX_HANDLES + 1
  {
    hide Upto;
    UptoCount(MAX_HANDLES);
    var all := Upto(MAX_HANDLES);
    forall x | x in FreedOf(s, ty, q) ensures x in all + {0} {
    }
    Cardinality(FreedOf(s, ty, q), all + {0});
  }

  /** A chain that holds again has no freed original of the type behind it. */
  lemma NoneFreed(s: Sys, ch: Chains, t: Sys, ch': Chains, ty: TypeId, q: Index)
    requires ChainsOk(s, ch) && ChainsOk(t, ch') && s.h[q].state.Identity? && SameLevel(s, t, Only(ty), q)
    requires forall j: Index :: t.h[j].state.Unset? || t.h[j].htype != ty
    ensures FreedOf(s, ty, q) == {}
  {
    hide ChainsOk, OwnedBy, FreedOf, Owing;
    ChainCount(s, ch, q);
    ChainCount(t, ch', q);
    OwingIs(s, ty, q);
    OwingIs(t, ty, q);
    assert FreedOf(t, ty, q) == {} by { NoneLeft(t, ty, q); }
    FewFreed(s, ty, q);
  }

  lemma NoneLeft(t: Sys, ty: TypeId, q: Index)
    requires forall j: Index :: t.h[j].state.Unset? || t.h[j].htype != ty
    ensures FreedOf(t, ty, q) == {}
  {
  }

  /** RemoveType keeps the invariant, for some chains, if and only if no freed original of the type has an
      owner that still resolves. */
  lemma RemovalExact(s: Sys, ch: Chains, ty: TypeId)
    requires Inv(s, ch) && NoIdentity(s.h, ty) && FreedFit(s, ty)
    ensures (exists ch' :: Inv(RemoveHandles(s, ty), ch')) <==> Disowned(s, ty)
  {
    if Disowned(s, ty) {
      TypeRemoved(s, ch, ty);
    } else {
      var m: Index :| s.h[m].state.Freed? && s.h[m].htype == ty && OwnerSlot(s, s.h[m].owner) != 0;
      var q, t := OwnerSlot(s, s.h[m].owner), RemoveHandles(s, ty);
      RemovalLeavesNone(s, ch, ty);
      assert SameLevel(s, t, Only(ty), q) by { assert t.h[q] == t.h[q]; }
      assert m in FreedOf(s, ty, q);
      forall ch': Chains ensures !Inv(t, ch') {
        if Inv(t, ch') {
          NoneFreed(s, ch, t, ch', ty, q);
        }
      }
    }
  }
}
