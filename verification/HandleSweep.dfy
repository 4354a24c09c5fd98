/** RemoveType's sweep over the handles of the removed type. While it runs the reference counts of
    that type are out of step: an original the sweep has passed has lost one count too many, and may
    already be gone while clones of it are still to come. */
module HandleSweep {
  import opened HandleTable
  import opened HandleOps
  import opened HandleCounts
  import opened HandleChains
  import opened HandleInv
  import opened HandleFree

  /** One turn of the loop. */
  function SweepSlot(s: Sys, ty: TypeId, i: Index): Sys {
    if s.h[i].state.Unset? || s.h[i].htype != ty then s
    else if s.h[i].clone != 0 then
      var m := s.h[i].clone;
      var t := Drop(s, m);
      Release(if t.h[m].refcount == 0 then Destroy(t, m) else t, i)
    else
      var t := Drop(s, i);
      if t.h[i].refcount == 0 then Destroy(t, i) else t
  }

  /** The loop from slot i on; it stops when the type has no handles left. */
  function Sweep(s: Sys, ty: TypeId, i: nat): Sys
    decreases MAX_HANDLES + 1 - i
  {
    if i > s.tail || i > MAX_HANDLES then s
    else
      var t := SweepSlot(s, ty, i);
      if !s.h[i].state.Unset? && s.h[i].htype == ty && t.openCount[ty] == 0 then t
      else Sweep(t, ty, i + 1)
  }

  function RemoveHandles(s: Sys, ty: TypeId): Sys {
    if s.openCount[ty] == 0 then s else Sweep(s, ty, 1)
  }

  // ----- the counts while the sweep is at slot i -----

  /** A count that has passed zero and cannot come back to it. */
  predicate Spent(r: nat, i: nat) {
    r == 0 || r + i >= 0xFFFF_FFFF
  }

  ghost predicate SweptClone(h: Table, ty: TypeId, i: nat, j: Index) {
    var m := h[j].clone;
    && h[m].htype == h[j].htype && h[m].clone == 0 && h[j].refcount == 1
    && if h[j].htype == ty then i <= j && !h[m].state.Identity? && (Plain(h[m]) || Spent(h[m].refcount, i))
       else Plain(h[m])
  }

  ghost predicate SweptCount(h: Table, ty: TypeId, i: nat, m: Index) {
    Original(h[m]) ==>
      && 0 < h[m].refcount
      && h[m].refcount ==
            |ClonesOf(h, m)| + (if h[m].state.Used? then 1 else 0) - (if h[m].htype == ty && m < i then 1 else 0)
  }

  ghost predicate Sweeping(h: Table, ty: TypeId, i: nat) {
    && h[0].state.Unset?
    && (forall j: Index :: h[j].state.Used? && h[j].clone != 0 ==> SweptClone(h, ty, i, j))
    && (forall m: Index :: SweptCount(h, ty, i, m))
    && (forall m: Index :: h[m].state.Freed? ==> h[m].clone == 0)
    && (forall m: Index :: h[m].state.Identity? ==> h[m].htype != ty)
  }

  ghost predicate NoIdentity(h: Table, ty: TypeId) {
    forall m: Index :: h[m].state.Identity? ==> h[m].htype != ty
  }

  lemma SweepStarts(h: Table, ty: TypeId)
    requires ClonesOk(h) && NoIdentity(h, ty)
    ensures Sweeping(h, ty, 1)
  {
    forall j: Index | h[j].state.Used? && h[j].clone != 0 ensures SweptClone(h, ty, 1, j) {
      assert Counted(h, j);
    }
    forall m: Index ensures SweptCount(h, ty, 1, m) {
      assert Counted(h, m);
    }
  }

  lemma PassedClones(h: Table, ty: TypeId, i: nat, m: Index)
    requires Sweeping(h, ty, i) && forall j: Index :: !h[j].state.Unset? && h[j].htype == ty ==> j < i
    ensures m != 0 && h[m].htype == ty ==> ClonesOf(h, m) == {}
  {
    forall j: Index ensures h[j].state.Used? && h[j].clone == m && m != 0 ==> h[m].htype != ty {
      assert h[j].state.Used? && h[j].clone != 0 ==> SweptClone(h, ty, i, j);
    }
  }

  lemma SweepEnds(h: Table, ty: TypeId, i: nat)
    requires Sweeping(h, ty, i) && forall j: Index :: !h[j].state.Unset? && h[j].htype == ty ==> j < i
    ensures forall j: Index :: h[j].state.Unset? || h[j].htype != ty
    ensures ClonesOk(h)
  {
    forall m: Index ensures h[m].state.Unset? || h[m].htype != ty {
      assert SweptCount(h, ty, i, m);
      PassedClones(h, ty, i, m);
      assert h[m].state.Used? && h[m].clone != 0 ==> SweptClone(h, ty, i, m);
    }
    forall m: Index ensures Counted(h, m) {
      assert SweptCount(h, ty, i, m);
      assert h[m].state.Used? && h[m].clone != 0 ==> SweptClone(h, ty, i, m);
    }
    forall j: Index | h[j].state.Used? && h[j].clone != 0
      ensures Original(h[h[j].clone]) && h[h[j].clone].htype == h[j].htype
    {
      assert SweptClone(h, ty, i, j);
    }
  }

  /** The sweep passes a slot that is vacant or of another type. */
  lemma SweepSkips(h: Table, ty: TypeId, i: Index)
    requires Sweeping(h, ty, i) && (h[i].state.Unset? || h[i].htype != ty)
    ensures Sweeping(h, ty, i + 1)
  {
    forall j: Index | h[j].state.Used? && h[j].clone != 0 ensures SweptClone(h, ty, i + 1, j) {
      assert SweptClone(h, ty, i, j);
    }
    var n: nat := i + 1;
    forall m: Index ensures SweptCount(h, ty, n, m) {
      assert SweptCount(h, ty, i, m);
    }
  }

  /** The records of slots other than i and its original m stay, reference counts included. */
  ghost predicate Untouched(h: Table, h': Table, i: Index, m: Index) {
    forall x: Index {:trigger h'[x]} :: x != i && x != m ==>
      SameClone(h[x], h'[x]) && (Plain(h[x]) || (h[x].state.Unset? && x != 0) ==> h'[x].refcount == h[x].refcount)
  }

  lemma ClonesLose(h: Table, h': Table, i: Index, m: Index, x: Index)
    requires Untouched(h, h', i, m) && !h'[i].state.Used? && x != 0
    requires m != i ==> h[m].clone == 0 && h'[m].clone == 0
    ensures ClonesOf(h', x) == ClonesOf(h, x) - {i}
  {
    forall j: Index ensures j in ClonesOf(h', x) <==> j in ClonesOf(h, x) - {i} {
      if j != i && j != m { assert SameClone(h[j], h'[j]); }
    }
  }

  /** Slot i, a clone of m, has been released. */
  ghost predicate CloneGone(h: Table, h': Table, i: Index, m: Index) {
    && m != i && m == h[i].clone && Untouched(h, h', i, m) && h'[i].state.Unset?
    && h'[m].clone == 0 && h'[m].htype == h[m].htype && h'[m].refcount == Dec32(h[m].refcount)
    && h'[m].state == (if h'[m].refcount == 0 then Unset else h[m].state)
  }

  lemma SweptCounts(h: Table, h': Table, ty: TypeId, i: Index, x: Index)
    requires Sweeping(h, ty, i) && h[i].state.Used? && h[i].clone != 0 && h[i].htype == ty
    requires CloneGone(h, h', i, h[i].clone)
    ensures var n: nat := i + 1; SweptCount(h', ty, n, x)
  {
    var m := h[i].clone;
    assert SweptClone(h, ty, i, i);
    assert SweptCount(h, ty, i, x);
    if x != 0 { ClonesLose(h, h', i, m, x); }
    if x != i && x != m { assert SameClone(h[x], h'[x]); }
  }

  /** A clone is released. */
  lemma SweepClone(h: Table, h': Table, ty: TypeId, i: Index)
    requires Sweeping(h, ty, i) && h[i].state.Used? && h[i].clone != 0 && h[i].htype == ty
    requires CloneGone(h, h', i, h[i].clone)
    ensures Sweeping(h', ty, i + 1)
  {
    hide SweptCount;
    var m := h[i].clone;
    assert SweptClone(h, ty, i, i);
    forall j: Index | h'[j].state.Used? && h'[j].clone != 0 ensures SweptClone(h', ty, i + 1, j) {
      assert SameClone(h[j], h'[j]) && SweptClone(h, ty, i, j);
      var n := h[j].clone;
      assert n != i && n != m ==> SameClone(h[n], h'[n]);
    }
    var next: nat := i + 1;
    forall x: Index ensures SweptCount(h', ty, next, x) {
      SweptCounts(h, h', ty, i, x);
    }
    forall x: Index ensures (h'[x].state.Freed? ==> h'[x].clone == 0) && (h'[x].state.Identity? ==> h'[x].htype != ty) {
      if x != i && x != m { assert SameClone(h[x], h'[x]); }
    }
  }

  /** An original loses one count, and goes with its last. */
  lemma SweepOriginal(h: Table, h': Table, ty: TypeId, i: Index)
    requires Sweeping(h, ty, i) && Original(h[i]) && h[i].htype == ty
    requires Untouched(h, h', i, i)
    requires h'[i].clone == 0 && h'[i].htype == ty && h'[i].refcount == h[i].refcount - 1
    requires h'[i].state == if h'[i].refcount == 0 then Unset else h[i].state
    ensures Sweeping(h', ty, i + 1)
  {
    forall j: Index | h'[j].state.Used? && h'[j].clone != 0 ensures SweptClone(h', ty, i + 1, j) {
      assert SameClone(h[j], h'[j]) && SweptClone(h, ty, i, j);
      var n := h[j].clone;
      assert n != i ==> SameClone(h[n], h'[n]);
    }
    var next: nat := i + 1;
    forall x: Index ensures SweptCount(h', ty, next, x) {
      assert SweptCount(h, ty, i, x);
      if x != 0 {
        forall j: Index ensures j in ClonesOf(h', x) <==> j in ClonesOf(h, x) {
          if j != i { assert SameClone(h[j], h'[j]); }
        }
        assert ClonesOf(h', x) == ClonesOf(h, x);
      }
      if x != i { assert SameClone(h[x], h'[x]); }
    }
    forall x: Index ensures (h'[x].state.Freed? ==> h'[x].clone == 0) && (h'[x].state.Identity? ==> h'[x].htype != ty) {
      if x != i { assert SameClone(h[x], h'[x]); }
    }
  }

  // ----- the whole state -----

  /** No freed original of the type has an owner that resolves. */
  ghost predicate Disowned(s: Sys, ty: TypeId) {
    forall m: Index :: s.h[m].state.Freed? && s.h[m].htype == ty ==> OwnerSlot(s, s.h[m].owner) == 0
  }

  ghost predicate SweepInv(s: Sys, ch: Chains, ty: TypeId, i: nat) {
    Parts(s, ch) && Sweeping(s.h, ty, i) && ObjectsOk(s) && Disowned(s, ty)
  }

  /** The step from s to t vacates slots of one type or changes counts and links, nothing else. */
  ghost predicate Shrinks(s: Sys, t: Sys, ty: TypeId) {
    && t.tail == s.tail && t.created == s.created
    && (forall x: Index {:trigger t.h[x]} ::
          t.h[x].state == s.h[x].state || (t.h[x].state.Unset? && s.h[x].htype == ty))
    && (forall x: Index {:trigger t.h[x]} :: SameCore(s.h[x].(state := t.h[x].state), t.h[x]))
  }

  lemma ShrinksTrans(s: Sys, t: Sys, u: Sys, ty: TypeId)
    requires Shrinks(s, t, ty) && Shrinks(t, u, ty)
    ensures Shrinks(s, u, ty)
  {
    forall x: Index ensures (u.h[x].state == s.h[x].state || (u.h[x].state.Unset? && s.h[x].htype == ty))
      && SameCore(s.h[x].(state := u.h[x].state), u.h[x])
    {
      assert SameCore(s.h[x].(state := t.h[x].state), t.h[x]);
      assert SameCore(t.h[x].(state := u.h[x].state), u.h[x]);
    }
  }

  lemma ShrinksDisowned(s: Sys, t: Sys, ty: TypeId)
    requires Disowned(s, ty) && Shrinks(s, t, ty)
    ensures Disowned(t, ty)
  {
    forall m: Index | t.h[m].state.Freed? && t.h[m].htype == ty ensures OwnerSlot(t, t.h[m].owner) == 0 {
      assert SameCore(s.h[m].(state := t.h[m].state), t.h[m]);
      var q := OwnerSlot(t, t.h[m].owner);
      assert SameCore(s.h[q].(state := t.h[q].state), t.h[q]);
    }
  }

  /** What releasing slot j does, for a sweep. */
  ghost predicate Goes(s: Sys, t: Sys, j: Index) {
    && Shrinks(s, t, s.h[j].htype) && t.h[j].state.Unset? && t.destroyed == s.destroyed
    && (forall x: Index {:trigger t.h[x]} :: x != j ==> t.h[x].state == s.h[x].state)
    && (forall x: Index {:trigger t.h[x]} :: Plain(s.h[x]) || (s.h[x].state.Unset? && x != 0) ==>
          t.h[x].refcount == s.h[x].refcount)
  }

  lemma ReleaseGoes(s: Sys, ch: Chains, j: Index)
    requires Parts(s, ch) && (s.h[j].state.Used? || (s.h[j].state.Freed? && OwnerSlot(s, s.h[j].owner) == 0))
    ensures Parts(Release(s, j), ChainsLeft(s, ch, j)) && Goes(s, Release(s, j), j)
  {
    ReleaseKeeps(s, ch, j);
    ReleaseCount(s, ch, j);
    GoesFrom(s, Release(s, j), ch, j);
  }

  /** Neither unlinking nor vacating a slot changes its own count. */
  lemma ReleaseCount(s: Sys, ch: Chains, j: Index)
    requires ChainsOk(s, ch) && Plain(s.h[j]) && OwnerSlot(s, s.h[j].owner) != j
    ensures Release(s, j).h[j].refcount == s.h[j].refcount
  {
    UnlinkCount(s.h, OwnerSlot(s, s.h[j].owner), j, j);
    VacateCount(Disown(s, j), j);
  }

  lemma UnlinkCount(h: Table, p: Index, j: Index, x: Index)
    requires x != p
    ensures Unlink(h, p, j)[x].refcount == h[x].refcount
  {
  }

  lemma VacateCount(s: Sys, j: Index)
    ensures Vacate(s, j).h[j].refcount == s.h[j].refcount
  {
  }

  lemma GoesFrom(s: Sys, t: Sys, ch: Chains, j: Index)
    requires ChainsOk(s, ch) && Released(s, t, j) && LeftEffect(s, t, ch, j) && Plain(s.h[j])
    requires t.h[j].refcount == s.h[j].refcount
    ensures Goes(s, t, j)
  {
    var p := Chained(s, j);
    assert p != 0 ==> s.h[p].state.Identity?;
    forall x: Index | x != j ensures SameCore(s.h[x], t.h[x]) {
    }
  }

  lemma DropGoes(s: Sys, ch: Chains, ty: TypeId, m: Index)
    requires Parts(s, ch) && !s.h[m].state.Identity?
    ensures Parts(Drop(s, m), ch) && Shrinks(s, Drop(s, m), ty)
  {
    var t := Drop(s, m);
    assert forall x: Index {:trigger t.h[x]} :: t.h[x] == s.h[x].(refcount := t.h[x].refcount);
    AsideKeeps(s, t);
    Unseen(s, t, ch, m);
  }

  /** The destructor runs on a live original whose slot is then released. */
  lemma DestroyGoes(s: Sys, ch: Chains, m: Index) returns (ch': Chains)
    requires Parts(s, ch) && (s.h[m].state.Used? || (s.h[m].state.Freed? && OwnerSlot(s, s.h[m].owner) == 0))
    ensures Parts(Destroy(s, m), ch')
    ensures var d := s.destroyed + [Object(s.h[m].htype, s.h[m].obj)];
      Goes(s.(destroyed := d), Destroy(s, m), m)
  {
    var t := s.(destroyed := s.destroyed + [Object(s.h[m].htype, s.h[m].obj)]);
    AsideKeeps(s, t);
    Unseen(s, t, ch, m);
    SameTokens(s, t, s.h[m].owner);
    ReleaseGoes(t, ch, m);
    ch' := ChainsLeft(t, ch, m);
  }

  lemma ObjectsGone(s: Sys, t: Sys, m: Index)
    requires ObjectsOk(s) && Original(s.h[m]) && t.h[m].state.Unset?
    requires forall x: Index {:trigger t.h[x]} :: x != m ==> HeldBy(t.h[x]) == HeldBy(s.h[x])
    requires t.created == s.created && t.destroyed == s.destroyed + [Object(s.h[m].htype, s.h[m].obj)]
    ensures ObjectsOk(t)
  {
    HeldUpdate(s.h, t.h, m);
    assert multiset(t.destroyed) == multiset(s.destroyed) + HeldBy(s.h[m]);
    Regroup(multiset(s.destroyed), HeldBy(s.h[m]), Held(s.h), Held(t.h));
  }

  /** A clone, its original gone or still counted. */
  lemma SweepAtClone(s: Sys, ch: Chains, ty: TypeId, i: Index) returns (ch': Chains)
    requires SweepInv(s, ch, ty, i) && s.h[i].state.Used? && s.h[i].htype == ty && s.h[i].clone != 0
    ensures SweepInv(SweepSlot(s, ty, i), ch', ty, i + 1) && Shrinks(s, SweepSlot(s, ty, i), ty)
    ensures SweepSlot(s, ty, i).h[i].state.Unset?
  {
    var m := s.h[i].clone;
    assert SweptClone(s.h, ty, i, i);
    var t := Drop(s, m);
    DropGoes(s, ch, ty, m);
    ShrinksDisowned(s, t, ty);
    if t.h[m].refcount == 0 {
      assert Plain(s.h[m]);
      ch' := DestroyGoes(t, ch, m);
      var u := Destroy(t, m);
      assert u.h[i].state == t.h[i].state;
      ReleaseGoes(u, ch', i);
      ch' := ChainsLeft(u, ch', i);
      CloneAndOriginalGo(s, t, u, Release(u, i), ty, i, m);
      ShrinksDisowned(s, Release(u, i), ty);
    } else {
      ReleaseGoes(t, ch, i);
      ch' := ChainsLeft(t, ch, i);
      CloneGoes(s, t, Release(t, i), ty, i, m);
      ShrinksDisowned(s, Release(t, i), ty);
    }
  }

  lemma CloneGoes(s: Sys, t: Sys, v: Sys, ty: TypeId, i: Index, m: Index)
    requires Sweeping(s.h, ty, i) && ObjectsOk(s)
    requires s.h[i].state.Used? && s.h[i].htype == ty && s.h[i].clone == m != 0
    requires t == Drop(s, m) && t.h[m].refcount != 0 && Shrinks(s, t, ty) && Goes(t, v, i)
    ensures Sweeping(v.h, ty, i + 1) && ObjectsOk(v) && Shrinks(s, v, ty)
  {
    assert SweptClone(s.h, ty, i, i);
    ShrinksTrans(s, t, v, ty);
    assert forall x: Index {:trigger v.h[x]} :: SameCore(s.h[x].(state := v.h[x].state), v.h[x]);
    SweepClone(s.h, v.h, ty, i);
    HeldSame(s.h, v.h);
  }

  lemma CloneAndOriginalGo(s: Sys, t: Sys, u: Sys, v: Sys, ty: TypeId, i: Index, m: Index)
    requires Sweeping(s.h, ty, i) && ObjectsOk(s)
    requires s.h[i].state.Used? && s.h[i].htype == ty && s.h[i].clone == m != 0 && Plain(s.h[m])
    requires t == Drop(s, m) && t.h[m].refcount == 0 && Shrinks(s, t, ty)
    requires Goes(t.(destroyed := t.destroyed + [Object(t.h[m].htype, t.h[m].obj)]), u, m) && Goes(u, v, i)
    ensures Sweeping(v.h, ty, i + 1) && ObjectsOk(v) && Shrinks(s, v, ty)
  {
    assert SweptClone(s.h, ty, i, i);
    ShrinksTrans(s, t, u, ty);
    ShrinksTrans(s, u, v, ty);
    SweepClone(s.h, v.h, ty, i);
    ObjectsGone(s, v, m);
  }

  lemma OriginalGoes(s: Sys, t: Sys, u: Sys, ty: TypeId, i: Index)
    requires Sweeping(s.h, ty, i) && ObjectsOk(s)
    requires Original(s.h[i]) && s.h[i].htype == ty
    requires t == Drop(s, i) && t.h[i].refcount == 0 && Shrinks(s, t, ty)
    requires Goes(t.(destroyed := t.destroyed + [Object(t.h[i].htype, t.h[i].obj)]), u, i)
    ensures Sweeping(u.h, ty, i + 1) && ObjectsOk(u) && Shrinks(s, u, ty)
  {
    assert SweptCount(s.h, ty, i, i);
    ShrinksTrans(s, t, u, ty);
    SweepOriginal(s.h, u.h, ty, i);
    ObjectsGone(s, u, i);
  }

  lemma SweepAtOriginal(s: Sys, ch: Chains, ty: TypeId, i: Index) returns (ch': Chains)
    requires SweepInv(s, ch, ty, i) && Original(s.h[i]) && s.h[i].htype == ty
    ensures SweepInv(SweepSlot(s, ty, i), ch', ty, i + 1) && Shrinks(s, SweepSlot(s, ty, i), ty)
  {
    assert SweptCount(s.h, ty, i, i);
    var t := Drop(s, i);
    DropGoes(s, ch, ty, i);
    ShrinksDisowned(s, t, ty);
    if t.h[i].refcount == 0 {
      ch' := DestroyGoes(t, ch, i);
      OriginalGoes(s, t, Destroy(t, i), ty, i);
      ShrinksDisowned(s, Destroy(t, i), ty);
    } else {
      ch' := ch;
      SweepOriginal(s.h, t.h, ty, i);
      HeldSame(s.h, t.h);
    }
  }

  /** One turn of the loop keeps the sweep's invariant. */
  lemma SweepStep(s: Sys, ch: Chains, ty: TypeId, i: Index) returns (ch': Chains)
    requires SweepInv(s, ch, ty, i)
    ensures SweepInv(SweepSlot(s, ty, i), ch', ty, i + 1) && Shrinks(s, SweepSlot(s, ty, i), ty)
  {
    if s.h[i].state.Unset? || s.h[i].htype != ty {
      SweepSkips(s.h, ty, i);
      ch' := ch;
    } else if s.h[i].clone != 0 {
      ch' := SweepAtClone(s, ch, ty, i);
    } else {
      ch' := SweepAtOriginal(s, ch, ty, i);
    }
  }

  lemma {:induction false} SweepAll(s: Sys, ch: Chains, ty: TypeId, i: nat) returns (ch': Chains)
    requires SweepInv(s, ch, ty, i)
    ensures Inv(Sweep(s, ty, i), ch') && Shrinks(s, Sweep(s, ty, i), ty)
    ensures forall j: Index :: Sweep(s, ty, i).h[j].state.Unset? || Sweep(s, ty, i).h[j].htype != ty
    decreases MAX_HANDLES + 1 - i
  {
    if i > s.tail {
      SweepEnds(s.h, ty, i);
      ch' := ch;
    } else {
      var t := SweepSlot(s, ty, i);
      ch' := SweepStep(s, ch, ty, i);
      if !s.h[i].state.Unset? && s.h[i].htype == ty && t.openCount[ty] == 0 {
        assert OfType(t.h, ty) == {};
        assert forall j: Index :: !t.h[j].state.Unset? && t.h[j].htype == ty ==> j in OfType(t.h, ty);
        SweepEnds(t.h, ty, i + 1);
      } else {
        ch' := SweepAll(t, ch', ty, i + 1);
        ShrinksTrans(s, t, Sweep(t, ty, i + 1), ty);
      }
    }
  }

  /** RemoveType on a type without identities, none of whose freed originals has an owner that still
      resolves: the invariant holds again when the loop is done, with every object of the type
      destroyed once, nothing of the type is left, and handles of other types stay. */
  lemma TypeRemoved(s: Sys, ch: Chains, ty: TypeId)
    requires Inv(s, ch) && NoIdentity(s.h, ty) && Disowned(s, ty)
    ensures var t := RemoveHandles(s, ty);
      && (exists ch' :: Inv(t, ch'))
      && (forall j: Index :: t.h[j].state.Unset? || t.h[j].htype != ty)
      && (forall j: Index :: Plain(s.h[j]) && s.h[j].htype != ty ==> SameCore(s.h[j], t.h[j]))
  {
    if s.openCount[ty] == 0 {
      assert OfType(s.h, ty) == {};
      assert forall j: Index :: !s.h[j].state.Unset? && s.h[j].htype == ty ==> j in OfType(s.h, ty);
      assert Inv(RemoveHandles(s, ty), ch);
    } else {
      SweepStarts(s.h, ty);
      var ch' := SweepAll(s, ch, ty, 1);
      assert Inv(RemoveHandles(s, ty), ch');
      assert Shrinks(s, RemoveHandles(s, ty), ty);
    }
  }
}
