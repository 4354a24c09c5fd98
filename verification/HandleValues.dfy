/** What holders of handle values can rely on: what a clone reads, when the destructor runs, and how
    long a stale value stays rejected. */
module HandleValues {
  import opened HandleTable
  import opened HandleOps
  import opened HandleStack
  import opened HandleCounts
  import opened HandleChains
  import opened HandleInv
  import opened HandleFree
  import opened HandleDeath

  function ValueOf(s: Sys, j: Index): nat {
    Encode(s.h[j].serial, j)
  }

  lemma EncodeDecodes(serial: nat, index: Index)
    ensures Encode(serial, index) / 0x10000 == serial && Encode(serial, index) % 0x10000 == index
  {
  }

  // ----- when a handle cannot be made -----

  /** A handle is refused when its owner does not resolve, or else when every slot is in use. */
  lemma MakeErrors(s: Sys, ty: TypeId, owner: Owner, identity: bool)
    requires StackOk(s)
    ensures var m, full := MakePrim(s, ty, owner, identity), forall j: Index :: j != 0 ==> !s.h[j].state.Unset?;
      && (m == NotMade(ErrIdentity) <==> owner.Token? && OwnerSlot(s, owner) == 0)
      && (m == NotMade(ErrLimit) <==> !(owner.Token? && OwnerSlot(s, owner) == 0) && full)
      && (m.NotMade? ==> m.error == ErrIdentity || m.error == ErrLimit)
  {
    hide OwnerSlot, Link;
    if s.free != 0 {
      assert s.h[s.h[s.free].freeID].state.Unset?;
    } else if s.tail < MAX_HANDLES {
      assert s.h[s.tail + 1].state.Unset?;
    } else {
      assert forall j: Index :: j != 0 && s.h[j].state.Unset? ==> OnStack(s, j);
    }
  }

  // ----- reading -----

  function OriginalOf(s: Sys, j: Index): Index {
    if s.h[j].clone != 0 then s.h[j].clone else j
  }

  predicate InTable(s: Sys, v: nat) { 0 < v % 0x10000 <= s.tail }

  predicate InUse(r: QHandle) { r.state.Used? || r.state.Identity? }

  /** Why a value is not accepted: it names no slot, one that is not in use, an identity that the caller may not
      touch, or one that has been used again. */
  lemma LookupErrors(s: Sys, v: nat, root: bool)
    ensures var r, e := s.h[if InTable(s, v) then v % 0x10000 else 0], Lookup(s, v, root);
      && (e == ErrIndex <==> !InTable(s, v))
      && (e == ErrFreed <==> InTable(s, v) && !InUse(r))
      && (e == ErrIdentity <==> InTable(s, v) && r.state.Identity? && !root)
      && (e == ErrChanged <==> InTable(s, v) && InUse(r) && (r.state.Identity? ==> root) && v / 0x10000 != r.serial)
      && (e == ErrNone <==> InTable(s, v) && InUse(r) && (r.state.Identity? ==> root) && v / 0x10000 == r.serial)
  {
  }

  /** What a live handle can be read as: a handle of a base type as that type or as the null type, a handle of
      a subtype as whatever has the same parent. It then reads the object of its original. */
  lemma ReadExact(s: Sys, v: nat, root: bool, ty: TypeId)
    requires Lookup(s, v, root).ErrNone?
    ensures var i := v % 0x10000; var own := s.h[i].htype;
      && (Read(s, v, root, ty).0.ErrNone? <==>
            if own % 16 == 0 then ty == 0 || ty == own else ty - ty % 16 == own - own % 16)
      && (Read(s, v, root, ty).0.ErrNone? ==> Read(s, v, root, ty).1 == s.h[OriginalOf(s, i)].obj)
      && (!Read(s, v, root, ty).0.ErrNone? ==> Read(s, v, root, ty) == (ErrType, 0))
      && Read(s, v, root, own).0.ErrNone?
  {
  }

  /** A value that is not accepted is not read. */
  lemma ReadRefused(s: Sys, v: nat, root: bool, ty: TypeId)
    requires !Lookup(s, v, root).ErrNone?
    ensures Read(s, v, root, ty) == (Lookup(s, v, root), 0)
  {
  }

  /** Freeing any other handle, the original of x included, does not change what x reads. */
  lemma ReadSurvives(s: Sys, ch: Chains, j: Index, x: Index, root: bool, ty: TypeId)
    requires Inv(s, ch) && s.h[j].state.Used?
    requires s.h[x].state.Used? && x != j
    ensures Read(FreeSlot(s, j), ValueOf(s, x), root, ty) == Read(s, ValueOf(s, x), root, ty)
    ensures Lookup(s, ValueOf(s, x), root).ErrNone?
  {
    FreeOthers(s, ch, j);
    EncodeDecodes(s.h[x].serial, x);
    assert x <= s.tail && x != 0;
  }

  lemma AttachedReads(s: Sys, t: Sys, i: Index, m: Index, root: bool, ty: TypeId)
    requires Original(s.h[m]) && m != 0 && m != i && i != 0 && i <= t.tail && SameCore(s.h[m], t.h[m])
    requires t.h[i].state.Used? && t.h[i].serial == t.hserial && t.h[i].htype == s.h[m].htype
    ensures Read(Attach(t, i, m), Encode(t.hserial, i), root, ty) ==
      if TypeMatches(s.h[m].htype, ty) then (ErrNone, s.h[m].obj) else (ErrType, 0)
  {
    EncodeDecodes(t.hserial, i);
  }

  lemma CloneSlotReads(s: Sys, ch: Chains, m: Index, newOwner: Owner, root: bool, ty: TypeId)
    requires Inv(s, ch) && OwnerFit(s, newOwner, false) && Original(s.h[m]) && CloneSlot(s, m, newOwner).Made?
    ensures var c := CloneSlot(s, m, newOwner);
      Read(c.sys, c.handle, root, ty) ==
        if TypeMatches(s.h[m].htype, ty) then (ErrNone, s.h[m].obj) else (ErrType, 0)
  {
    CloneSlotIs(s, m, newOwner);
    MadeKeeps(s, ch, s.h[m].htype, newOwner, false);
    var d := MakePrim(s, s.h[m].htype, newOwner, false);
    assert m != 0;
    assert SameCore(s.h[m], d.sys.h[m]);
    AttachedReads(s, d.sys, d.index, m, root, ty);
  }

  /** A handle made by CloneHandle reads exactly what the handle it was made from reads. */
  lemma CloneReads(s: Sys, ch: Chains, v: nat, root: bool, newOwner: Owner, ty: TypeId)
    requires Inv(s, ch) && OwnerFit(s, newOwner, false) && Clone(s, v, root, newOwner).Made?
    ensures var c := Clone(s, v, root, newOwner);
      Read(c.sys, c.handle, root, ty) == Read(s, v, root, ty)
  {
    var m := OriginalOf(s, v % 0x10000);
    assert Original(s.h[m]) && s.h[m].htype == s.h[v % 0x10000].htype;
    CloneSlotReads(s, ch, m, newOwner, root, ty);
  }

  // ----- destructors -----

  /** The live handles to the object of original m. */
  ghost function Holders(h: Table, m: Index): set<Index> {
    ClonesOf(h, m) + if h[m].state.Used? then {m} else {}
  }

  /** FreeHandle runs the destructor, once and on the original's object, exactly when the handle
      freed is the last live one to that object. */
  lemma LastHolderDestroys(s: Sys, ch: Chains, j: Index)
    requires Inv(s, ch) && s.h[j].state.Used?
    ensures var m := OriginalOf(s, j);
      && j in Holders(s.h, m)
      && FreeSlot(s, j).destroyed ==
           s.destroyed + if Holders(s.h, m) == {j} then [Object(s.h[m].htype, s.h[m].obj)] else []
  {
    var m := OriginalOf(s, j);
    FreeSlotCases(s, j);
    assert Counted(s.h, m) && Original(s.h[m]);
    HoldersCount(s.h, j, m);
    if s.h[j].clone != 0 {
      UncloneKeeps(s, ch, j);
      if s.h[m].refcount == 1 {
        LastCloneMeansFreed(s.h, j);
        DestroyDoes(Unclone(s, j), m);
      }
    }
  }

  lemma HoldersCount(h: Table, j: Index, m: Index)
    requires Counted(h, m) && Original(h[m]) && h[j].state.Used? && m != 0 && h[0].state.Unset?
    requires h[j].clone == m || (j == m && h[m].clone == 0)
    ensures j in Holders(h, m) && |Holders(h, m)| == h[m].refcount
    ensures Holders(h, m) == {j} <==> h[m].refcount == 1
  {
    assert m !in ClonesOf(h, m);
    if h[m].refcount == 1 {
      assert |Holders(h, m) - {j}| == 0;
    }
  }

  // ----- stale values -----

  lemma SerialPeriod(a: nat, b: nat)
    requires 1 <= a && 1 <= b
    ensures SerialOf(a) == SerialOf(b) <==> (a - b) % 65534 == 0
  {
  }

  /** A value issued as the n-th handle, in a slot that has since had its last handle made as number
      born, is accepted exactly when the slot is live and the two numbers agree modulo 65534. */
  lemma ValueAccepted(s: Sys, n: nat, i: Index)
    requires SerialsOk(s) && StackOk(s) && 1 <= n
    ensures Lookup(s, Encode(SerialOf(n), i), true).ErrNone? <==>
      (s.h[i].state.Used? || s.h[i].state.Identity?) && (s.born[i] - n) % 65534 == 0
  {
    EncodeDecodes(SerialOf(n), i);
    if !s.h[i].state.Unset? {
      SerialPeriod(s.born[i], n);
    }
  }

  /** Fewer than 65534 handles after its issue, a value is accepted only while the very handle it was
      issued for is live: once freed it is rejected, whatever has been made in its slot since. */
  lemma StaleRejected(s: Sys, n: nat, i: Index, root: bool)
    requires SerialsOk(s) && StackOk(s) && 1 <= n <= s.born[i] && s.made - n < 65534
    requires !((s.h[i].state.Used? || s.h[i].state.Identity?) && s.born[i] == n)
    ensures !Lookup(s, Encode(SerialOf(n), i), root).ErrNone?
  {
    ValueAccepted(s, n, i);
  }

  /** Values of any 65534 consecutive handles differ, whatever their slots. */
  lemma ValuesDistinct(a: nat, i: Index, b: nat, k: Index)
    requires 1 <= a < b < a + 65534
    ensures Encode(SerialOf(a), i) != Encode(SerialOf(b), k)
  {
    EncodeDecodes(SerialOf(a), i);
    EncodeDecodes(SerialOf(b), k);
    SerialPeriod(b, a);
  }

  /** The n-th handle carries the value of its number and is accepted. */
  lemma MadeValue(s: Sys, ch: Chains, ty: TypeId, obj: int, owner: Owner, identity: bool)
    requires Inv(s, ch) && OwnerFit(s, owner, identity) && Create(s, ty, obj, owner, identity).Made?
    ensures var m := Create(s, ty, obj, owner, identity);
      && m.sys.made == s.made + 1 && m.sys.born[m.index] == m.sys.made
      && m.handle == Encode(SerialOf(m.sys.made), m.index) && m.handle < 0x1_0000_0000
      && Lookup(m.sys, m.handle, true).ErrNone?
  {
    CreateKeeps(s, ch, ty, obj, owner, identity);
    MadeKeeps(s, ch, ty, owner, identity);
    NextSerialOf(s.made);
    var m := Create(s, ty, obj, owner, identity);
    ValueAccepted(m.sys, m.sys.made, m.index);
  }
}
