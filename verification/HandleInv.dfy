/** The invariant of the handle system, and what each operation does to it. */
module HandleInv {
  import opened HandleTable
  import opened HandleOps
  import opened HandleStack
  import opened HandleCounts
  import opened HandleChains

  // ----- serial numbers -----

  function SerialOf(n: nat): nat {
    if n == 0 then 0 else (n - 1) % 65534 + 1
  }

  /** The slots' serials are those of the last handles made in them. */
  ghost predicate SerialsOk(s: Sys) {
    && s.hserial == SerialOf(s.made)
    && (forall j: Index {:trigger s.born[j]} :: s.born[j] <= s.made)
    && (forall j: Index {:trigger s.h[j].serial} :: !s.h[j].state.Unset? ==>
          1 <= s.born[j] && s.h[j].serial == SerialOf(s.born[j]))
  }

  ghost predicate Inv(s: Sys, ch: Chains) {
    && StackOk(s)
    && ChainsOk(s, ch)
    && TypesOk(s)
    && ClonesOk(s.h)
    && ObjectsOk(s)
    && SerialsOk(s)
  }

  lemma NextSerialOf(n: nat)
    ensures NextSerial(SerialOf(n)) == SerialOf(n + 1)
  {
    if n > 0 {
      var q, r := (n - 1) / 65534, (n - 1) % 65534;
      if r == 65533 {
        assert n == (q + 1) * 65534;
      } else {
        assert n == q * 65534 + (r + 1);
      }
    }
  }

  // ----- the empty system -----

  lemma {:induction false} HeldBlank(h: seq<QHandle>)
    requires forall j :: 0 <= j < |h| ==> h[j] == BLANK
    ensures Held(h) == multiset{}
  {
    if h != [] { HeldBlank(h[..|h| - 1]); }
  }

  lemma EmptyInv()
    ensures Inv(EMPTY, seq(MAX_HANDLES + 1, i => []))
  {
    HeldBlank(EMPTY.h);
    assert TypesOk(EMPTY) by {
      forall ty: TypeId ensures OfType(EMPTY.h, ty) == {} {
      }
    }
  }

  // ----- making handles -----

  lemma Allocates(s: Sys)
    requires StackOk(s)
    ensures CanAlloc(s)
  {
    if s.free != 0 { assert s.h[s.free].freeID <= s.tail; }
  }

  /** What MakePrim does, links and reference counts aside. */
  ghost predicate MadeFacts(s: Sys, t: Sys, i: Index, ty: TypeId, identity: bool) {
    && i == AllocSlot(s) != 0 && t.tail == Alloc(s).tail && t.free == Alloc(s).free
    && t.h[i].htype == ty && t.h[i].serial == t.hserial && t.h[i].state == (if identity then Identity else Used)
    && t.hserial == NextSerial(s.hserial) && t.made == s.made + 1 && t.born == s.born[i := s.made + 1]
    && t.openCount == s.openCount[ty := s.openCount[ty] + 1]
    && t.created == s.created && t.destroyed == s.destroyed
    && (forall j: Index {:trigger t.h[j].freeID} :: t.h[j].freeID == s.h[j].freeID)
    && (forall j: Index {:trigger t.h[j]} :: j != i ==> SameCore(s.h[j], t.h[j]))
  }

  lemma LinkCore(h: Table, p: Index, i: Index, j: Index)
    ensures SameCore(h[j], Link(h, p, i)[j]) && Link(h, p, i)[j].freeID == h[j].freeID
  {
  }

  lemma MadePlain(s: Sys, ty: TypeId, owner: Owner, identity: bool)
    requires MakePrim(s, ty, owner, identity).Made?
    ensures var m := MakePrim(s, ty, owner, identity);
      MadeFacts(s, m.sys, m.index, ty, identity) && m.handle == Encode(m.sys.hserial, m.index)
  {
    var i := AllocSlot(s);
    var p := OwnerSlot(s, owner);
    var h1: Table := s.h[i := Fresh(s.h[i], ty, owner, identity, NextSerial(s.hserial))];
    if owner.Token? && !identity {
      forall j: Index ensures SameCore(h1[j], Link(h1, p, i)[j]) && Link(h1, p, i)[j].freeID == h1[j].freeID {
        LinkCore(h1, p, i, j);
      }
    }
  }

  lemma MadeStack(s: Sys, t: Sys, i: Index, ty: TypeId, identity: bool)
    requires StackOk(s) && MadeFacts(s, t, i, ty, identity)
    ensures StackOk(t)
  {
    StackMade(s, t);
  }

  lemma MadeTypes(s: Sys, t: Sys, i: Index, ty: TypeId, identity: bool)
    requires TypesOk(s) && s.h[i].state.Unset? && MadeFacts(s, t, i, ty, identity)
    ensures TypesOk(t)
  {
    TypesMade(s, t, i, ty);
  }

  lemma MadeSerials(s: Sys, t: Sys, i: Index, ty: TypeId, identity: bool)
    requires SerialsOk(s) && MadeFacts(s, t, i, ty, identity)
    ensures SerialsOk(t)
  {
    NextSerialOf(s.made);
    forall j: Index | !t.h[j].state.Unset? ensures 1 <= t.born[j] && t.h[j].serial == SerialOf(t.born[j]) {
      if j != i { assert SameCore(s.h[j], t.h[j]); }
    }
  }

  /** Steps on t that leave the stack, types and serials as they are. */
  ghost predicate Aside(t: Sys, u: Sys) {
    && u.tail == t.tail && u.free == t.free && u.openCount == t.openCount
    && u.hserial == t.hserial && u.made == t.made && u.born == t.born
    && forall j: Index {:trigger u.h[j]} :: var a, b := t.h[j], u.h[j];
      && b.state.Unset? == a.state.Unset? && b.htype == a.htype && b.serial == a.serial && b.freeID == a.freeID
  }

  lemma AsideKeeps(t: Sys, u: Sys)
    requires StackOk(t) && TypesOk(t) && SerialsOk(t) && Aside(t, u)
    ensures StackOk(u) && TypesOk(u) && SerialsOk(u)
  {
    StackSame(t, u);
    TypesSame(t, u);
  }

  lemma Untargeted(h: Table, i: Index)
    requires ClonesOk(h) && i != 0 && h[i].state.Unset?
    ensures forall j: Index :: h[j].state.Used? ==> h[j].clone != i
  {
  }

  /** MakePrim and everything but the clone accounting and the objects. */
  lemma MadeKeeps(s: Sys, ch: Chains, ty: TypeId, owner: Owner, identity: bool)
    requires Inv(s, ch) && OwnerFit(s, owner, identity) && MakePrim(s, ty, owner, identity).Made?
    ensures var m := MakePrim(s, ty, owner, identity);
      && s.h[m.index].state.Unset?
      && MadeFacts(s, m.sys, m.index, ty, identity) && MadeEffect(s, m.sys, ch, owner, identity, m.index)
      && m.handle == Encode(m.sys.hserial, m.index)
      && StackOk(m.sys) && TypesOk(m.sys) && SerialsOk(m.sys)
      && ChainsOk(m.sys, ChainsMade(s, ch, owner, identity, m.index))
  {
    var t, i := MakePrim(s, ty, owner, identity).sys, AllocSlot(s);
    Allocates(s);
    MadePlain(s, ty, owner, identity);
    MadeSlots(s, ch, ty, owner, identity);
    Untargeted(s.h, i);
    MadeChains(s, t, ch, owner, identity, i);
    MadeStack(s, t, i, ty, identity);
    MadeTypes(s, t, i, ty, identity);
    MadeSerials(s, t, i, ty, identity);
  }

  lemma EndsItsChain(s: Sys, ch: Chains, owner: Owner, identity: bool, i: Index)
    requires ChainsOk(s, ch) && s.h[i].state.Unset?
    ensures forall p: Index :: i in ChainsMade(s, ch, owner, identity, i)[p] ==>
      var c := ChainsMade(s, ch, owner, identity, i)[p]; i == c[|c| - 1]
  {
    forall p: Index ensures i !in ch[p] {
      assert (i in ch[p]) == Owns(s, p, i);
    }
  }

  /** The records after MakePrim, as the counts see them. */
  ghost predicate MadeRecords(h: Table, h': Table, i: Index, identity: bool) {
    && i != 0 && h[i].state.Unset?
    && h'[i].state == (if identity then Identity else Used) && h'[i].refcount == 1
    && (forall j: Index {:trigger h'[j]} :: j != i ==>
          SameCore(h[j], h'[j]) && (Plain(h[j]) ==> h'[j].refcount == h[j].refcount))
  }

  lemma MadeRecordsHold(s: Sys, t: Sys, ch: Chains, owner: Owner, identity: bool, i: Index)
    requires s.h[0].state.Unset? && s.h[i].state.Unset? && MadeEffect(s, t, ch, owner, identity, i)
    ensures MadeRecords(s.h, t.h, i, identity)
  {
    var p := LinkTarget(s, owner, identity);
    forall j: Index | j != i
      ensures SameCore(s.h[j], t.h[j]) && (Plain(s.h[j]) ==> t.h[j].refcount == s.h[j].refcount)
    {
      assert j == p ==> !Plain(s.h[j]);
    }
  }

  function Finish(t: Sys, i: Index, ty: TypeId, obj: int, identity: bool): Sys {
    t.(h := t.h[i := t.h[i].(obj := obj, clone := 0)],
       created := if identity then t.created else t.created + [Object(ty, obj)])
  }

  lemma CreateClones(s: Sys, t: Sys, ty: TypeId, obj: int, identity: bool, i: Index)
    requires ClonesOk(s.h) && ObjectsOk(s) && MadeRecords(s.h, t.h, i, identity)
    requires t.h[i].htype == ty && t.created == s.created && t.destroyed == s.destroyed
    ensures var u := Finish(t, i, ty, obj, identity); ClonesOk(u.h) && ObjectsOk(u)
  {
    var u := Finish(t, i, ty, obj, identity);
    assert forall j: Index :: j != i ==> u.h[j] == t.h[j];
    ClonesCreated(s.h, u.h, i, identity);
    ObjectsCreated(s, u, i, if identity then [] else [Object(ty, obj)]);
  }

  lemma ObjectsCreated(s: Sys, u: Sys, i: Index, more: seq<Object>)
    requires ObjectsOk(s) && s.h[i].state.Unset? && multiset(more) == HeldBy(u.h[i])
    requires u.created == s.created + more && u.destroyed == s.destroyed
    requires forall j: Index {:trigger u.h[j]} :: j != i ==> HeldBy(u.h[j]) == HeldBy(s.h[j])
    ensures ObjectsOk(u)
  {
    HeldUpdate(s.h, u.h, i);
    var a, b, c := multiset(s.destroyed), Held(s.h), HeldBy(u.h[i]);
    assert multiset(u.created) == multiset(s.created) + multiset(more);
    assert (a + b) + c == a + (b + c);
  }

  /** Creating a handle keeps the invariant; the new handle goes to the tail of its owner's chain. */
  lemma CreateKeeps(s: Sys, ch: Chains, ty: TypeId, obj: int, owner: Owner, identity: bool)
    requires Inv(s, ch) && OwnerFit(s, owner, identity) && Create(s, ty, obj, owner, identity).Made?
    ensures var m := Create(s, ty, obj, owner, identity);
      Inv(m.sys, ChainsMade(s, ch, owner, identity, m.index))
  {
    MadeKeeps(s, ch, ty, owner, identity);
    var m := MakePrim(s, ty, owner, identity);
    CreateFinishes(s, m.sys, ch, ty, obj, owner, identity, m.index);
  }

  lemma CreateFinishes(s: Sys, t: Sys, ch: Chains, ty: TypeId, obj: int, owner: Owner, identity: bool, i: Index)
    requires Inv(s, ch) && s.h[i].state.Unset?
    requires MadeFacts(s, t, i, ty, identity) && MadeEffect(s, t, ch, owner, identity, i)
    requires StackOk(t) && TypesOk(t) && SerialsOk(t) && ChainsOk(t, ChainsMade(s, ch, owner, identity, i))
    ensures Inv(Finish(t, i, ty, obj, identity), ChainsMade(s, ch, owner, identity, i))
  {
    var u := Finish(t, i, ty, obj, identity);
    MadeRecordsHold(s, t, ch, owner, identity, i);
    CreateClones(s, t, ty, obj, identity, i);
    AsideKeeps(t, u);
    EndsItsChain(s, ch, owner, identity, i);
    Unseen(t, u, ChainsMade(s, ch, owner, identity, i), i);
  }

  function Attach(t: Sys, i: Index, m: Index): Sys {
    var h1: Table := t.h[i := t.h[i].(clone := m)];
    t.(h := h1[m := h1[m].(refcount := h1[m].refcount + 1)])
  }

  lemma CloneClones(s: Sys, t: Sys, i: Index, m: Index)
    requires ClonesOk(s.h) && ObjectsOk(s) && Original(s.h[m]) && MadeRecords(s.h, t.h, i, false)
    requires t.h[i].htype == s.h[m].htype && t.created == s.created && t.destroyed == s.destroyed
    ensures var u := Attach(t, i, m); ClonesOk(u.h) && ObjectsOk(u)
  {
    var u := Attach(t, i, m);
    assert forall j: Index :: j != i && j != m ==> u.h[j] == t.h[j];
    ClonesCloned(s.h, u.h, i, m);
    assert HeldBy(u.h[m]) == HeldBy(s.h[m]);
    HeldSame(s.h, u.h);
  }

  lemma CloneSlotIs(s: Sys, m: Index, owner: Owner)
    requires CloneSlot(s, m, owner).Made?
    ensures var c := MakePrim(s, s.h[m].htype, owner, false);
      c.Made? && CloneSlot(s, m, owner) == Made(Attach(c.sys, c.index, m), c.index, c.handle)
  {
  }

  /** So does cloning an original. */
  lemma CloneKeeps(s: Sys, ch: Chains, m: Index, owner: Owner)
    requires Inv(s, ch) && OwnerFit(s, owner, false) && Original(s.h[m]) && CloneSlot(s, m, owner).Made?
    ensures var c := CloneSlot(s, m, owner);
      Inv(c.sys, ChainsMade(s, ch, owner, false, c.index))
  {
    CloneSlotIs(s, m, owner);
    MadeKeeps(s, ch, s.h[m].htype, owner, false);
    var c := MakePrim(s, s.h[m].htype, owner, false);
    CloneFinishes(s, c.sys, ch, owner, c.index, m);
  }

  lemma CloneFinishes(s: Sys, t: Sys, ch: Chains, owner: Owner, i: Index, m: Index)
    requires Inv(s, ch) && s.h[i].state.Unset? && Original(s.h[m])
    requires MadeFacts(s, t, i, s.h[m].htype, false) && MadeEffect(s, t, ch, owner, false, i)
    requires StackOk(t) && TypesOk(t) && SerialsOk(t) && ChainsOk(t, ChainsMade(s, ch, owner, false, i))
    ensures Inv(Attach(t, i, m), ChainsMade(s, ch, owner, false, i))
  {
    MadeRecordsHold(s, t, ch, owner, false, i);
    CloneClones(s, t, i, m);
    assert SameCore(s.h[m], t.h[m]);
    EndsItsChain(s, ch, owner, false, i);
    AttachAside(t, ChainsMade(s, ch, owner, false, i), i, m);
  }

  lemma AttachAside(t: Sys, ch: Chains, i: Index, m: Index)
    requires StackOk(t) && TypesOk(t) && SerialsOk(t) && ChainsOk(t, ch) && Plain(t.h[m])
    requires forall p: Index :: i in ch[p] ==> i == ch[p][|ch[p]| - 1]
    ensures var u := Attach(t, i, m); StackOk(u) && TypesOk(u) && SerialsOk(u) && ChainsOk(u, ch)
  {
    var u := Attach(t, i, m);
    assert forall j: Index {:trigger u.h[j]} :: u.h[j] == t.h[j].(clone := u.h[j].clone, refcount := u.h[j].refcount);
    AsideKeeps(t, u);
    Unseen(t, u, ch, i);
  }
}
