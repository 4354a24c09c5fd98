/** The HandleSystem class of sourcemod/core/HandleSys.cpp: the methods update the arrays in place and
    are proved against the functions of HandleOps and HandleSweep. */
module HandleSystem {
  import opened HandleTable
  import opened HandleOps
  import opened HandleStack
  import opened HandleCounts
  import opened HandleChains
  import opened HandleInv
  import opened HandleFree
  import opened HandleDeath
  import opened HandleSweep
  import opened HandleLevel
  import opened HandleLinks
  import opened HandleRemoval
  import opened HandleValues

  function Enter(s: Sys, i: Index, ty: TypeId, owner: Owner, identity: bool): Sys {
    var serial := NextSerial(s.hserial);
    s.(h := s.h[i := Fresh(s.h[i], ty, owner, identity, serial)], hserial := serial,
       openCount := s.openCount[ty := s.openCount[ty] + 1], made := s.made + 1, born := s.born[i := s.made + 1])
  }

  lemma CloneValueKeeps(s: Sys, ch: Chains, v: nat, root: bool, newOwner: Owner)
    requires Inv(s, ch) && OwnerFit(s, newOwner, false) && Clone(s, v, root, newOwner).Made?
    ensures var c := Clone(s, v, root, newOwner);
      Inv(c.sys, ChainsMade(s, ch, newOwner, false, c.index))
  {
    var m := OriginalOf(s, v % 0x10000);
    assert Original(s.h[m]);
    CloneKeeps(s, ch, m, newOwner);
  }

  lemma AllocFails(s: Sys)
    requires StackOk(s) && AllocSlot(s) == 0
    ensures Alloc(s) == s
  {
  }

  class HandleSystem {
    const handles: array<QHandle>
    const openCounts: array<nat>
    var handleTail: Index
    var freeHandles: Index
    var serial: nat

    // Observations: objects handed over, destructor calls, handles made so far and per slot.
    ghost var created: seq<Object>
    ghost var destroyed: seq<Object>
    ghost var made: nat
    ghost var born: Births

    // The chain of each identity, in order.
    ghost var chains: Chains

    ghost predicate Shaped()
      reads this
    {
      handles.Length == MAX_HANDLES + 1 && openCounts.Length == TYPE_SLOTS
    }

    ghost function View(): Sys
      requires Shaped()
      reads this, handles, openCounts
    {
      Sys(handles[..], handleTail, freeHandles, serial, openCounts[..], created, destroyed, made, born)
    }

    ghost predicate Valid()
      reads this, handles, openCounts
    {
      Shaped() && Inv(View(), chains)
    }

    constructor ()
      ensures Valid() && View() == EMPTY && fresh(handles) && fresh(openCounts)
    {
      handles := new QHandle[MAX_HANDLES + 1](i => BLANK);
      openCounts := new nat[TYPE_SLOTS](i => 0);
      handleTail, freeHandles, serial := 0, 0, 0;
      created, destroyed, made, born := [], [], 0, EMPTY.born;
      chains := seq(MAX_HANDLES + 1, i => []);
      new;
      assert handles[..] == EMPTY.h && openCounts[..] == EMPTY.openCount;
      EmptyInv();
    }

    /** GetHandle: the slot a handle value denotes. */
    method GetHandle(v: nat, root: bool) returns (err: HandleError, index: Index)
      requires Shaped() && handleTail <= MAX_HANDLES
      ensures err == Lookup(View(), v, root)
      ensures err.ErrNone? ==> index == v % 0x10000
    {
      var i := v % 0x10000;
      index := 0;
      if i == 0 || i > handleTail { return ErrIndex, 0; }
      var r := handles[i];
      if r.state.Unset? || r.state.Freed? { return ErrFreed, 0; }
      if r.state.Identity? && !root { return ErrIdentity, 0; }
      if r.serial != v / 0x10000 { return ErrChanged, 0; }
      return ErrNone, i;
    }

    /** IdentityHandle: the slot an owner token resolves to, 0 if none. */
    method ResolveOwner(owner: Owner) returns (index: Index)
      requires Shaped()
      ensures index == OwnerSlot(View(), owner)
    {
      index := 0;
      if owner.Token? {
        var err, i := GetHandle(owner.ident, true);
        if err.ErrNone? { index := i; }
      }
    }

    method TryAllocHandle() returns (index: Index)
      requires Shaped()
      modifies this`handleTail, this`freeHandles
      ensures index == AllocSlot(old(View()))
      ensures View() == Alloc(old(View()))
    {
      if freeHandles == 0 {
        if handleTail >= MAX_HANDLES { return 0; }
        handleTail := handleTail + 1;
        index := handleTail;
      } else {
        index := handles[freeHandles].freeID;
        freeHandles := freeHandles - 1;
      }
    }

    /** The last part of MakePrimHandle: append the slot to the chain of the sentinel. */
    method LinkHandle(p: Index, j: Index)
      requires Shaped()
      modifies handles
      ensures handles[..] == Link(old(handles[..]), p, j)
    {
      if handles[p].prev == 0 {
        handles[p] := handles[p].(prev := j, next := j);
        handles[j] := handles[j].(prev := 0);
      } else {
        var t := handles[p].next;
        handles[t] := handles[t].(next := j);
        handles[j] := handles[j].(prev := handles[p].next);
        handles[p] := handles[p].(next := j);
      }
      handles[p] := handles[p].(refcount := handles[p].refcount + 1);
    }

    /** MakePrimHandle. Nothing changes when the owner does not resolve or the table is full. */
    method MakePrimHandle(ty: TypeId, owner: Owner, identity: bool)
      returns (err: HandleError, index: Index, handle: nat)
      requires Shaped() && StackOk(View())
      modifies this`handleTail, this`freeHandles, this`serial, this`made, this`born, handles, openCounts
      ensures match MakePrim(old(View()), ty, owner, identity)
        case NotMade(e) => err == e && !e.ErrNone? && View() == old(View())
        case Made(t, i, v) => err.ErrNone? && index == i && handle == v && View() == t
    {
      hide StackOk, Link;
      if AllocSlot(View()) == 0 { AllocFails(View()); }
      index, handle := 0, 0;
      var p := ResolveOwner(owner);
      if owner.Token? && p == 0 { return ErrIdentity, 0, 0; }
      var i := TryAllocHandle();
      if i == 0 { return ErrLimit, 0, 0; }
      InitHandle(i, ty, owner, identity);
      if owner.Token? && !identity {
        LinkHandle(p, i);
      }
      return ErrNone, i, Encode(serial, i);
    }

    /** The essential information of a new handle. */
    method InitHandle(i: Index, ty: TypeId, owner: Owner, identity: bool)
      requires Shaped()
      modifies this`serial, this`made, this`born, handles, openCounts
      ensures View() == Enter(old(View()), i, ty, owner, identity)
    {
      serial := serial + 1;
      if serial >= MAX_SERIALS { serial := 1; }
      handles[i] := handles[i].(
        state := if identity then Identity else Used, refcount := 1, htype := ty,
        serial := serial, owner := owner, next := 0, prev := 0);
      openCounts[ty] := openCounts[ty] + 1;
      made := made + 1;
      born := born[i := made];
    }

    /** CreateHandleInt. */
    method CreateHandleInt(ty: TypeId, obj: int, owner: Owner, identity: bool)
      returns (err: HandleError, index: Index, handle: nat)
      requires Shaped() && StackOk(View())
      modifies this`handleTail, this`freeHandles, this`serial, this`made, this`born, this`created, handles, openCounts
      ensures match Create(old(View()), ty, obj, owner, identity)
        case NotMade(e) => err == e && !e.ErrNone? && View() == old(View())
        case Made(t, i, v) => err.ErrNone? && index == i && handle == v && View() == t
    {
      err, index, handle := MakePrimHandle(ty, owner, identity);
      if err.ErrNone? {
        handles[index] := handles[index].(obj := obj, clone := 0);
        if !identity { created := created + [Object(ty, obj)]; }
      }
    }

    /** CreateHandle: the new handle goes to the tail of its owner's chain. */
    method CreateHandle(ty: TypeId, obj: int, owner: Owner, identity: bool)
      returns (err: HandleError, handle: nat)
      requires Valid() && OwnerFit(View(), owner, identity)
      modifies this, handles, openCounts
      ensures Valid()
      ensures match Create(old(View()), ty, obj, owner, identity)
        case NotMade(e) => err == e && !e.ErrNone? && View() == old(View()) && chains == old(chains)
        case Made(t, i, v) =>
          && err.ErrNone? && handle == v && View() == t
          && chains == ChainsMade(old(View()), old(chains), owner, identity, i)
    {
      hide Create, ChainsMade, StackOk;
      ghost var s, ch := View(), chains;
      var index;
      err, index, handle := CreateHandleInt(ty, obj, owner, identity);
      if err.ErrNone? {
        chains := ChainsMade(s, ch, owner, identity, index);
        CreateKeeps(s, ch, ty, obj, owner, identity);
      }
    }

    /** The inner CloneHandle, on the slot of an original. */
    method CloneIndex(m: Index, newOwner: Owner)
      returns (err: HandleError, index: Index, handle: nat)
      requires Shaped() && StackOk(View())
      modifies this`handleTail, this`freeHandles, this`serial, this`made, this`born, handles, openCounts
      ensures match CloneSlot(old(View()), m, newOwner)
        case NotMade(e) => err == e && !e.ErrNone? && View() == old(View())
        case Made(t, i, v) => err.ErrNone? && index == i && handle == v && View() == t
    {
      hide MakePrim, StackOk;
      err, index, handle := MakePrimHandle(handles[m].htype, newOwner, false);
      if err.ErrNone? {
        handles[index] := handles[index].(clone := m);
        handles[m] := handles[m].(refcount := handles[m].refcount + 1);
      }
    }

    /** The outer CloneHandle, for a caller with clone access. */
    method CloneValue(v: nat, root: bool, newOwner: Owner)
      returns (err: HandleError, index: Index, handle: nat)
      requires Shaped() && StackOk(View())
      modifies this`handleTail, this`freeHandles, this`serial, this`made, this`born, handles, openCounts
      ensures match Clone(old(View()), v, root, newOwner)
        case NotMade(e) => err == e && !e.ErrNone? && View() == old(View())
        case Made(t, i, w) => err.ErrNone? && index == i && handle == w && View() == t
    {
      index, handle := 0, 0;
      var i;
      err, i := GetHandle(v, root);
      if !err.ErrNone? { return err, 0, 0; }
      if handles[i].state.Identity? { return ErrIdentity, 0, 0; }
      if handles[i].clone != 0 {
        err, index, handle := CloneIndex(handles[i].clone, newOwner);
      } else {
        err, index, handle := CloneIndex(i, newOwner);
      }
    }

    /** Cloning keeps the chains: the clone goes to the tail of its new owner's chain. */
    method CloneHandle(v: nat, root: bool, newOwner: Owner)
      returns (err: HandleError, handle: nat)
      requires Valid() && OwnerFit(View(), newOwner, false)
      modifies this, handles, openCounts
      ensures Valid()
      ensures match Clone(old(View()), v, root, newOwner)
        case NotMade(e) => err == e && !e.ErrNone? && View() == old(View()) && chains == old(chains)
        case Made(t, i, w) =>
          && err.ErrNone? && handle == w && View() == t
          && chains == ChainsMade(old(View()), old(chains), newOwner, false, i)
    {
      hide Clone, ChainsMade, StackOk;
      ghost var s, ch := View(), chains;
      var index;
      err, index, handle := CloneValue(v, root, newOwner);
      if err.ErrNone? {
        chains := ChainsMade(s, ch, newOwner, false, index);
        CloneValueKeeps(s, ch, v, root, newOwner);
      }
    }

    /** ReadHandle, for a caller with read access. */
    method ReadHandle(v: nat, root: bool, ty: TypeId) returns (err: HandleError, obj: int)
      requires Valid()
      ensures (err, obj) == Read(View(), v, root, ty)
    {
      var i;
      err, i := GetHandle(v, root);
      if !err.ErrNone? { return err, 0; }
      var r := handles[i];
      if r.htype % 16 != 0 {
        if r.htype != ty && r.htype / 16 != ty / 16 { return ErrType, 0; }
      } else if ty != 0 {
        if r.htype != ty { return ErrType, 0; }
      }
      if r.clone != 0 { return ErrNone, handles[r.clone].obj; }
      return ErrNone, r.obj;
    }

    method UnlinkHandleFromOwner(j: Index)
      requires Shaped()
      modifies handles
      ensures View() == Disown(old(View()), j)
    {
      var p := ResolveOwner(handles[j].owner);
      if p == 0 { return; }
      if j == handles[p].prev && j == handles[p].next {
        handles[p] := handles[p].(prev := 0, next := 0);
      } else if j == handles[p].prev {
        handles[p] := handles[p].(prev := handles[j].next);
        handles[handles[j].next] := handles[handles[j].next].(prev := 0);
      } else if j == handles[p].next {
        handles[p] := handles[p].(next := handles[j].prev);
        handles[handles[j].prev] := handles[handles[j].prev].(next := 0);
      } else {
        handles[handles[j].next] := handles[handles[j].next].(prev := handles[j].prev);
        handles[handles[j].prev] := handles[handles[j].prev].(next := handles[j].next);
      }
      handles[p] := handles[p].(refcount := Dec32(handles[p].refcount));
    }

    /** The end of ReleasePrimHandle. */
    method VacateSlot(j: Index)
      requires Shaped() && freeHandles < MAX_HANDLES
      modifies this`freeHandles, handles, openCounts
      ensures View() == Vacate(old(View()), j)
    {
      var ty := handles[j].htype;
      handles[j] := handles[j].(state := Unset);
      openCounts[ty] := Dec32(openCounts[ty]);
      freeHandles := freeHandles + 1;
      handles[freeHandles] := handles[freeHandles].(freeID := j);
    }

    /** OnHandleDestroy, as far as the handle system can tell. */
    ghost method OnHandleDestroy(m: Index)
      requires Shaped()
      modifies this`destroyed
      ensures View() == old(View()).(destroyed := old(destroyed) + [Object(handles[m].htype, handles[m].obj)])
    {
      destroyed := destroyed + [Object(handles[m].htype, handles[m].obj)];
    }

    method DropCount(m: Index)
      requires Shaped()
      modifies handles
      ensures View() == Drop(old(View()), m)
    {
      handles[m] := handles[m].(refcount := Dec32(handles[m].refcount));
    }

    method MarkFreed(j: Index)
      requires Shaped()
      modifies handles
      ensures View() == old(View()).(h := old(View()).h[j := old(View()).h[j].(state := Freed)])
    {
      handles[j] := handles[j].(state := Freed);
    }

    /** ReleasePrimHandle on a slot that is not an identity. */
    method ReleaseSlot(j: Index)
      requires Shaped() && StackOk(View()) && !handles[j].state.Unset?
      modifies this`freeHandles, handles, openCounts
      ensures View() == Release(old(View()), j)
      ensures StackOk(View())
    {
      ghost var s := View();
      ReleaseDoes(s, j);
      StackVacated(s, Release(s, j), j);
      UnlinkHandleFromOwner(j);
      VacateSlot(j);
    }

    method DestroyOriginal(m: Index)
      requires Shaped() && StackOk(View()) && !handles[m].state.Unset?
      modifies this`freeHandles, this`destroyed, handles, openCounts
      ensures View() == Destroy(old(View()), m)
    {
      ghost var s := View();
      OnHandleDestroy(m);
      StackSame(s, View());
      ReleaseSlot(m);
    }

    /** FreeHandle on the slot of a clone. */
    method FreeClone(j: Index)
      requires Shaped() && StackOk(View()) && ClonesOk(View().h) && handles[j].state.Used? && handles[j].clone != 0
      modifies this`freeHandles, this`destroyed, handles, openCounts
      ensures View() == FreeSlot(old(View()), j)
    {
      ghost var s := View();
      var m := handles[j].clone;
      FreeSlotCases(s, j);
      UncloneReady(s, j);
      ReleaseSlot(j);
      DropCount(m);
      if handles[m].refcount == 0 {
        DestroyOriginal(m);
      }
    }

    /** FreeHandle on the slot of an original. */
    method FreeOriginal(j: Index)
      requires Shaped() && StackOk(View()) && handles[j].state.Used? && handles[j].clone == 0
      modifies this`freeHandles, this`destroyed, handles, openCounts
      ensures View() == FreeSlot(old(View()), j)
    {
      ghost var s := View();
      FreeSlotCases(s, j);
      DropReady(s, j);
      DropCount(j);
      if handles[j].refcount == 0 {
        DestroyOriginal(j);
      } else {
        MarkFreed(j);
        UnlinkHandleFromOwner(j);
      }
    }

    method FreeUsed(j: Index)
      requires Shaped() && StackOk(View()) && ClonesOk(View().h) && handles[j].state.Used?
      modifies this`freeHandles, this`destroyed, handles, openCounts
      ensures View() == FreeSlot(old(View()), j)
    {
      if handles[j].clone != 0 { FreeClone(j); } else { FreeOriginal(j); }
    }

    /** FreeHandle on the slot of a handle: outside the stale case the chains stay sound, and only
        the owner's chain changes. */
    method FreeIndex(j: Index)
      requires Valid() && handles[j].state.Used?
      modifies this`freeHandles, this`destroyed, this`chains, handles, openCounts
      ensures Shaped() && View() == FreeSlot(old(View()), j)
      ensures !Stale(old(View()), j) ==> Valid() && chains == ChainsLeft(old(View()), old(chains), j)
    {
      ghost var s, ch := View(), chains;
      FreeUsed(j);
      if !Stale(s, j) {
        chains := ChainsLeft(s, ch, j);
        FreeKeeps(s, ch, j);
      }
    }

    /** The loop of ReleasePrimHandle: as long as the identity's link names a handle, that is freed. */
    method FreeOwned(p: Index)
      requires Valid() && handles[p].state.Identity? && Harmless(View(), p, chains[p])
      modifies this`freeHandles, this`destroyed, handles, openCounts
      ensures Shaped() && View() == FreeChain(old(View()), old(chains)[p])
      ensures StackOk(View()) && handles[p].state.Identity?
    {
      hide Going, StackOk, ClonesOk, FreeSlot, Inv, Harmless, Absolved;
      ghost var s, c, r, ch := View(), chains[p], Absolved(View(), {p}), chains;
      LoopStarts(s, ch, p);
      EndOrOn(s, r, ch, p);
      while handles[p].next != 0
        invariant Shaped() && Going(View(), r, ch, p, {p})
        invariant FreeChain(View(), ch[p]) == FreeChain(s, c)
        invariant View().h[p].next == 0 ==> ch[p] == [] && StackOk(View()) && View().h[p].state.Identity?
        invariant View().h[p].next != 0 ==> ch[p] != []
        decreases |ch[p]|
      {
        ghost var j, rest := ch[p][|ch[p]| - 1], ch[p][..|ch[p]| - 1];
        GoesOn(View(), r, ch, p, {p});
        FreeUsed(handles[p].next);
        r, ch := FreeSlot(r, j), ch[p := rest];
        EndOrOn(View(), r, ch, p);
      }
    }

    /** ReleasePrimHandle on an identity. */
    method ReleaseIdentity(p: Index)
      requires Valid() && handles[p].state.Identity? && Harmless(View(), p, chains[p])
      modifies this`freeHandles, this`destroyed, this`chains, handles, openCounts
      ensures Valid() && View() == FreeIdentity(old(View()), p, old(chains)[p])
      ensures chains == old(chains)[p := []]
    {
      ghost var s, ch := View(), chains;
      IdentityReleased(s, ch, p, |ch[p]|);
      FreeOwned(p);
      Room(View(), p);
      VacateSlot(p);
      chains := ch[p := []];
    }

    /** FreeHandle, for a caller with delete access. */
    method FreeHandle(v: nat, root: bool) returns (err: HandleError)
      requires Valid()
      requires Lookup(View(), v, root).ErrNone? && View().h[v % 0x10000].state.Identity? ==>
        Harmless(View(), v % 0x10000, chains[v % 0x10000])
      modifies this`freeHandles, this`destroyed, this`chains, handles, openCounts
      ensures err == Lookup(old(View()), v, root) && Shaped()
      ensures !err.ErrNone? ==> Valid() && View() == old(View()) && chains == old(chains)
      ensures err.ErrNone? && old(View()).h[v % 0x10000].state.Identity? ==>
        Valid() && View() == FreeIdentity(old(View()), v % 0x10000, old(chains)[v % 0x10000])
      ensures err.ErrNone? && old(View()).h[v % 0x10000].state.Used? ==>
        View() == FreeSlot(old(View()), v % 0x10000) && (!Stale(old(View()), v % 0x10000) ==> Valid())
    {
      var i;
      err, i := GetHandle(v, root);
      if err.ErrNone? {
        if handles[i].state.Identity? { ReleaseIdentity(i); } else { FreeIndex(i); }
      }
    }

    // ----- RemoveType -----

    method SweepIndex(ty: TypeId, i: Index)
      requires Shaped() && SweepCore(View(), ty, i)
      modifies this`freeHandles, this`destroyed, handles, openCounts
      ensures Shaped() && View() == SweepSlot(old(View()), ty, i)
      ensures SweepCore(View(), ty, i + 1)
    {
      hide Sweeping;
      ghost var s := View();
      if handles[i].state.Unset? || handles[i].htype != ty {
      } else if handles[i].clone != 0 {
        SweepFacts(s, ty, i);
        SweepClone(ty, i);
      } else {
        SweepFacts(s, ty, i);
        SweepOriginal(ty, i);
      }
      CoreStep(s, ty, i);
    }

    method SweepClone(ty: TypeId, i: Index)
      requires Shaped() && SweepCore(View(), ty, i)
      requires handles[i].state.Used? && handles[i].htype == ty && handles[i].clone != 0
      modifies this`freeHandles, this`destroyed, handles, openCounts
      ensures View() == SweepSlot(old(View()), ty, i)
    {
      ghost var s := View();
      var m := handles[i].clone;
      CloneTurn(s, ty, i);
      DropCount(m);
      if handles[m].refcount == 0 {
        DestroyOriginal(m);
      }
      ReleaseSlot(i);
    }

    method SweepOriginal(ty: TypeId, i: Index)
      requires Shaped() && SweepCore(View(), ty, i)
      requires Plain(handles[i]) && handles[i].htype == ty && handles[i].clone == 0
      modifies this`freeHandles, this`destroyed, handles, openCounts
      ensures View() == SweepSlot(old(View()), ty, i)
    {
      ghost var s := View();
      OriginalTurn(s, ty, i);
      DropCount(i);
      if handles[i].refcount == 0 {
        DestroyOriginal(i);
      }
    }

    /** One turn of the loop of RemoveType, and whether the loop stops there. */
    method SweepTurn(ty: TypeId, i: Index) returns (done: bool)
      requires Shaped() && SweepCore(View(), ty, i) && i <= handleTail
      modifies this`freeHandles, this`destroyed, handles, openCounts
      ensures Shaped() && SweepCore(View(), ty, i + 1)
      ensures Sweep(old(View()), ty, i) == if done then View() else Sweep(View(), ty, i + 1)
    {
      hide SweepCore, Sweeping;
      var ours := !handles[i].state.Unset? && handles[i].htype == ty;
      SweepIndex(ty, i);
      done := ours && openCounts[ty] == 0;
    }

    /** The loop of RemoveType. */
    method SweepHandles(ty: TypeId)
      requires Shaped() && SweepCore(View(), ty, 1)
      modifies this`freeHandles, this`destroyed, handles, openCounts
      ensures Shaped() && View() == Sweep(old(View()), ty, 1)
    {
      ghost var s := View();
      var i, done := 1, false;
      while i <= handleTail && !done
        invariant 1 <= i <= MAX_HANDLES + 1
        invariant !done ==> SweepCore(View(), ty, i)
        invariant Sweep(s, ty, 1) == if done then View() else Sweep(View(), ty, i)
        decreases MAX_HANDLES + 1 - i
      {
        done := SweepTurn(ty, i);
        i := i + 1;
      }
    }

    /** RemoveType on one type: when it is done nothing of the type is left, and the chains are whole exactly
        when no freed original of the type had an owner that still resolved. */
    method RemoveType(ty: TypeId)
      requires Valid() && NoIdentity(View().h, ty) && FreedFit(View(), ty)
      modifies this`freeHandles, this`destroyed, this`chains, handles, openCounts
      ensures Shaped() && View() == RemoveHandles(old(View()), ty)
      ensures (forall j: Index :: View().h[j].state.Unset? || View().h[j].htype != ty) && ObjectsOk(View())
      ensures Valid() <==> Disowned(old(View()), ty)
    {
      hide Inv, RemoveHandles, SweepCore, Sweep, Disowned, FreedFit;
      ghost var s := View();
      ghost var sound := RemovedChains(s, chains, ty);
      CoreStarts(s, chains, ty);
      RemovalIs(s, ty);
      if openCounts[ty] != 0 {
        SweepHandles(ty);
      }
      chains := sound;
    }
  }

  lemma RemovalIs(s: Sys, ty: TypeId)
    ensures RemoveHandles(s, ty) == if s.openCount[ty] == 0 then s else Sweep(s, ty, 1)
  {
  }

  /** Chains for the system after RemoveType, if there are any. */
  lemma RemovedChains(s: Sys, ch: Chains, ty: TypeId) returns (ch': Chains)
    requires Inv(s, ch) && NoIdentity(s.h, ty) && FreedFit(s, ty)
    ensures Inv(RemoveHandles(s, ty), ch') <==> Disowned(s, ty)
    ensures forall j: Index :: RemoveHandles(s, ty).h[j].state.Unset? || RemoveHandles(s, ty).h[j].htype != ty
    ensures ObjectsOk(RemoveHandles(s, ty))
  {
    hide Inv, RemoveHandles, Disowned;
    RemovalExact(s, ch, ty);
    RemovalLeavesNone(s, ch, ty);
    ch' := ch;
    if Disowned(s, ty) { ch' :| Inv(RemoveHandles(s, ty), ch'); }
  }

  lemma SweepFacts(s: Sys, ty: TypeId, i: Index)
    requires SweepCore(s, ty, i) && !s.h[i].state.Unset? && s.h[i].htype == ty
    ensures Plain(s.h[i]) && (s.h[i].clone != 0 ==> s.h[i].state.Used?)
  {
  }

  lemma OriginalTurn(s: Sys, ty: TypeId, i: Index)
    requires SweepCore(s, ty, i) && Original(s.h[i]) && s.h[i].htype == ty
    ensures StackOk(Drop(s, i))
  {
    DropSlight(s, i);
    SlightGround(s, Drop(s, i), Only(ty));
  }

  /** What the turn of the sweep at a clone needs of the slots it releases. */
  lemma CloneTurn(s: Sys, ty: TypeId, i: Index)
    requires SweepCore(s, ty, i) && s.h[i].state.Used? && s.h[i].htype == ty && s.h[i].clone != 0
    ensures var m := s.h[i].clone; var t := Drop(s, m);
      && StackOk(t)
      && (t.h[m].refcount == 0 ==>
            !t.h[m].state.Unset? && StackOk(Destroy(t, m)) && !Destroy(t, m).h[i].state.Unset?)
  {
    hide Destroy, Drop, Sweeping;
    var m := s.h[i].clone;
    var t := Drop(s, m);
    CloneFacts(s.h, ty, i);
    DropSlight(s, m);
    DropIs(s, m);
    SlightGround(s, t, Only(ty));
    if t.h[m].refcount == 0 {
      DestroyGone(t, m, Only(ty));
    }
  }

  lemma DropReady(s: Sys, m: Index)
    requires StackOk(s)
    ensures StackOk(Drop(s, m)) && forall x: Index {:trigger Drop(s, m).h[x]} :: Drop(s, m).h[x].state == s.h[x].state
  {
    StackSame(s, Drop(s, m));
  }

  /** The original of a clone can be released when the clone has gone. */
  lemma UncloneReady(s: Sys, j: Index)
    requires StackOk(s) && ClonesOk(s.h) && s.h[j].state.Used? && s.h[j].clone != 0
    ensures var t, m := Unclone(s, j), s.h[j].clone; StackOk(t) && !t.h[m].state.Unset?
  {
    hide Release, Drop;
    var r, m := Release(s, j), s.h[j].clone;
    ReleaseDoes(s, j);
    StackVacated(s, r, j);
    assert Original(s.h[m]) && m != j;
    assert SameCore(s.h[m], r.h[m]);
    DropReady(r, m);
    assert Drop(r, m).h[m].state == r.h[m].state;
  }

  lemma LoopStarts(s: Sys, ch: Chains, p: Index)
    requires Inv(s, ch) && s.h[p].state.Identity? && Harmless(s, p, ch[p])
    ensures Going(s, Absolved(s, {p}), ch, p, {p})
  {
    hide Inv, Spared, Sim, Same, Absolved, FreeChain, FreeLinked, Tame;
    NotZero(s, ch, p);
    AbsolvedIs(s, p, ch[p], {p});
    SameInv(s, Absolved(s, {p}), ch);
  }

  lemma EndOrOn(s: Sys, r: Sys, ch: Chains, p: Index)
    requires Going(s, r, ch, p, {p})
    ensures s.h[p].next == 0 <==> ch[p] == []
    ensures s.h[p].next == 0 ==> StackOk(s) && s.h[p].state.Identity?
  {
    hide Going, StackOk;
    if ch[p] == [] { GoesNoFurther(s, r, ch, p, {p}); } else { GoesOn(s, r, ch, p, {p}); }
  }
}
