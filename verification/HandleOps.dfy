/** The operations of sourcemod/core/HandleSys.cpp as functions on the table. */
module HandleOps {
  import opened HandleTable

  datatype Made = NotMade(error: HandleError) | Made(sys: Sys, index: Index, handle: nat)

  function NextSerial(serial: nat): nat {
    if serial + 1 >= MAX_SERIALS then 1 else serial + 1
  }

  /** The slot TryAllocHandle hands out, 0 when the table is full. */
  function AllocSlot(s: Sys): Index {
    if s.free != 0 then s.h[s.free].freeID
    else if s.tail < MAX_HANDLES then s.tail + 1
    else 0
  }

  function Alloc(s: Sys): Sys {
    if s.free != 0 then s.(free := s.free - 1)
    else if s.tail < MAX_HANDLES then s.(tail := s.tail + 1)
    else s
  }

  /** The essential information MakePrimHandle writes before it links the slot. */
  function Fresh(r: QHandle, htype: TypeId, owner: Owner, identity: bool, serial: nat): QHandle {
    r.(state := if identity then Identity else Used, refcount := 1, htype := htype,
       serial := serial, owner := owner, next := 0, prev := 0)
  }

  function MakePrim(s: Sys, htype: TypeId, owner: Owner, identity: bool): Made {
    var p := OwnerSlot(s, owner);
    var i := AllocSlot(s);
    if owner.Token? && p == 0 then NotMade(ErrIdentity)
    else if i == 0 then NotMade(ErrLimit)
    else
      var serial := NextSerial(s.hserial);
      var h1: Table := s.h[i := Fresh(s.h[i], htype, owner, identity, serial)];
      var h2 := if owner.Token? && !identity then Link(h1, p, i) else h1;
      Made(Alloc(s).(h := h2, hserial := serial, made := s.made + 1, born := s.born[i := s.made + 1],
                     openCount := s.openCount[htype := s.openCount[htype] + 1]),
           i, Encode(serial, i))
  }

  /** CreateHandleInt, for a type that exists and that the caller may create. */
  function Create(s: Sys, htype: TypeId, obj: int, owner: Owner, identity: bool): Made {
    match MakePrim(s, htype, owner, identity)
    case NotMade(e) => NotMade(e)
    case Made(t, i, v) =>
      Made(t.(h := t.h[i := t.h[i].(obj := obj, clone := 0)],
              created := if identity then t.created else t.created + [Object(htype, obj)]), i, v)
  }

  /** CloneHandle on the slot of an original. */
  function CloneSlot(s: Sys, m: Index, newOwner: Owner): Made {
    match MakePrim(s, s.h[m].htype, newOwner, false)
    case NotMade(e) => NotMade(e)
    case Made(t, i, v) =>
      var h1: Table := t.h[i := t.h[i].(clone := m)];
      Made(t.(h := h1[m := h1[m].(refcount := h1[m].refcount + 1)]), i, v)
  }

  /** CloneHandle on a handle value the caller may clone: a clone's clone is a clone of the original. */
  function Clone(s: Sys, v: nat, root: bool, newOwner: Owner): Made {
    var i := v % 0x10000;
    if !Lookup(s, v, root).ErrNone? then NotMade(Lookup(s, v, root))
    else if s.h[i].state.Identity? then NotMade(ErrIdentity)
    else if s.h[i].clone != 0 then CloneSlot(s, s.h[i].clone, newOwner)
    else CloneSlot(s, i, newOwner)
  }

  /** UnlinkHandleFromOwner: nothing happens when the owner no longer resolves. */
  function Disown(s: Sys, j: Index): Sys {
    var p := OwnerSlot(s, s.h[j].owner);
    if p == 0 then s else s.(h := Unlink(s.h, p, j))
  }

  /** The end of ReleasePrimHandle: the slot goes back on the stack. The last case, a stack that
      would leave the array, never arises: HandleStack.Room. */
  function Vacate(s: Sys, j: Index): Sys {
    var t := s.h[j].htype;
    var h1: Table := s.h[j := s.h[j].(state := Unset)];
    if s.free < MAX_HANDLES then
      s.(h := h1[s.free + 1 := h1[s.free + 1].(freeID := j)], free := s.free + 1,
         openCount := s.openCount[t := Dec32(s.openCount[t])])
    else s
  }

  /** ReleasePrimHandle on a slot that is not an identity. */
  function Release(s: Sys, j: Index): Sys {
    Vacate(Disown(s, j), j)
  }

  function Drop(s: Sys, m: Index): Sys {
    s.(h := s.h[m := s.h[m].(refcount := Dec32(s.h[m].refcount))])
  }

  /** OnHandleDestroy followed by ReleasePrimHandle. */
  function Destroy(s: Sys, m: Index): Sys {
    Release(s.(destroyed := s.destroyed + [Object(s.h[m].htype, s.h[m].obj)]), m)
  }

  /** FreeHandle on a slot that is not an identity. */
  function FreeSlot(s: Sys, j: Index): Sys {
    var m := s.h[j].clone;
    if m != 0 then
      var t := Drop(Release(s, j), m);
      if t.h[m].refcount == 0 then Destroy(t, m) else t
    else
      var t := Drop(s, j);
      if t.h[j].refcount == 0 then Destroy(t, j)
      else Disown(t.(h := t.h[j := t.h[j].(state := Freed)]), j)
  }

  /** The loop of ReleasePrimHandle: an identity's handles go from the tail of its chain. */
  function FreeChain(s: Sys, c: seq<Index>): Sys
    decreases |c|
  {
    if c == [] then s else FreeChain(FreeSlot(s, c[|c| - 1]), c[..|c| - 1])
  }

  /** FreeHandle on an identity whose chain is c. */
  function FreeIdentity(s: Sys, p: Index, c: seq<Index>): Sys {
    Vacate(FreeChain(s, c), p)
  }

  /** ReadHandle, for a caller with read access: the object of the original. */
  function Read(s: Sys, v: nat, root: bool, htype: TypeId): (HandleError, int) {
    var i := v % 0x10000;
    var e := Lookup(s, v, root);
    if !e.ErrNone? then (e, 0)
    else if !TypeMatches(s.h[i].htype, htype) then (ErrType, 0)
    else if s.h[i].clone != 0 then (ErrNone, s.h[s.h[i].clone].obj)
    else (ErrNone, s.h[i].obj)
  }

  /** A subtype reads as any type of its family; a type reads as itself or as the null type. */
  predicate TypeMatches(own: TypeId, asked: TypeId) {
    if own % 16 != 0 then own == asked || own / 16 == asked / 16
    else asked == 0 || own == asked
  }
}
