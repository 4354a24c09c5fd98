/** The handle table of sourcemod/core/HandleSys.cpp, as values.
    One array of records is at once the slot table, the stack of free slots (freeID),
    and the nodes of one doubly linked chain per identity (prev/next); an identity's own
    slot is the sentinel of its chain, with prev the head and next the tail. */
module HandleTable {
  const MAX_HANDLES: nat := 0x4000
  const MAX_SERIALS: nat := 0xFFFF
  const TYPE_SLOTS: nat := 0x2000

  type Index = i: nat | i <= MAX_HANDLES
  type TypeId = t: nat | t < TYPE_SLOTS

  datatype HandleSet = Unset | Used | Freed | Identity

  datatype HandleError =
    | ErrNone | ErrIndex | ErrFreed | ErrIdentity | ErrChanged | ErrLimit | ErrType

  /** An identity token as the handle value it carries, or the null token. */
  datatype Owner = Nobody | Token(ident: nat)

  datatype QHandle = QHandle(
    state: HandleSet,
    htype: TypeId,
    obj: int,
    owner: Owner,
    serial: nat,
    refcount: nat,
    clone: Index,
    freeID: Index,
    prev: Index,
    next: Index)

  const BLANK := QHandle(Unset, 0, 0, Nobody, 0, 0, 0, 0, 0, 0)

  type Table = h: seq<QHandle> | |h| == MAX_HANDLES + 1
    witness seq(MAX_HANDLES + 1, i => BLANK)
  type Opened = o: seq<nat> | |o| == TYPE_SLOTS
    witness seq(TYPE_SLOTS, i => 0)

  type Births = b: seq<nat> | |b| == MAX_HANDLES + 1
    witness seq(MAX_HANDLES + 1, i => 0)

  datatype Object = Object(htype: TypeId, obj: int)

  /** The whole system. The last four fields only observe it: the objects handed to it, the
      destructor calls made, the number of handles made so far, and for each slot the number of
      the last handle made in it. */
  datatype Sys = Sys(
    h: Table,
    tail: Index,
    free: Index,
    hserial: nat,
    openCount: Opened,
    created: seq<Object>,
    destroyed: seq<Object>,
    made: nat,
    born: Births)

  const EMPTY := Sys(seq(MAX_HANDLES + 1, i => BLANK), 0, 0, 0, seq(TYPE_SLOTS, i => 0), [], [], 0,
                      seq(MAX_HANDLES + 1, i => 0))

  function Dec32(x: nat): nat {
    if x == 0 then 0xFFFF_FFFF else x - 1
  }

  function Encode(serial: nat, index: nat): nat {
    serial * 0x10000 + index
  }

  /** GetHandle: decode a handle value and check it against its slot. */
  function Lookup(s: Sys, v: nat, root: bool): HandleError {
    var serial := v / 0x10000;
    var index := v % 0x10000;
    if index == 0 || index > s.tail then ErrIndex
    else if s.h[index].state.Unset? || s.h[index].state.Freed? then ErrFreed
    else if s.h[index].state.Identity? && !root then ErrIdentity
    else if s.h[index].serial != serial then ErrChanged
    else ErrNone
  }

  /** The slot an owner token resolves to, 0 when it does not resolve. */
  function OwnerSlot(s: Sys, o: Owner): Index {
    match o
    case Nobody => 0
    case Token(v) => if Lookup(s, v, true).ErrNone? then v % 0x10000 else 0
  }

  // ----- links -----

  /** Append slot j to the chain of sentinel p. */
  function Link(h: Table, p: Index, j: Index): Table {
    if h[p].prev == 0 then
      var h1: Table := h[p := h[p].(prev := j, next := j)];
      var h2: Table := h1[j := h1[j].(prev := 0)];
      h2[p := h2[p].(refcount := h2[p].refcount + 1)]
    else
      var t := h[p].next;
      var h1: Table := h[t := h[t].(next := j)];
      var h2: Table := h1[j := h1[j].(prev := h1[p].next)];
      var h3: Table := h2[p := h2[p].(next := j)];
      h3[p := h3[p].(refcount := h3[p].refcount + 1)]
  }

  /** UnlinkHandleFromOwner once the owner has resolved to p. */
  function Unlink(h: Table, p: Index, j: Index): Table {
    var h1: Table :=
      if j == h[p].prev && j == h[p].next then
        h[p := h[p].(prev := 0, next := 0)]
      else if j == h[p].prev then
        var a: Table := h[p := h[p].(prev := h[j].next)];
        a[a[j].next := a[a[j].next].(prev := 0)]
      else if j == h[p].next then
        var a: Table := h[p := h[p].(next := h[j].prev)];
        a[a[j].prev := a[a[j].prev].(next := 0)]
      else
        var a: Table := h[h[j].next := h[h[j].next].(prev := h[j].prev)];
        a[a[j].prev := a[a[j].prev].(next := a[j].next)];
    h1[p := h1[p].(refcount := Dec32(h1[p].refcount))]
  }

  // ----- the invariant -----

  function Before(c: seq<Index>, k: nat): Index
    requires k < |c|
  {
    if k == 0 then 0 else c[k - 1]
  }

  function After(c: seq<Index>, k: nat): Index
    requires k < |c|
  {
    if k == |c| - 1 then 0 else c[k + 1]
  }

  ghost predicate Distinct(c: seq<Index>) {
    forall a, b :: 0 <= a < b < |c| ==> c[a] != c[b]
  }

  ghost predicate Ends(h: Table, p: Index, c: seq<Index>) {
    && h[p].prev == (if c == [] then 0 else c[0])
    && h[p].next == (if c == [] then 0 else c[|c| - 1])
  }

  ghost predicate Prevs(h: Table, c: seq<Index>) {
    forall k {:trigger h[c[k]].prev} :: 0 <= k < |c| ==> h[c[k]].prev == Before(c, k)
  }

  ghost predicate Nexts(h: Table, c: seq<Index>) {
    forall k {:trigger h[c[k]].next} :: 0 <= k < |c| ==> h[c[k]].next == After(c, k)
  }

  ghost predicate IsChain(h: Table, p: Index, c: seq<Index>) {
    && 0 !in c && p !in c
    && Distinct(c)
    && Ends(h, p, c)
    && Prevs(h, c)
    && Nexts(h, c)
  }

  lemma LinkEffect(h: Table, p: Index, c: seq<Index>, j: Index)
    requires IsChain(h, p, c)
    requires j != 0 && j != p && j !in c
    ensures var h' := Link(h, p, j);
      && h'[j].prev == Before(c + [j], |c|) && h'[j].next == h[j].next
      && (c != [] ==> h'[c[|c| - 1]].next == j && h'[c[|c| - 1]].prev == h[c[|c| - 1]].prev)
      && (forall x: Index :: x != p && x != j && (c == [] || x != c[|c| - 1]) ==> h'[x] == h[x])
      && Ends(h', p, c + [j])
  {
  }

  lemma LinkChain(h: Table, p: Index, c: seq<Index>, j: Index)
    requires IsChain(h, p, c)
    requires j != 0 && j != p && j !in c && h[j].next == 0
    ensures IsChain(Link(h, p, j), p, c + [j])
  {
    var h' := Link(h, p, j);
    var r := c + [j];
    LinkEffect(h, p, c, j);
    forall k | 0 <= k < |r| ensures h'[r[k]].prev == Before(r, k) && h'[r[k]].next == After(r, k) {
      if k < |c| {
        assert r[k] == c[k] && h[c[k]].prev == Before(c, k) && h[c[k]].next == After(c, k);
      }
    }
  }

  function Cut<T>(c: seq<T>, k: nat): (r: seq<T>)
    requires k < |c|
    ensures |r| == |c| - 1
    ensures forall i :: 0 <= i < |r| ==> r[i] == (if i < k then c[i] else c[i + 1])
  {
    c[..k] + c[k + 1..]
  }

  lemma CutDistinct(c: seq<Index>, k: nat)
    requires Distinct(c) && k < |c|
    ensures Distinct(Cut(c, k))
    ensures forall x :: x in Cut(c, k) <==> x in c && x != c[k]
  {
    var r := Cut(c, k);
    forall x | x in c && x != c[k] ensures x in r {
      var i :| 0 <= i < |c| && c[i] == x;
      assert r[if i < k then i else i - 1] == x;
    }
  }

  /** Closing the gap left by the k-th node. */
  lemma SplicePrev(h: Table, h': Table, c: seq<Index>, k: nat)
    requires Prevs(h, c) && k < |c|
    requires k + 1 < |c| ==> h'[c[k + 1]].prev == Before(c, k)
    requires forall m {:trigger h'[c[m]].prev} :: 0 <= m < |c| && m != k + 1 && m != k ==> h'[c[m]].prev == h[c[m]].prev
    ensures Prevs(h', Cut(c, k))
  {
    var r := Cut(c, k);
    forall i | 0 <= i < |r| ensures h'[r[i]].prev == Before(r, i) {
      var m := if i < k then i else i + 1;
      assert r[i] == c[m] && h[c[m]].prev == Before(c, m);
    }
  }

  lemma SpliceNext(h: Table, h': Table, c: seq<Index>, k: nat)
    requires Nexts(h, c) && k < |c|
    requires 0 < k ==> h'[c[k - 1]].next == After(c, k)
    requires forall m {:trigger h'[c[m]].next} :: 0 <= m < |c| && m != k - 1 && m != k ==> h'[c[m]].next == h[c[m]].next
    ensures Nexts(h', Cut(c, k))
  {
    var r := Cut(c, k);
    forall i | 0 <= i < |r| ensures h'[r[i]].next == After(r, i) {
      var m := if i < k then i else i + 1;
      assert r[i] == c[m] && h[c[m]].next == After(c, m);
    }
  }

  /** What Unlink does to the record of each slot. */
  lemma UnlinkEffect(h: Table, p: Index, c: seq<Index>, k: nat)
    requires p != 0 && IsChain(h, p, c) && k < |c|
    ensures var h' := Unlink(h, p, c[k]);
      && (0 < k ==> h'[c[k - 1]].next == After(c, k) && h'[c[k - 1]].prev == h[c[k - 1]].prev)
      && (k < |c| - 1 ==> h'[c[k + 1]].prev == Before(c, k) && h'[c[k + 1]].next == h[c[k + 1]].next)
      && (forall x: Index :: x != p && (k == 0 || x != c[k - 1]) && (k == |c| - 1 || x != c[k + 1]) ==> h'[x] == h[x])
      && Ends(h', p, Cut(c, k))
  {
    assert h[c[k]].prev == Before(c, k) && h[c[k]].next == After(c, k);
  }

  lemma UnlinkChain(h: Table, p: Index, c: seq<Index>, k: nat)
    requires p != 0 && IsChain(h, p, c) && k < |c|
    ensures IsChain(Unlink(h, p, c[k]), p, Cut(c, k))
  {
    var h' := Unlink(h, p, c[k]);
    UnlinkEffect(h, p, c, k);
    CutDistinct(c, k);
    SplicePrev(h, h', c, k);
    SpliceNext(h, h', c, k);
  }

  /** Linking and unlinking touch only the links of the chain's own nodes. */
  lemma LinkFrame(h: Table, p: Index, c: seq<Index>, j: Index, i: Index)
    requires IsChain(h, p, c) && j != p && j !in c
    ensures Link(h, p, j)[i] == h[i].(prev := Link(h, p, j)[i].prev, next := Link(h, p, j)[i].next,
                                      refcount := if i == p then h[i].refcount + 1 else h[i].refcount)
    ensures i != p && i != j && i !in c ==> Link(h, p, j)[i] == h[i]
    ensures i == j ==> Link(h, p, j)[i].next == h[i].next
  {
  }

  lemma UnlinkFrame(h: Table, p: Index, c: seq<Index>, k: nat, i: Index)
    requires p != 0 && IsChain(h, p, c) && k < |c|
    ensures var h' := Unlink(h, p, c[k]);
            && h'[i] == h[i].(prev := h'[i].prev, next := h'[i].next,
                              refcount := if i == p then Dec32(h[i].refcount) else h[i].refcount)
            && (i != p && i !in c ==> h'[i] == h[i])
  {
    if k > 0 { assert h[c[k]].prev == c[k - 1]; }
    if k < |c| - 1 { assert h[c[k]].next == c[k + 1]; }
  }
}
