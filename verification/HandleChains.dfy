/** The owner chains: which slots each identity's chain visits, and what every operation on the
    table does to them. */
module HandleChains {
  import opened HandleTable
  import opened HandleOps

  ghost predicate Owns(s: Sys, p: Index, j: Index) {
    p != 0 && s.h[j].state.Used? && OwnerSlot(s, s.h[j].owner) == p
  }

  /** No handle comes before its own original in a chain. */
  ghost predicate Ordered(h: Table, c: seq<Index>) {
    forall a, b :: 0 <= a < b < |c| ==> h[c[a]].clone != c[b]
  }

  type Chains = ch: seq<seq<Index>> | |ch| == MAX_HANDLES + 1
    witness seq(MAX_HANDLES + 1, i => [])

  ghost predicate Sentinels(s: Sys, ch: Chains) {
    forall p: Index :: s.h[p].state.Identity? ==>
      0 < p <= s.tail && IsChain(s.h, p, ch[p]) && s.h[p].refcount == 1 + |ch[p]|
  }

  ghost predicate Members(s: Sys, ch: Chains) {
    forall p: Index, j: Index :: j in ch[p] <==> Owns(s, p, j)
  }

  ghost predicate OwnersLive(s: Sys) {
    forall j: Index :: s.h[j].state.Used? && s.h[j].owner.Token? ==>
      s.h[OwnerSlot(s, s.h[j].owner)].state.Identity?
  }

  ghost predicate ChainsOk(s: Sys, ch: Chains) {
    && s.h[0].state.Unset?
    && Sentinels(s, ch)
    && Members(s, ch)
    && OwnersLive(s)
    && forall p: Index :: Ordered(s.h, ch[p])
  }

  lemma ChainFrame(h: Table, h': Table, q: Index, c: seq<Index>)
    requires IsChain(h, q, c)
    requires h'[q].prev == h[q].prev && h'[q].next == h[q].next
    requires forall x :: x in c ==> h'[x].prev == h[x].prev && h'[x].next == h[x].next
    ensures IsChain(h', q, c)
  {
    forall k | 0 <= k < |c| ensures h'[c[k]].prev == Before(c, k) && h'[c[k]].next == After(c, k) {
      assert c[k] in c && h[c[k]].prev == Before(c, k) && h[c[k]].next == After(c, k);
    }
  }

  /** A slot an identity owns is neither the sentinel nor on another chain. */
  lemma OwnsFacts(s: Sys, ch: Chains, p: Index, j: Index)
    requires ChainsOk(s, ch) && j in ch[p]
    ensures s.h[p].state.Identity? && s.h[j].state.Used? && j != 0 && p != 0 && j != p && p <= s.tail
    ensures forall q: Index :: q != p ==> j !in ch[q]
  {
    assert Owns(s, p, j);
  }

  // ----- making a handle -----

  /** Two records that differ at most in links, reference count and stack entry. */
  ghost predicate SameCore(a: QHandle, b: QHandle) {
    b == a.(prev := b.prev, next := b.next, refcount := b.refcount, freeID := b.freeID)
  }

  function ChainsMade(s: Sys, ch: Chains, owner: Owner, identity: bool, i: Index): Chains {
    var p := OwnerSlot(s, owner);
    if identity || owner.Nobody? then ch else ch[p := ch[p] + [i]]
  }

  ghost predicate CanAlloc(s: Sys) {
    var i := AllocSlot(s);
    && i <= Alloc(s).tail && s.tail <= Alloc(s).tail
    && (i != 0 ==> s.h[i].state.Unset?)
    && forall j: Index :: j > s.tail ==> s.h[j].state.Unset?
  }

  /** Owners are identities: a token that resolves leads to an identity slot. */
  ghost predicate OwnerFit(s: Sys, owner: Owner, identity: bool) {
    owner.Token? && !identity ==>
      var p := OwnerSlot(s, owner); p == 0 || s.h[p].state.Identity?
  }

  /** The sentinel MakePrim links to, 0 when it links to none. */
  function LinkTarget(s: Sys, owner: Owner, identity: bool): Index {
    if identity then 0 else OwnerSlot(s, owner)
  }

  ghost predicate MadeEffect(s: Sys, t: Sys, ch: Chains, owner: Owner, identity: bool, i: Index) {
    var p := LinkTarget(s, owner, identity);
    && i != 0 && p != i && s.tail <= t.tail && i <= t.tail && s.h[i].state.Unset?
    && t.h[i].state == (if identity then Identity else Used)
    && t.h[i].refcount == 1 && t.h[i].owner == owner && t.h[i].next == 0 && t.h[i].clone == s.h[i].clone
    && (p != 0 ==> s.h[p].state.Identity? && IsChain(t.h, p, ch[p] + [i]) && t.h[p].refcount == s.h[p].refcount + 1)
    && (p == 0 ==> t.h[i].prev == 0 && (identity || owner.Nobody?))
    && (forall j: Index :: j != i ==> SameCore(s.h[j], t.h[j]))
    && (forall j: Index :: j != i && j != p ==> t.h[j].refcount == s.h[j].refcount)
    && (forall j: Index :: j != i && j != p && j !in ch[p] ==> t.h[j].prev == s.h[j].prev && t.h[j].next == s.h[j].next)
  }

  lemma NoChain(s: Sys, ch: Chains, p: Index)
    requires ChainsOk(s, ch) && !s.h[p].state.Identity?
    ensures ch[p] == []
  {
    if ch[p] != [] {
      OwnsFacts(s, ch, p, ch[p][0]);
    }
  }

  lemma LinkSlots(h: Table, p: Index, c: seq<Index>, i: Index)
    requires IsChain(h, p, c) && i != 0 && i != p && i !in c && h[i].next == 0
    ensures var h2 := Link(h, p, i);
      && IsChain(h2, p, c + [i]) && h2[p].refcount == h[p].refcount + 1
      && (forall j: Index :: SameCore(h[j], h2[j]))
      && (forall j: Index :: j != p ==> h2[j].refcount == h[j].refcount)
      && h2[i].next == 0
      && (forall j: Index :: j != p && j != i && j !in c ==> h2[j] == h[j])
  {
    LinkEffect(h, p, c, i);
    LinkChain(h, p, c, i);
    forall j: Index ensures
      var h2 := Link(h, p, i);
      && SameCore(h[j], h2[j])
      && (j != p ==> h2[j].refcount == h[j].refcount)
      && (j != p && j != i && j !in c ==> h2[j] == h[j])
    {
      LinkFrame(h, p, c, i, j);
    }
  }

  lemma MadeSlots(s: Sys, ch: Chains, ty: TypeId, owner: Owner, identity: bool)
    requires ChainsOk(s, ch) && CanAlloc(s) && OwnerFit(s, owner, identity)
    requires MakePrim(s, ty, owner, identity).Made?
    ensures MadeEffect(s, MakePrim(s, ty, owner, identity).sys, ch, owner, identity, AllocSlot(s))
  {
    var i := AllocSlot(s);
    var h1: Table := s.h[i := Fresh(s.h[i], ty, owner, identity, NextSerial(s.hserial))];
    if owner.Token? && !identity {
      var p := OwnerSlot(s, owner);
      assert (i in ch[p]) == Owns(s, p, i);
      ChainFrame(s.h, h1, p, ch[p]);
      LinkSlots(h1, p, ch[p], i);
      assert MakePrim(s, ty, owner, identity).sys.h == Link(h1, p, i);
    }
  }

  lemma ResolveStable(s: Sys, t: Sys, o: Owner)
    requires OwnerSlot(s, o) != 0 && s.tail <= t.tail
    requires var q := OwnerSlot(s, o); t.h[q].state == s.h[q].state && t.h[q].serial == s.h[q].serial
    ensures OwnerSlot(t, o) == OwnerSlot(s, o)
  {
  }

  lemma MadeOwners(s: Sys, t: Sys, ch: Chains, owner: Owner, identity: bool, i: Index, j: Index)
    requires ChainsOk(s, ch) && MadeEffect(s, t, ch, owner, identity, i)
    requires t.h[j].state.Used?
    ensures OwnerSlot(t, t.h[j].owner) ==
          (if j == i then LinkTarget(s, owner, identity) else OwnerSlot(s, s.h[j].owner))
    ensures t.h[j].owner.Token? ==> t.h[OwnerSlot(t, t.h[j].owner)].state.Identity?
  {
    var o := t.h[j].owner;
    if o.Token? {
      var q := OwnerSlot(s, o);
      assert j != i ==> SameCore(s.h[j], t.h[j]);
      assert s.h[q].state.Identity?;
      assert SameCore(s.h[q], t.h[q]);
      ResolveStable(s, t, o);
    }
  }

  lemma MadeSentinels(s: Sys, t: Sys, ch: Chains, owner: Owner, identity: bool, i: Index, q: Index)
    requires ChainsOk(s, ch) && MadeEffect(s, t, ch, owner, identity, i)
    requires t.h[q].state.Identity?
    ensures var c := ChainsMade(s, ch, owner, identity, i)[q];
      0 < q <= t.tail && IsChain(t.h, q, c) && t.h[q].refcount == 1 + |c|
  {
    var p := LinkTarget(s, owner, identity);
    if q == i {
      NoChain(s, ch, i);
    } else if q != p {
      assert SameCore(s.h[q], t.h[q]);
      forall x | x in ch[q] ensures t.h[x].prev == s.h[x].prev && t.h[x].next == s.h[x].next {
        OwnsFacts(s, ch, q, x);
      }
      assert q !in ch[p] by { assert (q in ch[p]) == Owns(s, p, q); }
      ChainFrame(s.h, t.h, q, ch[q]);
    }
  }

  lemma MadeOrdered(s: Sys, t: Sys, ch: Chains, owner: Owner, identity: bool, i: Index, q: Index)
    requires ChainsOk(s, ch) && MadeEffect(s, t, ch, owner, identity, i)
    requires forall j: Index :: s.h[j].state.Used? ==> s.h[j].clone != i
    ensures Ordered(t.h, ChainsMade(s, ch, owner, identity, i)[q])
  {
    var c := ChainsMade(s, ch, owner, identity, i)[q];
    forall a, b | 0 <= a < b < |c| ensures t.h[c[a]].clone != c[b] {
      assert c[a] in ch[q] && c[a] == ch[q][a];
      OwnsFacts(s, ch, q, c[a]);
      assert SameCore(s.h[c[a]], t.h[c[a]]);
      assert Ordered(s.h, ch[q]);
    }
  }

  lemma MadeChains(s: Sys, t: Sys, ch: Chains, owner: Owner, identity: bool, i: Index)
    requires ChainsOk(s, ch) && MadeEffect(s, t, ch, owner, identity, i)
    requires forall j: Index :: s.h[j].state.Used? ==> s.h[j].clone != i
    ensures ChainsOk(t, ChainsMade(s, ch, owner, identity, i))
  {
    var ch' := ChainsMade(s, ch, owner, identity, i);
    forall q: Index, j: Index ensures j in ch'[q] <==> Owns(t, q, j) {
      assert (j in ch[q]) == Owns(s, q, j);
      assert j != i ==> SameCore(s.h[j], t.h[j]);
      if t.h[j].state.Used? { MadeOwners(s, t, ch, owner, identity, i, j); }
    }
    forall j: Index | t.h[j].state.Used? && t.h[j].owner.Token?
      ensures t.h[OwnerSlot(t, t.h[j].owner)].state.Identity?
    {
      MadeOwners(s, t, ch, owner, identity, i, j);
    }
    forall q: Index | t.h[q].state.Identity?
      ensures 0 < q <= t.tail && IsChain(t.h, q, ch'[q]) && t.h[q].refcount == 1 + |ch'[q]|
    {
      MadeSentinels(s, t, ch, owner, identity, i, q);
    }
    forall q: Index ensures Ordered(t.h, ch'[q]) {
      MadeOrdered(s, t, ch, owner, identity, i, q);
    }
  }

  // ----- changes that no chain sees -----

  /** Objects, stack entries, logs, the counts of slots that are not identities, and the clone
      field of one slot that ends its chain. */
  lemma Unseen(s: Sys, t: Sys, ch: Chains, i: Index)
    requires ChainsOk(s, ch) && t.tail == s.tail
    requires forall j: Index :: var a, b := s.h[j], t.h[j];
      && b.state == a.state && b.owner == a.owner && b.serial == a.serial
      && b.prev == a.prev && b.next == a.next
      && (a.state.Identity? ==> b.refcount == a.refcount)
      && (j != i ==> b.clone == a.clone)
    requires t.h[i].clone == s.h[i].clone || forall p: Index :: i in ch[p] ==> i == ch[p][|ch[p]| - 1]
    ensures ChainsOk(t, ch)
  {
    forall o: Owner ensures OwnerSlot(t, o) == OwnerSlot(s, o) {
    }
    forall p: Index, j: Index ensures j in ch[p] <==> Owns(t, p, j) {
      assert (j in ch[p]) == Owns(s, p, j);
    }
    forall p: Index | t.h[p].state.Identity?
      ensures 0 < p <= t.tail && IsChain(t.h, p, ch[p]) && t.h[p].refcount == 1 + |ch[p]|
    {
      ChainFrame(s.h, t.h, p, ch[p]);
    }
    forall p: Index ensures Ordered(t.h, ch[p]) {
      UnseenOrdered(s.h, t.h, ch[p], i);
    }
  }

  lemma UnseenOrdered(h: Table, h': Table, c: seq<Index>, i: Index)
    requires Ordered(h, c) && forall j: Index :: j != i ==> h'[j].clone == h[j].clone
    requires h'[i].clone == h[i].clone || (i in c ==> i == c[|c| - 1])
    requires Distinct(c) || h'[i].clone == h[i].clone || i !in c
    ensures Ordered(h', c)
  {
    forall a, b | 0 <= a < b < |c| ensures h'[c[a]].clone != c[b] {
      assert h[c[a]].clone != c[b];
      assert c[a] in c;
    }
  }

  // ----- a handle leaves its chain -----

  ghost function Without(c: seq<Index>, j: Index): (r: seq<Index>)
    ensures j !in c ==> r == c
    ensures Distinct(c) ==> Distinct(r) && forall x :: x in r <==> x in c && x != j
    ensures |r| == if j in c then |c| - 1 else |c|
  {
    if j in c then
      var k :| 0 <= k < |c| && c[k] == j;
      (if Distinct(c) then CutDistinct(c, k); Cut(c, k) else Cut(c, k))
    else c
  }

  /** The sentinel a slot is chained to: a Used slot's owner. */
  function Chained(s: Sys, j: Index): Index {
    if s.h[j].state.Used? then OwnerSlot(s, s.h[j].owner) else 0
  }

  ghost function ChainsLeft(s: Sys, ch: Chains, j: Index): Chains {
    var p := Chained(s, j);
    if p == 0 then ch else ch[p := Without(ch[p], j)]
  }

  ghost predicate LeftEffect(s: Sys, t: Sys, ch: Chains, j: Index) {
    var p := Chained(s, j);
    && t.tail == s.tail
    && !t.h[j].state.Used? && !t.h[j].state.Identity? && t.h[j].clone == s.h[j].clone
    && (p != 0 ==> IsChain(t.h, p, Without(ch[p], j)) && t.h[p].refcount == s.h[p].refcount - 1)
    && (forall x: Index :: x != j ==> SameCore(s.h[x], t.h[x]))
    && (forall x: Index :: x != j && x != p ==> t.h[x].refcount == s.h[x].refcount)
    && (forall x: Index :: x != j && x != p && x !in ch[p] ==> t.h[x].prev == s.h[x].prev && t.h[x].next == s.h[x].next)
  }

  lemma LeftOwners(s: Sys, t: Sys, ch: Chains, j: Index, x: Index)
    requires ChainsOk(s, ch) && LeftEffect(s, t, ch, j) && !s.h[j].state.Identity?
    requires t.h[x].state.Used?
    ensures OwnerSlot(t, t.h[x].owner) == OwnerSlot(s, s.h[x].owner)
    ensures t.h[x].owner.Token? ==> t.h[OwnerSlot(t, t.h[x].owner)].state.Identity?
  {
    assert SameCore(s.h[x], t.h[x]);
    var o := t.h[x].owner;
    if o.Token? {
      var q := OwnerSlot(s, o);
      assert s.h[q].state.Identity?;
      assert SameCore(s.h[q], t.h[q]);
      ResolveStable(s, t, o);
    }
  }

  lemma LeftSentinels(s: Sys, t: Sys, ch: Chains, j: Index, q: Index)
    requires ChainsOk(s, ch) && LeftEffect(s, t, ch, j) && !s.h[j].state.Identity?
    requires t.h[q].state.Identity?
    ensures var c := ChainsLeft(s, ch, j)[q];
      0 < q <= t.tail && IsChain(t.h, q, c) && t.h[q].refcount == 1 + |c|
  {
    var p := Chained(s, j);
    assert SameCore(s.h[q], t.h[q]);
    if q == p {
      assert (j in ch[p]) == Owns(s, p, j);
    } else {
      forall x | x in ch[q] ensures t.h[x].prev == s.h[x].prev && t.h[x].next == s.h[x].next {
        OwnsFacts(s, ch, q, x);
        assert (j in ch[q]) == Owns(s, q, j);
      }
      assert q !in ch[p] by { assert (q in ch[p]) == Owns(s, p, q); }
      ChainFrame(s.h, t.h, q, ch[q]);
    }
  }

  lemma LeftOrdered(h: Table, h': Table, c: seq<Index>, j: Index)
    requires Ordered(h, c) && forall x: Index :: h'[x].clone == h[x].clone
    ensures Ordered(h', Without(c, j))
  {
    if j in c {
      var k :| 0 <= k < |c| && c[k] == j && Without(c, j) == Cut(c, k);
      var r := Cut(c, k);
      forall a, b | 0 <= a < b < |r| ensures h'[r[a]].clone != r[b] {
        assert h[c[if a < k then a else a + 1]].clone != c[if b < k then b else b + 1];
      }
    }
  }

  lemma LeftChains(s: Sys, t: Sys, ch: Chains, j: Index)
    requires ChainsOk(s, ch) && LeftEffect(s, t, ch, j) && !s.h[j].state.Identity?
    requires t.h[0].state.Unset?
    ensures ChainsOk(t, ChainsLeft(s, ch, j))
  {
    var ch' := ChainsLeft(s, ch, j);
    var p := Chained(s, j);
    forall q: Index, x: Index ensures x in ch'[q] <==> Owns(t, q, x) {
      assert (x in ch[q]) == Owns(s, q, x);
      assert (j in ch[q]) == Owns(s, q, j);
      assert x != j ==> SameCore(s.h[x], t.h[x]);
      if t.h[x].state.Used? { LeftOwners(s, t, ch, j, x); }
      if q == p && p != 0 { assert IsChain(s.h, p, ch[p]); }
    }
    forall x: Index | t.h[x].state.Used? && t.h[x].owner.Token?
      ensures t.h[OwnerSlot(t, t.h[x].owner)].state.Identity?
    {
      LeftOwners(s, t, ch, j, x);
    }
    forall q: Index | t.h[q].state.Identity?
      ensures 0 < q <= t.tail && IsChain(t.h, q, ch'[q]) && t.h[q].refcount == 1 + |ch'[q]|
    {
      LeftSentinels(s, t, ch, j, q);
    }
    forall q: Index ensures Ordered(t.h, ch'[q]) {
      assert forall x: Index :: t.h[x].clone == s.h[x].clone by {
        forall x: Index ensures t.h[x].clone == s.h[x].clone {
          assert x != j ==> SameCore(s.h[x], t.h[x]);
        }
      }
      LeftOrdered(s.h, t.h, ch[q], j);
    }
  }

  /** An identity whose chain is empty can be vacated. */
  lemma IdentityGone(s: Sys, ch: Chains, p: Index)
    requires ChainsOk(s, ch) && s.h[p].state.Identity? && ch[p] == []
    ensures ChainsOk(Vacate(s, p), ch)
  {
    var t := Vacate(s, p);
    forall x: Index ensures
      SameCore(s.h[x], t.h[x]) || x == p
    {
    }
    assert forall x: Index :: t.h[x] == s.h[x].(state := t.h[x].state, freeID := t.h[x].freeID);
    forall x: Index | t.h[x].state.Used?
      ensures OwnerSlot(t, t.h[x].owner) == OwnerSlot(s, s.h[x].owner)
      ensures t.h[x].owner.Token? ==> t.h[OwnerSlot(t, t.h[x].owner)].state.Identity?
    {
      if t.h[x].owner.Token? {
        assert (x in ch[p]) == Owns(s, p, x);
        assert s.h[OwnerSlot(s, s.h[x].owner)].state.Identity?;
        ResolveStable(s, t, t.h[x].owner);
      }
    }
    forall q: Index, x: Index ensures x in ch[q] <==> Owns(t, q, x) {
      assert (x in ch[q]) == Owns(s, q, x);
    }
    forall q: Index | t.h[q].state.Identity?
      ensures 0 < q <= t.tail && IsChain(t.h, q, ch[q]) && t.h[q].refcount == 1 + |ch[q]|
    {
      ChainFrame(s.h, t.h, q, ch[q]);
    }
    assert forall q: Index :: Ordered(t.h, ch[q]);
  }
}
