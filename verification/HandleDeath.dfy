/** The death of an identity, what a clone reads, when destructors run, and stale handle values. */
module HandleDeath {
  import opened HandleTable
  import opened HandleOps
  import opened HandleStack
  import opened HandleCounts
  import opened HandleChains
  import opened HandleInv
  import opened HandleFree

  // ----- following the links -----

  /** The slots met by following next from i. */
  ghost function Walk(h: Table, i: Index, fuel: nat): seq<Index>
    decreases fuel
  {
    if i == 0 || fuel == 0 then [] else [i] + Walk(h, h[i].next, fuel - 1)
  }

  lemma {:induction false} WalkFrom(h: Table, p: Index, c: seq<Index>, k: nat, fuel: nat)
    requires IsChain(h, p, c) && k < |c| && |c| - k <= fuel
    ensures Walk(h, c[k], fuel) == c[k..]
    decreases fuel
  {
    assert h[c[k]].next == After(c, k);
    if k + 1 < |c| {
      WalkFrom(h, p, c, k + 1, fuel - 1);
    }
    assert c[k..] == [c[k]] + c[k + 1..];
  }

  function Elements(c: seq<Index>): set<Index> {
    if c == [] then {} else Elements(c[..|c| - 1]) + {c[|c| - 1]}
  }

  lemma {:induction false} ElementsOf(c: seq<Index>)
    ensures forall x :: x in Elements(c) <==> x in c
    ensures Distinct(c) ==> |Elements(c)| == |c|
  {
    if c != [] {
      ElementsOf(c[..|c| - 1]);
      assert c == c[..|c| - 1] + [c[|c| - 1]];
    }
  }

  lemma DistinctFits(c: seq<Index>, n: Index)
    requires Distinct(c) && forall x :: x in c ==> 1 <= x <= n
    ensures |c| <= n
  {
    UptoCount(n);
    ElementsOf(c);
    Cardinality(Elements(c), Upto(n));
  }

  lemma ChainFits(s: Sys, ch: Chains, p: Index)
    requires Inv(s, ch) && s.h[p].state.Identity?
    ensures |ch[p]| <= MAX_HANDLES
  {
    forall x | x in ch[p] ensures 1 <= x <= MAX_HANDLES {
      OwnsFacts(s, ch, p, x);
    }
    DistinctFits(ch[p], MAX_HANDLES);
  }

  /** Following the links from the head of a living identity visits, once each, exactly the Used
      slots it owns, and the identity counts itself and them. */
  lemma ChainWalk(s: Sys, ch: Chains, p: Index)
    requires Inv(s, ch) && s.h[p].state.Identity?
    ensures var w := Walk(s.h, s.h[p].prev, MAX_HANDLES);
      && w == ch[p] && Distinct(w)
      && (forall j: Index :: j in w <==> Owns(s, p, j))
      && (w != [] ==> w[|w| - 1] == s.h[p].next)
      && (forall k :: 0 <= k < |w| ==> s.h[w[k]].prev == Before(w, k))
      && s.h[p].refcount == 1 + |w|
  {
    var c := ch[p];
    ChainFits(s, ch, p);
    if c != [] {
      WalkFrom(s.h, p, c, 0, MAX_HANDLES);
      assert c[0..] == c;
    }
    forall j: Index ensures j in c <==> Owns(s, p, j) {
    }
    forall k | 0 <= k < |c| ensures s.h[c[k]].prev == Before(c, k) {
    }
  }

  // ----- identity destruction -----

  /** Every original that was freed while owned, and whose owner still resolves, keeps a clone
      outside the dying chain. */
  ghost predicate Spared(s: Sys, c: seq<Index>) {
    forall m: Index :: s.h[m].state.Freed? && OwnerSlot(s, s.h[m].owner) != 0 ==> KeepsClone(s, c, m)
  }

  ghost predicate KeepsClone(s: Sys, c: seq<Index>, m: Index) {
    exists j: Index :: s.h[j].state.Used? && s.h[j].clone == m && j !in c
  }

  lemma SparedNotStale(s: Sys, c: seq<Index>, j: Index)
    requires ClonesOk(s.h) && Spared(s, c) && j in c && s.h[j].state.Used?
    ensures !Stale(s, j)
  {
    var m := s.h[j].clone;
    if Stale(s, j) {
      assert KeepsClone(s, c, m);
      var i: Index :| s.h[i].state.Used? && s.h[i].clone == m && i !in c;
      assert Counted(s.h, m);
      assert {i, j} <= ClonesOf(s.h, m) && i != j;
      Cardinality({i, j}, ClonesOf(s.h, m));
    }
  }

  /** What FreeHandle on j leaves alone. */
  ghost predicate Others(s: Sys, t: Sys, j: Index) {
    && t.tail == s.tail
    && (forall x: Index {:trigger t.h[x]} :: x != j && (s.h[x].state.Used? || s.h[x].state.Identity?) ==>
          SameCore(s.h[x], t.h[x]))
    && (forall x: Index {:trigger t.h[x]} :: x != j && t.h[x].state != s.h[x].state ==>
          s.h[x].state.Freed? && t.h[x].state.Unset?)
    && !t.h[j].state.Used? && !t.h[j].state.Identity?
    && (t.h[j].state.Freed? ==> s.h[j].clone == 0 && s.h[j].refcount > 1 && t.h[j].owner == s.h[j].owner)
    && (forall x: Index {:trigger t.h[x]} :: t.h[x].state.Freed? ==> t.h[x].owner == s.h[x].owner)
    && (forall x: Index {:trigger t.h[x]} :: !t.h[x].state.Unset? ==> t.h[x].serial == s.h[x].serial)
    && (forall x: Index {:trigger t.h[x]} ::
          t.h[x].obj == s.h[x].obj && t.h[x].clone == s.h[x].clone && t.h[x].htype == s.h[x].htype)
  }

  lemma FreeOthers(s: Sys, ch: Chains, j: Index)
    requires Inv(s, ch) && s.h[j].state.Used?
    ensures Others(s, FreeSlot(s, j), j)
  {
    FreeSlotCases(s, j);
    if s.h[j].clone != 0 {
      FreeCloneOthers(s, ch, j);
    } else {
      assert Counted(s.h, j);
      if s.h[j].refcount == 1 {
        DoomKeeps(s, ch, j);
        ReleaseDoes(Doom(s, j), j);
        AloneOthers(s, Doom(s, j), Release(Doom(s, j), j), j);
      } else {
        MarkLeaves(s, ch, j);
        MarkOthers(s, Disown(Mark(s, j), j), ch, j);
      }
    }
  }

  lemma AloneOthers(s: Sys, t: Sys, u: Sys, j: Index)
    requires t == Doom(s, j) && Released(t, u, j)
    ensures Others(s, u, j)
  {
    assert forall x: Index {:trigger t.h[x]} :: x != j ==> t.h[x] == s.h[x];
    forall x: Index | x != j ensures SameCore(s.h[x], u.h[x]) {
      assert SameCore(t.h[x], u.h[x]);
    }
  }

  lemma MarkOthers(s: Sys, t: Sys, ch: Chains, j: Index)
    requires LeftEffect(s, t, ch, j) && t.h[j].state.Freed? && t.h[j].serial == s.h[j].serial
    requires t.h[j].owner == s.h[j].owner && s.h[j].clone == 0 && s.h[j].refcount > 1
    requires t.h[j].obj == s.h[j].obj && t.h[j].htype == s.h[j].htype
    ensures Others(s, t, j)
  {
  }

  lemma FreeCloneOthers(s: Sys, ch: Chains, j: Index)
    requires Inv(s, ch) && s.h[j].state.Used? && s.h[j].clone != 0
    ensures Others(s, FreeSlot(s, j), j)
  {
    var m := s.h[j].clone;
    var r, t := Release(s, j), Unclone(s, j);
    FreeSlotCases(s, j);
    ReleaseDoes(s, j);
    UncloneKeeps(s, ch, j);
    UncloneOthers(s, r, j);
    assert Counted(s.h, m) && Original(s.h[m]);
    if s.h[m].refcount == 1 {
      LastCloneMeansFreed(s.h, j);
      DestroyDoes(t, m);
      DestroyOthers(s, t, Destroy(t, m), j, m);
    }
  }

  lemma UncloneOthers(s: Sys, r: Sys, j: Index)
    requires Released(s, r, j)
    ensures Others(s, Drop(r, s.h[j].clone), j)
  {
    var t := Drop(r, s.h[j].clone);
    forall x: Index | x != j ensures SameCore(s.h[x], t.h[x]) {
      assert SameCore(s.h[x], r.h[x]);
    }
  }

  lemma DestroyOthers(s: Sys, t: Sys, u: Sys, j: Index, m: Index)
    requires Others(s, t, j) && t.h[j].state.Unset? && u.tail == t.tail && m != j
    requires s.h[m].state.Freed? && SameCore(t.h[m].(state := Unset), u.h[m])
    requires forall x: Index {:trigger u.h[x]} :: x != m ==> SameCore(t.h[x], u.h[x])
    ensures Others(s, u, j)
  {
    assert SameCore(t.h[j], u.h[j]);
    forall x: Index | x != m ensures SameCore(t.h[x], u.h[x]) && u.h[x].state == t.h[x].state {
    }
  }

  lemma TokensShrink(s: Sys, t: Sys, j: Index, o: Owner)
    requires Others(s, t, j) && OwnerSlot(t, o) != 0
    ensures OwnerSlot(s, o) == OwnerSlot(t, o)
  {
    var q := OwnerSlot(t, o);
    assert t.h[q].state == s.h[q].state;
  }

  lemma LastLeaves(s: Sys, ch: Chains, p: Index)
    requires ChainsOk(s, ch) && s.h[p].state.Identity? && ch[p] != []
    ensures var c := ch[p]; var j := c[|c| - 1];
      && s.h[j].state.Used? && Chained(s, j) == p
      && ChainsLeft(s, ch, j) == ch[p := c[..|c| - 1]]
  {
    var c := ch[p];
    var j := c[|c| - 1];
    OwnsFacts(s, ch, p, j);
    assert Owns(s, p, j);
    var k :| 0 <= k < |c| && c[k] == j && Without(c, j) == Cut(c, k);
    assert IsChain(s.h, p, c);
    assert Cut(c, |c| - 1) == c[..|c| - 1];
  }

  /** The clones of the last handle of a chain are not on it: an original comes before its clones. */
  lemma TailClones(h: Table, c: seq<Index>, j: Index, x: Index)
    requires ClonesOk(h) && Ordered(h, c) && c != [] && j == c[|c| - 1]
    requires x in ClonesOf(h, j) && h[j].clone == 0 && j != 0
    ensures x !in c
  {
    assert forall a :: 0 <= a < |c| - 1 ==> h[c[a]].clone != c[|c| - 1];
  }

  lemma SparedOld(s: Sys, t: Sys, c: seq<Index>, j: Index, m: Index)
    requires Others(s, t, j) && KeepsClone(s, c, m) && c != [] && j == c[|c| - 1]
    ensures KeepsClone(t, c[..|c| - 1], m)
  {
    var x: Index :| s.h[x].state.Used? && s.h[x].clone == m && x !in c;
    assert x != j && SameCore(s.h[x], t.h[x]);
  }

  /** Freeing the tail leaves no original whose remaining clones are all still to go. */
  lemma SparedNext(s: Sys, t: Sys, ch: Chains, p: Index, j: Index)
    requires Inv(s, ch) && s.h[p].state.Identity? && ch[p] != [] && Spared(s, ch[p])
    requires j == ch[p][|ch[p]| - 1] && s.h[j].state.Used? && Others(s, t, j)
    ensures Spared(t, ch[p][..|ch[p]| - 1])
  {
    var c := ch[p];
    forall m: Index | t.h[m].state.Freed? && OwnerSlot(t, t.h[m].owner) != 0
      ensures KeepsClone(t, c[..|c| - 1], m)
    {
      if m == j {
        assert Counted(s.h, j) && ClonesOf(s.h, j) != {};
        var x :| x in ClonesOf(s.h, j);
        assert j != 0 && Ordered(s.h, c);
        TailClones(s.h, c, j, x);
        assert KeepsClone(s, c, j);
      } else {
        TokensShrink(s, t, j, t.h[m].owner);
        assert KeepsClone(s, c, m);
      }
      SparedOld(s, t, c, j, m);
    }
  }

  /** What freeing a whole chain leaves alone. */
  ghost predicate Survivors(s: Sys, t: Sys, c: seq<Index>) {
    && t.tail == s.tail
    && (forall x: Index {:trigger t.h[x]} :: x !in c && (s.h[x].state.Used? || s.h[x].state.Identity?) ==>
          SameCore(s.h[x], t.h[x]))
  }

  lemma {:induction false} FreeChainKeeps(s: Sys, ch: Chains, p: Index)
    requires Inv(s, ch) && s.h[p].state.Identity? && Spared(s, ch[p])
    ensures Inv(FreeChain(s, ch[p]), ch[p := []])
    ensures Survivors(s, FreeChain(s, ch[p]), ch[p])
    decreases |ch[p]|
  {
    hide StackOk, ChainsOk, TypesOk, ClonesOk, ObjectsOk, SerialsOk;
    var c := ch[p];
    if c != [] {
      var n := |c| - 1;
      var j := c[n];
      LastLeaves(s, ch, p);
      SparedNotStale(s, c, j);
      FreeKeeps(s, ch, j);
      FreeOthers(s, ch, j);
      var t := FreeSlot(s, j);
      SparedNext(s, t, ch, p, j);
      var ch' := ch[p := c[..n]];
      assert SameCore(s.h[p], t.h[p]) && ch'[p := []] == ch[p := []];
      FreeChainKeeps(t, ch', p);
      SurvivorsStep(s, t, FreeChain(t, c[..n]), c);
    } else {
      assert ch[p := []] == ch;
    }
  }

  lemma SurvivorsStep(s: Sys, t: Sys, u: Sys, c: seq<Index>)
    requires c != [] && Others(s, t, c[|c| - 1]) && Survivors(t, u, c[..|c| - 1])
    ensures Survivors(s, u, c)
  {
    forall x: Index | x !in c && (s.h[x].state.Used? || s.h[x].state.Identity?) ensures SameCore(s.h[x], u.h[x]) {
      assert x != c[|c| - 1] && SameCore(s.h[x], t.h[x]) && x !in c[..|c| - 1];
    }
  }

  lemma VacateDoes(s: Sys, p: Index)
    requires StackOk(s) && s.h[p].state.Identity?
    ensures var t := Vacate(s, p);
      && Released(s, t, p)
      && forall x: Index {:trigger t.h[x]} ::
            t.h[x] == s.h[x].(state := if x == p then Unset else s.h[x].state, freeID := t.h[x].freeID)
  {
    Room(s, p);
  }

  lemma VacateIdentity(s: Sys, ch: Chains, p: Index)
    requires Inv(s, ch) && s.h[p].state.Identity? && ch[p] == []
    ensures Inv(Vacate(s, p), ch)
  {
    IdentityGone(s, ch, p);
    VacateDoes(s, p);
    VacatedRest(s, Vacate(s, p), ch, p);
  }

  lemma VacatedRest(s: Sys, t: Sys, ch: Chains, p: Index)
    requires Inv(s, ch) && s.h[p].state.Identity? && ChainsOk(t, ch) && Released(s, t, p)
    requires forall x: Index {:trigger t.h[x]} ::
          t.h[x] == s.h[x].(state := if x == p then Unset else s.h[x].state, freeID := t.h[x].freeID)
    ensures Inv(t, ch)
  {
    ReleasedRest(s, t, p);
    ClonesVacated(s.h, t.h, p);
    HeldSame(s.h, t.h);
  }

  lemma ClonesVacated(h: Table, h': Table, p: Index)
    requires ClonesOk(h) && h[p].state.Identity? && h'[p].state.Unset?
    requires forall x: Index {:trigger h'[x]} :: x != p ==> SameClone(h[x], h'[x]) && h'[x].refcount == h[x].refcount
    ensures ClonesOk(h')
  {
    forall x: Index ensures ClonesOf(h', x) == ClonesOf(h, x) {
    }
    forall x: Index ensures Counted(h', x) {
      assert Counted(h, x);
    }
  }

  /** Releasing an identity empties its chain and touches no other chain; nothing it owned stays
      in use, and no token of it resolves any more. */
  lemma IdentityDies(s: Sys, ch: Chains, p: Index)
    requires Inv(s, ch) && s.h[p].state.Identity? && Spared(s, ch[p])
    ensures var t := FreeIdentity(s, p, ch[p]);
      && Inv(t, ch[p := []])
      && t.h[p].state.Unset?
      && (forall j: Index :: t.h[j].state.Used? ==> t.h[j].owner != Token(Encode(s.h[p].serial, p)))
      && (forall j: Index :: s.h[j].state.Used? && OwnerSlot(s, s.h[j].owner) != p ==> SameCore(s.h[j], t.h[j]))
      && (forall j: Index :: s.h[j].state.Identity? && j != p ==> SameCore(s.h[j], t.h[j]))
  {
    var u := FreeChain(s, ch[p]);
    FreeChainKeeps(s, ch, p);
    assert (p in ch[p]) == Owns(s, p, p);
    assert SameCore(s.h[p], u.h[p]);
    VacateIdentity(u, ch[p := []], p);
    VacateDoes(u, p);
    Aftermath(s, u, Vacate(u, p), ch, p);
  }

  lemma NoTokenLeft(t: Sys, p: Index, serial: nat)
    requires OwnersLive(t) && t.h[0].state.Unset? && t.h[p].state.Unset?
    ensures forall j: Index :: t.h[j].state.Used? ==> t.h[j].owner != Token(Encode(serial, p))
  {
    assert Encode(serial, p) % 0x10000 == p;
    assert OwnerSlot(t, Token(Encode(serial, p))) == 0;
  }

  lemma Aftermath(s: Sys, u: Sys, t: Sys, ch: Chains, p: Index)
    requires ChainsOk(s, ch) && s.h[p].state.Identity? && Survivors(s, u, ch[p])
    requires Released(u, t, p) && OwnersLive(t) && t.h[0].state.Unset?
    ensures forall j: Index :: t.h[j].state.Used? ==> t.h[j].owner != Token(Encode(s.h[p].serial, p))
    ensures forall j: Index :: s.h[j].state.Used? && OwnerSlot(s, s.h[j].owner) != p ==> SameCore(s.h[j], t.h[j])
    ensures forall j: Index :: s.h[j].state.Identity? && j != p ==> SameCore(s.h[j], t.h[j])
  {
    NoTokenLeft(t, p, s.h[p].serial);
    hide Sentinels, OwnersLive, OwnerSlot, Encode, Ordered;
    forall j: Index | j != p && (s.h[j].state.Identity? || (s.h[j].state.Used? && OwnerSlot(s, s.h[j].owner) != p))
      ensures SameCore(s.h[j], t.h[j])
    {
      assert (j in ch[p]) == Owns(s, p, j);
      assert SameCore(s.h[j], u.h[j]) && SameCore(u.h[j], t.h[j]);
    }
  }
}
