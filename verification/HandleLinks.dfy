/** Releasing an identity that holds the last clones of originals it has freed itself. Each of these
    is unlinked a second time, by the links it was left with; here is when that does no harm. */
module HandleLinks {
  import opened HandleTable
  import opened HandleOps
  import opened HandleStack
  import opened HandleCounts
  import opened HandleChains
  import opened HandleInv
  import opened HandleFree
  import opened HandleDeath
  import opened HandleLevel

  /** Freed originals of other owners that resolve keep a clone outside the chain. */
  ghost predicate OthersKeep(s: Sys, p: Index, c: seq<Index>) {
    forall m: Index {:trigger s.h[m]} ::
      s.h[m].state.Freed? && OwnerSlot(s, s.h[m].owner) != 0 && OwnerSlot(s, s.h[m].owner) != p ==> KeepsClone(s, c, m)
  }

  /** A freed original that goes when the chain goes, while its owner resolves: it is then unlinked again. */
  ghost predicate Due(s: Sys, c: seq<Index>, m: Index) {
    s.h[m].state.Freed? && OwnerSlot(s, s.h[m].owner) != 0 && !KeepsClone(s, c, m)
  }

  /** A slot whose links nobody will follow. */
  ghost predicate Loose(s: Sys, c: seq<Index>, x: Index) {
    s.h[x].state.Unset? || (s.h[x].state.Freed? && !Due(s, c, x))
  }

  /** x is on the chain at or behind a clone of m: freed from the tail, it goes before m does. */
  ghost predicate GoesFirst(s: Sys, c: seq<Index>, m: Index, x: Index) {
    exists a, b :: 0 <= a <= b < |c| && s.h[c[a]].clone == m && c[b] == x
  }

  /** The slots that the left-over links of m name: writing m's neighbours into them a second time changes
      nothing that is still looked at. */
  ghost predicate TameLinks(s: Sys, p: Index, c: seq<Index>, m: Index) {
    var x, y := s.h[m].next, s.h[m].prev;
    && x != p && y != p
    && (Loose(s, c, x) || GoesFirst(s, c, m, x) || s.h[x].prev == y)
    && (Loose(s, c, y) || y in c || s.h[y].next == x)
  }

  ghost predicate Tame(s: Sys, p: Index, c: seq<Index>) {
    forall m: Index {:trigger s.h[m]} :: Due(s, c, m) ==> TameLinks(s, p, c, m)
  }

  /** What releasing the identity p with the chain c needs. */
  ghost predicate Harmless(s: Sys, p: Index, c: seq<Index>) {
    OthersKeep(s, p, c) && Tame(s, p, c)
  }

  lemma SparedHarmless(s: Sys, p: Index, c: seq<Index>)
    requires Spared(s, c) && p != 0
    ensures Harmless(s, p, c)
  {
    forall m: Index ensures !Due(s, c, m) {
      if s.h[m].state.Freed? && OwnerSlot(s, s.h[m].owner) == p { assert KeepsClone(s, c, m); }
    }
  }

  /** The loop of ReleasePrimHandle as it is, for at most n turns: the handle that the identity's link names
      is freed, until there is none. */
  function FreeLinked(s: Sys, p: Index, n: nat): Sys
    decreases n
  {
    var j := s.h[p].next;
    if n == 0 || j == 0 then s else FreeLinked(FreeSlot(s, j), p, n - 1)
  }

  // ----- systems that differ where nobody looks -----

  predicate Live(r: QHandle) { r.state.Used? || r.state.Identity? }

  /** Records that may differ in the owner and links of slots not in use, in what a vacant slot or a lent
      identity counts, and in next where that is loose. */
  predicate Like(a: QHandle, b: QHandle, loose: bool, lent: bool) {
    && b == a.(owner := b.owner, prev := b.prev, next := b.next, refcount := b.refcount)
    && (a.state.Unset? || b.refcount == a.refcount || (lent && a.state.Identity?))
    && (Live(a) ==> b.owner == a.owner && b.prev == a.prev && (loose || b.next == a.next))
  }

  ghost predicate Same(s: Sys, r: Sys) {
    r == s.(h := r.h) && forall x: Index {:trigger r.h[x]} :: Like(s.h[x], r.h[x], false, false)
  }

  lemma SameOwners(s: Sys, r: Sys, o: Owner)
    requires r.tail == s.tail
    requires forall x: Index {:trigger r.h[x]} :: r.h[x].state == s.h[x].state && r.h[x].serial == s.h[x].serial
    ensures OwnerSlot(r, o) == OwnerSlot(s, o)
  {
  }

  lemma SameChains(s: Sys, r: Sys, ch: Chains)
    requires ChainsOk(s, ch) && Same(s, r)
    ensures ChainsOk(r, ch)
  {
    forall o: Owner ensures OwnerSlot(r, o) == OwnerSlot(s, o) {
      SameOwners(s, r, o);
    }
    forall q: Index, x: Index ensures x in ch[q] <==> Owns(r, q, x) {
      assert (x in ch[q]) == Owns(s, q, x) && Like(s.h[x], r.h[x], false, false);
    }
    forall q: Index | r.h[q].state.Identity?
      ensures 0 < q <= r.tail && IsChain(r.h, q, ch[q]) && r.h[q].refcount == 1 + |ch[q]|
    {
      assert Like(s.h[q], r.h[q], false, false);
      forall x | x in ch[q] ensures r.h[x].prev == s.h[x].prev && r.h[x].next == s.h[x].next {
        assert (x in ch[q]) == Owns(s, q, x) && Like(s.h[x], r.h[x], false, false);
      }
      ChainFrame(s.h, r.h, q, ch[q]);
    }
    forall x: Index | r.h[x].state.Used? && r.h[x].owner.Token?
      ensures r.h[OwnerSlot(r, r.h[x].owner)].state.Identity?
    {
      assert Like(s.h[x], r.h[x], false, false);
      var q := OwnerSlot(s, s.h[x].owner);
      assert Like(s.h[q], r.h[q], false, false);
    }
    SameOrder(s, r, ch);
  }

  lemma SameOrder(s: Sys, r: Sys, ch: Chains)
    requires ChainsOk(s, ch) && Same(s, r)
    ensures (forall q: Index :: Ordered(r.h, ch[q])) && r.h[0].state.Unset?
  {
    assert Like(s.h[0], r.h[0], false, false);
    forall q: Index ensures Ordered(r.h, ch[q]) {
      assert Ordered(s.h, ch[q]);
      assert forall x: Index :: Like(s.h[x], r.h[x], false, false) ==> r.h[x].clone == s.h[x].clone;
      forall a, b | 0 <= a < b < |ch[q]| ensures r.h[ch[q][a]].clone != ch[q][b] {
        assert Like(s.h[ch[q][a]], r.h[ch[q][a]], false, false);
      }
    }
  }

  lemma SameClones(s: Sys, r: Sys)
    requires ClonesOk(s.h) && Same(s, r)
    ensures ClonesOk(r.h)
  {
    forall x: Index ensures SameClone(s.h[x], r.h[x]) && (s.h[x].state.Unset? || r.h[x].refcount == s.h[x].refcount) {
      assert Like(s.h[x], r.h[x], false, false);
    }
    forall m: Index ensures ClonesOf(r.h, m) == ClonesOf(s.h, m) {
    }
    forall m: Index ensures Counted(r.h, m) {
      assert Counted(s.h, m);
    }
  }

  /** The invariant does not tell such systems apart. */
  lemma SameInv(s: Sys, r: Sys, ch: Chains)
    requires Inv(s, ch) && Same(s, r)
    ensures Inv(r, ch)
  {
    hide ChainsOk, ClonesOk, Held, StackOk, TypesOk, OwnerSlot;
    forall x: Index ensures
      && r.h[x].state == s.h[x].state && r.h[x].htype == s.h[x].htype && r.h[x].serial == s.h[x].serial
      && r.h[x].freeID == s.h[x].freeID && r.h[x].clone == s.h[x].clone && r.h[x].obj == s.h[x].obj
    {
      assert Like(s.h[x], r.h[x], false, false);
    }
    StackSame(s, r);
    TypesSame(s, r);
    SameChains(s, r, ch);
    SameClones(s, r);
    HeldSame(s.h, r.h);
  }

  // ----- the loop on two systems -----

  /** As the loop goes: p may count more in one than in the other, and the chain's next links, which the
      loop does not read, may differ. */
  ghost predicate Alike(h: Table, h': Table, p: Index, c: seq<Index>, lent: set<Index>) {
    && h'[p] == h[p].(refcount := h'[p].refcount)
    && forall x: Index {:trigger h'[x]} :: x != p ==> Like(h[x], h'[x], x in c, x in lent)
  }

  ghost predicate Idents(s: Sys, lent: set<Index>) {
    forall x: Index {:trigger s.h[x]} :: x in lent ==> x != 0 && s.h[x].state.Identity?
  }

  /** A freed original has the same owner in both, or none in the second where it has a lent identity in the
      first. */
  ghost predicate Forgiven(s: Sys, r: Sys, lent: set<Index>) {
    Idents(s, lent) && forall x: Index {:trigger r.h[x]} :: s.h[x].state.Freed? ==>
      r.h[x].owner == s.h[x].owner || (r.h[x].owner.Nobody? && OwnerSlot(s, s.h[x].owner) in lent)
  }

  ghost predicate Sim(s: Sys, r: Sys, p: Index, c: seq<Index>, lent: set<Index>) {
    r == s.(h := r.h) && Alike(s.h, r.h, p, c, lent) && Forgiven(s, r, lent)
  }

  /** Unlinking the tail reads the same links in both. */
  lemma TailUnlinked(h: Table, h': Table, p: Index, c: seq<Index>, j: Index, lent: set<Index>)
    requires Alike(h, h', p, c, lent) && h[p].next == j && j != 0 && j != p && j in c
    requires h'[j].prev == h[j].prev && h[j].prev != p
    ensures Alike(Unlink(h, p, j), Unlink(h', p, j), p, c, lent)
  {
    var g, g' := Unlink(h, p, j), Unlink(h', p, j);
    forall x: Index | x != p ensures Like(g[x], g'[x], x in c, x in lent) {
      assert Like(h[x], h'[x], x in c, x in lent);
    }
  }

  /** What it writes. */
  lemma TailWrites(h: Table, p: Index, j: Index, x: Index)
    requires h[p].next == j && j != p && h[j].prev != p && x != p
    ensures var g := Unlink(h, p, j); g[x] == h[x].(next := g[x].next) && (x != h[j].prev ==> g[x] == h[x])
    ensures var g := Unlink(h, p, j); h[p].prev == j ==> g[x] == h[x]
  {
  }

  /** The slot j is vacated, or marked as freed, in both: the chain is the rest. */
  lemma OffChain(h: Table, h': Table, g: Table, g': Table, p: Index, c: seq<Index>, j: Index, lent: set<Index>)
    requires Alike(h, h', p, c, lent) && c != [] && j == c[|c| - 1] && j != p
    requires forall x: Index {:trigger g[x]} :: x != j ==> g[x] == h[x].(freeID := g[x].freeID)
    requires forall x: Index {:trigger g'[x]} :: x != j ==> g'[x] == h'[x].(freeID := g[x].freeID)
    requires Like(g[j], g'[j], false, false)
    ensures Alike(g, g', p, c[..|c| - 1], lent)
  {
    forall x: Index | x != p ensures Like(g[x], g'[x], x in c[..|c| - 1], x in lent) {
      if x != j {
        assert Like(h[x], h'[x], x in c, x in lent);
        assert x in c ==> x in c[..|c| - 1];
      }
    }
  }

  /** j is the tail, in both, and belongs to p. */
  ghost predicate AtTail(s: Sys, r: Sys, p: Index, c: seq<Index>, j: Index, lent: set<Index>) {
    && Sim(s, r, p, c, lent) && c != [] && j == c[|c| - 1]
    && 0 != p && p != j && j != 0 && s.h[p].state.Identity? && s.h[p].next == j
    && Plain(s.h[j]) && OwnerSlot(s, s.h[j].owner) == p
    && r.h[j].owner == s.h[j].owner && r.h[j].prev == s.h[j].prev && s.h[j].prev != j
    && (if s.h[j].prev == 0 then s.h[p].prev == j else s.h[j].prev in c)
    && p !in c
  }

  /** What a turn of the loop leaves as it was, as far as the left-over links go. */
  ghost predicate Undisturbed(s: Sys, t: Sys, p: Index, c: seq<Index>, j: Index) {
    && t.tail == s.tail && SameCore(s.h[p], t.h[p]) && SameCore(s.h[j].(state := t.h[j].state), t.h[j])
    && forall x: Index {:trigger t.h[x]} :: x != p && x != j ==>
         SameCore(s.h[x], t.h[x]) && t.h[x].prev == s.h[x].prev && (x !in c ==> t.h[x].next == s.h[x].next)
  }

  lemma OwnerAlike(s: Sys, r: Sys, p: Index, c: seq<Index>, o: Owner, lent: set<Index>)
    requires Sim(s, r, p, c, lent)
    ensures OwnerSlot(r, o) == OwnerSlot(s, o)
  {
    forall x: Index ensures r.h[x].state == s.h[x].state && r.h[x].serial == s.h[x].serial {
      if x != p { assert Like(s.h[x], r.h[x], x in c, x in lent); }
    }
    SameOwners(s, r, o);
  }

  ghost predicate OwnersKept(h: Table, g: Table) {
    forall x: Index {:trigger g[x]} :: g[x].owner == h[x].owner
  }

  ghost predicate IdentsKept(s: Sys, t: Sys) {
    t.tail == s.tail && forall x: Index {:trigger t.h[x]} :: s.h[x].state.Identity? ==>
      t.h[x].state.Identity? && t.h[x].serial == s.h[x].serial
  }

  lemma ForgivenStep(s: Sys, r: Sys, t: Sys, q: Sys, lent: set<Index>)
    requires Forgiven(s, r, lent) && IdentsKept(s, t)
    requires OwnersKept(s.h, t.h) && OwnersKept(r.h, q.h)
    requires forall x: Index {:trigger t.h[x]} :: t.h[x].state.Freed? ==>
      s.h[x].state.Freed? || r.h[x].owner == s.h[x].owner
    ensures Forgiven(t, q, lent)
  {
    forall x: Index | x in lent ensures x != 0 && t.h[x].state.Identity? {
      assert s.h[x].state.Identity?;
    }
    forall x: Index | t.h[x].state.Freed?
      ensures q.h[x].owner == t.h[x].owner || (q.h[x].owner.Nobody? && OwnerSlot(t, t.h[x].owner) in lent)
    {
      assert q.h[x].owner == r.h[x].owner;
      if r.h[x].owner != s.h[x].owner {
        assert t.h[OwnerSlot(s, s.h[x].owner)].state.Identity?;
        ResolveStable(s, t, s.h[x].owner);
      }
    }
  }

  lemma DisownedTail(s: Sys, r: Sys, p: Index, c: seq<Index>, j: Index, lent: set<Index>)
    requires AtTail(s, r, p, c, j, lent)
    ensures Disown(s, j) == s.(h := Unlink(s.h, p, j)) && Disown(r, j) == r.(h := Unlink(r.h, p, j))
    ensures Alike(Disown(s, j).h, Disown(r, j).h, p, c, lent)
    ensures Undisturbed(s, Disown(s, j), p, c, j) && Disown(s, j).h[j] == s.h[j]
    ensures OwnersKept(s.h, Disown(s, j).h) && OwnersKept(r.h, Disown(r, j).h)
  {
    OwnerAlike(s, r, p, c, s.h[j].owner, lent);
    TailUnlinked(s.h, r.h, p, c, j, lent);
    var g := Unlink(s.h, p, j);
    forall x: Index ensures Unlink(r.h, p, j)[x].owner == r.h[x].owner && SameCore(s.h[x], g[x]) {
      UnlinkCore(s.h, p, j, x);
      UnlinkCore(r.h, p, j, x);
    }
    forall x: Index | x != p ensures g[x].prev == s.h[x].prev && (x !in c || x == j ==> g[x] == s.h[x]) {
      TailWrites(s.h, p, j, x);
    }
  }

  ghost predicate VacatedRecords(h: Table, g: Table, j: Index) {
    forall x: Index {:trigger g[x]} ::
      g[x] == h[x].(freeID := g[x].freeID, state := if x == j then Unset else h[x].state)
  }

  lemma VacatedTail(s: Sys, r: Sys, p: Index, c: seq<Index>, j: Index, lent: set<Index>)
    requires r == s.(h := r.h) && Alike(s.h, r.h, p, c, lent) && c != [] && j == c[|c| - 1] && j != p
    requires s.free < MAX_HANDLES
    ensures var t, q := Vacate(s, j), Vacate(r, j);
      && q == t.(h := q.h) && Alike(t.h, q.h, p, c[..|c| - 1], lent) && t.tail == s.tail
      && VacatedRecords(s.h, t.h, j) && OwnersKept(r.h, q.h)
  {
    var t, q := Vacate(s, j), Vacate(r, j);
    assert Like(s.h[j], r.h[j], j in c, j in lent);
    OffChain(s.h, r.h, t.h, q.h, p, c, j, lent);
  }

  /** The tail is released in both. */
  lemma ReleasedTail(s: Sys, r: Sys, p: Index, c: seq<Index>, j: Index, lent: set<Index>)
    requires AtTail(s, r, p, c, j, lent) && s.free < MAX_HANDLES
    ensures var t, q := Release(s, j), Release(r, j);
      Sim(t, q, p, c[..|c| - 1], lent) && Undisturbed(s, t, p, c, j) && t.h[j].state.Unset?
  {
    hide Disown, Vacate, Alike;
    var d, e := Disown(s, j), Disown(r, j);
    DisownedTail(s, r, p, c, j, lent);
    VacatedTail(d, e, p, c, j, lent);
    var t, q := Release(s, j), Release(r, j);
    ReleasedForgiven(s, r, d, e, t, q, p, c, j, lent);
  }

  lemma ReleasedForgiven(s: Sys, r: Sys, d: Sys, e: Sys, t: Sys, q: Sys, p: Index, c: seq<Index>, j: Index,
      lent: set<Index>)
    requires Forgiven(s, r, lent) && Undisturbed(s, d, p, c, j) && p != 0 && p != j && s.h[p].state.Identity?
    requires d.h[j] == s.h[j] && Plain(s.h[j]) && OwnersKept(s.h, d.h) && OwnersKept(r.h, e.h)
    requires VacatedRecords(d.h, t.h, j) && t.tail == d.tail && OwnersKept(e.h, q.h)
    ensures Forgiven(t, q, lent) && Undisturbed(s, t, p, c, j) && t.h[j].state.Unset?
  {
    forall x: Index ensures t.h[x].owner == s.h[x].owner && q.h[x].owner == r.h[x].owner {
      assert d.h[x].owner == s.h[x].owner && e.h[x].owner == r.h[x].owner;
    }
    forall x: Index | x != j ensures t.h[x].state == s.h[x].state && t.h[x] == d.h[x].(freeID := t.h[x].freeID) {
      assert x != p ==> SameCore(s.h[x], d.h[x]);
    }
    assert IdentsKept(s, t) by {
      forall x: Index | s.h[x].state.Identity? ensures t.h[x].state.Identity? && t.h[x].serial == s.h[x].serial {
        assert x != j && t.h[x] == d.h[x].(freeID := t.h[x].freeID);
        assert x != p ==> SameCore(s.h[x], d.h[x]);
      }
    }
    ForgivenStep(s, r, t, q, lent);
  }

  // ----- an original is unlinked by the links it was left with -----

  /** Of the slots to be kept it writes none, or what is there already. */
  ghost predicate Quiet(h: Table, o: Index, p: Index, c: seq<Index>, m: Index, keep: set<Index>) {
    var x, y := h[m].next, h[m].prev;
    && m != p && m != o && m !in c && x != p && y != p && h[o].prev != m && h[o].next != m
    && (x in keep ==> h[x].prev == y)
    && (y in keep ==> y in c || h[y].next == x)
  }

  lemma QuietWrites(h: Table, o: Index, p: Index, c: seq<Index>, m: Index, keep: set<Index>, x: Index)
    requires Quiet(h, o, p, c, m, keep)
    ensures var g := Unlink(h, o, m);
      && g[x] == h[x].(prev := g[x].prev, next := g[x].next,
                       refcount := if x == o then Dec32(h[x].refcount) else h[x].refcount)
      && (x == p ==> g[x].prev == h[x].prev && g[x].next == h[x].next)
      && (x in keep ==> g[x].prev == h[x].prev && (x in c || g[x].next == h[x].next))
  {
  }

  lemma QuietUnlinked(h: Table, h': Table, o: Index, p: Index, c: seq<Index>, m: Index, keep: set<Index>,
      lent: set<Index>)
    requires Alike(h, h', p, c, lent) && Quiet(h, o, p, c, m, keep) && o in lent && h[o].state.Identity?
    requires forall x: Index {:trigger h[x]} :: Live(h[x]) ==> x in keep
    ensures Alike(Unlink(h, o, m), h', p, c, lent)
  {
    hide Unlink, Quiet;
    forall x: Index | x != p ensures Like(Unlink(h, o, m)[x], h'[x], x in c, x in lent) {
      QuietWrites(h, o, p, c, m, keep, x);
      assert Like(h[x], h'[x], x in c, x in lent);
    }
    QuietWrites(h, o, p, c, m, keep, p);
  }

  lemma VacatedAlike(s: Sys, r: Sys, p: Index, c: seq<Index>, m: Index, lent: set<Index>)
    requires r == s.(h := r.h) && Alike(s.h, r.h, p, c, lent) && m != p && m !in c && s.free < MAX_HANDLES
    ensures var t, q := Vacate(s, m), Vacate(r, m);
      && q == t.(h := q.h) && Alike(t.h, q.h, p, c, lent) && t.tail == s.tail
      && VacatedRecords(s.h, t.h, m) && OwnersKept(r.h, q.h)
  {
    var t, q := Vacate(s, m), Vacate(r, m);
    forall x: Index | x != p ensures Like(t.h[x], q.h[x], x in c, x in lent) {
      assert Like(s.h[x], r.h[x], x in c, x in lent);
    }
  }

  /** What the destruction of m leaves of the other slots. */
  ghost predicate Settled(t: Sys, u: Sys, p: Index, c: seq<Index>, m: Index, keep: set<Index>) {
    && u.tail == t.tail && SameCore(t.h[p], u.h[p]) && SameCore(t.h[m].(state := Unset), u.h[m])
    && forall x: Index {:trigger u.h[x]} :: x != p && x != m ==>
         && SameCore(t.h[x], u.h[x])
         && (x in keep ==> u.h[x].prev == t.h[x].prev && (x in c || u.h[x].next == t.h[x].next))
  }

  /** The records of d and of t, before m is vacated. */
  ghost predicate Unlinked(t: Sys, d: Sys, p: Index, c: seq<Index>, keep: set<Index>) {
    && d.tail == t.tail && d.free == t.free && SameCore(t.h[p], d.h[p])
    && forall x: Index {:trigger d.h[x]} :: x != p ==>
         d.h[x] == t.h[x].(prev := d.h[x].prev, next := d.h[x].next, refcount := d.h[x].refcount)
         && (x in keep ==> d.h[x].prev == t.h[x].prev && (x in c || d.h[x].next == t.h[x].next))
  }

  lemma UnlinkedOnce(t: Sys, q: Sys, o: Index, p: Index, c: seq<Index>, m: Index, keep: set<Index>, d: Sys,
      lent: set<Index>)
    requires Alike(t.h, q.h, p, c, lent)
    requires forall x: Index {:trigger t.h[x]} :: Live(t.h[x]) ==> x in keep
    requires d.tail == t.tail && d.free == t.free
    requires d.h == if o == 0 then t.h else Unlink(t.h, o, m)
    requires o != 0 ==> Quiet(t.h, o, p, c, m, keep) && o in lent && t.h[o].state.Identity?
    ensures Alike(d.h, q.h, p, c, lent) && Unlinked(t, d, p, c, keep)
  {
    hide Unlink, Quiet;
    if o != 0 {
      QuietUnlinked(t.h, q.h, o, p, c, m, keep, lent);
      forall x: Index ensures
        && d.h[x] == t.h[x].(prev := d.h[x].prev, next := d.h[x].next, refcount := d.h[x].refcount)
        && (x in keep ==> d.h[x].prev == t.h[x].prev && (x in c || d.h[x].next == t.h[x].next))
      {
        QuietWrites(t.h, o, p, c, m, keep, x);
      }
    }
  }

  lemma SettledIs(t: Sys, d: Sys, u: Sys, p: Index, c: seq<Index>, m: Index, keep: set<Index>)
    requires Unlinked(t, d, p, c, keep) && VacatedRecords(d.h, u.h, m) && u.tail == d.tail && m != p
    ensures Settled(t, u, p, c, m, keep) && OwnersKept(t.h, u.h)
    ensures forall x: Index {:trigger u.h[x]} :: u.h[x].state.Freed? ==> t.h[x].state.Freed?
  {
    forall x: Index ensures u.h[x] == d.h[x].(freeID := u.h[x].freeID, state := if x == m then Unset else d.h[x].state)
      && (x != p ==> d.h[x] == t.h[x].(prev := d.h[x].prev, next := d.h[x].next, refcount := d.h[x].refcount))
    {
    }
  }

  function Logged(t: Sys, m: Index): Sys {
    t.(destroyed := t.destroyed + [Object(t.h[m].htype, t.h[m].obj)])
  }

  lemma DestroyParts(t: Sys, q: Sys, p: Index, c: seq<Index>, m: Index, lent: set<Index>)
    requires Sim(t, q, p, c, lent) && m != p && t.h[m].state.Freed? && OwnerSlot(q, q.h[m].owner) == 0
    ensures var o := OwnerSlot(t, t.h[m].owner);
      && Destroy(t, m) == Vacate(Logged(if o == 0 then t else t.(h := Unlink(t.h, o, m)), m), m)
      && Destroy(q, m) == Vacate(Logged(q, m), m)
      && Logged(q, m) == Logged(t, m).(h := q.h)
      && (o != 0 ==> o in lent && t.h[o].state.Identity?)
  {
    hide Vacate;
    SameTokens(t, Logged(t, m), t.h[m].owner);
    SameTokens(q, Logged(q, m), q.h[m].owner);
    OwnerAlike(t, q, p, c, t.h[m].owner, lent);
    assert Like(t.h[m], q.h[m], m in c, m in lent);
    var o := OwnerSlot(t, t.h[m].owner);
    UnlinkCore(t.h, o, m, m);
  }

  /** The first system unlinks m once more, the second does not. */
  lemma DestroyedAlike(t: Sys, q: Sys, p: Index, c: seq<Index>, m: Index, keep: set<Index>, lent: set<Index>)
    requires Sim(t, q, p, c, lent) && m != p && m !in c && t.h[m].state.Freed?
    requires t.free < MAX_HANDLES && OwnerSlot(q, q.h[m].owner) == 0
    requires OwnerSlot(t, t.h[m].owner) != 0 ==> Quiet(t.h, OwnerSlot(t, t.h[m].owner), p, c, m, keep)
    requires forall x: Index {:trigger t.h[x]} :: Live(t.h[x]) ==> x in keep
    ensures Sim(Destroy(t, m), Destroy(q, m), p, c, lent) && Settled(t, Destroy(t, m), p, c, m, keep)
  {
    hide Unlink, Vacate, Alike, Quiet;
    DestroyParts(t, q, p, c, m, lent);
    var o := OwnerSlot(t, t.h[m].owner);
    var d, e := Logged(if o == 0 then t else t.(h := Unlink(t.h, o, m)), m), Logged(q, m);
    UnlinkedOnce(t, q, o, p, c, m, keep, d, lent);
    VacatedAlike(d, e, p, c, m, lent);
    SettledIs(t, d, Vacate(d, m), p, c, m, keep);
    assert OwnersKept(q.h, Vacate(e, m).h);
    SettledIdents(t, Destroy(t, m), p, c, m, keep);
    ForgivenStep(t, q, Vacate(d, m), Vacate(e, m), lent);
  }

  lemma SettledIdents(t: Sys, u: Sys, p: Index, c: seq<Index>, m: Index, keep: set<Index>)
    requires Settled(t, u, p, c, m, keep) && t.h[m].state.Freed?
    ensures IdentsKept(t, u)
  {
    forall x: Index | t.h[x].state.Identity? ensures u.h[x].state.Identity? && u.h[x].serial == t.h[x].serial {
      if x != p { assert SameCore(t.h[x], u.h[x]); }
    }
  }

  // ----- a turn of the loop -----

  /** Before a turn: the second system is sound, and the next handle to go is the same in both. */
  ghost predicate Turn(s: Sys, r: Sys, ch: Chains, p: Index, j: Index, lent: set<Index>) {
    && Inv(r, ch) && r.h[p].state.Identity? && Spared(r, ch[p]) && Sim(s, r, p, ch[p], lent)
    && ch[p] != [] && j == ch[p][|ch[p]| - 1]
  }

  lemma TurnStarts(s: Sys, r: Sys, ch: Chains, p: Index, j: Index, lent: set<Index>)
    requires Turn(s, r, ch, p, j, lent)
    ensures AtTail(s, r, p, ch[p], j, lent) && s.free < MAX_HANDLES
    ensures s.h[j].state.Used? && Like(s.h[j], r.h[j], true, true) && Distinct(ch[p])
    ensures forall x :: x in ch[p] ==> s.h[x].state.Used? && x != p && x != 0
  {
    var c := ch[p];
    Room(r, p);
    LastLeaves(r, ch, p);
    OwnsFacts(r, ch, p, j);
    assert Like(s.h[j], r.h[j], true, true);
    OwnerAlike(s, r, p, c, s.h[j].owner, lent);
    assert IsChain(r.h, p, c) && r.h[c[|c| - 1]].prev == Before(c, |c| - 1);
    forall x | x in c ensures s.h[x].state.Used? && x != p && x != 0 {
      OwnsFacts(r, ch, p, x);
      assert Like(s.h[x], r.h[x], true, true);
    }
  }

  /** The slots that the turn must keep. */
  ghost function Kept(s: Sys, c: seq<Index>, j: Index): set<Index> {
    set x: Index | 0 <= x <= MAX_HANDLES && x != j && !Loose(s, c, x)
  }

  /** What a turn leaves of the other slots. */
  ghost predicate Turned(s: Sys, t: Sys, p: Index, c: seq<Index>, j: Index) {
    && t.tail == s.tail && SameCore(s.h[p], t.h[p]) && !Live(t.h[j])
    && SameCore(s.h[j].(state := t.h[j].state), t.h[j])
    && forall x: Index {:trigger t.h[x]} :: x != p && x != j ==>
         && SameCore(s.h[x].(state := t.h[x].state), t.h[x])
         && (t.h[x].state == s.h[x].state || (s.h[x].state.Freed? && t.h[x].state.Unset?))
         && (t.h[x].state.Unset? || (x in Kept(s, c, j) ==>
               t.h[x].prev == s.h[x].prev && (x in c || t.h[x].next == s.h[x].next)))
  }

  lemma DoomedTail(s: Sys, r: Sys, p: Index, c: seq<Index>, j: Index, lent: set<Index>)
    requires AtTail(s, r, p, c, j, lent) && s.h[j].state.Used?
    ensures AtTail(Doom(s, j), Doom(r, j), p, c, j, lent) && Doom(s, j).free == s.free && Recounted(s, Doom(s, j), j)
  {
    var t, q := Doom(s, j), Doom(r, j);
    assert Like(s.h[j], r.h[j], true, true);
    SameTokens(s, t, s.h[j].owner);
    forall x: Index | x != p ensures Like(t.h[x], q.h[x], x in c, x in lent) {
      assert Like(s.h[x], r.h[x], x in c, x in lent);
    }
    ForgivenStep(s, r, t, q, lent);
  }

  /** The same but for counts and the state of j. */
  ghost predicate Recounted(s: Sys, t: Sys, j: Index) {
    && t.tail == s.tail
    && forall x: Index {:trigger t.h[x]} ::
         t.h[x] == s.h[x].(refcount := t.h[x].refcount, state := if x == j then t.h[x].state else s.h[x].state)
  }

  lemma RecountedSelf(s: Sys, j: Index)
    ensures Recounted(s, s, j)
  {
  }

  lemma UndisturbedTurned(s: Sys, d: Sys, t: Sys, u: Sys, p: Index, c: seq<Index>, j: Index)
    requires Recounted(s, d, j) && Undisturbed(d, t, p, c, j) && Recounted(t, u, j) && !Live(u.h[j]) && p != j
    ensures Turned(s, u, p, c, j)
  {
    hide Kept;
    forall x: Index
      ensures SameCore(s.h[x].(state := d.h[x].state), d.h[x]) && SameCore(t.h[x].(state := u.h[x].state), u.h[x])
      ensures d.h[x].prev == s.h[x].prev && d.h[x].next == s.h[x].next
      ensures u.h[x].prev == t.h[x].prev && u.h[x].next == t.h[x].next
      ensures x != j ==> d.h[x].state == s.h[x].state && u.h[x].state == t.h[x].state
    {
    }
  }

  lemma TurnAlone(s: Sys, r: Sys, p: Index, c: seq<Index>, j: Index, lent: set<Index>)
    requires AtTail(s, r, p, c, j, lent) && s.free < MAX_HANDLES && s.h[j].state.Used?
    ensures var t, q := Destroy(Drop(s, j), j), Destroy(Drop(r, j), j);
      Sim(t, q, p, c[..|c| - 1], lent) && Turned(s, t, p, c, j)
  {
    hide Release, Sim, Turned, Recounted, Undisturbed;
    RecountedSelf(Release(Doom(s, j), j), j);
    DoomedTail(s, r, p, c, j, lent);
    var d, e := Doom(s, j), Doom(r, j);
    ReleasedTail(d, e, p, c, j, lent);
    var t := Release(d, j);
    UndisturbedTurned(s, d, t, t, p, c, j);
  }

  lemma MarkedTail(s: Sys, r: Sys, p: Index, c: seq<Index>, j: Index, lent: set<Index>)
    requires AtTail(s, r, p, c, j, lent) && s.h[j].state.Used?
    ensures AtTail(Mark(s, j), Mark(r, j), p, c, j, lent)
    ensures Recounted(s, Mark(s, j), j) && Mark(s, j).h[j].state.Freed?
  {
    var t, q := Mark(s, j), Mark(r, j);
    assert Like(s.h[j], r.h[j], true, true);
    ResolveStable(s, t, s.h[j].owner);
    forall x: Index | x != p ensures Like(t.h[x], q.h[x], x in c, x in lent) {
      assert Like(s.h[x], r.h[x], x in c, x in lent);
    }
    ForgivenStep(s, r, t, q, lent);
  }

  lemma Shortened(h: Table, h': Table, p: Index, c: seq<Index>, j: Index, lent: set<Index>)
    requires Alike(h, h', p, c, lent) && c != [] && j == c[|c| - 1] && j != p && !Live(h[j])
    ensures Alike(h, h', p, c[..|c| - 1], lent)
  {
    forall x: Index | x != p ensures Like(h[x], h'[x], x in c[..|c| - 1], x in lent) {
      assert Like(h[x], h'[x], x in c, x in lent);
      assert x in c && x != j ==> x in c[..|c| - 1];
    }
  }

  lemma TurnMarked(s: Sys, r: Sys, p: Index, c: seq<Index>, j: Index, lent: set<Index>)
    requires AtTail(s, r, p, c, j, lent) && s.h[j].state.Used?
    ensures var t, q := Disown(Mark(s, j), j), Disown(Mark(r, j), j);
      Sim(t, q, p, c[..|c| - 1], lent) && Turned(s, t, p, c, j)
  {
    hide Disown, Alike, Recounted, Turned;
    RecountedSelf(Disown(Mark(s, j), j), j);
    MarkedTail(s, r, p, c, j, lent);
    var d, e := Mark(s, j), Mark(r, j);
    DisownedTail(d, e, p, c, j, lent);
    var t, q := Disown(d, j), Disown(e, j);
    Shortened(t.h, q.h, p, c, j, lent);
    UndisturbedTurned(s, d, t, t, p, c, j);
    ForgivenStep(d, e, t, q, lent);
  }

  lemma DroppedAlike(t: Sys, q: Sys, p: Index, c: seq<Index>, m: Index, j: Index, lent: set<Index>)
    requires Sim(t, q, p, c, lent) && m != p && p != 0 && t.h[p].state.Identity?
    ensures Sim(Drop(t, m), Drop(q, m), p, c, lent) && Recounted(t, Drop(t, m), j)
  {
    var d, e := Drop(t, m), Drop(q, m);
    forall x: Index | x != p ensures Like(d.h[x], e.h[x], x in c, x in lent) {
      assert Like(t.h[x], q.h[x], x in c, x in lent);
      assert Like(t.h[m], q.h[m], m in c, m in lent);
    }
    ForgivenStep(t, q, d, e, lent);
  }

  lemma TailLike(s: Sys, r: Sys, p: Index, c: seq<Index>, j: Index, lent: set<Index>)
    requires AtTail(s, r, p, c, j, lent)
    ensures Like(s.h[j], r.h[j], true, true)
  {
    assert Like(s.h[j], r.h[j], j in c, j in lent);
  }

  lemma TailStays(s: Sys, p: Index, c: seq<Index>, j: Index)
    requires s.free < MAX_HANDLES && Undisturbed(s, Release(s, j), p, c, j) && s.h[p].state.Identity? && p != j
    ensures Release(s, j).h[p].state.Identity? && Release(s, j).free == s.free + 1
    ensures forall x: Index {:trigger Release(s, j).h[x]} :: x != j ==> Release(s, j).h[x].state == s.h[x].state
  {
    hide Unlink;
    forall x: Index | x != j ensures Release(s, j).h[x].state == s.h[x].state {
      if x != p { assert SameCore(s.h[x], Release(s, j).h[x]); }
    }
  }

  ghost predicate StatesKept(s: Sys, t: Sys, j: Index) {
    && t.h[j].state.Unset? && t.free == s.free + 1
    && forall x: Index {:trigger t.h[x]} :: x != j ==> t.h[x].state == s.h[x].state
  }

  lemma TurnClone(s: Sys, r: Sys, p: Index, c: seq<Index>, j: Index, lent: set<Index>)
    requires AtTail(s, r, p, c, j, lent) && s.free < MAX_HANDLES && s.h[j].clone != p
    ensures var t, q := Unclone(s, j), Unclone(r, j);
      Sim(t, q, p, c[..|c| - 1], lent) && Turned(s, t, p, c, j) && StatesKept(s, t, j)
  {
    hide Release, Sim, Turned, Undisturbed;
    var m := s.h[j].clone;
    ReleasedTail(s, r, p, c, j, lent);
    var t, q := Release(s, j), Release(r, j);
    TailStays(s, p, c, j);
    TailLike(s, r, p, c, j, lent);
    DroppedAlike(t, q, p, c[..|c| - 1], m, j, lent);
    RecountedSelf(s, j);
    UndisturbedTurned(s, s, t, Drop(t, m), p, c, j);
    assert forall x: Index :: Drop(t, m).h[x].state == t.h[x].state;
  }

  /** Of an original that is to go, j is the only clone. */
  lemma OnlyClone(s: Sys, c: seq<Index>, m: Index, j: Index, x: Index)
    requires ClonesOk(s.h) && s.h[m].state.Freed? && s.h[m].refcount == 1 && s.h[j].state.Used? && s.h[j].clone == m
    requires s.h[x].state.Used? && s.h[x].clone == m
    ensures x == j
  {
    assert Counted(s.h, m) && {j, x} <= ClonesOf(s.h, m);
    Cardinality({j, x}, ClonesOf(s.h, m));
  }

  lemma FirstIsTail(s: Sys, c: seq<Index>, m: Index, j: Index, x: Index)
    requires ClonesOk(s.h) && s.h[m].state.Freed? && s.h[m].refcount == 1 && s.h[j].state.Used? && s.h[j].clone == m
    requires Distinct(c) && c != [] && j == c[|c| - 1] && (forall y :: y in c ==> s.h[y].state.Used?)
    requires GoesFirst(s, c, m, x)
    ensures x == j
  {
    var a, b :| 0 <= a <= b < |c| && s.h[c[a]].clone == m && c[b] == x;
    OnlyClone(s, c, m, j, c[a]);
  }

  /** When its last clone has gone, unlinking a tame original is quiet. */
  lemma DueQuiet(s: Sys, t: Sys, o: Index, p: Index, c: seq<Index>, m: Index, j: Index)
    requires ClonesOk(s.h) && s.h[m].state.Freed? && s.h[m].refcount == 1 && s.h[j].state.Used? && s.h[j].clone == m
    requires Distinct(c) && c != [] && j == c[|c| - 1] && (forall y :: y in c ==> s.h[y].state.Used? && y != p)
    requires Tame(s, p, c) && OwnerSlot(s, s.h[m].owner) != 0 && s.h[p].state.Identity? && s.h[o].state.Identity?
    requires Turned(s, t, p, c, j) && StatesKept(s, t, j) && t.h[o].prev != m && t.h[o].next != m
    ensures Quiet(t.h, o, p, c[..|c| - 1], m, Kept(s, c, j))
  {
    var rest := c[..|c| - 1];
    assert j in c;
    if KeepsClone(s, c, m) {
      var x: Index :| s.h[x].state.Used? && s.h[x].clone == m && x !in c;
      OnlyClone(s, c, m, j, x);
    }
    assert Due(s, c, m) && m != j && m != p;
    assert m in Kept(s, c, j);
    assert m !in c;
    var x, y := s.h[m].next, s.h[m].prev;
    assert t.h[m].next == x && t.h[m].prev == y;
    if GoesFirst(s, c, m, x) { FirstIsTail(s, c, m, j, x); }
    assert y in c ==> y in rest || y == j;
    assert x in Kept(s, c, j) ==> !s.h[x].state.Unset? && !t.h[x].state.Unset?;
    assert y in Kept(s, c, j) ==> !s.h[y].state.Unset? && !t.h[y].state.Unset?;
  }

  /** What a clone on the chain refers to. */
  lemma CloneStarts(s: Sys, r: Sys, ch: Chains, p: Index, j: Index, lent: set<Index>)
    requires Turn(s, r, ch, p, j, lent) && s.h[j].clone != 0
    ensures var m := s.h[j].clone;
      && r.h[j].clone == m && m != p && m != j && Original(r.h[m]) && Like(s.h[m], r.h[m], true, true)
      && (s.h[m].refcount == 1 ==> s.h[m].state.Freed? && m !in ch[p])
  {
    var c := ch[p];
    LastLeaves(r, ch, p);
    OwnsFacts(r, ch, p, j);
    assert Like(s.h[j], r.h[j], true, true);
    var m := s.h[j].clone;
    assert Original(r.h[m]);
    assert Like(s.h[m], r.h[m], m in c, m in lent);
    if r.h[m].refcount == 1 {
      LastCloneMeansFreed(r.h, j);
      if m in c { OwnsFacts(r, ch, p, m); }
    }
  }

  lemma LastReady(s: Sys, r: Sys, ch: Chains, p: Index, j: Index, lent: set<Index>)
    requires Turn(s, r, ch, p, j, lent) && s.h[j].clone != 0 && s.h[s.h[j].clone].refcount == 1
    requires Sim(Unclone(s, j), Unclone(r, j), p, ch[p][..|ch[p]| - 1], lent)
    ensures var t, q, m := Unclone(s, j), Unclone(r, j), s.h[j].clone;
      && t.h[m].state.Freed? && t.free < MAX_HANDLES && OwnerSlot(q, q.h[m].owner) == 0
      && forall o: Index {:trigger t.h[o]} :: t.h[o].state.Identity? ==> t.h[o].prev != m && t.h[o].next != m
  {
    hide Unclone, TypesOk, SerialsOk, StackOk, ObjectsOk, Spared;
    var c, m, t, q := ch[p], s.h[j].clone, Unclone(s, j), Unclone(r, j);
    CloneStarts(s, r, ch, p, j, lent);
    LastLeaves(r, ch, p);
    SparedNotStale(r, c, j);
    UncloneKeeps(r, ch, j);
    assert SameClone(r.h[p], q.h[p]);
    Room(q, p);
    forall o: Index | t.h[o].state.Identity? ensures t.h[o].prev != m && t.h[o].next != m {
      if o != p { assert Like(t.h[o], q.h[o], o in c[..|c| - 1], o in lent); }
      LastOff(q, ch[p := c[..|c| - 1]], o, m);
      if o in c[..|c| - 1] { OwnsFacts(r, ch, p, o); }
    }
    assert Like(t.h[m], q.h[m], m in c[..|c| - 1], m in lent);
  }

  lemma LastOff(q: Sys, ch: Chains, p: Index, m: Index)
    requires ChainsOk(q, ch) && q.h[p].state.Identity? && !q.h[m].state.Used? && m != 0
    ensures q.h[p].prev != m && q.h[p].next != m
  {
    var c := ch[p];
    assert IsChain(q.h, p, c);
    if c != [] {
      OwnsFacts(q, ch, p, c[0]);
      OwnsFacts(q, ch, p, c[|c| - 1]);
    }
  }

  lemma OwnerBefore(s: Sys, t: Sys, p: Index, c: seq<Index>, j: Index, m: Index)
    requires Turned(s, t, p, c, j) && m != p && OwnerSlot(t, t.h[m].owner) != 0
    ensures OwnerSlot(s, s.h[m].owner) == OwnerSlot(t, t.h[m].owner)
    ensures var o := OwnerSlot(t, t.h[m].owner); t.h[o].state.Identity? ==> s.h[o].state.Identity?
  {
    hide Kept;
    assert t.h[m].owner == s.h[m].owner;
    var o := OwnerSlot(t, t.h[m].owner);
    assert Live(t.h[o]) && o != j;
    assert o != p ==> SameCore(s.h[o].(state := t.h[o].state), t.h[o]);
  }

  lemma KeptLive(s: Sys, t: Sys, p: Index, c: seq<Index>, j: Index)
    requires StatesKept(s, t, j)
    ensures forall x: Index {:trigger t.h[x]} :: Live(t.h[x]) ==> x in Kept(s, c, j)
  {
    forall x: Index | Live(t.h[x]) ensures x in Kept(s, c, j) {
    }
  }

  lemma TurnedSettled(s: Sys, t: Sys, u: Sys, p: Index, c: seq<Index>, j: Index, m: Index)
    requires Turned(s, t, p, c, j) && StatesKept(s, t, j) && s.h[m].state.Freed?
    requires m != j && m != p && p != j && c != []
    requires Settled(t, u, p, c[..|c| - 1], m, Kept(s, c, j))
    ensures Turned(s, u, p, c, j)
  {
    var keep := Kept(s, c, j);
    hide Kept;
    forall x: Index | x != p && x != j && x != m ensures SameCore(t.h[x], u.h[x]) && t.h[x].state == s.h[x].state {
    }
    assert SameCore(t.h[j], u.h[j]);
  }

  lemma TurnLast(s: Sys, r: Sys, ch: Chains, p: Index, j: Index, lent: set<Index>)
    requires Turn(s, r, ch, p, j, lent) && Tame(s, p, ch[p])
    requires s.h[j].clone != 0 && s.h[s.h[j].clone].refcount == 1
    ensures var t, q, m := Unclone(s, j), Unclone(r, j), s.h[j].clone; var rest := ch[p][..|ch[p]| - 1];
      Sim(Destroy(t, m), Destroy(q, m), p, rest, lent) && Turned(s, Destroy(t, m), p, ch[p], j)
  {
    hide Unclone, Destroy, Sim, Turned, Inv, AtTail, Tame, Settled, Spared, Kept, Quiet;
    var c, m := ch[p], s.h[j].clone;
    var t, q, keep := Unclone(s, j), Unclone(r, j), Kept(s, c, j);
    TurnStarts(s, r, ch, p, j, lent);
    CloneStarts(s, r, ch, p, j, lent);
    TurnClone(s, r, p, c, j, lent);
    LastReady(s, r, ch, p, j, lent);
    TurnClones(s, r, ch, p, lent);
    var o := OwnerSlot(t, t.h[m].owner);
    if o != 0 {
      OwnerIdent(t, q, p, c[..|c| - 1], m, lent);
      OwnerBefore(s, t, p, c, j, m);
      DueQuiet(s, t, o, p, c, m, j);
    }
    KeptLive(s, t, p, c, j);
    DestroyedAlike(t, q, p, c[..|c| - 1], m, keep, lent);
    TurnedSettled(s, t, Destroy(t, m), p, c, j, m);
  }

  lemma OwnerIdent(t: Sys, q: Sys, p: Index, c: seq<Index>, m: Index, lent: set<Index>)
    requires Sim(t, q, p, c, lent) && t.h[m].state.Freed? && OwnerSlot(t, t.h[m].owner) != 0
    requires OwnerSlot(q, q.h[m].owner) == 0
    ensures t.h[OwnerSlot(t, t.h[m].owner)].state.Identity?
  {
    OwnerAlike(t, q, p, c, t.h[m].owner, lent);
  }

  lemma TurnClones(s: Sys, r: Sys, ch: Chains, p: Index, lent: set<Index>)
    requires Inv(r, ch) && Sim(s, r, p, ch[p], lent) && r.h[p].state.Identity?
    ensures ClonesOk(s.h) && s.h[p].state.Identity? && p != 0
  {
    hide StackOk, ChainsOk, TypesOk, SerialsOk, ObjectsOk;
    forall x: Index
      ensures SameClone(r.h[x], s.h[x]) && (Plain(r.h[x]) ==> r.h[x].refcount == s.h[x].refcount)
    {
      if x != p { assert Like(s.h[x], r.h[x], x in ch[p], x in lent); }
    }
    forall m: Index ensures ClonesOf(r.h, m) == ClonesOf(s.h, m) {
    }
    forall m: Index ensures Counted(s.h, m) {
      assert Counted(r.h, m);
    }
  }

  // ----- what is tame stays tame -----

  /** What a turn may do to originals and clones: the tail, if it stays as freed, keeps a clone outside. */
  ghost predicate TailSpared(t: Sys, c: seq<Index>, j: Index) {
    t.h[j].state.Freed? ==> KeepsClone(t, c, j)
  }

  lemma CloneStays(s: Sys, t: Sys, p: Index, c: seq<Index>, j: Index, m: Index)
    requires Turned(s, t, p, c, j) && c != [] && j == c[|c| - 1] && s.h[p].state.Identity? && KeepsClone(s, c, m)
    ensures KeepsClone(t, c[..|c| - 1], m)
  {
    hide Kept;
    var x: Index :| s.h[x].state.Used? && s.h[x].clone == m && x !in c;
    assert x != j && x != p;
    assert t.h[x].state.Used? && t.h[x].clone == m;
  }

  lemma DueBefore(s: Sys, t: Sys, p: Index, c: seq<Index>, j: Index, m: Index)
    requires Turned(s, t, p, c, j) && c != [] && j == c[|c| - 1] && p != 0 && s.h[p].state.Identity? && p != j
    requires s.h[j].state.Used? && TailSpared(t, c[..|c| - 1], j) && Due(t, c[..|c| - 1], m)
    ensures m != j && m != p && Due(s, c, m)
  {
    hide Kept, KeepsClone;
    assert SameCore(s.h[m].(state := t.h[m].state), t.h[m]);
    OwnerBefore(s, t, p, c, j, m);
    if KeepsClone(s, c, m) { CloneStays(s, t, p, c, j, m); }
  }

  lemma LooseAfter(s: Sys, t: Sys, p: Index, c: seq<Index>, j: Index, x: Index)
    requires Turned(s, t, p, c, j) && c != [] && j == c[|c| - 1] && p != 0 && s.h[p].state.Identity? && p != j
    requires s.h[j].state.Used? && TailSpared(t, c[..|c| - 1], j) && x != p
    requires Loose(s, c, x) || x == j
    ensures Loose(t, c[..|c| - 1], x)
  {
    hide Kept, KeepsClone;
    if Due(t, c[..|c| - 1], x) {
      DueBefore(s, t, p, c, j, x);
    }
    if x != j { assert SameCore(s.h[x].(state := t.h[x].state), t.h[x]); }
  }

  lemma TameNext(s: Sys, t: Sys, p: Index, c: seq<Index>, j: Index)
    requires Turned(s, t, p, c, j) && c != [] && j == c[|c| - 1] && p != 0 && s.h[p].state.Identity? && p !in c
    requires (forall x :: x in c ==> s.h[x].state.Used?) && TailSpared(t, c[..|c| - 1], j) && Tame(s, p, c)
    ensures Tame(t, p, c[..|c| - 1])
  {
    hide TailSpared, Turned, Loose, TameLinks, KeepsClone;
    var rest := c[..|c| - 1];
    assert j in c;
    forall m: Index | Due(t, rest, m) ensures TameLinks(t, p, rest, m) {
      DueBefore(s, t, p, c, j, m);
      TameAfter(s, t, p, c, j, m);
    }
  }

  lemma TameAfter(s: Sys, t: Sys, p: Index, c: seq<Index>, j: Index, m: Index)
    requires Turned(s, t, p, c, j) && c != [] && j == c[|c| - 1] && p != 0 && s.h[p].state.Identity? && p !in c
    requires (forall x :: x in c ==> s.h[x].state.Used?) && TailSpared(t, c[..|c| - 1], j)
    requires m != p && Due(s, c, m) && TameLinks(s, p, c, m) && t.h[m].state.Freed?
    ensures TameLinks(t, p, c[..|c| - 1], m)
  {
    hide TailSpared, KeepsClone;
    var x, y, rest := s.h[m].next, s.h[m].prev, c[..|c| - 1];
    assert j in c && m !in c;
    assert m in Kept(s, c, j);
    assert t.h[m].next == x && t.h[m].prev == y;
    if Loose(s, c, x) || x == j { LooseAfter(s, t, p, c, j, x); }
    if Loose(s, c, y) || y == j { LooseAfter(s, t, p, c, j, y); }
    if GoesFirst(s, c, m, x) && x != j {
      FirstStays(s, t, p, c, j, m, x);
    }
  }

  lemma FirstStays(s: Sys, t: Sys, p: Index, c: seq<Index>, j: Index, m: Index, x: Index)
    requires Turned(s, t, p, c, j) && c != [] && j == c[|c| - 1] && p !in c && x != j && GoesFirst(s, c, m, x)
    ensures GoesFirst(t, c[..|c| - 1], m, x)
  {
    hide Kept;
    var rest := c[..|c| - 1];
    var a, b :| 0 <= a <= b < |c| && s.h[c[a]].clone == m && c[b] == x;
    assert b < |c| - 1 && c[a] != p by { assert c[a] in c; }
    assert SameCore(s.h[c[a]].(state := t.h[c[a]].state), t.h[c[a]]);
    assert rest[a] == c[a] && rest[b] == x;
  }

  // ----- the whole loop -----

  lemma UncloneCount(s: Sys, p: Index, j: Index)
    requires s.free < MAX_HANDLES && OwnerSlot(s, s.h[j].owner) == p && s.h[j].clone != p
    ensures var m := s.h[j].clone; Unclone(s, j).h[m].refcount == Dec32(s.h[m].refcount)
  {
    hide Disown;
    DisownCount(s, j, s.h[j].clone);
  }

  lemma TurnCounts(s: Sys, r: Sys, ch: Chains, p: Index, j: Index, lent: set<Index>)
    requires Turn(s, r, ch, p, j, lent) && s.h[j].clone != 0
    ensures var m := s.h[j].clone;
      && (Unclone(s, j).h[m].refcount == 0 <==> s.h[m].refcount == 1)
      && (Unclone(r, j).h[m].refcount == 0 <==> s.h[m].refcount == 1)
  {
    hide Unclone;
    var m := s.h[j].clone;
    TurnStarts(s, r, ch, p, j, lent);
    CloneStarts(s, r, ch, p, j, lent);
    OwnerAlike(s, r, p, ch[p], s.h[j].owner, lent);
    assert Counted(r.h, m);
    UncloneCount(s, p, j);
    UncloneCount(r, p, j);
  }

  lemma TurnFrees(s: Sys, r: Sys, ch: Chains, p: Index, j: Index, lent: set<Index>)
    requires Turn(s, r, ch, p, j, lent) && Tame(s, p, ch[p])
    ensures Sim(FreeSlot(s, j), FreeSlot(r, j), p, ch[p][..|ch[p]| - 1], lent)
    ensures Turned(s, FreeSlot(s, j), p, ch[p], j)
  {
    hide Sim, Turned, AtTail, Tame, Spared, Unclone, Destroy, Drop, Disown, Mark, StackOk, ChainsOk, TypesOk, SerialsOk,
      ObjectsOk, ClonesOk;
    FreeSlotCases(s, j);
    FreeSlotCases(r, j);
    TurnStarts(s, r, ch, p, j, lent);
    var c, m := ch[p], s.h[j].clone;
    if m != 0 {
      CloneStarts(s, r, ch, p, j, lent);
      TurnClone(s, r, p, c, j, lent);
      TurnCounts(s, r, ch, p, j, lent);
      if s.h[m].refcount == 1 { TurnLast(s, r, ch, p, j, lent); }
    } else if Dec32(s.h[j].refcount) == 0 {
      TurnAlone(s, r, p, c, j, lent);
    } else {
      TurnMarked(s, r, p, c, j, lent);
    }
  }

  lemma SimClones(t: Sys, q: Sys, p: Index, c: seq<Index>, m: Index, lent: set<Index>)
    requires Sim(t, q, p, c, lent) && KeepsClone(q, c, m) && q.h[p].state.Identity?
    ensures KeepsClone(t, c, m)
  {
    var x: Index :| q.h[x].state.Used? && q.h[x].clone == m && x !in c;
    assert Like(t.h[x], q.h[x], x in c, x in lent);
    assert t.h[x].state.Used? && t.h[x].clone == m;
  }

  lemma TailIsSpared(t: Sys, q: Sys, r: Sys, p: Index, c: seq<Index>, j: Index, lent: set<Index>)
    requires Sim(t, q, p, c, lent) && Spared(q, c) && Others(r, q, j) && p != 0 && p != j
    requires r.h[p].state.Identity? && OwnerSlot(r, r.h[j].owner) == p
    ensures TailSpared(t, c, j) && q.h[p].state.Identity?
  {
    hide KeepsClone;
    assert SameCore(r.h[p], q.h[p]);
    assert Like(t.h[j], q.h[j], j in c, j in lent);
    if t.h[j].state.Freed? {
      ResolveStable(r, q, r.h[j].owner);
      assert OwnerSlot(q, q.h[j].owner) != 0;
      assert KeepsClone(q, c, j);
      SimClones(t, q, p, c, j, lent);
    }
  }

  /** After a turn everything is as before it, with a shorter chain. */
  lemma TurnNext(s: Sys, r: Sys, ch: Chains, p: Index, j: Index, lent: set<Index>)
    requires Turn(s, r, ch, p, j, lent) && Tame(s, p, ch[p])
    ensures var t, q, rest := FreeSlot(s, j), FreeSlot(r, j), ch[p][..|ch[p]| - 1];
      && Inv(q, ch[p := rest]) && q.h[p].state.Identity? && Spared(q, rest)
      && Sim(t, q, p, rest, lent) && Tame(t, p, rest) && s.h[p].next == j && j != 0
  {
    hide Turned, Tame, TailSpared, KeepsClone, StackOk, ChainsOk, TypesOk, SerialsOk, ObjectsOk, ClonesOk, FreeSlot,
      Spared, Sim, Others;
    var c := ch[p];
    var t, q, rest := FreeSlot(s, j), FreeSlot(r, j), c[..|c| - 1];
    TurnStarts(s, r, ch, p, j, lent);
    TurnClones(s, r, ch, p, lent);
    LastLeaves(r, ch, p);
    SparedNotStale(r, c, j);
    FreeKeeps(r, ch, j);
    FreeOthers(r, ch, j);
    SparedNext(r, q, ch, p, j);
    TurnFrees(s, r, ch, p, j, lent);
    TailIsSpared(t, q, r, p, rest, j, lent);
    TameNext(s, t, p, c, j);
  }

  /** Between turns. */
  ghost predicate Going(s: Sys, r: Sys, ch: Chains, p: Index, lent: set<Index>) {
    Inv(r, ch) && r.h[p].state.Identity? && Spared(r, ch[p]) && Sim(s, r, p, ch[p], lent) && Tame(s, p, ch[p])
  }

  /** The link of p names the next handle, and freeing that leads on. */
  lemma GoesOn(s: Sys, r: Sys, ch: Chains, p: Index, lent: set<Index>)
    requires Going(s, r, ch, p, lent) && ch[p] != []
    ensures var c := ch[p]; var j, rest := c[|c| - 1], c[..|c| - 1];
      && s.h[p].next == j && j != 0 && s.h[j].state.Used? && StackOk(s) && ClonesOk(s.h)
      && Going(FreeSlot(s, j), FreeSlot(r, j), ch[p := rest], p, lent)
      && FreeChain(s, c) == FreeChain(FreeSlot(s, j), rest)
  {
    hide FreeSlot, ClonesOk, StackOk, ChainsOk, TypesOk, SerialsOk, ObjectsOk, Spared, Tame, AtTail;
    var j := ch[p][|ch[p]| - 1];
    TurnStarts(s, r, ch, p, j, lent);
    TurnClones(s, r, ch, p, lent);
    SimStack(s, r, p, ch[p], lent);
    TurnNext(s, r, ch, p, j, lent);
  }

  lemma SimStack(s: Sys, r: Sys, p: Index, c: seq<Index>, lent: set<Index>)
    requires Sim(s, r, p, c, lent) && StackOk(r)
    ensures StackOk(s)
  {
    hide StackOk;
    forall x: Index ensures s.h[x].freeID == r.h[x].freeID && s.h[x].state == r.h[x].state {
      if x != p { assert Like(s.h[x], r.h[x], x in c, x in lent); }
    }
    StackSame(r, s);
  }

  lemma GoesNoFurther(s: Sys, r: Sys, ch: Chains, p: Index, lent: set<Index>)
    requires Going(s, r, ch, p, lent) && ch[p] == []
    ensures s.h[p].next == 0 && StackOk(s) && s.h[p].state.Identity?
  {
    SimStack(s, r, p, [], lent);
    assert IsChain(r.h, p, ch[p]);
  }

  /** The loop frees the handles of the chain, whatever the left-over links make of the other next links. */
  lemma {:induction false} LoopFollows(s: Sys, r: Sys, ch: Chains, p: Index, n: nat, lent: set<Index>)
    requires Going(s, r, ch, p, lent) && |ch[p]| <= n
    ensures Sim(FreeChain(s, ch[p]), FreeChain(r, ch[p]), p, [], lent)
    ensures FreeLinked(s, p, n) == FreeChain(s, ch[p])
    decreases |ch[p]|
  {
    hide FreeSlot, Going;
    var c := ch[p];
    if c == [] {
      GoesNoFurther(s, r, ch, p, lent);
      GoingSim(s, r, ch, p, lent);
    } else {
      var j, rest := c[|c| - 1], c[..|c| - 1];
      GoesOn(s, r, ch, p, lent);
      LoopFollows(FreeSlot(s, j), FreeSlot(r, j), ch[p := rest], p, n - 1, lent);
      assert FreeLinked(s, p, n) == FreeLinked(FreeSlot(s, j), p, n - 1);
    }
  }

  lemma GoingSim(s: Sys, r: Sys, ch: Chains, p: Index, lent: set<Index>)
    requires Going(s, r, ch, p, lent)
    ensures Sim(s, r, p, ch[p], lent)
  {
  }

  // ----- releasing an identity -----

  /** The freed originals of some identities, made to belong to nobody. */
  function Absolved(s: Sys, lent: set<Index>): Sys {
    s.(h := seq(MAX_HANDLES + 1, x requires 0 <= x <= MAX_HANDLES =>
      if s.h[x].state.Freed? && OwnerSlot(s, s.h[x].owner) in lent then s.h[x].(owner := Nobody) else s.h[x]))
  }

  ghost predicate OthersSpared(s: Sys, c: seq<Index>, lent: set<Index>) {
    forall m: Index {:trigger s.h[m]} ::
      s.h[m].state.Freed? && OwnerSlot(s, s.h[m].owner) != 0 && OwnerSlot(s, s.h[m].owner) !in lent ==>
        KeepsClone(s, c, m)
  }

  /** Those that are left have to keep a clone. */
  lemma AbsolvedIs(s: Sys, p: Index, c: seq<Index>, lent: set<Index>)
    requires Idents(s, lent) && s.h[p].state.Identity?
    requires OthersSpared(s, c, lent)
    ensures var r := Absolved(s, lent); Same(s, r) && Sim(s, r, p, c, lent) && Spared(r, c) && r.h[p] == s.h[p]
  {
    var r := Absolved(s, lent);
    forall m: Index | r.h[m].state.Freed? && OwnerSlot(r, r.h[m].owner) != 0 ensures KeepsClone(r, c, m) {
      SameOwners(s, r, s.h[m].owner);
      assert KeepsClone(s, c, m);
      var x: Index :| s.h[x].state.Used? && s.h[x].clone == m && x !in c;
      assert r.h[x] == s.h[x];
    }
  }

  /** Where what is unlinked twice is tame, the loop frees the handles of the chain and no others. */
  lemma LoopIsChain(s: Sys, ch: Chains, p: Index, lent: set<Index>, n: nat)
    requires Inv(s, ch) && s.h[p].state.Identity? && Tame(s, p, ch[p]) && |ch[p]| <= n && Idents(s, lent)
    requires OthersSpared(s, ch[p], lent)
    ensures FreeLinked(s, p, n) == FreeChain(s, ch[p])
    ensures Sim(FreeChain(s, ch[p]), FreeChain(Absolved(s, lent), ch[p]), p, [], lent)
    ensures var r := Absolved(s, lent); Inv(r, ch) && Same(s, r) && Spared(r, ch[p]) && r.h[p] == s.h[p]
  {
    hide Inv, FreeChain, FreeLinked, Tame, Spared, Same, Sim, Absolved;
    var r := Absolved(s, lent);
    AbsolvedIs(s, p, ch[p], lent);
    SameInv(s, r, ch);
    LoopFollows(s, r, ch, p, n, lent);
  }

  lemma SameVacated(u: Sys, v: Sys, p: Index)
    requires Sim(u, v, p, [], {p}) && u.free < MAX_HANDLES
    ensures Same(Vacate(v, p), Vacate(u, p))
  {
    var t, q := Vacate(u, p), Vacate(v, p);
    forall x: Index ensures Like(q.h[x], t.h[x], false, false) {
      if x != p { assert Like(u.h[x], v.h[x], false, false); }
    }
  }

  lemma RoomLeft(r: Sys, u: Sys, v: Sys, ch: Chains, p: Index)
    requires Inv(v, ch[p := []]) && Survivors(r, v, ch[p]) && Inv(r, ch) && r.h[p].state.Identity?
    requires Sim(u, v, p, [], {p})
    ensures u.free < MAX_HANDLES
  {
    assert (p in ch[p]) == Owns(r, p, p);
    assert SameCore(r.h[p], v.h[p]);
    Room(v, p);
  }

  /** What the release of p leaves: no handle with its token, every other handle and identity as before. */
  ghost predicate OnlyItsOwn(s: Sys, t: Sys, p: Index) {
    && t.h[p].state.Unset?
    && (forall j: Index {:trigger t.h[j]} :: t.h[j].state.Used? ==> t.h[j].owner != Token(Encode(s.h[p].serial, p)))
    && (forall j: Index {:trigger t.h[j]} :: s.h[j].state.Used? && OwnerSlot(s, s.h[j].owner) != p ==>
          SameCore(s.h[j], t.h[j]))
    && (forall j: Index {:trigger t.h[j]} :: s.h[j].state.Identity? && j != p ==> SameCore(s.h[j], t.h[j]))
  }

  lemma ReleasedAlike(s: Sys, r: Sys, t: Sys, q: Sys, p: Index)
    requires Same(s, r) && Same(q, t) && s.h[p].state.Identity? && q.h[p].state.Unset?
    requires forall j: Index :: q.h[j].state.Used? ==> q.h[j].owner != Token(Encode(r.h[p].serial, p))
    requires forall j: Index :: r.h[j].state.Used? && OwnerSlot(r, r.h[j].owner) != p ==> SameCore(r.h[j], q.h[j])
    requires forall j: Index :: r.h[j].state.Identity? && j != p ==> SameCore(r.h[j], q.h[j])
    ensures OnlyItsOwn(s, t, p)
  {
    assert Like(s.h[p], r.h[p], false, false) && Like(q.h[p], t.h[p], false, false);
    forall j: Index
      ensures t.h[j].state.Used? ==> t.h[j].owner != Token(Encode(s.h[p].serial, p))
      ensures s.h[j].state.Used? && OwnerSlot(s, s.h[j].owner) != p ==> SameCore(s.h[j], t.h[j])
      ensures s.h[j].state.Identity? && j != p ==> SameCore(s.h[j], t.h[j])
    {
      assert Like(s.h[j], r.h[j], false, false) && Like(q.h[j], t.h[j], false, false);
      SameOwners(s, r, s.h[j].owner);
    }
  }

  /** ReleasePrimHandle on an identity, with the loop as it is. */
  function ReleaseLinked(s: Sys, p: Index, n: nat): Sys {
    Vacate(FreeLinked(s, p, n), p)
  }

  /** Where it is harmless, the release of an identity frees the handles of its chain and keeps the
      invariant; every other handle and identity is as before. */
  lemma IdentityReleased(s: Sys, ch: Chains, p: Index, n: nat)
    requires Inv(s, ch) && s.h[p].state.Identity? && Harmless(s, p, ch[p]) && |ch[p]| <= n
    ensures FreeLinked(s, p, n) == FreeChain(s, ch[p])
    ensures ReleaseLinked(s, p, n) == FreeIdentity(s, p, ch[p])
    ensures Inv(FreeIdentity(s, p, ch[p]), ch[p := []]) && OnlyItsOwn(s, FreeIdentity(s, p, ch[p]), p)
  {
    hide Inv, FreeChain, FreeLinked, Tame, Spared, Same, Sim, Vacate, Absolved, OnlyItsOwn;
    var r := Absolved(s, {p});
    NotZero(s, ch, p);
    LoopIsChain(s, ch, p, {p}, n);
    IdentityDies(r, ch, p);
    FreeChainKeeps(r, ch, p);
    var u, v := FreeChain(s, ch[p]), FreeChain(r, ch[p]);
    RoomLeft(r, u, v, ch, p);
    SameVacated(u, v, p);
    SameInv(Vacate(v, p), Vacate(u, p), ch[p := []]);
    ReleasedAlike(s, r, Vacate(u, p), Vacate(v, p), p);
  }

  lemma NotZero(s: Sys, ch: Chains, p: Index)
    requires Inv(s, ch) && s.h[p].state.Identity?
    ensures p != 0
  {
  }
}
