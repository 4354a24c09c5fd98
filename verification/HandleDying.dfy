/** The death of an identity on any system: which freed originals of other owners it may take with it. */
module HandleDying {
  import opened HandleTable
  import opened HandleOps
  import opened HandleStack
  import opened HandleCounts
  import opened HandleChains
  import opened HandleInv
  import opened HandleFree
  import opened HandleSweep
  import opened HandleDeath
  import opened HandleLevel
  import opened HandleLinks
  import opened HandleRemoval

  function All(): Types { (t: TypeId) => true }

  lemma AllTypes(ty: TypeId)
    ensures All()(ty)
  {
  }

  ghost predicate FreeCore(s: Sys) {
    Ground(s, All()) && ClonesOk(s.h)
  }

  /** What freeing j does to the other slots; nothing new comes into use. */
  ghost predicate Leaves(s: Sys, t: Sys, j: Index) {
    && t.tail == s.tail && !t.h[j].state.Used? && !t.h[j].state.Identity?
    && (forall x: Index {:trigger t.h[x]} :: x != j && (s.h[x].state.Used? || s.h[x].state.Identity?) ==>
          SameCore(s.h[x], t.h[x]))
    && (forall x: Index {:trigger t.h[x]} :: t.h[x].state.Used? || t.h[x].state.Identity? ==>
          t.h[x].state == s.h[x].state)
    && (forall x: Index {:trigger t.h[x]} :: t.h[x].state.Freed? && x != j ==> s.h[x].state.Freed?)
    && (forall x: Index {:trigger t.h[x]} ::
          t.h[x].owner == s.h[x].owner && t.h[x].clone == s.h[x].clone && t.h[x].htype == s.h[x].htype)
  }

  ghost predicate SameLevelsBut(s: Sys, t: Sys, of: Types, p: Index) {
    forall q: Index {:trigger t.h[q]} :: q != p ==> SameLevel(s, t, of, q)
  }

  ghost predicate FreeStep(s: Sys, t: Sys, j: Index) {
    FreeCore(t) && Leaves(s, t, j) && SameLevelsBut(s, t, All(), OwnerSlot(s, s.h[j].owner))
  }

  lemma StepAtClone(s: Sys, j: Index)
    requires FreeCore(s) && s.h[j].state.Used? && s.h[j].clone != 0
    ensures FreeStep(s, FreeSlot(s, j), j)
  {
    hide Ground, SameLevels, Release, Destroy, Drop, ClonesOk, All, SameLevelsBut;
    var m, of := s.h[j].clone, All();
    FreeSlotCases(s, j);
    ShallowFacts(s.h, j);
    GoesReleased(s, j, of);
    var r := Release(s, j);
    assert SameCore(s.h[m].(state := r.h[m].state), r.h[m]);
    var t := Drop(r, m);
    DropSlight(r, m);
    DropIs(r, m);
    SlightGround(r, t, of);
    LevelsTrans(s, r, t, of);
    CloneLeaves(s, r, t, j, m);
    if t.h[m].refcount == 0 {
      assert of(t.h[m].htype) by { AllTypes(t.h[m].htype); }
      DestroyGone(t, m, of);
      var u := Destroy(t, m);
      LevelsTrans(s, t, u, of);
      OriginalLeaves(s, r, t, u, j, m);
      LevelsBut(s, u, of, OwnerSlot(s, s.h[j].owner));
    } else {
      LevelsBut(s, t, of, OwnerSlot(s, s.h[j].owner));
    }
  }

  lemma LevelsBut(s: Sys, t: Sys, of: Types, p: Index)
    requires SameLevels(s, t, of)
    ensures SameLevelsBut(s, t, of, p)
  {
    hide Level;
    forall q: Index | q != p ensures SameLevel(s, t, of, q) {
    }
  }

  lemma ShallowFacts(h: Table, j: Index)
    requires ClonesOk(h) && h[j].state.Used? && h[j].clone != 0
    ensures var m := h[j].clone;
      m != j && Original(h[m]) && 0 < h[m].refcount && (h[m].refcount == 1 ==> h[m].state.Freed?)
  {
    assert Counted(h, h[j].clone);
    if h[h[j].clone].refcount == 1 { LastCloneMeansFreed(h, j); }
  }

  lemma CloneLeaves(s: Sys, r: Sys, t: Sys, j: Index, m: Index)
    requires ClonesOk(s.h) && s.h[j].state.Used? && s.h[j].clone == m && m != 0 && m != j && Original(s.h[m])
    requires 0 < s.h[m].refcount
    requires Goes(s, r, j) && t.tail == r.tail && t.h[m].refcount == Dec32(r.h[m].refcount)
    requires forall x: Index {:trigger t.h[x]} :: t.h[x] == r.h[x].(refcount := t.h[x].refcount)
    requires forall x: Index {:trigger t.h[x]} :: x != m ==> t.h[x].refcount == r.h[x].refcount
    ensures Leaves(s, t, j) && t.h[m].refcount == s.h[m].refcount - 1
    ensures t.h[m].refcount != 0 ==> ClonesOk(t.h)
  {
    forall x: Index ensures SameCore(s.h[x].(state := t.h[x].state), t.h[x]) {
      assert SameCore(s.h[x].(state := r.h[x].state), r.h[x]);
    }
    if t.h[m].refcount != 0 { ClonesReleased(s.h, t.h, j); }
  }

  lemma OriginalLeaves(s: Sys, r: Sys, t: Sys, u: Sys, j: Index, m: Index)
    requires ClonesOk(s.h) && s.h[j].state.Used? && s.h[j].clone == m && m != 0 && m != j && s.h[m].state.Freed?
    requires s.h[m].refcount == 1
    requires Goes(s, r, j)
    requires forall x: Index {:trigger t.h[x]} :: t.h[x] == r.h[x].(refcount := t.h[x].refcount)
    requires forall x: Index {:trigger t.h[x]} :: x != m ==> t.h[x].refcount == r.h[x].refcount
    requires t.tail == r.tail && Goes(t.(destroyed := t.destroyed + [Object(t.h[m].htype, t.h[m].obj)]), u, m)
    ensures Leaves(s, u, j) && ClonesOk(u.h)
  {
    forall x: Index
      ensures SameCore(s.h[x].(state := u.h[x].state), u.h[x]) && (x != j && x != m ==> u.h[x].state == s.h[x].state)
      && (x != j && x != m && Plain(s.h[x]) ==> u.h[x].refcount == s.h[x].refcount)
    {
      assert SameCore(s.h[x].(state := r.h[x].state), r.h[x]);
      assert SameCore(t.h[x].(state := u.h[x].state), u.h[x]);
    }
    ClonesReleased(s.h, u.h, j);
  }

  lemma StepAlone(s: Sys, j: Index)
    requires FreeCore(s) && s.h[j].state.Used? && s.h[j].clone == 0 && s.h[j].refcount == 1
    ensures FreeStep(s, FreeSlot(s, j), j)
  {
    hide Ground, SameLevels, Release, Destroy, Drop, ClonesOk, All, SameLevelsBut;
    FreeSlotCases(s, j);
    var t, of := Drop(s, j), All();
    DropSlight(s, j);
    DropIs(s, j);
    SlightGround(s, t, of);
    DestroyGone(t, j, of);
    var u := Destroy(t, j);
    LevelsTrans(s, t, u, of);
    AloneLeaves(s, t, u, j);
    LevelsBut(s, u, of, OwnerSlot(s, s.h[j].owner));
  }

  lemma AloneLeaves(s: Sys, t: Sys, u: Sys, j: Index)
    requires ClonesOk(s.h) && s.h[j].state.Used? && s.h[j].clone == 0 && s.h[j].refcount == 1
    requires t.tail == s.tail && Goes(t.(destroyed := t.destroyed + [Object(t.h[j].htype, t.h[j].obj)]), u, j)
    requires forall x: Index {:trigger t.h[x]} :: t.h[x] == s.h[x].(refcount := t.h[x].refcount)
    requires forall x: Index {:trigger t.h[x]} :: x != j ==> t.h[x].refcount == s.h[x].refcount
    ensures Leaves(s, u, j) && ClonesOk(u.h)
  {
    forall x: Index ensures SameCore(s.h[x].(state := u.h[x].state), u.h[x]) {
      assert SameCore(t.h[x].(state := u.h[x].state), u.h[x]);
    }
    ClonesDied(s.h, u.h, j);
  }

  /** An original with clones is marked and unlinked, and is still to be unlinked once more. */
  ghost predicate Marked(s: Sys, t: Sys, j: Index) {
    && Aside(s, t)
    && t.h[j].state.Freed? && t.h[j].refcount == Dec32(s.h[j].refcount)
    && (forall x: Index {:trigger t.h[x]} :: SameCore(s.h[x].(state := t.h[x].state), t.h[x]))
    && (forall x: Index {:trigger t.h[x]} :: x != j ==> t.h[x].state == s.h[x].state)
    && (forall x: Index {:trigger t.h[x]} :: x != j && (x != OwnerSlot(s, s.h[j].owner) || x == 0) ==>
          t.h[x].refcount == s.h[x].refcount)
  }

  lemma MarkDoes(s: Sys, j: Index)
    requires s.h[j].state.Used? && s.h[0].state.Unset?
    requires (OwnerSlot(s, s.h[j].owner) != 0 ==> s.h[OwnerSlot(s, s.h[j].owner)].state.Identity?)
    ensures Marked(s, Disown(Mark(s, j), j), j)
  {
    var u := Mark(s, j);
    var p := OwnerSlot(s, s.h[j].owner);
    assert OwnerSlot(u, u.h[j].owner) == p by { MarkedToken(s, u, j, s.h[j].owner); }
    forall x: Index ensures var t := Disown(u, j);
      && SameCore(u.h[x], t.h[x]) && t.h[x].freeID == u.h[x].freeID
      && (x != p || p == 0 ==> t.h[x].refcount == u.h[x].refcount)
    {
      UnlinkCore(u.h, p, j, x);
      DisownCount(u, j, x);
    }
  }

  lemma MarkedToken(s: Sys, u: Sys, j: Index, o: Owner)
    requires u.tail == s.tail && s.h[j].state.Used? && u.h[j].state.Freed? && OwnerSlot(s, o) != j
    requires forall x: Index {:trigger u.h[x]} ::
      SameCore(s.h[x].(state := u.h[x].state), u.h[x]) && (x != j ==> u.h[x].state == s.h[x].state)
    ensures OwnerSlot(u, o) == OwnerSlot(s, o)
  {
    if o.Token? && o.ident % 0x10000 <= s.tail {
      var x: Index := o.ident % 0x10000;
      assert SameCore(s.h[x].(state := u.h[x].state), u.h[x]);
    }
  }

  lemma MarkedOwners(s: Sys, t: Sys, j: Index, x: Index)
    requires Fit(s, All()) && s.h[j].state.Used? && s.h[0].state.Unset? && Marked(s, t, j) && Plain(s.h[x])
    ensures OwnerSlot(t, t.h[x].owner) == OwnerSlot(s, s.h[x].owner)
  {
    assert Owes(s.h[x], All());
    assert SameCore(s.h[x].(state := t.h[x].state), t.h[x]);
    assert OwnerSlot(s, s.h[x].owner) != j;
    MarkedToken(s, t, j, s.h[x].owner);
  }

  lemma MarkedGround(s: Sys, t: Sys, j: Index)
    requires Ground(s, All()) && s.h[j].state.Used? && Marked(s, t, j)
    ensures Ground(t, All())
    ensures SameLevelsBut(s, t, All(), OwnerSlot(s, s.h[j].owner))
  {
    hide TypesOk, SerialsOk;
    AsideKeeps(s, t);
    NoIdentityZero(s);
    forall x: Index | Owes(t.h[x], All()) && OwnerSlot(t, t.h[x].owner) != 0
      ensures t.h[OwnerSlot(t, t.h[x].owner)].state.Identity?
    {
      MarkedOwners(s, t, j, x);
      assert Owes(s.h[x], All());
    }
    forall q: Index | q != OwnerSlot(s, s.h[j].owner) ensures SameLevel(s, t, All(), q) {
      forall x: Index ensures x in Owing(t, All(), q) <==> x in Owing(s, All(), q) {
        if Plain(s.h[x]) { MarkedOwners(s, t, j, x); }
      }
      assert Owing(t, All(), q) == Owing(s, All(), q);
    }
  }

  lemma StepMarked(s: Sys, j: Index)
    requires FreeCore(s) && s.h[j].state.Used? && s.h[j].clone == 0 && s.h[j].refcount > 1
    ensures FreeStep(s, FreeSlot(s, j), j)
  {
    hide Disown, Mark, StackOk, TypesOk, SerialsOk, ClonesOk, Level, Marked, All, SameLevelsBut;
    FreeSlotCases(s, j);
    NoIdentityZero(s);
    assert Owes(s.h[j], All());
    var t := Disown(Mark(s, j), j);
    MarkDoes(s, j);
    MarkedGround(s, t, j);
    MarkedLeaves(s, t, j);
  }

  lemma MarkedLeaves(s: Sys, t: Sys, j: Index)
    requires ClonesOk(s.h) && Fit(s, All()) && s.h[j].state.Used? && s.h[j].clone == 0 && s.h[j].refcount > 1
    requires Marked(s, t, j)
    ensures Leaves(s, t, j) && ClonesOk(t.h)
  {
    assert Owes(s.h[j], All());
    ClonesFreed(s.h, t.h, j);
  }

  lemma StepFrees(s: Sys, j: Index)
    requires FreeCore(s) && s.h[j].state.Used?
    ensures FreeStep(s, FreeSlot(s, j), j)
  {
    hide Ground, ClonesOk, FreeStep;
    if s.h[j].clone != 0 {
      StepAtClone(s, j);
    } else {
      AliveCounts(s.h, j);
      if s.h[j].refcount == 1 { StepAlone(s, j); } else { StepMarked(s, j); }
    }
  }

  lemma AliveCounts(h: Table, j: Index)
    requires ClonesOk(h) && h[j].state.Used? && h[j].clone == 0
    ensures h[j].refcount > 0
  {
    assert Counted(h, j);
  }

  // ----- the whole chain -----

  ghost predicate OwnedList(s: Sys, c: seq<Index>, p: Index) {
    Distinct(c) && forall x :: x in c ==> s.h[x].state.Used? && OwnerSlot(s, s.h[x].owner) == p
  }

  /** What freeing the slots of c, all of owner p, leaves. */
  ghost predicate Gone(s: Sys, t: Sys, c: seq<Index>) {
    && t.tail == s.tail
    && (forall x: Index {:trigger t.h[x]} :: x !in c && (s.h[x].state.Used? || s.h[x].state.Identity?) ==>
          SameCore(s.h[x], t.h[x]))
    && (forall x: Index {:trigger t.h[x]} :: t.h[x].state.Used? || t.h[x].state.Identity? ==>
          t.h[x].state == s.h[x].state && x !in c)
    && (forall x: Index {:trigger t.h[x]} :: t.h[x].state.Freed? && x !in c ==> s.h[x].state.Freed?)
    && (forall x: Index {:trigger t.h[x]} ::
          t.h[x].owner == s.h[x].owner && t.h[x].clone == s.h[x].clone && t.h[x].htype == s.h[x].htype)
  }

  lemma TokenTo(s: Sys, t: Sys, o: Owner, p: Index)
    requires t.tail == s.tail && OwnerSlot(s, o) == p && p != 0 && SameCore(s.h[p], t.h[p])
    ensures OwnerSlot(t, o) == p
  {
  }

  lemma {:induction false} ChainFrees(s: Sys, c: seq<Index>, p: Index)
    requires FreeCore(s) && s.h[p].state.Identity? && p != 0 && OwnedList(s, c, p)
    ensures var t := FreeChain(s, c); FreeCore(t) && Gone(s, t, c) && SameLevelsBut(s, t, All(), p)
    decreases |c|
  {
    hide FreeCore, FreeSlot, All, SameLevelsBut;
    if c == [] {
      SelfLevels(s, All());
      LevelsBut(s, s, All(), p);
    } else {
      var n := |c| - 1;
      var j, rest := c[n], c[..n];
      var t := FreeSlot(s, j);
      assert j in c;
      StepFrees(s, j);
      assert SameCore(s.h[p], t.h[p]);
      forall x | x in rest ensures t.h[x].state.Used? && OwnerSlot(t, t.h[x].owner) == p {
        assert x in c && x != j && SameCore(s.h[x], t.h[x]);
        TokenTo(s, t, s.h[x].owner, p);
      }
      ChainFrees(t, rest, p);
      GoneStep(s, t, FreeChain(t, rest), c);
      LevelsButTrans(s, t, FreeChain(t, rest), All(), p);
    }
  }

  lemma GoneStep(s: Sys, t: Sys, u: Sys, c: seq<Index>)
    requires c != [] && Leaves(s, t, c[|c| - 1]) && Gone(t, u, c[..|c| - 1])
    ensures Gone(s, u, c)
  {
    var n := |c| - 1;
    assert forall x: Index :: x in c <==> x in c[..n] || x == c[n];
    forall x: Index | x !in c && (s.h[x].state.Used? || s.h[x].state.Identity?) ensures SameCore(s.h[x], u.h[x]) {
      assert SameCore(s.h[x], t.h[x]);
    }
    forall x: Index | u.h[x].state.Used? || u.h[x].state.Identity? ensures u.h[x].state == s.h[x].state && x !in c {
      assert t.h[x].state == u.h[x].state;
    }
    forall x: Index
      ensures u.h[x].owner == s.h[x].owner && u.h[x].clone == s.h[x].clone && u.h[x].htype == s.h[x].htype
    {
      assert u.h[x].owner == t.h[x].owner;
    }
  }

  lemma LevelsButTrans(s: Sys, t: Sys, u: Sys, of: Types, p: Index)
    requires SameLevelsBut(s, t, of, p) && SameLevelsBut(t, u, of, p)
    ensures SameLevelsBut(s, u, of, p)
  {
    hide Level;
    forall q: Index | q != p ensures SameLevel(s, u, of, q) {
      assert SameLevel(s, t, of, q) && SameLevel(t, u, of, q);
    }
  }

  lemma LevelVacated(u: Sys, p: Index, q: Index)
    requires StackOk(u) && u.h[p].state.Identity? && q != p && q != 0
    ensures SameLevel(u, Vacate(u, p), All(), q)
  {
    hide Vacate, Owing, Released, StackOk, All;
    var w := Vacate(u, p);
    VacateDoes(u, p);
    OwingVacated(u, w, p, q);
  }

  lemma OwingVacated(u: Sys, w: Sys, p: Index, q: Index)
    requires Released(u, w, p) && u.h[p].state.Identity? && q != p && q != 0
    ensures Owing(w, All(), q) == Owing(u, All(), q)
  {
    hide Released;
    forall x: Index ensures x in Owing(w, All(), q) <==> x in Owing(u, All(), q) {
      VacatedAt(u, w, p, q, x);
    }
  }

  lemma VacatedAt(u: Sys, w: Sys, p: Index, q: Index, x: Index)
    requires Released(u, w, p) && u.h[p].state.Identity? && q != p && q != 0
    ensures Owes(w.h[x], All()) && OwnerSlot(w, w.h[x].owner) == q <==>
          Owes(u.h[x], All()) && OwnerSlot(u, u.h[x].owner) == q
  {
    if x != p { assert SameCore(u.h[x], w.h[x]); }
    TokenAfter(u, w, p, u.h[x].owner);
  }

  // ----- exactly when the other chains survive -----

  ghost function FreedBy(s: Sys, q: Index): set<Index> {
    set x: Index | 0 <= x <= MAX_HANDLES && s.h[x].state.Freed? && OwnerSlot(s, s.h[x].owner) == q
  }

  lemma OwingAll(s: Sys, q: Index)
    ensures |Owing(s, All(), q)| == |OwnedBy(s, q)| + |FreedBy(s, q)|
  {
    assert Owing(s, All(), q) == OwnedBy(s, q) + FreedBy(s, q);
    assert OwnedBy(s, q) !! FreedBy(s, q);
  }

  lemma Small(e: set<Index>)
    ensures |e| <= MAX_HANDLES + 1
  {
    hide Upto;
    UptoCount(MAX_HANDLES);
    var all := Upto(MAX_HANDLES);
    forall x | x in e ensures x in all + {0} {
    }
    Cardinality(e, all + {0});
  }

  lemma SubsetSame(a: set<Index>, b: set<Index>)
    requires a <= b && (|b| - |a|) % 0x1_0000_0000 == 0
    ensures a == b
  {
    Small(b);
    Cardinality(a, b);
    if a != b {
      var x :| x in b && x !in a;
      Cardinality(a + {x}, b);
    }
  }

  lemma LevelGap(r: nat, r': nat, n: nat, f: nat, f': nat)
    requires r == 1 + n && r' == 1 + n && (r' - (n + f')) % 0x1_0000_0000 == (r - (n + f)) % 0x1_0000_0000
    ensures (f - f') % 0x1_0000_0000 == 0
  {
  }

  /** What the death of p leaves, as the chain of another identity q sees it. */
  ghost predicate Bystander(s: Sys, w: Sys, q: Index) {
    && SameLevel(s, w, All(), q) && OwnedBy(w, q) == OwnedBy(s, q) && FreedBy(w, q) <= FreedBy(s, q)
  }

  lemma BystanderKeeps(s: Sys, ch: Chains, w: Sys, ch': Chains, q: Index)
    requires ChainsOk(s, ch) && ChainsOk(w, ch') && s.h[q].state.Identity? && Bystander(s, w, q)
    ensures FreedBy(w, q) == FreedBy(s, q)
  {
    hide ChainsOk, OwnedBy, FreedBy, Owing;
    ChainCount(s, ch, q);
    ChainCount(w, ch', q);
    OwingAll(s, q);
    OwingAll(w, q);
    LevelGap(s.h[q].refcount, w.h[q].refcount, |OwnedBy(s, q)|, |FreedBy(s, q)|, |FreedBy(w, q)|);
    SubsetSame(FreedBy(w, q), FreedBy(s, q));
  }

  lemma DeathSeen(s: Sys, c: seq<Index>, p: Index, q: Index)
    requires FreeCore(s) && s.h[p].state.Identity? && p != 0 && OwnedList(s, c, p)
    requires s.h[q].state.Identity? && q != p && q != 0
    ensures Bystander(s, FreeIdentity(s, p, c), q)
    ensures forall x: Index {:trigger FreeIdentity(s, p, c).h[x]} :: FreeIdentity(s, p, c).h[x].state.Used? ==>
      x !in c && SameCore(s.h[x], FreeIdentity(s, p, c).h[x])
  {
    hide FreeChain, Vacate, SameLevelsBut, OwnedBy, FreedBy, Level, StackOk, TypesOk, SerialsOk, Fit, ClonesOk,
          Released;
    var u := FreeChain(s, c);
    ChainFrees(s, c, p);
    var w := Vacate(u, p);
    OwnedNot(s, c, p);
    assert SameCore(s.h[p], u.h[p]) && SameCore(s.h[q], u.h[q]);
    VacateDoes(u, p);
    LevelVacated(u, p, q);
    LevelThrough(s, u, w, p, q);
    SeenSets(s, u, w, c, p, q);
  }

  lemma SeenSets(s: Sys, u: Sys, w: Sys, c: seq<Index>, p: Index, q: Index)
    requires Gone(s, u, c) && OwnedList(s, c, p) && q != p && q != 0 && SameCore(s.h[q], u.h[q])
    requires s.h[q].state.Identity?
    requires Released(u, w, p) && u.h[p].state.Identity?
    ensures OwnedBy(w, q) == OwnedBy(s, q) && FreedBy(w, q) <= FreedBy(s, q)
    ensures forall x: Index {:trigger w.h[x]} :: w.h[x].state.Used? ==> x !in c && SameCore(s.h[x], w.h[x])
  {
    hide Gone, Released, OwnedList;
    forall x: Index ensures (x in OwnedBy(w, q) <==> x in OwnedBy(s, q)) && (x in FreedBy(w, q) ==> x in FreedBy(s, q))
      && (w.h[x].state.Used? ==> x !in c && SameCore(s.h[x], w.h[x]))
    {
      SeenAt(s, u, w, c, p, q, x);
    }
  }

  lemma OwnedNot(s: Sys, c: seq<Index>, p: Index)
    requires OwnedList(s, c, p)
    ensures forall x: Index :: s.h[x].state.Identity? ==> x !in c
  {
  }

  lemma LevelThrough(s: Sys, u: Sys, w: Sys, p: Index, q: Index)
    requires SameLevelsBut(s, u, All(), p) && SameLevel(u, w, All(), q) && q != p
    ensures SameLevel(s, w, All(), q)
  {
    hide All, Level;
    assert u.h[q] == u.h[q];
    assert SameLevel(s, u, All(), q);
  }

  lemma SeenAt(s: Sys, u: Sys, w: Sys, c: seq<Index>, p: Index, q: Index, x: Index)
    requires Gone(s, u, c) && OwnedList(s, c, p) && q != p && q != 0 && SameCore(s.h[q], u.h[q])
    requires s.h[q].state.Identity?
    requires Released(u, w, p) && u.h[p].state.Identity?
    ensures x in OwnedBy(w, q) <==> x in OwnedBy(s, q)
    ensures x in FreedBy(w, q) ==> x in FreedBy(s, q)
    ensures w.h[x].state.Used? ==> x !in c && SameCore(s.h[x], w.h[x])
  {
    TokenAfter(u, w, p, u.h[x].owner);
    assert x != p ==> SameCore(u.h[x], w.h[x]);
    TokensSame(s, u, s.h[x].owner, q);
  }

  lemma TokensSame(s: Sys, u: Sys, o: Owner, q: Index)
    requires u.tail == s.tail && q != 0 && SameCore(s.h[q], u.h[q])
    ensures OwnerSlot(u, o) == q <==> OwnerSlot(s, o) == q
  {
  }

  /** If the invariant holds after the death of p, every freed original of another living owner keeps a
      clone outside the chain. */
  lemma DeathNeeds(s: Sys, ch: Chains, p: Index, ch': Chains, m: Index)
    requires Inv(s, ch) && s.h[p].state.Identity? && FreedFits(s) && Inv(FreeIdentity(s, p, ch[p]), ch')
    requires s.h[m].state.Freed? && OwnerSlot(s, s.h[m].owner) != 0 && OwnerSlot(s, s.h[m].owner) != p
    ensures KeepsClone(s, ch[p], m)
  {
    hide FreeIdentity, Bystander, FreeCore;
    var q, w := OwnerSlot(s, s.h[m].owner), FreeIdentity(s, p, ch[p]);
    DyingStarts(s, ch, p);
    assert s.h[m].state.Freed? ==> s.h[q].state.Identity?;
    DeathSeen(s, ch[p], p, q);
    BystanderKeeps(s, ch, w, ch', q);
    assert m in FreedBy(s, q);
    assert w.h[m].state.Freed?;
    StillCloned(w.h, m);
    var x :| x in ClonesOf(w.h, m);
    assert w.h[x].state.Used? && SameCore(s.h[x], w.h[x]);
    assert s.h[x].state.Used? && s.h[x].clone == m && x !in ch[p];
  }

  lemma StillCloned(h: Table, m: Index)
    requires ClonesOk(h) && h[m].state.Freed?
    ensures ClonesOf(h, m) != {}
  {
    assert Counted(h, m);
  }

  /** Owners of freed originals are identities, where they resolve. */
  ghost predicate FreedFits(s: Sys) {
    forall m: Index {:trigger s.h[m]} :: s.h[m].state.Freed? && OwnerSlot(s, s.h[m].owner) != 0 ==>
      s.h[OwnerSlot(s, s.h[m].owner)].state.Identity?
  }

  lemma DyingStarts(s: Sys, ch: Chains, p: Index)
    requires Inv(s, ch) && s.h[p].state.Identity? && FreedFits(s)
    ensures FreeCore(s) && p != 0 && OwnedList(s, ch[p], p)
  {
    forall x: Index | Owes(s.h[x], All()) && OwnerSlot(s, s.h[x].owner) != 0
      ensures s.h[OwnerSlot(s, s.h[x].owner)].state.Identity?
    {
      assert s.h[x].state.Used? ==> s.h[x].owner.Token?;
    }
    forall x | x in ch[p] ensures s.h[x].state.Used? && OwnerSlot(s, s.h[x].owner) == p {
      assert (x in ch[p]) == Owns(s, p, x);
    }
  }

  ghost function Identities(s: Sys): set<Index> {
    set x: Index | 0 <= x <= MAX_HANDLES && s.h[x].state.Identity?
  }

  lemma AllLent(s: Sys, c: seq<Index>)
    requires StackOk(s) && FreedFits(s)
    ensures Idents(s, Identities(s)) && OthersSpared(s, c, Identities(s))
  {
    NoIdentityZero(s);
    forall m: Index | s.h[m].state.Freed? && OwnerSlot(s, s.h[m].owner) != 0
      ensures OwnerSlot(s, s.h[m].owner) in Identities(s)
    {
    }
  }

  /** Releasing an identity, by the loop as it is, leaves the invariant, for some chains, if and only if every
      freed original of another living owner keeps a clone outside the chain. */
  lemma DeathExact(s: Sys, ch: Chains, p: Index, n: nat)
    requires Inv(s, ch) && s.h[p].state.Identity? && FreedFits(s) && Tame(s, p, ch[p]) && |ch[p]| <= n
    ensures (exists ch' :: Inv(ReleaseLinked(s, p, n), ch')) <==> OthersKeep(s, p, ch[p])
  {
    hide Inv, FreeLinked, FreeChain, Vacate, KeepsClone, Identities, Idents, OthersSpared, Tame;
    var c, w := ch[p], ReleaseLinked(s, p, n);
    if OthersKeep(s, p, c) {
      IdentityReleased(s, ch, p, n);
    } else {
      AllKept(s, ch, p);
      LoopIsChain(s, ch, p, Identities(s), n);
      var m: Index :|
        && s.h[m].state.Freed? && OwnerSlot(s, s.h[m].owner) != 0 && OwnerSlot(s, s.h[m].owner) != p
        && !KeepsClone(s, c, m);
      forall ch': Chains ensures !Inv(w, ch') {
        if Inv(w, ch') {
          DeathNeeds(s, ch, p, ch', m);
        }
      }
    }
  }

  lemma AllKept(s: Sys, ch: Chains, p: Index)
    requires Inv(s, ch) && FreedFits(s)
    ensures Idents(s, Identities(s)) && OthersSpared(s, ch[p], Identities(s))
  {
    AllLent(s, ch[p]);
  }
}
