/** Releasing slots without a look at the chains: what the counts of the identities say about a slot
    that was unlinked from its owner twice. */
module HandleLevel {
  import opened HandleTable
  import opened HandleOps
  import opened HandleStack
  import opened HandleCounts
  import opened HandleChains
  import opened HandleInv
  import opened HandleFree

  type Types = TypeId -> bool

  /** The slots whose release unlinks them from their owner: handles, and freed originals of some types. */
  predicate Owes(r: QHandle, of: Types) {
    r.state.Used? || (r.state.Freed? && of(r.htype))
  }

  /** Their owners, where they resolve, are identities. */
  ghost predicate Fit(s: Sys, of: Types) {
    forall x: Index {:trigger s.h[x]} :: Owes(s.h[x], of) && OwnerSlot(s, s.h[x].owner) != 0 ==>
      s.h[OwnerSlot(s, s.h[x].owner)].state.Identity?
  }

  ghost predicate Ground(s: Sys, of: Types) {
    StackOk(s) && TypesOk(s) && SerialsOk(s) && Fit(s, of)
  }

  ghost function Owing(s: Sys, of: Types, q: Index): set<Index> {
    set x: Index | 0 <= x <= MAX_HANDLES && Owes(s.h[x], of) && OwnerSlot(s, s.h[x].owner) == q
  }

  /** What an identity counts beyond the slots that will still be unlinked from it. */
  ghost function Level(s: Sys, of: Types, q: Index): int {
    (s.h[q].refcount - |Owing(s, of, q)|) % 0x1_0000_0000
  }

  ghost predicate SameLevel(s: Sys, t: Sys, of: Types, q: Index) {
    s.h[q].state.Identity? ==> t.h[q].state.Identity? && Level(t, of, q) == Level(s, of, q)
  }

  ghost predicate SameLevels(s: Sys, t: Sys, of: Types) {
    forall q: Index {:trigger t.h[q]} :: SameLevel(s, t, of, q)
  }

  lemma LevelsTrans(s: Sys, t: Sys, u: Sys, of: Types)
    requires SameLevels(s, t, of) && SameLevels(t, u, of)
    ensures SameLevels(s, u, of)
  {
    hide Level;
    forall q: Index ensures SameLevel(s, u, of, q) {
      assert SameLevel(s, t, of, q) && SameLevel(t, u, of, q);
    }
  }

  // ----- one release -----

  /** Only the owner's count changes. */
  lemma ReleaseCounts(s: Sys, j: Index)
    requires StackOk(s) && !s.h[j].state.Unset?
    ensures var t, p := Release(s, j), OwnerSlot(s, s.h[j].owner);
      forall x: Index {:trigger t.h[x]} ::
        t.h[x].refcount == if x == p && p != 0 then Dec32(s.h[x].refcount) else s.h[x].refcount
  {
    Room(s, j);
    var p := OwnerSlot(s, s.h[j].owner);
    forall x: Index
      ensures Release(s, j).h[x].refcount == if x == p && p != 0 then Dec32(s.h[x].refcount) else s.h[x].refcount
    {
      DisownCount(s, j, x);
    }
  }

  lemma DisownCount(s: Sys, j: Index, x: Index)
    ensures var p := OwnerSlot(s, s.h[j].owner);
      Disown(s, j).h[x].refcount == if x == p && p != 0 then Dec32(s.h[x].refcount) else s.h[x].refcount
  {
  }

  /** A slot that is not an identity is released: the owners of the others resolve as before. */
  lemma OwnersStay(s: Sys, t: Sys, j: Index, of: Types, x: Index)
    requires Fit(s, of) && Released(s, t, j) && Plain(s.h[j]) && x != j && Owes(s.h[x], of)
    ensures Owes(t.h[x], of) && OwnerSlot(t, t.h[x].owner) == OwnerSlot(s, s.h[x].owner)
  {
    assert SameCore(s.h[x], t.h[x]);
    TokenAfter(s, t, j, s.h[x].owner);
  }

  lemma FitReleased(s: Sys, t: Sys, j: Index, of: Types)
    requires Fit(s, of) && Released(s, t, j) && Plain(s.h[j])
    ensures Fit(t, of)
  {
    forall x: Index | Owes(t.h[x], of) && OwnerSlot(t, t.h[x].owner) != 0
      ensures t.h[OwnerSlot(t, t.h[x].owner)].state.Identity?
    {
      assert x != j && SameCore(s.h[x], t.h[x]);
      OwnersStay(s, t, j, of, x);
      var q := OwnerSlot(s, s.h[x].owner);
      assert s.h[q].state.Identity? && SameCore(s.h[q], t.h[q]);
    }
  }

  lemma OwingReleased(s: Sys, t: Sys, j: Index, of: Types, q: Index)
    requires Fit(s, of) && Released(s, t, j) && Plain(s.h[j]) && Owes(s.h[j], of)
    ensures Owing(t, of, q) == Owing(s, of, q) - {j}
    ensures j in Owing(s, of, q) <==> OwnerSlot(s, s.h[j].owner) == q
  {
    forall x: Index ensures x in Owing(t, of, q) <==> x in Owing(s, of, q) - {j} {
      if x != j {
        assert SameCore(s.h[x], t.h[x]);
        if Owes(s.h[x], of) { OwnersStay(s, t, j, of, x); }
      }
    }
  }

  lemma LevelReleased(s: Sys, j: Index, of: Types, q: Index)
    requires StackOk(s) && Fit(s, of) && Plain(s.h[j]) && Owes(s.h[j], of) && q != 0
    ensures SameLevel(s, Release(s, j), of, q)
  {
    hide Release, Owing, Fit, StackOk;
    var t := Release(s, j);
    ReleaseDoes(s, j);
    ReleaseCounts(s, j);
    OwingReleased(s, t, j, of, q);
    if s.h[q].state.Identity? {
      assert SameCore(s.h[q], t.h[q]);
      LevelStep(s.h[q].refcount, t.h[q].refcount, |Owing(s, of, q)|, |Owing(t, of, q)|);
    }
  }

  lemma LevelStep(r: nat, r': nat, n: nat, n': nat)
    requires (r' == r && n' == n) || (r' == Dec32(r) && n' == n - 1)
    ensures (r' - n') % 0x1_0000_0000 == (r - n) % 0x1_0000_0000
  {
    if r' == 0xFFFF_FFFF && r == 0 {
      assert r' - n' == (r - n) + 0x1_0000_0000;
    }
  }

  lemma ReleaseGround(s: Sys, j: Index, of: Types)
    requires Ground(s, of) && Plain(s.h[j]) && Owes(s.h[j], of)
    ensures var t := Release(s, j); Ground(t, of) && Released(s, t, j) && SameLevels(s, t, of)
  {
    hide Release, Fit, StackOk, TypesOk, SerialsOk, Level;
    var t := Release(s, j);
    ReleaseDoes(s, j);
    ReleasedRest(s, t, j);
    FitReleased(s, t, j, of);
    NoIdentityZero(s);
    forall q: Index ensures SameLevel(s, t, of, q) {
      if q != 0 { LevelReleased(s, j, of, q); }
    }
  }

  lemma NoIdentityZero(s: Sys)
    requires StackOk(s)
    ensures s.h[0].state.Unset?
  {
  }

  /** A change of logs and of counts that are not an identity's. */
  ghost predicate Slight(s: Sys, t: Sys) {
    && Aside(s, t)
    && forall x: Index {:trigger t.h[x]} ::
         SameCore(s.h[x], t.h[x]) && (s.h[x].state.Identity? ==> t.h[x].refcount == s.h[x].refcount)
  }

  lemma SlightGround(s: Sys, t: Sys, of: Types)
    requires Ground(s, of) && Slight(s, t)
    ensures Ground(t, of) && SameLevels(s, t, of)
  {
    hide StackOk, TypesOk, SerialsOk;
    AsideKeeps(s, t);
    forall x: Index ensures OwnerSlot(t, t.h[x].owner) == OwnerSlot(s, s.h[x].owner) {
      assert SameCore(s.h[x], t.h[x]);
      SlightToken(s, t, s.h[x].owner);
    }
    forall q: Index ensures SameLevel(s, t, of, q) {
      assert SameCore(s.h[q], t.h[q]);
      forall x: Index ensures x in Owing(t, of, q) <==> x in Owing(s, of, q) {
        assert SameCore(s.h[x], t.h[x]);
      }
      assert Owing(t, of, q) == Owing(s, of, q);
    }
  }

  lemma SlightToken(s: Sys, t: Sys, o: Owner)
    requires Slight(s, t)
    ensures OwnerSlot(t, o) == OwnerSlot(s, o)
  {
    if o.Token? && o.ident % 0x10000 <= s.tail {
      assert SameCore(s.h[o.ident % 0x10000], t.h[o.ident % 0x10000]);
    }
  }
}
