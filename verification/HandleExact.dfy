/** FreeHandle keeps the invariant exactly when it is not the stale case. */
module HandleExact {
  import opened HandleTable
  import opened HandleOps
  import opened HandleStack
  import opened HandleCounts
  import opened HandleChains
  import opened HandleInv
  import opened HandleFree

  lemma {:induction false} DistinctLength(c: seq<Index>, d: seq<Index>)
    requires Distinct(c) && Distinct(d) && forall x :: x in c <==> x in d
    ensures |c| == |d|
  {
    assert |d| > 0 ==> d[0] in d;
    if c != [] {
      DistinctLength(Without(c, c[0]), Without(d, c[0]));
    }
  }

  lemma StaleStep(s: Sys, ch: Chains, j: Index)
    requires Inv(s, ch) && s.h[j].state.Used? && Stale(s, j)
    ensures var t, m := Unclone(s, j), s.h[j].clone; var p := OwnerSlot(s, s.h[m].owner);
      && FreeSlot(s, j) == Destroy(t, m)
      && OwnerSlot(t, t.h[m].owner) == p && p != 0 && p != j && p != m
      && t.h[m].state.Freed?
  {
    var m := s.h[j].clone;
    FreeSlotCases(s, j);
    UncloneKeeps(s, ch, j);
  }

  lemma UnlinkSentinelCount(h: Table, p: Index, j: Index)
    ensures Unlink(h, p, j)[p].refcount == Dec32(h[p].refcount)
  {
  }

  /** The second unlink takes one from the count of whatever the owner resolves to. */
  lemma StaleCount(t: Sys, m: Index)
    requires StackOk(t) && t.h[m].state.Freed?
    requires var p := OwnerSlot(t, t.h[m].owner); p != 0 && p != m
    ensures var u, p := Destroy(t, m), OwnerSlot(t, t.h[m].owner);
      && u.h[p].refcount == Dec32(t.h[p].refcount)
      && u.tail == t.tail && u.h[m].state.Unset?
      && forall x: Index {:trigger u.h[x]} :: x != m ==> SameCore(t.h[x], u.h[x])
  {
    var t' := t.(destroyed := t.destroyed + [Object(t.h[m].htype, t.h[m].obj)]);
    var p := OwnerSlot(t, t.h[m].owner);
    SameTokens(t, t', t.h[m].owner);
    StackSame(t, t');
    ReleaseDoes(t', m);
    UnlinkSentinelCount(t'.h, p, m);
  }

  lemma StaleMembers(t: Sys, u: Sys, m: Index, p: Index, x: Index)
    requires u.tail == t.tail && t.h[m].state.Freed? && u.h[m].state.Unset?
    requires forall y: Index {:trigger u.h[y]} :: y != m ==> SameCore(t.h[y], u.h[y])
    ensures Owns(u, p, x) <==> Owns(t, p, x)
  {
    if x != m {
      assert SameCore(t.h[x], u.h[x]);
      var o := t.h[x].owner;
      if o.Token? && o.ident % 0x10000 <= t.tail && o.ident % 0x10000 != m {
        assert SameCore(t.h[o.ident % 0x10000], u.h[o.ident % 0x10000]);
      }
    }
  }

  lemma StaleIdentity(t: Sys, u: Sys, ch: Chains, ch': Chains, m: Index, p: Index)
    requires ChainsOk(t, ch) && t.h[m].state.Freed? && u.h[m].state.Unset? && u.tail == t.tail
    requires forall y: Index {:trigger u.h[y]} :: y != m ==> SameCore(t.h[y], u.h[y])
    requires t.h[p].state.Identity? && u.h[p].refcount == Dec32(t.h[p].refcount)
    ensures !ChainsOk(u, ch')
  {
    assert SameCore(t.h[p], u.h[p]);
    if ChainsOk(u, ch') {
      forall x: Index ensures x in ch[p] <==> x in ch'[p] {
        StaleMembers(t, u, m, p, x);
        assert (x in ch[p]) == Owns(t, p, x);
        assert (x in ch'[p]) == Owns(u, p, x);
      }
      DistinctLength(ch[p], ch'[p]);
    }
  }

  lemma StaleUsed(h: Table, h': Table, j: Index, p: Index)
    requires ClonesOk(h) && h[p].state.Used? && SameClone(h[p], h'[p]) && h'[p].refcount == Dec32(h[p].refcount)
    requires ClonesOf(h', p) == ClonesOf(h, p)
    ensures !ClonesOk(h')
  {
    assert Counted(h, p) && (ClonesOk(h') ==> Counted(h', p));
  }

  /** In the stale case no chains make the invariant true again. */
  lemma StaleBreaks(s: Sys, ch: Chains, j: Index, ch': Chains)
    requires Inv(s, ch) && s.h[j].state.Used? && Stale(s, j)
    ensures !Inv(FreeSlot(s, j), ch')
  {
    var t, m := Unclone(s, j), s.h[j].clone;
    var p := OwnerSlot(s, s.h[m].owner);
    StaleStep(s, ch, j);
    UncloneKeeps(s, ch, j);
    StaleCount(t, m);
    StaleRefuted(s, t, FreeSlot(s, j), ch, ChainsLeft(s, ch, j), ch', j, m, p);
  }

  lemma StaleRefuted(s: Sys, t: Sys, u: Sys, ch: Chains, ch1: Chains, ch': Chains, j: Index, m: Index, p: Index)
    requires Inv(s, ch) && s.h[j].state.Used? && s.h[j].clone == m && m != 0
    requires ChainsOk(t, ch1) && Elsewhere(s.h, t.h, j, m) && t.h[j].state.Unset?
    requires p != j && p != m && OwnerSlot(s, s.h[m].owner) == p != 0
    requires t.h[m].state.Freed? && u.h[m].state.Unset? && u.tail == t.tail
    requires forall y: Index {:trigger u.h[y]} :: y != m ==> SameCore(t.h[y], u.h[y])
    requires u.h[p].refcount == Dec32(t.h[p].refcount)
    ensures !ChainsOk(u, ch') || !ClonesOk(u.h)
  {
    assert SameClone(s.h[p], t.h[p]);
    assert SameCore(t.h[p], u.h[p]);
    if s.h[p].state.Identity? {
      StaleIdentity(t, u, ch1, ch', m, p);
    } else {
      assert SameCore(t.h[j], u.h[j]);
      forall x: Index ensures x in ClonesOf(u.h, p) <==> x in ClonesOf(s.h, p) {
        if x != j && x != m { assert SameClone(s.h[x], t.h[x]) && SameCore(t.h[x], u.h[x]); }
      }
      StaleUsed(s.h, u.h, j, p);
    }
  }

  /** FreeHandle keeps the invariant, for some chains, if and only if it is not the stale case. */
  lemma FreeExact(s: Sys, ch: Chains, j: Index)
    requires Inv(s, ch) && s.h[j].state.Used?
    ensures (exists ch' :: Inv(FreeSlot(s, j), ch')) <==> !Stale(s, j)
  {
    if Stale(s, j) {
      forall ch': Chains ensures !Inv(FreeSlot(s, j), ch') {
        StaleBreaks(s, ch, j, ch');
      }
    } else {
      FreeKeeps(s, ch, j);
    }
  }
}
