/** Exactly which steps keep the handle system sound, and two more reachable systems in which one does not. */
module HandleLosses {
  import opened HandleTable
  import opened HandleOps
  import opened HandleStack
  import opened HandleChains
  import opened HandleInv
  import opened HandleFree
  import opened HandleExact
  import opened HandleDeath
  import opened HandleLinks
  import opened HandleSweep
  import opened HandleRemoval
  import opened HandleDying
  import opened HandleRuns

  /** What is asked of the system for the condition on a step to be exact. */
  ghost predicate Regular(s: Sys, op: Op) {
    && FreedFits(s)
    && match op
       case OpFree(v, root) =>
         var i := v % 0x10000;
         Lookup(s, v, root).ErrNone? && s.h[i].state.Identity? ==> Tame(s, i, Walk(s.h, s.h[i].prev, MAX_HANDLES))
       case OpRemoveType(ty) => NoIdentity(s.h, ty)
       case OpCreate(_, _, owner, identity) => OwnerFit(s, owner, identity)
       case OpClone(_, newOwner) => OwnerFit(s, newOwner, false)
  }

  /** A step keeps the invariant, for some chains, if and only if it is sound. */
  lemma StepExact(s: Sys, ch: Chains, op: Op)
    requires Inv(s, ch) && Regular(s, op)
    ensures (exists ch' :: Inv(Step(s, op), ch')) <==> Sound(s, op)
  {
    hide Inv, FreeSlot, ReleaseLinked, RemoveHandles, Create, Clone, OthersKeep, Stale, Disowned, Tame, Walk;
    if Sound(s, op) {
      var _ := StepKeeps(s, ch, op);
    } else {
      match op
      case OpFree(v, root) =>
        var i := v % 0x10000;
        if s.h[i].state.Identity? {
          ChainWalk(s, ch, i);
          ChainFits(s, ch, i);
          DeathExact(s, ch, i, MAX_HANDLES);
        } else {
          LookedUp(s, v, root);
          FreeExact(s, ch, i);
        }
      case OpRemoveType(ty) => RemovalExact(s, ch, ty);
      case _ =>
    }
  }

  lemma LookedUp(s: Sys, v: nat, root: bool)
    requires Lookup(s, v, root).ErrNone?
    ensures s.h[v % 0x10000].state.Used? || s.h[v % 0x10000].state.Identity?
  {
  }

  lemma Untouched(s: Sys, j: Index)
    requires StackOk(s) && j > s.tail
    ensures s.h[j].state.Unset?
  {
  }

  lemma OrphanedFits(d: Sys)
    requires Orphaned(d) && StackOk(d)
    ensures NoIdentity(d.h, 32) && FreedFit(d, 32) && !Disowned(d, 32)
  {
    hide StackOk;
    forall m: Index ensures d.h[m].state.Identity? || d.h[m].state.Freed? ==> m == 1 || m == 2 {
      if m > 3 { Untouched(d, m); } else { NoneAtZero(d); }
    }
    assert OwnerSlot(d, d.h[2].owner) == 1;
  }

  lemma NoneAtZero(d: Sys)
    requires StackOk(d)
    ensures d.h[0].state.Unset?
  {
  }

  /** Removing the type of an original that was freed under a living owner leaves that owner's count
      one too low: after the run of StaleReachable, no chains satisfy the invariant. */
  lemma RemovalLoses()
    ensures SoundRun(EMPTY, STALE_RUN)
    ensures var s := Run(EMPTY, STALE_RUN);
      NoIdentity(s.h, 32) && FreedFit(s, 32) && !exists ch :: Inv(RemoveHandles(s, 32), ch)
  {
    hide RemoveHandles;
    var d := StaleRunIs();
    Reachable(STALE_RUN);
    var ch :| Inv(d, ch);
    OrphanedFits(d);
    RemovalExact(d, ch, 32);
  }

  // ----- an identity takes the last clone of another's original with it -----

  const DEATH_RUN: seq<Op> := [
    OpCreate(16, 0, Nobody, true),
    OpCreate(16, 1, Nobody, true),
    OpCreate(32, 7, Token(0x1_0001), false),
    OpClone(0x3_0003, Token(0x2_0002)),
    OpFree(0x3_0003, false)]

  ghost predicate TwoOwners(b: Sys) {
    && b.h[1] == QHandle(Identity, 16, 0, Nobody, 1, 1, 0, 0, 0, 0)
    && b.h[2] == QHandle(Identity, 16, 1, Nobody, 2, 1, 0, 0, 0, 0)
    && b.h[3] == BLANK && b.h[4] == BLANK && b.tail == 2 && b.free == 0 && b.hserial == 2
  }

  lemma ToTwoOwners() returns (a: Sys, b: Sys)
    ensures a == Step(EMPTY, DEATH_RUN[0]) && b == Step(a, DEATH_RUN[1])
    ensures Sound(EMPTY, DEATH_RUN[0]) && Sound(a, DEATH_RUN[1]) && TwoOwners(b)
  {
    a := Step(EMPTY, DEATH_RUN[0]);
    assert a.h[1] == QHandle(Identity, 16, 0, Nobody, 1, 1, 0, 0, 0, 0) && a.tail == 1 && a.free == 0 && a.hserial == 1;
    assert a.h[2] == BLANK && a.h[3] == BLANK && a.h[4] == BLANK;
    b := Step(a, DEATH_RUN[1]);
  }

  ghost predicate Shared(d: Sys) {
    && d.h[1] == QHandle(Identity, 16, 0, Nobody, 1, 2, 0, 0, 3, 3)
    && d.h[2] == QHandle(Identity, 16, 1, Nobody, 2, 2, 0, 0, 4, 4)
    && d.h[3] == QHandle(Used, 32, 7, Token(0x1_0001), 3, 2, 0, 0, 0, 0)
    && d.h[4] == QHandle(Used, 32, 0, Token(0x2_0002), 4, 1, 3, 0, 0, 0)
    && d.tail == 4
  }

  lemma ToShared(b: Sys) returns (c: Sys, d: Sys)
    requires TwoOwners(b)
    ensures c == Step(b, DEATH_RUN[2]) && d == Step(c, DEATH_RUN[3])
    ensures Sound(b, DEATH_RUN[2]) && Sound(c, DEATH_RUN[3]) && Shared(d)
  {
    c := Step(b, DEATH_RUN[2]);
    assert c.h[1] == QHandle(Identity, 16, 0, Nobody, 1, 2, 0, 0, 3, 3) && c.h[2] == b.h[2] && c.tail == 3;
    assert c.h[3] == QHandle(Used, 32, 7, Token(0x1_0001), 3, 1, 0, 0, 0, 0) && c.h[4] == BLANK;
    assert c.free == 0 && c.hserial == 3;
    d := Step(c, DEATH_RUN[3]);
  }

  ghost predicate Parted(e: Sys) {
    && e.h[1].state.Identity? && e.h[1].serial == 1
    && e.h[2] == QHandle(Identity, 16, 1, Nobody, 2, 2, 0, 0, 4, 4)
    && e.h[3] == QHandle(Freed, 32, 7, Token(0x1_0001), 3, 1, 0, 0, 0, 0)
    && e.h[4] == QHandle(Used, 32, 0, Token(0x2_0002), 4, 1, 3, 0, 0, 0)
    && e.tail == 4
  }

  lemma ToParted(d: Sys) returns (e: Sys)
    requires Shared(d)
    ensures e == Step(d, DEATH_RUN[4]) && Sound(d, DEATH_RUN[4]) && Parted(e)
  {
    e := Step(d, DEATH_RUN[4]);
    assert e.h[3] == d.h[3].(refcount := 1, state := Freed);
  }

  lemma DeathRunIs() returns (e: Sys)
    ensures SoundRun(EMPTY, DEATH_RUN) && e == Run(EMPTY, DEATH_RUN) && Parted(e)
  {
    hide Step, Sound;
    var a, b := ToTwoOwners();
    var c, d := ToShared(b);
    e := ToParted(d);
    var ops := DEATH_RUN;
    assert ops[1..][0] == ops[1] && ops[1..][1..][0] == ops[2] && ops[1..][1..][1..][0] == ops[3];
    assert ops[1..][1..][1..][1..][0] == ops[4] && ops[1..][1..][1..][1..][1..] == [];
    UnrollRun(EMPTY, ops);
    UnrollRun(a, ops[1..]);
    UnrollRun(b, ops[1..][1..]);
    UnrollRun(c, ops[1..][1..][1..]);
    UnrollRun(d, ops[1..][1..][1..][1..]);
  }

  lemma PartedChain(e: Sys, ch: Chains)
    requires Inv(e, ch) && Parted(e)
    ensures ch[2] == [4] && Walk(e.h, e.h[2].prev, MAX_HANDLES) == [4]
  {
    ChainWalk(e, ch, 2);
    assert Walk(e.h, 0, MAX_HANDLES - 1) == [];
    assert Walk(e.h, 4, MAX_HANDLES) == [4];
  }

  lemma PartedFits(e: Sys)
    requires Parted(e) && StackOk(e)
    ensures FreedFits(e) && Tame(e, 2, [4]) && !OthersKeep(e, 2, [4])
  {
    hide StackOk;
    forall m: Index ensures (e.h[m].state.Freed? ==> m == 3) && (e.h[m].state.Used? ==> m == 4) {
      if m > 4 { Untouched(e, m); } else { NoneAtZero(e); }
    }
    assert OwnerSlot(e, e.h[3].owner) == 1;
    assert !KeepsClone(e, [4], 3);
    NoneAtZero(e);
    assert Loose(e, [4], 0);
    assert TameLinks(e, 2, [4], 3);
    forall m: Index | Due(e, [4], m) ensures TameLinks(e, 2, [4], m) {
      assert m == 3;
    }
  }

  /** An identity that owns the last clone of another identity's freed original takes it along, and leaves
      no chains that satisfy the invariant. */
  lemma DeathLoses()
    ensures SoundRun(EMPTY, DEATH_RUN)
    ensures var s := Run(EMPTY, DEATH_RUN);
      s.h[2].state.Identity? && !exists ch :: Inv(ReleaseLinked(s, 2, MAX_HANDLES), ch)
  {
    hide ReleaseLinked;
    var e := DeathRunIs();
    Reachable(DEATH_RUN);
    var ch :| Inv(e, ch);
    PartedChain(e, ch);
    PartedFits(e);
    DeathExact(e, ch, 2, MAX_HANDLES);
  }
}
