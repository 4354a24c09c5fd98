/** Whole runs of the handle system, and the run in which its bookkeeping goes wrong. */
module HandleRuns {
  import opened HandleTable
  import opened HandleOps
  import opened HandleCounts
  import opened HandleChains
  import opened HandleInv
  import opened HandleFree
  import opened HandleExact
  import opened HandleDeath
  import opened HandleLinks
  import opened HandleSweep
  import opened HandleValues

  datatype Op =
    | OpCreate(htype: TypeId, obj: int, owner: Owner, identity: bool)
    | OpClone(value: nat, newOwner: Owner)
    | OpFree(value: nat, root: bool)
    | OpRemoveType(htype: TypeId)

  /** FreeHandle by value. The loop on an identity's handles goes on while its link names one; no chain is
      longer than the table. */
  function Free(s: Sys, v: nat, root: bool): Sys {
    var i := v % 0x10000;
    if !Lookup(s, v, root).ErrNone? then s
    else if s.h[i].state.Identity? then ReleaseLinked(s, i, MAX_HANDLES)
    else FreeSlot(s, i)
  }

  function SysOr(m: Made, s: Sys): Sys {
    if m.Made? then m.sys else s
  }

  ghost function Step(s: Sys, op: Op): Sys {
    match op
    case OpCreate(ty, obj, owner, identity) => SysOr(Create(s, ty, obj, owner, identity), s)
    case OpClone(v, newOwner) => SysOr(Clone(s, v, false, newOwner), s)
    case OpFree(v, root) => Free(s, v, root)
    case OpRemoveType(ty) => RemoveHandles(s, ty)
  }

  /** What a step needs: owners are identities, and an original that was freed under an owner that still
      resolves loses its last clone at most when that owner is released, and then harmlessly. */
  ghost predicate Sound(s: Sys, op: Op) {
    match op
    case OpCreate(ty, obj, owner, identity) => OwnerFit(s, owner, identity)
    case OpClone(v, newOwner) => OwnerFit(s, newOwner, false)
    case OpFree(v, root) =>
      var i := v % 0x10000;
      Lookup(s, v, root).ErrNone? ==>
        if s.h[i].state.Identity? then Harmless(s, i, Walk(s.h, s.h[i].prev, MAX_HANDLES)) else !Stale(s, i)
    case OpRemoveType(ty) => NoIdentity(s.h, ty) && Disowned(s, ty)
  }

  ghost function Run(s: Sys, ops: seq<Op>): Sys
    decreases |ops|
  {
    if ops == [] then s else Run(Step(s, ops[0]), ops[1..])
  }

  ghost predicate SoundRun(s: Sys, ops: seq<Op>)
    decreases |ops|
  {
    ops == [] || (Sound(s, ops[0]) && SoundRun(Step(s, ops[0]), ops[1..]))
  }

  lemma StepKeeps(s: Sys, ch: Chains, op: Op) returns (ch': Chains)
    requires Inv(s, ch) && Sound(s, op)
    ensures Inv(Step(s, op), ch')
  {
    ch' := ch;
    match op
    case OpCreate(ty, obj, owner, identity) =>
      var m := Create(s, ty, obj, owner, identity);
      if m.Made? {
        CreateKeeps(s, ch, ty, obj, owner, identity);
        ch' := ChainsMade(s, ch, owner, identity, m.index);
      }
    case OpClone(v, newOwner) =>
      var m := Clone(s, v, false, newOwner);
      if m.Made? {
        var o := OriginalOf(s, v % 0x10000);
        assert Original(s.h[o]);
        CloneKeeps(s, ch, o, newOwner);
        ch' := ChainsMade(s, ch, newOwner, false, m.index);
      }
    case OpFree(v, root) =>
      ch' := FreeStep(s, ch, v, root);
    case OpRemoveType(ty) =>
      TypeRemoved(s, ch, ty);
      ch' :| Inv(RemoveHandles(s, ty), ch');
  }

  lemma FreeStep(s: Sys, ch: Chains, v: nat, root: bool) returns (ch': Chains)
    requires Inv(s, ch) && Sound(s, OpFree(v, root))
    ensures Inv(Free(s, v, root), ch')
  {
    ch' := ch;
    var i := v % 0x10000;
    if Lookup(s, v, root).ErrNone? {
      if s.h[i].state.Identity? {
        IdentityStep(s, ch, i);
        ch' := ch[i := []];
      } else {
        FreeKeeps(s, ch, i);
        ch' := ChainsLeft(s, ch, i);
      }
    }
  }

  lemma IdentityStep(s: Sys, ch: Chains, i: Index)
    requires Inv(s, ch) && s.h[i].state.Identity? && Harmless(s, i, Walk(s.h, s.h[i].prev, MAX_HANDLES))
    ensures Inv(ReleaseLinked(s, i, MAX_HANDLES), ch[i := []])
  {
    hide Inv, Harmless, FreeIdentity, ReleaseLinked;
    ChainWalk(s, ch, i);
    ChainFits(s, ch, i);
    IdentityReleased(s, ch, i, MAX_HANDLES);
  }

  /** The invariant holds after every sound run. */
  lemma {:induction false} RunKeeps(s: Sys, ch: Chains, ops: seq<Op>) returns (ch': Chains)
    requires Inv(s, ch) && SoundRun(s, ops)
    ensures Inv(Run(s, ops), ch')
    decreases |ops|
  {
    if ops == [] {
      ch' := ch;
    } else {
      var c := StepKeeps(s, ch, ops[0]);
      ch' := RunKeeps(Step(s, ops[0]), c, ops[1..]);
    }
  }

  lemma Reachable(ops: seq<Op>)
    requires SoundRun(EMPTY, ops)
    ensures exists ch :: Inv(Run(EMPTY, ops), ch)
  {
    EmptyInv();
    var ch := RunKeeps(EMPTY, seq(MAX_HANDLES + 1, i => []), ops);
  }

  /** An identity makes a handle, the handle is cloned, then freed, then its clone is freed. */
  const STALE_RUN: seq<Op> := [
    OpCreate(16, 0, Nobody, true),
    OpCreate(32, 7, Token(0x1_0001), false),
    OpClone(0x2_0002, Nobody),
    OpFree(0x2_0002, false)]

  /** The first four slots after the first two steps. */
  ghost predicate Owned(b: Sys) {
    && b.h[1] == QHandle(Identity, 16, 0, Nobody, 1, 2, 0, 0, 2, 2)
    && b.h[2] == QHandle(Used, 32, 7, Token(0x1_0001), 2, 1, 0, 0, 0, 0)
    && b.h[3] == BLANK && b.tail == 2 && b.free == 0 && b.hserial == 2
  }

  lemma StaleRunStart() returns (a: Sys, b: Sys)
    ensures a == Step(EMPTY, STALE_RUN[0]) && b == Step(a, STALE_RUN[1])
    ensures Sound(EMPTY, STALE_RUN[0]) && Sound(a, STALE_RUN[1]) && Owned(b)
  {
    a := Step(EMPTY, STALE_RUN[0]);
    assert a.h[1] == QHandle(Identity, 16, 0, Nobody, 1, 1, 0, 0, 0, 0) && a.tail == 1 && a.free == 0 && a.hserial == 1;
    assert a.h[2] == BLANK && a.h[3] == BLANK;
    b := Step(a, STALE_RUN[1]);
  }

  /** The system after the run: the original is freed, and its owner still there. */
  ghost predicate Orphaned(d: Sys) {
    && d.tail == 3 && d.h[1].state.Identity? && d.h[1].serial == 1 && d.h[1].htype == 16
    && d.h[2] == QHandle(Freed, 32, 7, Token(0x1_0001), 2, 1, 0, 0, d.h[2].prev, d.h[2].next)
    && d.h[3] == QHandle(Used, 32, 0, Nobody, 3, 1, 2, 0, 0, 0)
  }

  lemma StaleRunEnd(b: Sys) returns (c: Sys, d: Sys)
    requires Owned(b)
    ensures c == Step(b, STALE_RUN[2]) && d == Step(c, STALE_RUN[3])
    ensures Sound(b, STALE_RUN[2]) && Sound(c, STALE_RUN[3]) && Orphaned(d)
  {
    c := Step(b, STALE_RUN[2]);
    assert c.h[1] == b.h[1] && c.tail == 3 && c.h[2] == b.h[2].(refcount := 2);
    assert c.h[3] == QHandle(Used, 32, 0, Nobody, 3, 1, 2, 0, 0, 0);
    d := Step(c, STALE_RUN[3]);
    assert d.h[2] == c.h[2].(refcount := 1, state := Freed);
    assert d.h[3] == c.h[3] && d.h[1].state.Identity? && d.h[1].serial == 1 && d.tail == 3;
  }

  lemma StaleRunIs() returns (d: Sys)
    ensures SoundRun(EMPTY, STALE_RUN) && d == Run(EMPTY, STALE_RUN) && Orphaned(d)
  {
    var a, b := StaleRunStart();
    var c: Sys;
    c, d := StaleRunEnd(b);
    assert STALE_RUN[1..][0] == STALE_RUN[1] && STALE_RUN[1..][1..][0] == STALE_RUN[2];
    assert STALE_RUN[1..][1..][1..][0] == STALE_RUN[3] && STALE_RUN[1..][1..][1..][1..] == [];
    UnrollRun(EMPTY, STALE_RUN);
    UnrollRun(a, STALE_RUN[1..]);
    UnrollRun(b, STALE_RUN[1..][1..]);
    UnrollRun(c, STALE_RUN[1..][1..][1..]);
  }

  /** A run of four sound steps after which freeing the remaining handle leaves no sound chains. */
  lemma StaleReachable()
    ensures SoundRun(EMPTY, STALE_RUN)
    ensures var s := Run(EMPTY, STALE_RUN);
      s.h[3].state.Used? && !exists ch :: Inv(FreeSlot(s, 3), ch)
  {
    var d := StaleRunIs();
    assert Stale(d, 3);
    Reachable(STALE_RUN);
    var ch :| Inv(d, ch);
    FreeExact(d, ch, 3);
  }

  lemma UnrollRun(s: Sys, ops: seq<Op>)
    requires ops != []
    ensures Run(s, ops) == Run(Step(s, ops[0]), ops[1..])
    ensures SoundRun(s, ops) == (Sound(s, ops[0]) && SoundRun(Step(s, ops[0]), ops[1..]))
  {
  }
}
