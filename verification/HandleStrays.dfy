/** A run of sound steps after which the release of an identity goes astray: it has freed an original of
    its own and then the handle before it, so that the left-over links name a slot that is gone and one
    whose links have changed. */
module HandleStrays {
  import opened HandleTable
  import opened HandleOps
  import opened HandleStack
  import opened HandleChains
  import opened HandleInv
  import opened HandleDeath
  import opened HandleLinks
  import opened HandleRuns
  import opened HandleLosses

  const OWN: Owner := Token(0x1_0001)

  /** Four handles of one identity; the third is cloned and freed, then the second is freed. */
  const STRAY_RUN: seq<Op> := [
    OpCreate(16, 0, Nobody, true),
    OpCreate(32, 7, OWN, false),
    OpCreate(32, 8, OWN, false),
    OpCreate(32, 9, OWN, false),
    OpCreate(32, 10, OWN, false),
    OpClone(0x4_0004, OWN),
    OpFree(0x4_0004, false),
    OpFree(0x3_0003, false)]

  function Handle(obj: int, serial: nat, refcount: nat, clone: Index, prev: Index, next: Index): QHandle {
    QHandle(Used, 32, obj, OWN, serial, refcount, clone, 0, prev, next)
  }

  function Ident(refcount: nat, prev: Index, next: Index): QHandle {
    QHandle(Identity, 16, 0, Nobody, 1, refcount, 0, 0, prev, next)
  }

  /** The first slots are these, the next ones have never been used. */
  ghost predicate First(s: Sys, rs: seq<QHandle>) {
    && |rs| <= 6 && s.tail == |rs| && s.free == 0 && s.hserial == |rs|
    && (forall x: Index {:trigger s.h[x]} :: 1 <= x <= |rs| ==> s.h[x] == rs[x - 1])
    && (forall x: Index {:trigger s.h[x]} :: |rs| < x <= 6 ==> s.h[x] == BLANK)
  }

  const FIVE: seq<QHandle> := [Ident(5, 2, 5), Handle(7, 2, 1, 0, 0, 3), Handle(8, 3, 1, 0, 2, 4),
    Handle(9, 4, 1, 0, 3, 5), Handle(10, 5, 1, 0, 4, 0)]

  const SIX: seq<QHandle> := [Ident(6, 2, 6), Handle(7, 2, 1, 0, 0, 3), Handle(8, 3, 1, 0, 2, 4),
    Handle(9, 4, 2, 0, 3, 5), Handle(10, 5, 1, 0, 4, 6), Handle(0, 6, 1, 4, 5, 0)]

  lemma ToOne()
    ensures First(Step(EMPTY, STRAY_RUN[0]), [Ident(1, 0, 0)]) && Sound(EMPTY, STRAY_RUN[0])
  {
  }

  lemma ToTwo(s: Sys)
    requires First(s, [Ident(1, 0, 0)])
    ensures First(Step(s, STRAY_RUN[1]), [Ident(2, 2, 2), Handle(7, 2, 1, 0, 0, 0)]) && Sound(s, STRAY_RUN[1])
  {
    assert s.h[1] == Ident(1, 0, 0) && s.h[2] == BLANK;
  }

  lemma ToThree(s: Sys)
    requires First(s, [Ident(2, 2, 2), Handle(7, 2, 1, 0, 0, 0)])
    ensures First(Step(s, STRAY_RUN[2]), [Ident(3, 2, 3), Handle(7, 2, 1, 0, 0, 3), Handle(8, 3, 1, 0, 2, 0)])
    ensures Sound(s, STRAY_RUN[2])
  {
    assert s.h[1] == Ident(2, 2, 2) && s.h[2] == Handle(7, 2, 1, 0, 0, 0) && s.h[3] == BLANK;
  }

  lemma ToFour(s: Sys)
    requires First(s, [Ident(3, 2, 3), Handle(7, 2, 1, 0, 0, 3), Handle(8, 3, 1, 0, 2, 0)])
    ensures First(Step(s, STRAY_RUN[3]), [Ident(4, 2, 4), Handle(7, 2, 1, 0, 0, 3), Handle(8, 3, 1, 0, 2, 4),
                                          Handle(9, 4, 1, 0, 3, 0)])
    ensures Sound(s, STRAY_RUN[3])
  {
    assert s.h[1] == Ident(3, 2, 3) && s.h[2] == Handle(7, 2, 1, 0, 0, 3) && s.h[3] == Handle(8, 3, 1, 0, 2, 0);
    assert s.h[4] == BLANK;
  }

  lemma ToFive(s: Sys)
    requires First(s, [Ident(4, 2, 4), Handle(7, 2, 1, 0, 0, 3), Handle(8, 3, 1, 0, 2, 4), Handle(9, 4, 1, 0, 3, 0)])
    ensures First(Step(s, STRAY_RUN[4]), FIVE) && Sound(s, STRAY_RUN[4])
  {
    assert s.h[1] == Ident(4, 2, 4) && s.h[2] == Handle(7, 2, 1, 0, 0, 3) && s.h[3] == Handle(8, 3, 1, 0, 2, 4);
    assert s.h[4] == Handle(9, 4, 1, 0, 3, 0) && s.h[5] == BLANK;
  }

  lemma MakeSixth(s: Sys)
    requires First(s, FIVE)
    ensures var c := MakePrim(s, 32, OWN, false);
      c.Made? && c.index == 6 && First(c.sys, SIX[3 := Handle(9, 4, 1, 0, 3, 5)][5 := Handle(0, 6, 1, 0, 5, 0)])
  {
    assert s.h[1] == FIVE[0] && s.h[5] == FIVE[4] && s.h[6] == BLANK;
    assert FIVE[0] == Ident(5, 2, 5) && FIVE[4] == Handle(10, 5, 1, 0, 4, 0);
    assert OwnerSlot(s, OWN) == 1 && AllocSlot(s) == 6;
  }

  lemma ToSix(s: Sys)
    requires First(s, FIVE)
    ensures First(Step(s, STRAY_RUN[5]), SIX) && Sound(s, STRAY_RUN[5])
  {
    hide MakePrim;
    MakeSixth(s);
    assert s.h[4] == FIVE[3] && s.h[1] == FIVE[0];
    var c := MakePrim(s, 32, OWN, false);
    var u := CloneSlot(s, 4, OWN);
    assert Clone(s, 0x4_0004, false, OWN) == u;
    assert c.sys.h[4] == Handle(9, 4, 1, 0, 3, 5) && c.sys.h[6] == Handle(0, 6, 1, 0, 5, 0);
  }

  /** The third handle is freed and stays for its clone. */
  ghost predicate Marked(s: Sys) {
    && s.tail == 6 && s.free == 0 && s.h[1] == Ident(5, 2, 6) && s.h[2] == Handle(7, 2, 1, 0, 0, 3)
    && s.h[3] == Handle(8, 3, 1, 0, 2, 5) && s.h[4] == Handle(9, 4, 1, 0, 3, 5).(state := Freed)
    && s.h[5] == Handle(10, 5, 1, 0, 3, 6) && s.h[6] == Handle(0, 6, 1, 4, 5, 0)
  }

  lemma ToMarked(s: Sys)
    requires First(s, SIX)
    ensures Marked(Step(s, STRAY_RUN[6])) && Sound(s, STRAY_RUN[6])
  {
    assert s.h[1] == SIX[0] && s.h[2] == SIX[1] && s.h[3] == SIX[2] && s.h[4] == SIX[3] && s.h[5] == SIX[4];
    assert s.h[6] == SIX[5];
  }

  /** The second handle is gone; the links of the third still name it. */
  ghost predicate LeftOver(s: Sys) {
    && s.tail == 6 && s.free == 1 && s.h[1] == Ident(4, 2, 6).(freeID := 3) && s.h[2] == Handle(7, 2, 1, 0, 0, 5)
    && s.h[3] == Handle(8, 3, 0, 0, 2, 5).(state := Unset) && s.h[4] == Handle(9, 4, 1, 0, 3, 5).(state := Freed)
    && s.h[5] == Handle(10, 5, 1, 0, 2, 6) && s.h[6] == Handle(0, 6, 1, 4, 5, 0)
  }

  lemma ToLeftOver(s: Sys)
    requires Marked(s)
    ensures LeftOver(Step(s, STRAY_RUN[7])) && Sound(s, STRAY_RUN[7])
  {
  }

  /** Before the second handle is freed the release is harmless, though it takes the last clone of the
      third: the links of the third still agree with those of its neighbours. */
  lemma EverydayHarmless(s: Sys, ch: Chains)
    requires Inv(s, ch) && Marked(s)
    ensures Harmless(s, 1, ch[1]) && !Spared(s, ch[1])
  {
    hide ChainsOk;
    assert (6 in ch[1]) == Owns(s, 1, 6) by { MemberIs(s, ch, 1, 6); }
    forall x: Index ensures (s.h[x].state.Freed? ==> x == 4) && (s.h[x].state.Used? && s.h[x].clone == 4 ==> x == 6) {
      if x > 6 { Untouched(s, x); } else { NoneAtZero(s); }
    }
    assert OwnerSlot(s, s.h[4].owner) == 1 && !KeepsClone(s, ch[1], 4);
    assert TameLinks(s, 1, ch[1], 4);
    forall m: Index | Due(s, ch[1], m) ensures TameLinks(s, 1, ch[1], m) {
      assert m == 4;
    }
  }

  lemma MemberIs(s: Sys, ch: Chains, p: Index, j: Index)
    requires ChainsOk(s, ch)
    ensures (j in ch[p]) == Owns(s, p, j)
  {
  }

  // ----- the loop -----

  /** After a turn: the last clone has gone, and its original has been unlinked once more. */
  ghost predicate OneTurn(s: Sys) {
    && s.tail == 6 && s.free == 3 && s.h[1] == Ident(2, 2, 5).(freeID := 3)
    && s.h[2] == Handle(7, 2, 1, 0, 0, 5).(freeID := 6)
    && s.h[3] == Handle(8, 3, 0, 0, 2, 5).(state := Unset, freeID := 4)
    && s.h[5] == Handle(10, 5, 1, 0, 3, 0)
  }

  lemma TurnOne(s: Sys)
    requires LeftOver(s)
    ensures OneTurn(FreeSlot(s, 6))
  {
  }

  /** After another the link of the identity names a slot that is not in use. */
  ghost predicate TwoTurns(s: Sys) {
    && s.tail == 6 && s.free == 4 && s.h[1] == Ident(1, 2, 3).(freeID := 3)
    && s.h[2] == Handle(7, 2, 1, 0, 0, 5).(freeID := 6)
    && s.h[3] == Handle(8, 3, 0, 0, 2, 0).(state := Unset, freeID := 4)
  }

  lemma TurnTwo(s: Sys)
    requires OneTurn(s)
    ensures TwoTurns(FreeSlot(s, 5))
  {
  }

  /** That slot is freed nevertheless: it is marked, for its count goes below zero. */
  ghost predicate ThreeTurns(s: Sys) {
    && s.tail == 6 && s.free == 4 && s.h[1] == Ident(0, 2, 2).(freeID := 3)
    && s.h[2] == Handle(7, 2, 1, 0, 0, 0).(freeID := 6) && s.h[3].state.Freed?
  }

  lemma TurnThree(s: Sys)
    requires TwoTurns(s)
    ensures ThreeTurns(FreeSlot(s, 3))
  {
  }

  ghost predicate Strayed(s: Sys) {
    s.free >= 1 && s.h[1].next == 0 && s.h[1].freeID == 3 && s.h[3].state.Freed? && s.free < MAX_HANDLES && s.free > 1
  }

  lemma TurnFour(s: Sys)
    requires ThreeTurns(s)
    ensures Strayed(FreeSlot(s, 2))
  {
  }

  lemma LinkedStep(s: Sys, p: Index, n: nat)
    requires n > 0 && s.h[p].next != 0
    ensures FreeLinked(s, p, n) == FreeLinked(FreeSlot(s, s.h[p].next), p, n - 1)
  {
  }

  lemma LinkedStop(s: Sys, p: Index, n: nat)
    requires n == 0 || s.h[p].next == 0
    ensures FreeLinked(s, p, n) == s
  {
  }

  lemma StrayedLoses(s: Sys, ch: Chains)
    requires Strayed(s)
    ensures !Inv(Vacate(s, 1), ch)
  {
    var t := Vacate(s, 1);
    assert t.h[1].freeID == 3 && t.h[3].state.Freed?;
    assert !EntriesVacant(t);
  }

  lemma LoopStrays(s: Sys, n: nat)
    requires LeftOver(s) && n >= 4
    ensures TwoTurns(FreeLinked(s, 1, 2)) && Strayed(FreeLinked(s, 1, n))
  {
    hide FreeSlot, FreeLinked, LeftOver, OneTurn, TwoTurns, ThreeTurns, Strayed;
    var a := FreeSlot(s, 6);
    var b := FreeSlot(a, 5);
    var c := FreeSlot(b, 3);
    var d := FreeSlot(c, 2);
    TurnOne(s);
    TurnTwo(a);
    TurnThree(b);
    TurnFour(c);
    LinksAt(s, a, b, c, d);
    LinkedStep(s, 1, 2);
    LinkedStep(a, 1, 1);
    LinkedStop(b, 1, 0);
    LinkedStep(s, 1, n);
    LinkedStep(a, 1, n - 1);
    LinkedStep(b, 1, n - 2);
    LinkedStep(c, 1, n - 3);
    LinkedStop(d, 1, n - 4);
  }

  lemma LinksAt(s: Sys, a: Sys, b: Sys, c: Sys, d: Sys)
    requires LeftOver(s) && OneTurn(a) && TwoTurns(b) && ThreeTurns(c) && Strayed(d)
    ensures s.h[1].next == 6 && a.h[1].next == 5 && b.h[1].next == 3 && c.h[1].next == 2 && d.h[1].next == 0
  {
  }

  lemma RunAt(s: Sys, ops: seq<Op>, k: nat)
    requires k < |ops|
    ensures Run(s, ops[k..]) == Run(Step(s, ops[k]), ops[k + 1..])
    ensures SoundRun(s, ops[k..]) == (Sound(s, ops[k]) && SoundRun(Step(s, ops[k]), ops[k + 1..]))
  {
    hide Step, Sound;
    assert ops[k..][0] == ops[k] && ops[k..][1..] == ops[k + 1..];
  }

  lemma {:induction false} RunSplit(s: Sys, a: seq<Op>, b: seq<Op>)
    ensures Run(s, a + b) == Run(Run(s, a), b)
    ensures SoundRun(s, a + b) == (SoundRun(s, a) && SoundRun(Run(s, a), b))
    decreases |a|
  {
    hide Step, Sound;
    if a == [] {
      assert a + b == b;
    } else {
      RunSplit(Step(s, a[0]), a[1..], b);
      assert (a + b)[0] == a[0] && (a + b)[1..] == a[1..] + b;
    }
  }

  lemma OneStep(s: Sys, op: Op)
    ensures Run(s, [op]) == Step(s, op) && SoundRun(s, [op]) == Sound(s, op)
  {
    hide Step, Sound;
    assert [op][1..] == [];
    NoSteps(Step(s, op));
  }

  const SEVEN: seq<Op> := STRAY_RUN[..7]

  lemma SevenIs()
    ensures SoundRun(EMPTY, SEVEN) && Marked(Run(EMPTY, SEVEN))
  {
    hide Step, Sound, Run, SoundRun, First, Marked;
    var ops := SEVEN;
    var s1 := Step(EMPTY, ops[0]);
    var s2 := Step(s1, ops[1]);
    var s3 := Step(s2, ops[2]);
    var s4 := Step(s3, ops[3]);
    var s5 := Step(s4, ops[4]);
    var s6 := Step(s5, ops[5]);
    ToOne();
    ToTwo(s1);
    ToThree(s2);
    ToFour(s3);
    ToFive(s4);
    ToSix(s5);
    ToMarked(s6);
    RunAt(EMPTY, ops, 0);
    RunAt(s1, ops, 1);
    RunAt(s2, ops, 2);
    RunAt(s3, ops, 3);
    RunAt(s4, ops, 4);
    RunAt(s5, ops, 5);
    RunAt(s6, ops, 6);
    assert ops[0..] == ops && ops[7..] == [];
    NoSteps(Step(s6, ops[6]));
  }

  lemma StrayRunIs()
    ensures SoundRun(EMPTY, STRAY_RUN) && LeftOver(Run(EMPTY, STRAY_RUN))
  {
    hide Step, Sound, Run, SoundRun, Marked, LeftOver;
    SevenIs();
    var s := Run(EMPTY, SEVEN);
    ToLeftOver(s);
    OneStep(s, STRAY_RUN[7]);
    RunSplit(EMPTY, SEVEN, [STRAY_RUN[7]]);
    assert STRAY_RUN == SEVEN + [STRAY_RUN[7]];
  }

  /** The same run, but that the identity is released before its second handle is freed. */
  const EVERYDAY_RUN: seq<Op> := SEVEN + [OpFree(0x1_0001, true)]

  lemma EverydaySound(s: Sys, ch: Chains)
    requires Inv(s, ch) && Marked(s)
    ensures Sound(s, OpFree(0x1_0001, true)) && !Spared(s, Walk(s.h, s.h[1].prev, MAX_HANDLES))
  {
    hide Inv, Walk, Harmless, Spared;
    ChainWalk(s, ch, 1);
    EverydayHarmless(s, ch);
  }

  /** It is sound, though the release takes with it the last clone of a freed original whose owner, the
      identity itself, still resolves. */
  lemma EverydayRun()
    ensures SoundRun(EMPTY, EVERYDAY_RUN)
    ensures var s := Run(EMPTY, SEVEN); !Spared(s, Walk(s.h, s.h[1].prev, MAX_HANDLES))
  {
    hide Run, SoundRun, Walk, Inv, Spared, Marked, Sound, Step;
    SevenIs();
    var s := Run(EMPTY, SEVEN);
    Reachable(SEVEN);
    var ch :| Inv(s, ch);
    EverydaySound(s, ch);
    OneStep(s, OpFree(0x1_0001, true));
    RunSplit(EMPTY, SEVEN, [OpFree(0x1_0001, true)]);
  }

  lemma NoSteps(s: Sys)
    ensures Run(s, []) == s && SoundRun(s, [])
  {
  }

  /** After this run the loop of ReleasePrimHandle, in its third turn, is at a slot that is not in use; it
      leaves no chains that satisfy the invariant. */
  lemma ReleaseStrays()
    ensures SoundRun(EMPTY, STRAY_RUN)
    ensures var s := Run(EMPTY, STRAY_RUN);
      && s.h[1].state.Identity?
      && (var t := FreeLinked(s, 1, 2); t.h[1].next != 0 && t.h[t.h[1].next].state.Unset?)
      && !exists ch :: Inv(ReleaseLinked(s, 1, MAX_HANDLES), ch)
  {
    hide Run, SoundRun, FreeLinked, Strayed, Vacate, Inv;
    var s := Run(EMPTY, STRAY_RUN);
    StrayRunIs();
    LoopStrays(s, MAX_HANDLES);
    forall ch: Chains ensures !Inv(ReleaseLinked(s, 1, MAX_HANDLES), ch) {
      StrayedLoses(FreeLinked(s, 1, MAX_HANDLES), ch);
    }
  }
}
