/** What is left of an identity's operations when OnSourceModIdentityDropped returns. */
module DatabaseDrop {
  import opened DatabaseMachine
  import opened DatabaseRuns
  import opened DatabaseBlock

  /** A loop that is suspended has set the operation aside. */
  predicate SetAside(k: seq<Act>, x: int) {
    exists i {:trigger k[i]} :: 0 <= i < |k| && (k[i].Drop? || k[i].Remove?) && x in k[i].todo
  }

  lemma {:induction false} CountIn(l: seq<int>, x: int)
    ensures x in l <==> Count(l, x) > 0
  {
    if l != [] { CountIn(l[1..], x); }
  }

  lemma {:induction false} TodoIn(k: seq<Act>, x: int)
    ensures SetAside(k, x) <==> Todo(k, x) > 0
  {
    if k != [] {
      var n := |k| - 1;
      TodoIn(k[..n], x);
      if k[n].Drop? || k[n].Remove? { CountIn(k[n].todo, x); }
      if SetAside(k[..n], x) {
        var i :| 0 <= i < n && (k[..n][i].Drop? || k[..n][i].Remove?) && x in k[..n][i].todo;
        assert k[i] == k[..n][i];
      }
      if SetAside(k, x) {
        var i :| 0 <= i < |k| && (k[i].Drop? || k[i].Remove?) && x in k[i].todo;
        assert i < n ==> k[..n][i] == k[i];
      }
    }
  }

  /** Activation n is there throughout the run. */
  predicate During(s: State, es: seq<Step>, n: nat)
    requires Runs(s, es)
    decreases |es|
  {
    n < |s.stack| && (es == [] || During(Apply(s, es[0]), es[1..], n))
  }

  /** No step of the run begins the drop of another identity than t, or ends a drop above activation n. */
  predicate Calm(s: State, es: seq<Step>, n: nat, t: int)
    requires Runs(s, es)
    decreases |es|
  {
    es == [] || (!Disturbs(s, es[0], n, t) && Calm(Apply(s, es[0]), es[1..], n, t))
  }

  lemma {:induction false} RunShielded(s: State, es: seq<Step>, n: nat, t: int)
    requires Inv(s) && Shielded(s, n, t) && Runs(s, es) && During(s, es, n) && Calm(s, es, n, t)
    ensures Inv(After(s, es)) && Shielded(After(s, es), n, t)
    ensures n < |After(s, es).stack| && After(s, es).stack[..n] == s.stack[..n]
    decreases |es|
  {
    hide Inv, Shielded, Enabled, Apply, Disturbs;
    if es != [] {
      var u := Apply(s, es[0]);
      assert n < |u.stack|;
      ShieldStep(s, es[0], n, t);
      ApplyInv(s, es[0]);
      RunShielded(u, es[1..], n, t);
    }
  }

  /** From the call OnSourceModIdentityDropped(t), made after the run es, the steps fs lead to where it
      returns. */
  ghost predicate Drops(es: seq<Step>, t: int, fs: seq<Step>) {
    && Runs(START, es) && Enabled(After(START, es), IdentityDropped(t))
    && var s, n := Apply(After(START, es), IdentityDropped(t)), |After(START, es).stack|;
       && Runs(s, fs) && During(s, fs, n) && Calm(s, fs, n, t)
       && |After(s, fs).stack| == n + 1 && Enabled(After(s, fs), End)
  }

  ghost function Returned(es: seq<Step>, t: int, fs: seq<Step>): State
    requires Drops(es, t, fs)
  {
    Apply(After(Apply(After(START, es), IdentityDropped(t)), fs), End)
  }

  /** Destroyed, or called by an activation that is still under way. */
  predicate DoneWith(s: State, x: int) { Count(s.destroyed, x) + Cur(s.stack, x) == 1 }

  ghost predicate OwnedOp(s: State, x: int, t: int) { x in s.ops && s.ops[x].owner == t }

  /** An operation of the identity is done with when the call returns, unless, and only unless, a loop under
      way at the call had set it aside. */
  lemma DropDone(es: seq<Step>, t: int, fs: seq<Step>, op: int)
    requires Drops(es, t, fs) && OwnedOp(Returned(es, t, fs), op, t)
    ensures Returned(es, t, fs).stack == After(START, es).stack
    ensures DoneWith(Returned(es, t, fs), op) <==> !SetAside(After(START, es).stack, op)
  {
    hide Count, Cur, Todo, Queued, Inv, Shielded;
    var a := After(START, es);
    var s, n := Apply(a, IdentityDropped(t)), |a.stack|;
    var e := After(s, fs);
    StartInv();
    RunInv(START, es);
    ApplyInv(a, IdentityDropped(t));
    ShieldBegins(a, t);
    RunShielded(s, fs, n, t);
    EndOfDrop(e, n, t, op);
    assert e.stack[..n] == a.stack by { assert s.stack[..n] == a.stack; }
    TodoIn(a.stack, op);
  }

  /** The return itself. */
  lemma EndOfDrop(e: State, n: nat, t: int, op: int)
    requires Inv(e) && Shielded(e, n, t) && |e.stack| == n + 1 && Enabled(e, End) && OwnedOp(e, op, t)
    ensures var u := Apply(e, End);
      && u.stack == e.stack[..n] && u.ops == e.ops
      && Count(u.destroyed, op) + Cur(u.stack, op) + Todo(u.stack, op) == 1
  {
    hide Count, Cur, Todo, Queued;
    assert At(e, op);
    assert e.ops[op].owner == t;
    EndAt(e, op);
  }

  /** So the call leaves nothing of the identity behind if and only if no loop under way at the call had set
      aside an operation of it; whatever the think parts tried to queue meanwhile. */
  lemma DropLeavesNothing(es: seq<Step>, t: int, fs: seq<Step>)
    requires Drops(es, t, fs)
    ensures var u, k := Returned(es, t, fs), After(START, es).stack;
      (forall op :: OwnedOp(u, op, t) ==> DoneWith(u, op)) <==> (forall op :: OwnedOp(u, op, t) ==> !SetAside(k, op))
  {
    hide DoneWith, SetAside, Returned, OwnedOp;
    var u := Returned(es, t, fs);
    forall op | OwnedOp(u, op, t) ensures DoneWith(u, op) <==> !SetAside(After(START, es).stack, op) {
      DropDone(es, t, fs, op);
    }
  }

  /** Called from outside every loop, it leaves none that is not destroyed or being run. */
  lemma OutsideLoops(es: seq<Step>, t: int, fs: seq<Step>, op: int)
    requires Drops(es, t, fs) && OwnedOp(Returned(es, t, fs), op, t)
    requires forall i {:trigger After(START, es).stack[i]} :: 0 <= i < |After(START, es).stack| ==>
      !After(START, es).stack[i].Drop? && !After(START, es).stack[i].Remove?
    ensures DoneWith(Returned(es, t, fs), op)
    ensures After(START, es).stack == [] ==> Count(Returned(es, t, fs).destroyed, op) == 1
  {
    hide Drops, Returned, OwnedOp;
    DropDone(es, t, fs, op);
  }

  // ----- a driver that is removed -----

  const TWO: map<int, Operation> := map[1 := Operation(10, 5), 2 := Operation(10, 5)]

  /** The loop of RemoveDriver(5) has set both operations aside and calls the first one's cancel part. */
  const CANCELLING: State :=
    State(TWO, [], [], [], 0, false, false, Empty, [], [Remove(5, false, [2], Some(1))], None, [1, 2], [1], [])

  lemma ToQueued() returns (es: seq<Step>)
    ensures Runs(START, es)
    ensures After(START, es) ==
      State(TWO, [], [1, 2], [], 2, false, true, Empty, [], [Remove(5, true, [], None)], None, [], [], [])
  {
    hide Runs, After, Kept, Breaks;
    RunsNone();
    var what := Operation(10, 5);
    var s := START.(ops := map[1 := what], normal := [1], worker := true);
    es := Extend(START, [], Add(1, what, Normal, true), s.(adding := true));
    es := Extend(START, es, MakeThread, s.(jobs := 1));
    var t := s.(ops := TWO, normal := [1, 2]);
    es := Extend(START, es, Add(2, what, Normal, true), t.(jobs := 1, adding := true));
    es := Extend(START, es, MakeThread, t.(jobs := 2));
    es := Extend(START, es, RemoveDriver(5), t.(jobs := 2, stack := [Remove(5, true, [], None)]));
  }

  lemma ToThinking() returns (es: seq<Step>)
    ensures Runs(START, es)
    ensures After(START, es) ==
      State(TWO, [], [], [], 0, false, true, Empty, [1, 2], [Remove(5, true, [], None)], None, [1, 2], [], [])
  {
    hide Runs, After, Kept, Breaks;
    es := ToQueued();
    var s := State(TWO, [], [2], [], 1, false, true, Empty, [], [Remove(5, true, [], None)], None, [], [], []);
    es := Extend(START, es, TakeOp(Normal), s.(hand := Taken(1)));
    es := Extend(START, es, RunThreadPart, s.(hand := Done(1), ran := [1]));
    es := Extend(START, es, PushThink, s.(think := [1], ran := [1]));
    var t := s.(normal := [], jobs := 0, think := [1], ran := [1]);
    es := Extend(START, es, TakeOp(Normal), t.(hand := Taken(2)));
    es := Extend(START, es, RunThreadPart, t.(hand := Done(2), ran := [1, 2]));
    es := Extend(START, es, PushThink, t.(think := [1, 2], ran := [1, 2]));
  }

  lemma ToCancelling() returns (es: seq<Step>)
    ensures Runs(START, es) && After(START, es) == CANCELLING
  {
    hide Runs, After, Kept, Breaks;
    es := ToThinking();
    BothPicked();
    es := Extend(START, es, Stopped, STOPPED);
    NextIs();
    es := Extend(START, es, Next, CANCELLING);
  }

  const STOPPED: State :=
    State(TWO, [], [], [], 0, false, false, Empty, [], [Remove(5, false, [1, 2], None)], None, [1, 2], [], [])

  lemma NextIs()
    ensures Enabled(STOPPED, Next) && Apply(STOPPED, Next) == CANCELLING
  {
    assert [1, 2][1..] == [2];
    assert Apply(STOPPED, Next).stack == [Remove(5, false, [2], Some(1))];
  }

  lemma BothPicked()
    ensures Pick(TWO, [1, 2], DrivenBy(5)) == [1, 2] && DatabaseMachine.Leave(TWO, [1, 2], DrivenBy(5)) == []
    ensures [1, 2][1..] == [2]
  {
    assert [1, 2][1..] == [2] && [2][1..] == [];
    assert Pick(TWO, [2], DrivenBy(5)) == [2] && DatabaseMachine.Leave(TWO, [2], DrivenBy(5)) == [];
  }

  /** The cancel part drops the identity. When that returns, the second operation of the identity is neither
      destroyed nor called by anyone: the loop of RemoveDriver will cancel it later. */
  lemma SetAsideRemains() returns (es: seq<Step>, fs: seq<Step>)
    ensures Drops(es, 10, fs) && OwnedOp(Returned(es, 10, fs), 2, 10)
    ensures var u := Returned(es, 10, fs);
      Count(u.destroyed, 2) == 0 && Count(u.begun, 2) == 0 && Cur(u.stack, 2) == 0 && Todo(u.stack, 2) == 1
  {
    es := ToCancelling();
    fs := [Stopped];
    DropWaits();
    DropEnds();
    assert fs[1..] == [] && Runs(ENDING, []) && After(ENDING, []) == ENDING;
    hide Enabled, Apply;
    assert Runs(WAITING, fs) && After(WAITING, fs) == ENDING && During(WAITING, fs, 1) && Calm(WAITING, fs, 1, 10);
    OneLoop(Remove(5, false, [2], Some(1)));
  }

  const WAITING: State := CANCELLING.(
    stack := [Remove(5, false, [2], Some(1)), Drop(10, true, [], None)], addBlock := Some(10))

  const ENDING: State := CANCELLING.(
    stack := [Remove(5, false, [2], Some(1)), Drop(10, false, [], None)], addBlock := Some(10))

  lemma DropWaits()
    ensures Enabled(CANCELLING, IdentityDropped(10)) && Apply(CANCELLING, IdentityDropped(10)) == WAITING
  {
  }

  lemma DropEnds()
    ensures Enabled(WAITING, Stopped) && Apply(WAITING, Stopped) == ENDING
    ensures Enabled(ENDING, End) && Apply(ENDING, End) == CANCELLING
  {
    assert Apply(WAITING, Stopped).stack == ENDING.stack;
    assert Apply(ENDING, End).stack == CANCELLING.stack;
  }

  lemma OneLoop(a: Act)
    requires a == Remove(5, false, [2], Some(1))
    ensures Cur([a], 2) == 0 && Todo([a], 2) == 1
  {
    assert [a][..0] == [];
  }
}
