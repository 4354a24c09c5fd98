/** Every run of the timer system, re-entrant calls included. */
module TimerRuns {
  import opened TimerMachine
  import opened TimerInv
  import opened TimerNested

  predicate IsRun(f: Frame) { f.RunSingle? || f.RunLoop? }

  /** RunFrame is at the bottom; the loop of RemoveMapChangeTimers is suspended at most once, in a call of
      KillTimer, and has something on its stack exactly then. */
  ghost predicate FramesOk(s: State) {
    && (forall i {:trigger s.stack[i]} :: 0 < i < |s.stack| ==> !IsRun(s.stack[i]))
    && (forall i {:trigger s.stack[i]} :: 0 <= i < |s.stack| && s.stack[i].RunLoop? ==> s.stack[i].t in s.loops)
    && (forall i {:trigger s.stack[i]} :: 0 <= i < |s.stack| && s.stack[i].Drain? ==>
          i + 1 < |s.stack| && s.stack[i + 1].Kill?)
    && (forall i, j {:trigger s.stack[i], s.stack[j]} :: 0 <= i < j < |s.stack| ==>
          !s.stack[i].Drain? || !s.stack[j].Drain?)
    && (s.tokill != [] <==> Draining(s))
    && (forall k {:trigger s.tokill[k]} :: 0 <= k < |s.tokill| ==> s.tokill[k] in s.timers)
  }

  ghost predicate Inv(s: State) {
    Core(s) && FramesOk(s) && !s.fault
  }

  lemma CoreLists(s: State)
    requires Core(s)
    ensures ListsOk(s) && StackOk(s)
    ensures forall t :: Live(s, t) ==> t in s.timers
    ensures forall t :: t in s.timers && !s.timers[t].inExec ==> Live(s, t)
    ensures s.stack == [] ==> forall t :: Live(s, t) ==> !s.timers[t].inExec
  {
    hide EndsOk, Sorted;
    forall t | Live(s, t) ensures t in s.timers && t !in s.free { assert t in s.timers; }
  }

  /** An activation is pushed on a stack that has no more to be killed. */
  lemma EnterFrames(s: State, f: Frame)
    requires FramesOk(s) && !f.Drain? && f.t in s.timers && (IsRun(f) ==> s.stack == [])
    requires f.RunLoop? ==> f.t in s.loops
    ensures FramesOk(Enter(s, f))
  {
    var u := Enter(s, f);
    assert forall i {:trigger u.stack[i]} :: 0 <= i < |s.stack| ==> u.stack[i] == s.stack[i];
    assert Draining(u) <==> Draining(s);
  }

  lemma {:induction false} LoopFromInv(s: State, k: nat, now: real)
    requires Inv(s) && s.stack == []
    ensures Inv(LoopFrom(s, k, now))
    decreases |s.loops| - k
  {
    hide Core, FramesOk, Enter;
    if k < |s.loops| {
      var t := s.loops[k];
      if Due(s, t, now) {
        CoreLists(s);
        assert t in s.loops;
        EnterCore(s, RunLoop(t, OnTimer, now));
        EnterFrames(s, RunLoop(t, OnTimer, now));
        EnterFault(s, RunLoop(t, OnTimer, now));
      } else {
        LoopFromInv(s, k + 1, now);
      }
    }
  }

  lemma EnterFault(s: State, f: Frame)
    requires !f.Drain? && f.t in s.timers
    ensures Enter(s, f).fault == s.fault
  {
  }

  lemma SingleFromInv(s: State, k: nat, now: real)
    requires Inv(s) && s.stack == []
    ensures Inv(SingleFrom(s, k, now))
  {
    hide Core, FramesOk, Enter;
    if k < |s.single| && Due(s, s.single[k], now) {
      var t := s.single[k];
      CoreLists(s);
      assert t in s.single;
      EnterCore(s, RunSingle(t, OnTimer, now));
      EnterFrames(s, RunSingle(t, OnTimer, now));
      EnterFault(s, RunSingle(t, OnTimer, now));
    } else {
      LoopFromInv(s, 0, now);
    }
  }

  // ----- the loop of RemoveMapChangeTimers -----

  /** The loop is running: it is on top, and nowhere else. */
  ghost predicate InLoop(s: State) {
    && s.stack != [] && Top(s).Drain? && !s.fault
    && (forall i {:trigger s.stack[i]} :: 0 < i < |s.stack| ==> !IsRun(s.stack[i]))
    && (forall i {:trigger s.stack[i]} :: 0 <= i < |s.stack| - 1 ==> !s.stack[i].Drain?)
    && (forall i {:trigger s.stack[i]} :: 0 <= i < |s.stack| && s.stack[i].RunLoop? ==> s.stack[i].t in s.loops)
    && (forall k {:trigger s.tokill[k]} :: 0 <= k < |s.tokill| ==> s.tokill[k] in s.timers)
  }

  lemma DrainCore(s: State)
    requires Core(s)
    ensures Core(s.(stack := s.stack + [Drain]))
  {
    hide ListsOk, Sorted, Busy, Ending, Single;
    var u := s.(stack := s.stack + [Drain]);
    PushBusy(s.stack, Drain);
    ListsSame(s, u);
    EndsFrame(s, u);
  }

  lemma EndsFrame(s: State, u: State)
    requires EndsOk(s) && u.timers == s.timers && u.free == s.free && u.ended == s.ended && u.made == s.made
    requires Ending(u.stack) == Ending(s.stack)
    ensures EndsOk(u)
  {
    hide Ending, Distinct;
    forall x {:trigger x in u.ended} | 0 <= x < u.made ensures x in u.ended || Current(u, x) {
      if x !in s.ended {
        var v :| v in s.timers && v !in s.free && s.timers[v].serial == x;
        assert u.timers[v].serial == x;
      }
    }
  }

  lemma PopDrainCore(s: State)
    requires Core(s) && s.stack != [] && Top(s).Drain?
    ensures Core(Pop(s))
  {
    hide ListsOk, Sorted;
    ListsSame(s, Pop(s));
    EndsFrame(s, Pop(s));
  }

  lemma TokillCore(s: State, l: seq<int>)
    requires Core(s)
    ensures Core(s.(tokill := l))
  {
    hide Busy, Ending, Single, Distinct, SortedBy;
    var u := s.(tokill := l);
    ListsSame(s, u);
    EndsFrame(s, u);
  }

  lemma {:induction false} DrainLoopInv(s: State)
    requires Core(s) && InLoop(s)
    ensures Inv(DrainLoop(s))
    decreases |s.tokill|
  {
    hide Core, FramesOk, Enter, InLoop;
    LoopFacts(s);
    if s.tokill == [] {
      PopDrainCore(s);
      LoopDone(s);
    } else {
      var n := |s.tokill| - 1;
      var t, l := s.tokill[n], s.tokill[..n];
      CoreLists(s);
      if s.timers[t].killMe {
        TokillCore(s, l);
        LoopOn(s, s.(tokill := l));
        DrainLoopInv(s.(tokill := l));
      } else if s.timers[t].inExec {
        var u := MarkKill(s, t);
        MarkCore(s, t);
        TokillCore(u, l);
        LoopOn(s, u.(tokill := l));
        DrainLoopInv(u.(tokill := l));
      } else {
        EnterCore(s, Kill(t));
        LoopSuspends(s, t);
      }
    }
  }

  lemma LoopFacts(s: State)
    requires InLoop(s)
    ensures s.stack != [] && Top(s).Drain? && (s.tokill != [] ==> s.tokill[|s.tokill| - 1] in s.timers)
  {
  }

  lemma LoopDone(s: State)
    requires InLoop(s) && s.tokill == []
    ensures FramesOk(Pop(s)) && !Pop(s).fault
  {
    var u := Pop(s);
    assert forall i {:trigger u.stack[i]} :: 0 <= i < |u.stack| ==> u.stack[i] == s.stack[i];
  }

  lemma LoopOn(s: State, u: State)
    requires InLoop(s) && s.tokill != [] && u.tokill == s.tokill[..|s.tokill| - 1] && u.timers.Keys == s.timers.Keys
    requires u.stack == s.stack && u.loops == s.loops && u.fault == s.fault
    ensures InLoop(u)
  {
    assert forall k {:trigger u.tokill[k]} :: 0 <= k < |u.tokill| ==> u.tokill[k] == s.tokill[k];
  }

  lemma LoopSuspends(s: State, t: int)
    requires InLoop(s) && s.tokill != [] && t in s.timers
    ensures FramesOk(Enter(s, Kill(t))) && !Enter(s, Kill(t)).fault
  {
    var u := Enter(s, Kill(t));
    assert forall i {:trigger u.stack[i]} :: 0 <= i < |s.stack| ==> u.stack[i] == s.stack[i];
    assert u.stack[|s.stack| - 1] == Drain;
    assert Drain in u.stack;
  }

  lemma {:induction false} NoMapIn(s: State, l: seq<int>)
    ensures forall k {:trigger NoMap(s, l)[k]} :: 0 <= k < |NoMap(s, l)| ==> NoMap(s, l)[k] in s.timers
  {
    if l != [] {
      NoMapIn(s, l[1..]);
      var h := if l[0] in s.timers && s.timers[l[0]].noMap then [l[0]] else [];
      assert NoMap(s, l) == h + NoMap(s, l[1..]);
    }
  }

  lemma RemoveMapChangeInv(s: State)
    requires Inv(s) && !Draining(s)
    ensures Inv(RemoveMapChange(s))
  {
    hide Core;
    var l := s.tokill + NoMap(s, s.single) + NoMap(s, s.loops);
    var u := s.(tokill := l, stack := s.stack + [Drain]);
    NoMapIn(s, s.single);
    NoMapIn(s, s.loops);
    DrainCore(s);
    TokillCore(s.(stack := s.stack + [Drain]), l);
    assert forall i {:trigger u.stack[i]} :: 0 <= i < |s.stack| ==> u.stack[i] == s.stack[i] && s.stack[i] in s.stack;
    DrainLoopInv(u);
  }

  // ----- returns -----

  /** What Retire leaves of the activations. */
  lemma RetireLeaves(s: State)
    requires Inv(s) && s.stack != [] && !Top(s).Drain? && Ends(Top(s)) && Top(s).t in s.timers
    ensures var u := Retire(s); var n := |s.stack| - 1;
      && u.stack == s.stack[..n] && u.tokill == s.tokill && !u.fault && u.timers == s.timers
      && forall i {:trigger u.stack[i]} :: 0 <= i < n && u.stack[i].RunLoop? ==> u.stack[i].t in u.loops
  {
    hide Core, EndsOk, Sorted, Busy;
    var u, n := Retire(s), |s.stack| - 1;
    CoreLists(s);
    WithoutLoops(s, Top(s).t);
    forall i {:trigger u.stack[i]} | 0 <= i < n && u.stack[i].RunLoop? ensures u.stack[i].t in u.loops {
      assert u.stack[i] == s.stack[i];
      BelowTop(s.stack, i);
    }
  }

  lemma RetireFrames(s: State)
    requires Inv(s) && s.stack != [] && !Top(s).Drain? && Ends(Top(s)) && Top(s).t in s.timers
    ensures var u := Retire(s); var n := |s.stack| - 1;
      && u.stack == s.stack[..n] && u.tokill == s.tokill && !u.fault && u.timers == s.timers
      && (n == 0 || !s.stack[n - 1].Drain? ==> FramesOk(u))
      && (n > 0 && s.stack[n - 1].Drain? ==> s.tokill != [] && InLoop(u))
  {
    hide Core, Retire;
    RetireLeaves(s);
    var u, n := Retire(s), |s.stack| - 1;
    assert forall i {:trigger u.stack[i]} :: 0 <= i < n ==> u.stack[i] == s.stack[i];
    if n == 0 || !s.stack[n - 1].Drain? {
      assert Draining(u) ==> Draining(s);
      if Draining(s) {
        var d :| 0 <= d < |s.stack| && s.stack[d] == Drain;
        assert d < n && u.stack[d] == Drain;
      }
    } else {
      assert s.stack[n - 1] == Drain && Draining(s);
    }
  }

  lemma WithoutLoops(s: State, t: int)
    requires ListsOk(s)
    ensures forall x :: x in Without(s.loops, t) <==> x in s.loops && x != t
  {
    WithoutIn(s.loops, t);
  }

  /** Below the top there are other timers. */
  lemma {:induction false} BelowTop(k: seq<Frame>, i: nat)
    requires Single(k) && i < |k| - 1 && !k[i].Drain? && !k[|k| - 1].Drain?
    ensures k[i].t != k[|k| - 1].t
  {
    BusyIn(k[..|k| - 1], i);
  }

  lemma {:induction false} BusyIn(k: seq<Frame>, i: nat)
    requires i < |k| && !k[i].Drain?
    ensures k[i].t in Busy(k)
  {
    if i < |k| - 1 { BusyIn(k[..|k| - 1], i); }
  }

  lemma AfterRetire(s: State)
    requires Inv(s) && s.stack != [] && !Top(s).Drain? && Ends(Top(s)) && Top(s).t in s.timers
    ensures Top(s).Kill? ==> Inv(AfterKill(Retire(s)))
    ensures |s.stack| == 1 || !s.stack[|s.stack| - 2].Drain? ==> Inv(Retire(s))
  {
    hide Core, FramesOk, InLoop;
    RetireCore(s);
    RetireFrames(s);
    var u := Retire(s);
    if u.stack != [] && Top(u).Drain? {
      var v := u.(tokill := u.tokill[..|u.tokill| - 1]);
      TokillCore(u, v.tokill);
      LoopOn(u, v);
      DrainLoopInv(v);
    }
  }

  lemma ToEndFrames(s: State)
    requires FramesOk(s) && s.stack != [] && (IsRun(Top(s)) || Top(s).Fire?) && Top(s).t in s.timers
    ensures FramesOk(ToEnd(s)) && ToEnd(s).fault == s.fault
  {
    var u, n := ToEnd(s), |s.stack| - 1;
    assert forall i {:trigger u.stack[i]} :: 0 <= i < n ==> u.stack[i] == s.stack[i];
    if Draining(s) {
      var d :| 0 <= d < |s.stack| && s.stack[d] == Drain;
      assert d < n && u.stack[d] == Drain;
    }
  }

  /** The frame below the top is the loop of RemoveMapChangeTimers only under a KillTimer. */
  lemma BelowFire(s: State)
    requires FramesOk(s) && s.stack != [] && !Top(s).Kill? && !Top(s).Drain?
    ensures |s.stack| == 1 || !s.stack[|s.stack| - 2].Drain?
  {
    if |s.stack| > 1 {
      var i := |s.stack| - 2;
      assert s.stack[i + 1] == Top(s);
    }
  }

  lemma LeaveFrames(s: State, toExec: real)
    requires FramesOk(s) && s.stack != [] && !Top(s).Kill? && !Top(s).Drain? && Top(s).t in s.timers
    ensures FramesOk(Leave(s, toExec)) && Leave(s, toExec).fault == s.fault
  {
    BelowFire(s);
    var u, n := Leave(s, toExec), |s.stack| - 1;
    assert forall i {:trigger u.stack[i]} :: 0 <= i < n ==> u.stack[i] == s.stack[i];
    assert u.timers.Keys == s.timers.Keys;
    if Draining(s) {
      var d :| 0 <= d < |s.stack| && s.stack[d] == Drain;
      assert d < n && u.stack[d] == Drain;
    }
  }

  lemma RunAtBottom(s: State)
    requires FramesOk(s) && s.stack != [] && IsRun(Top(s))
    ensures |s.stack| == 1 && (Top(s).RunLoop? ==> Top(s).t in s.loops)
  {
  }

  lemma ReturnInv(s: State, stop: bool, now: real)
    requires Inv(s) && s.stack != []
    ensures Inv(Return(s, stop, now))
  {
    if !Top(s).Drain? && Top(s).t in s.timers {
      hide Core, FramesOk, Retire, Leave, ToEnd, SingleFrom, LoopFrom;
      var f := Top(s);
      match f
      case RunSingle(t, p, at) => ReturnSingle(s);
      case RunLoop(t, p, at) => ReturnLoop(s, stop, now);
      case Fire(t, p, delay) => ReturnFire(s, stop, now);
      case Kill(t) => AfterRetire(s);
    }
  }

  lemma StackShorter(s: State, toExec: real)
    requires s.stack != [] && !Top(s).Drain? && Top(s).t in s.timers
    ensures Retire(s).stack == s.stack[..|s.stack| - 1] && Leave(s, toExec).stack == s.stack[..|s.stack| - 1]
  {
  }

  lemma ReturnSingle(s: State)
    requires Inv(s) && s.stack != [] && Top(s).RunSingle? && Top(s).t in s.timers
    ensures var f := Top(s);
      Inv(if f.phase == OnTimer then ToEnd(s) else SingleFrom(Retire(s), IndexOf(s.single, f.t), f.now))
  {
    hide Core, FramesOk, Retire, Leave, ToEnd, SingleFrom;
    var f := Top(s);
    RunAtBottom(s);
    if f.phase == OnTimer {
      ToEndCore(s);
      ToEndFrames(s);
    } else {
      AfterRetire(s);
      StackShorter(s, 0.0);
      SingleFromInv(Retire(s), IndexOf(s.single, f.t), f.now);
    }
  }

  lemma ReturnLoop(s: State, stop: bool, now: real)
    requires Inv(s) && s.stack != [] && Top(s).RunLoop? && Top(s).t in s.timers
    ensures Inv(Return(s, stop, now))
  {
    hide Core, FramesOk, Retire, Leave, ToEnd, LoopFrom;
    var f := Top(s);
    var r := s.timers[f.t];
    RunAtBottom(s);
    if f.phase == OnTimerEnd {
      AfterRetire(s);
      StackShorter(s, 0.0);
      LoopFromInv(Retire(s), IndexOf(s.loops, f.t), f.now);
    } else if r.killMe || stop {
      ToEndCore(s);
      ToEndFrames(s);
    } else {
      LoopRepeats(s, f.t);
      var at := NextThink(r.toExec, r.interval, f.now);
      LeaveCore(s, at);
      LeaveFrames(s, at);
      StackShorter(s, at);
      LoopFromInv(Leave(s, at), IndexOf(s.loops, f.t) + 1, f.now);
    }
  }

  lemma LoopRepeats(s: State, t: int)
    requires Core(s) && t in s.loops
    ensures t in s.timers && s.timers[t].repeats
  {
    assert t in s.timers;
  }

  lemma ReturnFire(s: State, stop: bool, now: real)
    requires Inv(s) && s.stack != [] && Top(s).Fire? && Top(s).t in s.timers
    ensures Inv(Return(s, stop, now))
  {
    hide Core, FramesOk, Retire, Leave, ToEnd;
    var f := Top(s);
    var r := s.timers[f.t];
    if f.phase == OnTimerEnd {
      BelowFire(s);
      AfterRetire(s);
    } else if r.repeats && !stop && !r.killMe {
      var at := if f.delay then now + r.interval else r.toExec;
      LeaveCore(s, at);
      LeaveFrames(s, at);
    } else {
      ToEndCore(s);
      ToEndFrames(s);
    }
  }

  // ----- runs -----

  lemma CreateFrames(s: State, unused: int, interval: real, repeats: bool, noMap: bool, now: real)
    requires FramesOk(s)
    ensures var u := Create(s, unused, interval, repeats, noMap, now); FramesOk(u) && u.fault == s.fault
  {
    hide Insert;
    var u := Create(s, unused, interval, repeats, noMap, now);
    assert s.timers.Keys <= u.timers.Keys && forall t :: t in s.loops ==> t in u.loops;
  }

  lemma KillInv(s: State, t: int)
    requires Inv(s) && t in s.timers
    ensures Inv(KillTimer(s, t)) && Inv(FireTimer(s, t, true)) && Inv(FireTimer(s, t, false))
  {
    hide Core, FramesOk, Enter;
    CoreLists(s);
    if s.timers[t].inExec {
      MarkCore(s, t);
      MarkFrames(s, t);
    } else {
      EnterCore(s, Kill(t));
      EnterFrames(s, Kill(t));
      EnterFault(s, Kill(t));
      EnterCore(s, Fire(t, OnTimer, true));
      EnterFrames(s, Fire(t, OnTimer, true));
      EnterFault(s, Fire(t, OnTimer, true));
      EnterCore(s, Fire(t, OnTimer, false));
      EnterFrames(s, Fire(t, OnTimer, false));
      EnterFault(s, Fire(t, OnTimer, false));
    }
  }

  lemma MarkFrames(s: State, t: int)
    requires FramesOk(s) && t in s.timers
    ensures FramesOk(MarkKill(s, t)) && MarkKill(s, t).fault == s.fault
  {
    assert MarkKill(s, t).timers.Keys == s.timers.Keys;
  }

  lemma ApplyInv(s: State, e: Event)
    requires Inv(s) && Allowed(s, e) && (e.MapChange? ==> !Draining(s))
    ensures Inv(Apply(s, e))
  {
    hide Core, FramesOk, Create, KillTimer, FireTimer, RemoveMapChange, SingleFrom, Return;
    CoreLists(s);
    match e
    case NewTimer(unused, interval, repeats, noMap, now) =>
      CreateCore(s, unused, interval, repeats, noMap, now);
      CreateFrames(s, unused, interval, repeats, noMap, now);
    case KillIt(t) => KillInv(s, t);
    case FireIt(t, delay) => KillInv(s, t);
    case MapChange => RemoveMapChangeInv(s);
    case Tick(now) => SingleFromInv(s, 0, now);
    case Back(stop, now) => ReturnInv(s, stop, now);
  }

  /** Every run in which RemoveMapChangeTimers is not called from within itself keeps the invariant. */
  lemma {:induction false} RunInv(s: State, es: seq<Event>)
    requires Inv(s) && Runs(s, es) && Flat(s, es)
    ensures Inv(After(s, es))
    decreases |es|
  {
    hide Inv, Allowed, Apply;
    if es != [] {
      ApplyInv(s, es[0]);
      RunInv(Apply(s, es[0]), es[1..]);
    }
  }

  lemma StartInv()
    ensures Inv(START)
  {
  }

  lemma InvNotDoomed(s: State)
    requires FramesOk(s)
    ensures !Doomed(s) && (Draining(s) <==> Drains(s.stack) >= 1)
  {
    hide Drains;
    DrainsIn(s.stack);
  }

  /** A run is doomed exactly when RemoveMapChangeTimers has been called from within itself. */
  lemma {:induction false} DoomedExactly(s: State, es: seq<Event>)
    requires Inv(s) && Runs(s, es)
    ensures Doomed(After(s, es)) <==> !Flat(s, es)
    decreases |es|
  {
    hide Core, FramesOk, Doomed, Drains, Apply, Allowed;
    InvNotDoomed(s);
    if es != [] {
      if es[0].MapChange? && Draining(s) {
        NestedApplied(s);
        DoomedStays(Apply(s, es[0]), es[1..]);
      } else {
        ApplyInv(s, es[0]);
        DoomedExactly(Apply(s, es[0]), es[1..]);
      }
    }
  }

  lemma NestedApplied(s: State)
    requires Drains(s.stack) >= 1
    ensures Doomed(Apply(s, MapChange))
  {
    hide Doomed, RemoveMapChange;
    NestedDooms(s);
  }

  /** A run that has come to rest, every call returned, made no such call. */
  lemma RestsFlat(es: seq<Event>)
    requires Runs(START, es) && After(START, es).stack == []
    ensures Flat(START, es)
  {
    StartInv();
    DoomedExactly(START, es);
    if Doomed(After(START, es)) { DoomedSuspended(After(START, es)); }
  }

  /** So a run that ends, at rest or at an empty stack popped, ends at rest if and only if
      RemoveMapChangeTimers was never called from within itself. */
  lemma FaultExactly(es: seq<Event>)
    requires Runs(START, es) && (After(START, es).stack == [] || After(START, es).fault)
    ensures After(START, es).fault <==> !Flat(START, es)
  {
    if Flat(START, es) {
      StartInv();
      RunInv(START, es);
    } else if After(START, es).stack == [] {
      RestsFlat(es);
    }
  }

  /** Each timer object is in exactly one list, whatever its listeners have called. */
  lemma OneList(es: seq<Event>, t: int)
    requires Runs(START, es) && (Flat(START, es) || After(START, es).stack == [])
    ensures var s := After(START, es);
      && !s.fault
      && (t in s.timers <==> t in s.single || t in s.loops || t in s.free)
      && !(t in s.single && t in s.loops) && !(t in s.single && t in s.free) && !(t in s.loops && t in s.free)
      && Distinct(s.single) && Distinct(s.loops) && Distinct(s.free)
  {
    if After(START, es).stack == [] { RestsFlat(es); }
    StartInv();
    RunInv(START, es);
    CoreLists(After(START, es));
  }

  /** OnTimerEnd is called once for a creation whose timer has gone, and never for one that stays; when
      nothing is suspended, every creation has either a live timer or its one OnTimerEnd. */
  lemma EndOnce(es: seq<Event>, x: nat)
    requires Runs(START, es) && (Flat(START, es) || After(START, es).stack == []) && x < After(START, es).made
    ensures var s := After(START, es);
      && Distinct(s.ended)
      && (x in s.ended || Current(s, x))
      && (s.stack == [] ==> (x in s.ended <==> !Current(s, x)))
  {
    if After(START, es).stack == [] { RestsFlat(es); }
    StartInv();
    RunInv(START, es);
    var s := After(START, es);
    hide Distinct;
    assert x in s.ended || Current(s, x);
    if s.stack == [] && Current(s, x) {
      var t :| t in s.timers && t !in s.free && s.timers[t].serial == x;
      assert s.timers[t].serial in s.ended <==> t in s.free || t in Ending(s.stack);
    }
  }

  // ----- the exception -----

  /** Called from within itself, RemoveMapChangeTimers empties the stack that its outer loop then pops:
      one timer and its OnTimerEnd are enough. */
  lemma NestedMapChangeFaults()
    ensures var es := [NewTimer(0, 1.0, false, true, 0.0), MapChange, MapChange, Back(false, 0.0)];
      Runs(START, es) && !Flat(START, es) && After(START, es).fault
  {
    var new1 := NewTimer(0, 1.0, false, true, 0.0);
    var s1 := Apply(START, new1);
    var r := Timer(0, 1.0, 1.0, false, true, false, false);
    assert s1 == State(map[0 := r], [0], [], [], [], [], 1, [], false);
    var s2 := Apply(s1, MapChange);
    NestedFirst(s1, r);
    var s3 := Apply(s2, MapChange);
    NestedSecond(s2, r.(inExec := true));
    var s4 := Apply(s3, Back(false, 0.0));
    NestedBack(s3, r.(inExec := true, killMe := true));
    var es := [new1, MapChange, MapChange, Back(false, 0.0)];
    assert es[1..] == [MapChange, MapChange, Back(false, 0.0)];
    assert es[1..][1..] == [MapChange, Back(false, 0.0)];
    assert es[1..][1..][1..] == [Back(false, 0.0)];
    assert es[1..][1..][1..][1..] == [];
    assert Runs(s3, [Back(false, 0.0)]) && After(s3, [Back(false, 0.0)]) == s4;
  }

  lemma NestedFirst(s: State, r: Timer)
    requires r.noMap && !r.inExec && !r.killMe && r.serial == 0
    requires s == State(map[0 := r], [0], [], [], [], [], 1, [], false)
    ensures RemoveMapChange(s) == State(map[0 := r.(inExec := true)], [0], [], [], [0], [Drain, Kill(0)], 1, [0], false)
  {
    assert NoMap(s, [0]) == [0] by { assert [0][1..] == []; }
    assert NoMap(s, []) == [];
    assert s.tokill + NoMap(s, s.single) + NoMap(s, s.loops) == [0];
    assert [] + [Drain] == [Drain];
    assert [Drain] + [Kill(0)] == [Drain, Kill(0)];
  }

  lemma NestedSecond(s: State, r: Timer)
    requires r.noMap && r.inExec && !r.killMe
    requires s == State(map[0 := r], [0], [], [], [0], [Drain, Kill(0)], 1, [0], false)
    ensures RemoveMapChange(s) == State(map[0 := r.(killMe := true)], [0], [], [], [], [Drain, Kill(0)], 1, [0], false)
  {
    assert NoMap(s, [0]) == [0] by { assert [0][1..] == []; }
    assert NoMap(s, []) == [];
    var u := s.(tokill := s.tokill + NoMap(s, s.single) + NoMap(s, s.loops), stack := s.stack + [Drain]);
    assert u.tokill == [0, 0] && u.tokill[..1] == [0];
    var v := MarkKill(u, 0).(tokill := [0]);
    assert DrainLoop(u) == DrainLoop(v);
    var w := v.(tokill := []);
    assert [0][..0] == [];
    assert DrainLoop(v) == DrainLoop(w);
    assert DrainLoop(w) == Pop(w);
    assert Pop(w).stack == [Drain, Kill(0)];
  }

  lemma NestedBack(s: State, r: Timer)
    requires !r.repeats && s == State(map[0 := r], [0], [], [], [], [Drain, Kill(0)], 1, [0], false)
    ensures Return(s, false, 0.0).fault
  {
    assert Top(s) == Kill(0);
    assert Retire(s).stack == [Drain];
  }
}
