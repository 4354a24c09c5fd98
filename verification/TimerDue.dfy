/** Which timers RunFrame calls, in which order, and when a repeating timer is executed next. */
module TimerDue {
  import opened TimerMachine
  import opened TimerInv
  import opened TimerRuns

  predicate Known(s: State, l: seq<int>) { forall k {:trigger l[k]} :: 0 <= k < |l| ==> l[k] in s.timers }

  lemma ListsKnown(s: State)
    requires Core(s)
    ensures Known(s, s.single) && Known(s, s.loops)
  {
    hide Core;
    CoreLists(s);
    forall k | 0 <= k < |s.single| ensures s.single[k] in s.timers { assert Live(s, s.single[k]); }
    forall k | 0 <= k < |s.loops| ensures s.loops[k] in s.timers { assert Live(s, s.loops[k]); }
  }

  // ----- the loop over the repeating timers -----

  /** From entry k on the loop calls the first repeating timer whose time has come, and comes to rest if there
      is none. */
  ghost predicate CallsFirst(s: State, k: nat, now: real, u: State) {
    || (u == s && forall j {:trigger s.loops[j]} :: k <= j < |s.loops| ==>
          s.loops[j] in s.timers && now < s.timers[s.loops[j]].toExec)
    || exists m {:trigger s.loops[m]} ::
         && k <= m < |s.loops| && s.loops[m] in s.timers && s.timers[s.loops[m]].toExec <= now
         && u == Enter(s, RunLoop(s.loops[m], OnTimer, now))
         && forall j {:trigger s.loops[j]} :: k <= j < m ==>
              s.loops[j] in s.timers && now < s.timers[s.loops[j]].toExec
  }

  lemma {:induction false} LoopCalls(s: State, k: nat, now: real)
    requires Known(s, s.loops)
    ensures CallsFirst(s, k, now, LoopFrom(s, k, now))
    decreases |s.loops| - k
  {
    hide Enter;
    if k < |s.loops| {
      var t := s.loops[k];
      if !Due(s, t, now) {
        LoopCalls(s, k + 1, now);
        var u := LoopFrom(s, k + 1, now);
        if u != s {
          var m :| && k < m < |s.loops| && s.loops[m] in s.timers && s.timers[s.loops[m]].toExec <= now
            && u == Enter(s, RunLoop(s.loops[m], OnTimer, now))
            && forall j {:trigger s.loops[j]} :: k < j < m ==>
                 s.loops[j] in s.timers && now < s.timers[s.loops[j]].toExec;
          assert s.loops[m] == s.loops[m];
        }
      }
    }
  }

  // ----- only timers whose time has come -----

  /** The timer that RunFrame is calling was due. */
  ghost predicate FrameDue(s: State) {
    s.stack != [] && IsRun(s.stack[0]) ==>
      var f := s.stack[0];
      f.t in s.timers && s.timers[f.t].toExec <= f.now && (f.RunSingle? ==> f.t in s.single)
  }

  /** RunFrame is still calling the timer it was calling, whose time is the same. */
  ghost predicate SameCall(s: State, u: State) {
    u.stack != [] && IsRun(u.stack[0]) ==>
      && s.stack != [] && IsRun(s.stack[0]) && s.stack[0].t == u.stack[0].t && s.stack[0].now == u.stack[0].now
      && s.stack[0].RunSingle? == u.stack[0].RunSingle? && (s.stack[0].t in s.single ==> s.stack[0].t in u.single)
      && (s.stack[0].t in s.timers ==>
            s.stack[0].t in u.timers && u.timers[s.stack[0].t].toExec == s.timers[s.stack[0].t].toExec)
  }

  lemma SameDue(s: State, u: State)
    requires FrameDue(s) && SameCall(s, u)
    ensures FrameDue(u)
  {
  }

  lemma SameTrans(s: State, u: State, v: State)
    requires SameCall(s, u) && SameCall(u, v)
    ensures SameCall(s, v)
  {
  }

  lemma LoopDue(s: State, k: nat, now: real)
    requires s.stack == []
    ensures FrameDue(LoopFrom(s, k, now))
    decreases |s.loops| - k
  {
    if k < |s.loops| && !Due(s, s.loops[k], now) { LoopDue(s, k + 1, now); }
  }

  lemma SingleDue(s: State, k: nat, now: real)
    requires s.stack == []
    ensures FrameDue(SingleFrom(s, k, now))
  {
    if k < |s.single| { assert s.single[k] in s.single; }
    LoopDue(s, 0, now);
  }

  lemma {:induction false} DrainSame(s: State)
    requires s.stack != [] && Top(s).Drain?
    ensures SameCall(s, DrainLoop(s))
    decreases |s.tokill|
  {
    if s.tokill != [] {
      var n := |s.tokill| - 1;
      var t := s.tokill[n];
      if t !in s.timers || s.timers[t].killMe { DrainSame(s.(tokill := s.tokill[..n])); }
      else if s.timers[t].inExec { DrainSame(MarkKill(s, t).(tokill := s.tokill[..n])); }
    }
  }

  lemma MapChangeSame(s: State)
    ensures SameCall(s, RemoveMapChange(s))
  {
    hide DrainLoop, NoMap;
    var u := s.(tokill := s.tokill + NoMap(s, s.single) + NoMap(s, s.loops), stack := s.stack + [Drain]);
    DrainSame(u);
    SameTrans(s, u, DrainLoop(u));
  }

  /** A timer in an activation is not on the free stack. */
  lemma CalledLives(s: State, i: nat)
    requires Core(s) && i < |s.stack| && !s.stack[i].Drain?
    ensures s.stack[i].t in s.timers && s.stack[i].t !in s.free
  {
    hide EndsOk, Sorted;
    BusyIn(s.stack, i);
    assert Live(s, s.stack[i].t);
    assert s.stack[i].t in s.timers;
  }

  lemma {:induction false} InsertBeforeHas(s: State, l: seq<int>, t: int, at: real, x: int)
    requires x in l
    ensures x in InsertBefore(s, l, t, at)
  {
    if !Later(s, l[0], at) && x != l[0] { InsertBeforeHas(s, l[1..], t, at, x); }
  }

  lemma InsertHas(s: State, l: seq<int>, t: int, at: real, x: int)
    ensures x in l ==> x in Insert(s, l, t, at)
  {
    if x in l { InsertBeforeHas(s, l, t, at, x); }
  }

  lemma {:induction false} WithoutOther(l: seq<int>, t: int, x: int)
    requires x != t
    ensures x in l ==> x in Without(l, t)
  {
    if l != [] { WithoutOther(l[1..], t, x); }
  }

  lemma CreateSame(s: State, unused: int, interval: real, repeats: bool, noMap: bool, now: real)
    requires Inv(s) && unused !in s.timers
    ensures SameCall(s, Create(s, unused, interval, repeats, noMap, now))
  {
    hide Insert, Core, FramesOk;
    if s.stack != [] && IsRun(s.stack[0]) {
      CalledLives(s, 0);
      InsertHas(s, s.single, if s.free == [] then unused else s.free[|s.free| - 1], now + interval, s.stack[0].t);
      if s.free != [] { assert s.free[|s.free| - 1] in s.free; }
    }
  }

  lemma TopAlone(s: State)
    requires Core(s) && |s.stack| > 1 && !s.stack[0].Drain? && !Top(s).Drain?
    ensures s.stack[0].t != Top(s).t
  {
    BelowTop(s.stack, 0);
  }

  lemma ReturnSame(s: State, stop: bool, now: real)
    requires Inv(s) && s.stack != [] && !IsRun(Top(s)) && !Top(s).Drain?
    ensures SameCall(s, Return(s, stop, now))
  {
    hide Core, FramesOk, Retire, Leave, ToEnd, DrainLoop;
    CalledLives(s, |s.stack| - 1);
    if IsRun(s.stack[0]) { TopAlone(s); }
    PoppedSame(s, now);
    var v := Retire(s);
    if Top(s).Kill? && v.stack != [] && Top(v).Drain? && v.tokill != [] {
      var w := v.(tokill := v.tokill[..|v.tokill| - 1]);
      DrainSame(w);
      SameTrans(v, w, DrainLoop(w));
      SameTrans(s, v, DrainLoop(w));
    }
  }

  lemma PoppedSame(s: State, now: real)
    requires s.stack != [] && !IsRun(Top(s)) && !Top(s).Drain? && Top(s).t in s.timers
    requires IsRun(s.stack[0]) ==> s.stack[0].t != Top(s).t
    ensures SameCall(s, Retire(s)) && (Top(s).Fire? ==> SameCall(s, ToEnd(s)))
    ensures forall at: real {:trigger Leave(s, at)} :: SameCall(s, Leave(s, at))
  {
    if IsRun(s.stack[0]) { WithoutOther(s.single, Top(s).t, s.stack[0].t); }
  }

  lemma StepDue(s: State, e: Event)
    requires Inv(s) && Allowed(s, e) && FrameDue(s)
    ensures FrameDue(Apply(s, e))
  {
    hide Inv, SingleFrom, LoopFrom, RemoveMapChange, Create, Return;
    match e
    case NewTimer(unused, interval, repeats, noMap, now) =>
      CreateSame(s, unused, interval, repeats, noMap, now);
      SameDue(s, Apply(s, e));
    case KillIt(t) => SameDue(s, Apply(s, e));
    case FireIt(t, delay) => SameDue(s, Apply(s, e));
    case MapChange =>
      MapChangeSame(s);
      SameDue(s, Apply(s, e));
    case Tick(now) => SingleDue(s, 0, now);
    case Back(stop, now) => ReturnDue(s, stop, now);
  }

  lemma ReturnDue(s: State, stop: bool, now: real)
    requires Inv(s) && s.stack != [] && FrameDue(s)
    ensures FrameDue(Return(s, stop, now))
  {
    hide Core, SingleFrom, LoopFrom, Retire, Leave;
    if !Top(s).Drain? {
      CalledLives(s, |s.stack| - 1);
      if IsRun(Top(s)) {
        RunAtBottom(s);
        StackShorter(s, 0.0);
        RunDue(s, stop, now);
      } else {
        ReturnSame(s, stop, now);
        SameDue(s, Return(s, stop, now));
      }
    }
  }

  lemma RunDue(s: State, stop: bool, now: real)
    requires |s.stack| == 1 && IsRun(Top(s)) && Top(s).t in s.timers && FrameDue(s)
    ensures FrameDue(Return(s, stop, now))
  {
    hide SingleFrom, LoopFrom;
    var f, r := Top(s), s.timers[Top(s).t];
    SingleDue(Retire(s), IndexOf(s.single, f.t), f.now);
    LoopDue(Retire(s), IndexOf(s.loops, f.t), f.now);
    var next := NextThink(r.toExec, r.interval, f.now);
    if f.RunLoop? { LoopDue(Leave(s, next), IndexOf(s.loops, f.t) + 1, f.now); }
  }

  lemma {:induction false} RunDueAll(s: State, es: seq<Event>)
    requires Inv(s) && FrameDue(s) && Runs(s, es) && Flat(s, es)
    ensures FrameDue(After(s, es)) && Inv(After(s, es))
    decreases |es|
  {
    hide Inv, FrameDue, Apply;
    if es != [] {
      StepDue(s, es[0]);
      ApplyInv(s, es[0]);
      RunDueAll(Apply(s, es[0]), es[1..]);
    }
  }

  /** In every run without a map change within a map change, the timer that RunFrame is calling, one-shot or
      repeating, had its time at or before that of the frame. */
  lemma OnlyDue(es: seq<Event>)
    requires Runs(START, es) && Flat(START, es)
    ensures var s := After(START, es);
      s.stack != [] && IsRun(s.stack[0]) ==>
        s.stack[0].t in s.timers && s.timers[s.stack[0].t].toExec <= s.stack[0].now
  {
    StartInv();
    RunDueAll(START, es);
  }

  // ----- every one-shot timer whose time has come -----

  /** Where RunFrame stands in the list of one-shot timers: those before k have had their time, those from k
      on not. */
  ghost predicate Split(s: State, k: nat, now: real) {
    && k <= |s.single| && Known(s, s.single)
    && (forall j {:trigger s.single[j]} :: 0 <= j < k ==> s.timers[s.single[j]].toExec <= now)
    && (forall j {:trigger s.single[j]} :: k <= j < |s.single| ==> now < s.timers[s.single[j]].toExec)
  }

  /** The next one-shot timer is called; or RunFrame passes on to the repeating timers, and then the one-shot
      timers whose time has come are just those before k. */
  ghost predicate PassesAt(v: State, k: nat, now: real, u: State) {
    || (k < |v.single| && v.single[k] in v.timers && v.timers[v.single[k]].toExec <= now
        && u == Enter(v, RunSingle(v.single[k], OnTimer, now)))
    || (Split(v, k, now) && CallsFirst(v, 0, now, u))
  }

  lemma Passing(v: State, k: nat, now: real)
    requires Core(v) && k <= |v.single|
    requires forall j {:trigger v.single[j]} :: 0 <= j < k ==>
      v.single[j] in v.timers && v.timers[v.single[j]].toExec <= now
    ensures PassesAt(v, k, now, SingleFrom(v, k, now))
  {
    hide ListsOk, StackOk, EndsOk, CallsFirst;
    ListsKnown(v);
    LoopCalls(v, 0, now);
  }

  /** A frame begins: if no one-shot timer is called, none is due. */
  lemma TickPasses(s: State, now: real)
    requires Inv(s) && s.stack == []
    ensures PassesAt(s, 0, now, Apply(s, Tick(now)))
  {
    hide Core, FramesOk, PassesAt, SingleFrom;
    Passing(s, 0, now);
  }

  lemma {:induction false} WithoutAt(l: seq<int>, t: int)
    requires t in l
    ensures var k := IndexOf(l, t); k < |l| && l[k] == t && Without(l, t) == l[..k] + l[k + 1..]
  {
    if l[0] != t {
      WithoutAt(l[1..], t);
      var k := IndexOf(l[1..], t);
      assert l[..k + 1] == [l[0]] + l[1..][..k] && l[1..][k + 1..] == l[k + 2..];
    }
  }

  lemma BeforeDue(s: State, k: nat, now: real)
    requires Sorted(s) && k < |s.single| && s.single[k] in s.timers && s.timers[s.single[k]].toExec <= now
    ensures forall j {:trigger s.single[j]} :: 0 <= j < k ==>
      s.single[j] in s.timers && s.timers[s.single[j]].toExec <= now
  {
  }

  /** A one-shot timer has been called and has ended: it is out of the list, and RunFrame goes on where it
      stood. What stands before, which is what was put in front of it while it was called, is due, and is left
      for the next frame. */
  lemma SinglePasses(s: State, stop: bool, at: real)
    requires Inv(s) && FrameDue(s) && s.stack != [] && Top(s).RunSingle? && Ends(Top(s))
    ensures var t, now, k := Top(s).t, Top(s).now, IndexOf(s.single, Top(s).t);
      && t in s.timers && k < |s.single| && s.single[k] == t
      && var v := Retire(s);
         && v.stack == [] && v.timers == s.timers && v.single == s.single[..k] + s.single[k + 1..]
         && PassesAt(v, k, now, Apply(s, Back(stop, at)))
  {
    hide Core, FramesOk, PassesAt, SingleFrom, Without, Inv;
    SingleFacts(s);
    var t, now, k, v := Top(s).t, Top(s).now, IndexOf(s.single, Top(s).t), Retire(s);
    WithoutAt(s.single, t);
    BeforeDue(s, k, now);
    assert forall j {:trigger v.single[j]} :: 0 <= j < k ==> v.single[j] == s.single[j];
    Passing(v, k, now);
  }

  lemma SingleFacts(s: State)
    requires Inv(s) && FrameDue(s) && s.stack != [] && Top(s).RunSingle? && Ends(Top(s))
    ensures |s.stack| == 1 && Top(s).t in s.timers && Top(s).t in s.single && Sorted(s)
    ensures s.timers[Top(s).t].toExec <= Top(s).now && !s.timers[Top(s).t].repeats
    ensures Core(Retire(s)) && Retire(s).stack == []
  {
    hide FramesOk, StackOk, EndsOk, Retire;
    RunAtBottom(s);
    RetireCore(s);
    StackShorter(s, 0.0);
  }

  /** So when RunFrame passes on to the repeating timers no one-shot timer is due, if and only if the last one
      called stood first in the list, nothing having been put in front of it. */
  lemma NoneLeft(s: State, stop: bool, at: real)
    requires Inv(s) && FrameDue(s) && s.stack != [] && Top(s).RunSingle? && Ends(Top(s))
    requires var u := Apply(s, Back(stop, at)); u.stack == [] || !u.stack[0].RunSingle?
    ensures var v := Retire(s);
      (forall j {:trigger v.single[j]} :: 0 <= j < |v.single| ==>
        v.single[j] in v.timers && Top(s).now < v.timers[v.single[j]].toExec) <==> s.single[0] == Top(s).t
  {
    hide Inv, FrameDue, CallsFirst;
    SinglePasses(s, stop, at);
    var t, now, k, v := Top(s).t, Top(s).now, IndexOf(s.single, Top(s).t), Retire(s);
    assert Split(v, k, now);
    if k > 0 {
      assert v.timers[v.single[0]].toExec <= now;
      assert s.single[..k][0] != t by { NotBefore(s.single, t, 0); }
    }
  }

  lemma {:induction false} NotBefore(l: seq<int>, t: int, i: nat)
    requires i < IndexOf(l, t)
    ensures i < |l| && l[i] != t
  {
    if i > 0 { NotBefore(l[1..], t, i - 1); }
  }

  // ----- the repeating timers -----

  /** The next time of a repeating timer is one interval after its last one, unless that is more than a tenth
      of a second ago already: then it is one interval from now. */
  lemma NextTime(last: real, interval: real, now: real)
    ensures last + interval >= now - 0.1 ==> NextThink(last, interval, now) == last + interval
    ensures last + interval < now - 0.1 ==> NextThink(last, interval, now) == now + interval
    ensures interval >= 0.0 ==> NextThink(last, interval, now) >= now - 0.1
  {
  }

  /** A repeating timer has been called. It ends if it was killed or asked for that; otherwise it stays, with
      its next time. RunFrame then goes on with what stands behind it. */
  lemma LoopPasses(s: State, stop: bool, at: real)
    requires Inv(s) && FrameDue(s) && s.stack != [] && Top(s).RunLoop?
    ensures var t, now, k, u := Top(s).t, Top(s).now, IndexOf(s.loops, Top(s).t), Apply(s, Back(stop, at));
      && t in s.timers && k < |s.loops| && s.loops[k] == t
      && var r := s.timers[t];
         if Ends(Top(s)) then
           var v := Retire(s); v.loops == s.loops[..k] + s.loops[k + 1..] && v.stack == [] && CallsFirst(v, k, now, u)
         else if r.killMe || stop then
           u.stack == [RunLoop(t, OnTimerEnd, now)] && u.ended == s.ended + [r.serial] && u.loops == s.loops
         else
           var next := if r.toExec + r.interval >= now - 0.1 then r.toExec + r.interval else now + r.interval;
           var v := s.(stack := [], timers := s.timers[t := r.(inExec := false, toExec := next)]);
           CallsFirst(v, k + 1, now, u)
  {
    hide Core, FramesOk, CallsFirst, LoopFrom, Without, Inv;
    LoopBottom(s);
    var t, now, k, r := Top(s).t, Top(s).now, IndexOf(s.loops, Top(s).t), s.timers[Top(s).t];
    WithoutAt(s.loops, t);
    NextTime(r.toExec, r.interval, now);
    var v := Leave(s, NextThink(r.toExec, r.interval, now));
    LoopCalls(v, k + 1, now);
    if Ends(Top(s)) { LoopCalls(Retire(s), k, now); }
  }

  lemma LoopBottom(s: State)
    requires Inv(s) && FrameDue(s) && s.stack != [] && Top(s).RunLoop?
    ensures s.stack == [Top(s)] && Top(s).t in s.timers && Top(s).t in s.loops && s.timers[Top(s).t].repeats
    ensures Known(s, s.loops) && (Ends(Top(s)) ==> Known(Retire(s), Retire(s).loops))
  {
    hide FramesOk, StackOk, EndsOk, Retire, ListsOk;
    RunAtBottom(s);
    ListsKnown(s);
    LoopRepeats(s, Top(s).t);
    if Ends(Top(s)) {
      RetireCore(s);
      ListsKnown(Retire(s));
    }
  }

  /** FireTimerOnce on a repeating timer that goes on: its time is put off if that was asked for, else it is
      what it was. */
  lemma FiredAgain(s: State, stop: bool, now: real)
    requires s.stack != [] && Top(s).Fire? && !Ends(Top(s)) && Top(s).t in s.timers
    ensures var t, u, r := Top(s).t, Apply(s, Back(stop, now)), s.timers[Top(s).t];
      if r.repeats && !stop && !r.killMe then
        && u == s.(stack := u.stack, timers := u.timers) && u.stack == s.stack[..|s.stack| - 1]
        && u.timers == s.timers[t := r.(inExec := false, toExec := u.timers[t].toExec)]
        && u.timers[t].toExec == (if Top(s).delay then now + r.interval else r.toExec)
      else u.ended == s.ended + [r.serial] && Top(u) == Fire(t, OnTimerEnd, Top(s).delay) && |u.stack| == |s.stack|
  {
  }

  // ----- a timer put in front of the one that is called -----

  /** Two one-shot timers for times 1 and 2; at 1 the listener of the first makes one for that very moment. */
  const FRONT_RUN: seq<Event> := [
    NewTimer(1, 1.0, false, false, 0.0),
    NewTimer(2, 2.0, false, false, 0.0),
    Tick(1.0),
    NewTimer(3, 0.0, false, false, 1.0),
    Back(false, 1.0),
    Back(false, 1.0)]

  function OneShot(serial: nat, at: real, interval: real, inExec: bool): Timer {
    Timer(serial, at, interval, false, false, inExec, false)
  }

  const TWO: State := START.(
    timers := map[1 := OneShot(0, 1.0, 1.0, false), 2 := OneShot(1, 2.0, 2.0, false)], single := [1, 2], made := 2)

  lemma FrontMade()
    ensures var a := START.(timers := map[1 := OneShot(0, 1.0, 1.0, false)], single := [1], made := 1);
      Apply(START, FRONT_RUN[0]) == a && Apply(a, FRONT_RUN[1]) == TWO
  {
    assert InsertBefore(START, [], 1, 1.0) == [1];
    assert [1] + [2] == [1, 2];
  }

  const CALLING: State := START.(
    timers := map[1 := OneShot(0, 1.0, 1.0, true), 2 := OneShot(1, 2.0, 2.0, false)], single := [1, 2], made := 2,
    stack := [RunSingle(1, OnTimer, 1.0)])

  lemma FrontCalled()
    ensures Apply(TWO, FRONT_RUN[2]) == CALLING
  {
    assert [] + [RunSingle(1, OnTimer, 1.0)] == [RunSingle(1, OnTimer, 1.0)];
  }

  const PUT: State := CALLING.(
    timers := CALLING.timers[3 := OneShot(2, 1.0, 0.0, false)], single := [3, 1, 2], made := 3)

  lemma FrontPut()
    ensures Apply(CALLING, FRONT_RUN[3]) == PUT
  {
    assert InsertBefore(CALLING, [1, 2], 3, 1.0) == [3] + [1, 2];
  }

  lemma FrontEnds()
    ensures var d := Apply(PUT, FRONT_RUN[4]);
      d == PUT.(stack := [RunSingle(1, OnTimerEnd, 1.0)], ended := [0])
      && Apply(d, FRONT_RUN[5]) == PUT.(stack := [], ended := [0], single := [3, 2], free := [1])
  {
    var d := PUT.(stack := [RunSingle(1, OnTimerEnd, 1.0)], ended := [0]);
    assert [3, 1, 2][1..] == [1, 2] && [1, 2][1..] == [2];
    assert IndexOf([1, 2], 1) == 0 && Without([1, 2], 1) == [2];
    assert IndexOf([3, 1, 2], 1) == 1 && Without([3, 1, 2], 1) == [3] + [2];
    assert Apply(PUT, FRONT_RUN[4]).stack == d.stack;
    var v := Retire(d);
    assert v.single == [3, 2] && v.stack == [] && v.free == [1];
    assert SingleFrom(v, 1, 1.0) == v;
  }

  /** The new timer is put in front of the one that is called, and RunFrame does not come back to it: the
      frame is over, and a one-shot timer whose time has come is left. */
  lemma LeftInFront()
    ensures Runs(START, FRONT_RUN) && Flat(START, FRONT_RUN)
    ensures var s := After(START, FRONT_RUN); s.stack == [] && s.single == [3, 2] && s.timers[3].toExec <= 1.0
  {
    hide Apply;
    FrontMade();
    FrontCalled();
    FrontPut();
    FrontEnds();
    var es := FRONT_RUN;
    assert es[1..][0] == es[1] && es[1..][1..][0] == es[2] && es[1..][1..][1..][0] == es[3];
    assert es[1..][1..][1..][1..][0] == es[4] && es[1..][1..][1..][1..][1..][0] == es[5];
    assert es[1..][1..][1..][1..][1..][1..] == [];
  }
}
