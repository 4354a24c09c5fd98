/** RemoveMapChangeTimers called from within itself: from then on the run can no longer come to rest. */
module TimerNested {
  import opened TimerMachine

  /** How many activations of RemoveMapChangeTimers are suspended. */
  function Drains(k: seq<Frame>): (n: nat)
    ensures k == [] ==> n == 0
  {
    if k == [] then 0 else Drains(k[..|k| - 1]) + (if k[|k| - 1].Drain? then 1 else 0)
  }

  /** Some suspended loop has nothing of its own left to pop: an inner loop has emptied the stack they
      share, or is about to. */
  predicate Doomed(s: State) {
    Drains(s.stack) >= 2 || (Drains(s.stack) == 1 && s.tokill == [])
  }

  lemma DrainsPush(k: seq<Frame>, f: Frame)
    ensures Drains(k + [f]) == Drains(k) + (if f.Drain? then 1 else 0)
  {
    assert (k + [f])[..|k + [f]| - 1] == k;
  }

  lemma {:induction false} DrainsIn(k: seq<Frame>)
    ensures Drains(k) == 0 <==> Drain !in k
    ensures Drains(k) >= 2 ==> exists i, j {:trigger k[i], k[j]} :: 0 <= i < j < |k| && k[i].Drain? && k[j].Drain?
  {
    if k != [] {
      var n := |k| - 1;
      DrainsIn(k[..n]);
      assert k == k[..n] + [k[n]];
      if k[n].Drain? && Drain in k[..n] {
        var i :| 0 <= i < n && k[i] == Drain;
      }
    }
  }

  /** The loop either is suspended again, or is done and leaves the stack empty. */
  lemma {:induction false} DrainLoopLeaves(s: State)
    requires s.stack != [] && Top(s).Drain?
    ensures var u := DrainLoop(s);
      || Drains(u.stack) == Drains(s.stack)
      || (Drains(u.stack) == Drains(s.stack) - 1 && u.tokill == [])
    decreases |s.tokill|
  {
    hide Drains;
    var n := |s.tokill| - 1;
    if n < 0 {
      DrainsPush(s.stack[..|s.stack| - 1], Drain);
      assert s.stack[..|s.stack| - 1] + [Drain] == s.stack;
    } else if s.tokill[n] !in s.timers || s.timers[s.tokill[n]].killMe {
      DrainLoopLeaves(s.(tokill := s.tokill[..n]));
    } else if s.timers[s.tokill[n]].inExec {
      DrainLoopLeaves(MarkKill(s, s.tokill[n]).(tokill := s.tokill[..n]));
    } else {
      DrainsPush(s.stack, Kill(s.tokill[n]));
    }
  }

  /** A call from within a suspended loop dooms the run. */
  lemma NestedDooms(s: State)
    requires Drains(s.stack) >= 1
    ensures Doomed(RemoveMapChange(s))
  {
    hide Drains, DrainLoop;
    var u := s.(tokill := s.tokill + NoMap(s, s.single) + NoMap(s, s.loops), stack := s.stack + [Drain]);
    DrainsPush(s.stack, Drain);
    DrainLoopLeaves(u);
  }

  /** RunFrame enters at most one activation. */
  predicate SameDrains(s: State, u: State) { Drains(u.stack) == Drains(s.stack) && u.tokill == s.tokill }

  lemma EnterDrains(s: State, f: Frame)
    requires !f.Drain? && f.t in s.timers
    ensures SameDrains(s, Enter(s, f))
  {
    DrainsPush(s.stack, f);
  }

  lemma {:induction false} LoopDrains(s: State, k: nat, now: real)
    ensures SameDrains(s, LoopFrom(s, k, now))
    decreases |s.loops| - k
  {
    hide Drains, Enter;
    if k < |s.loops| {
      if Due(s, s.loops[k], now) {
        EnterDrains(s, RunLoop(s.loops[k], OnTimer, now));
      } else {
        LoopDrains(s, k + 1, now);
      }
    }
  }

  lemma SingleDrains(s: State, k: nat, now: real)
    ensures SameDrains(s, SingleFrom(s, k, now))
  {
    hide Drains, Enter, LoopFrom;
    if k < |s.single| && Due(s, s.single[k], now) {
      EnterDrains(s, RunSingle(s.single[k], OnTimer, now));
    } else {
      LoopDrains(s, 0, now);
    }
  }

  /** Leaving an activation other than the loop. */
  lemma PopDrains(s: State, toExec: real)
    requires s.stack != [] && !Top(s).Drain? && Top(s).t in s.timers
    ensures SameDrains(s, Retire(s)) && SameDrains(s, Leave(s, toExec))
    ensures !Top(s).Kill? ==> SameDrains(s, ToEnd(s))
  {
    hide Drains;
    var k := s.stack[..|s.stack| - 1];
    DrainsPush(k, Top(s));
    assert k + [Top(s)] == s.stack;
    if !Top(s).Kill? {
      var f := Top(s).(phase := OnTimerEnd);
      DrainsPush(k, f);
      assert ToEnd(s).stack == k + [f];
    }
  }

  lemma KillReturns(s: State)
    requires Doomed(s) && s.stack != [] && Top(s).Kill? && Top(s).t in s.timers
    ensures Doomed(AfterKill(Retire(s)))
  {
    hide Drains, Retire, DrainLoop;
    PopDrains(s, 0.0);
    var u := Retire(s);
    if u.stack != [] && Top(u).Drain? && u.tokill != [] {
      DrainLoopLeaves(u.(tokill := u.tokill[..|u.tokill| - 1]));
    }
  }

  lemma RunReturns(s: State, stop: bool, now: real)
    requires s.stack != [] && (Top(s).RunSingle? || Top(s).RunLoop?) && Top(s).t in s.timers
    ensures SameDrains(s, Return(s, stop, now))
  {
    hide Drains, Retire, Leave, ToEnd, SingleFrom, LoopFrom, Doomed;
    var f := Top(s);
    var r := s.timers[f.t];
    var next := NextThink(r.toExec, r.interval, f.now);
    PopDrains(s, next);
    if f.RunSingle? {
      SingleDrains(Retire(s), IndexOf(s.single, f.t), f.now);
    } else if f.phase == OnTimerEnd {
      LoopDrains(Retire(s), IndexOf(s.loops, f.t), f.now);
    } else {
      LoopDrains(Leave(s, next), IndexOf(s.loops, f.t) + 1, f.now);
    }
  }

  lemma ReturnDooms(s: State, stop: bool, now: real)
    requires Doomed(s) && s.stack != []
    ensures Doomed(Return(s, stop, now))
  {
    hide Drains, Retire, Leave, ToEnd, SingleFrom, LoopFrom, AfterKill;
    if !Top(s).Drain? && Top(s).t in s.timers {
      var f := Top(s);
      if f.Kill? {
        KillReturns(s);
      } else if f.Fire? {
        PopDrains(s, if f.delay then now + s.timers[f.t].interval else s.timers[f.t].toExec);
      } else {
        RunReturns(s, stop, now);
      }
    }
  }

  lemma ApplyDooms(s: State, e: Event)
    requires Doomed(s) && Allowed(s, e)
    ensures Doomed(Apply(s, e))
  {
    hide Drains, DrainLoop, Insert, Return, RemoveMapChange, Enter;
    match e
    case KillIt(t) =>
      if t in s.timers && !s.timers[t].inExec { EnterDrains(s, Kill(t)); }
    case FireIt(t, delay) =>
      if t in s.timers && !s.timers[t].inExec { EnterDrains(s, Fire(t, OnTimer, delay)); }
    case MapChange => NestedDooms(s);
    case Back(stop, now) => ReturnDooms(s, stop, now);
    case _ =>
  }

  lemma DoomedSuspended(s: State)
    requires Doomed(s)
    ensures s.stack != []
  {
  }

  /** Such a run never comes to rest: some activation stays suspended whatever happens. */
  lemma {:induction false} DoomedStays(s: State, es: seq<Event>)
    requires Doomed(s) && Runs(s, es)
    ensures Doomed(After(s, es)) && After(s, es).stack != []
    decreases |es|
  {
    hide Doomed, Apply, Allowed;
    if es == [] {
      DoomedSuspended(s);
    } else {
      ApplyDooms(s, es[0]);
      DoomedStays(Apply(s, es[0]), es[1..]);
    }
  }
}
