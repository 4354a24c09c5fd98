/** What a map change ends: every timer that is flagged for it, and no other unless its object has been
    used again in between. */
module TimerMaps {
  import opened TimerMachine
  import opened TimerInv
  import opened TimerRuns

  // ----- every flagged timer goes -----

  /** The creation x, if it is one, has been ended, or will be when the call it is in returns, or is still to
      be killed. */
  ghost predicate Going(s: State, x: int) {
    || x < 0
    || x in s.ended
    || exists t {:trigger s.timers[t]} ::
         t in s.timers && s.timers[t].serial == x && (s.timers[t].killMe || t in s.tokill)
  }

  /** The loop is suspended in the call for the timer it has just taken. */
  ghost predicate KillsLast(s: State) {
    forall i {:trigger s.stack[i]} :: 0 <= i < |s.stack| && s.stack[i].Drain? ==>
      i + 1 < |s.stack| && s.tokill != [] && s.stack[i + 1] == Kill(s.tokill[|s.tokill| - 1])
  }

  /** What a step other than those of the loop itself leaves: what is to be killed, and the activations up to
      the one the loop has called. */
  lemma {:induction false} DrainKeeps(s: State, x: int)
    requires s.stack != [] && Top(s).Drain? && Going(s, x)
    requires forall i {:trigger s.stack[i]} :: 0 <= i < |s.stack| - 1 ==> !s.stack[i].Drain?
    ensures Going(DrainLoop(s), x) && KillsLast(DrainLoop(s))
    decreases |s.tokill|
  {
    if s.tokill == [] {
      assert Pop(s).stack == s.stack[..|s.stack| - 1];
    } else {
      var n := |s.tokill| - 1;
      var t := s.tokill[n];
      assert forall y :: y in s.tokill <==> y in s.tokill[..n] || y == t;
      if t !in s.timers || s.timers[t].killMe {
        DrainKeeps(s.(tokill := s.tokill[..n]), x);
      } else if s.timers[t].inExec {
        MarkGoing(s, t, x);
        DrainKeeps(MarkKill(s, t).(tokill := s.tokill[..n]), x);
      } else {
        EnterGoing(s, t, x);
      }
    }
  }

  lemma MarkGoing(s: State, t: int, x: int)
    requires Going(s, x) && t in s.timers
    ensures var u := MarkKill(s, t); forall l: seq<int> {:trigger u.(tokill := l)} ::
      (forall y :: y in s.tokill ==> y in l || y == t) ==> Going(u.(tokill := l), x)
  {
    var u := MarkKill(s, t);
    if x >= 0 && x !in s.ended {
      var y :| y in s.timers && s.timers[y].serial == x && (s.timers[y].killMe || y in s.tokill);
      forall l: seq<int> | forall z :: z in s.tokill ==> z in l || z == t ensures Going(u.(tokill := l), x) {
        assert u.timers[y].serial == x;
      }
    }
  }

  lemma EnterGoing(s: State, t: int, x: int)
    requires Going(s, x) && t in s.timers
    ensures Going(Enter(s, Kill(t)), x)
  {
    var u := Enter(s, Kill(t));
    if x >= 0 && x !in u.ended {
      var y :| y in s.timers && s.timers[y].serial == x && (s.timers[y].killMe || y in s.tokill);
      assert u.timers[y].serial == x;
    }
  }

  /** A step that forgets none of those that are to go. */
  ghost predicate Forgets(s: State, u: State) {
    exists t {:trigger s.timers[t]} :: t in s.timers && s.timers[t].serial !in u.ended && !(
      && t in u.timers && u.timers[t].serial == s.timers[t].serial
      && (s.timers[t].killMe ==> u.timers[t].killMe) && (t in s.tokill ==> t in u.tokill))
  }

  lemma GoingOn(s: State, u: State, x: int)
    requires Going(s, x) && !Forgets(s, u) && forall y :: y in s.ended ==> y in u.ended
    ensures Going(u, x)
  {
    if x >= 0 && x !in u.ended {
      var t :| t in s.timers && s.timers[t].serial == x && (s.timers[t].killMe || t in s.tokill);
      assert u.timers[t].serial == x;
    }
  }

  lemma CreateGoing(s: State, unused: int, interval: real, repeats: bool, noMap: bool, now: real, x: int)
    requires Core(s) && unused !in s.timers && Going(s, x) && KillsLast(s)
    ensures var u := Create(s, unused, interval, repeats, noMap, now); Going(u, x) && KillsLast(u)
  {
    hide Insert, ListsOk, StackOk, Sorted;
    var u := Create(s, unused, interval, repeats, noMap, now);
    if s.free != [] { FreeEnded(s); }
    GoingOn(s, u, x);
  }

  lemma FreeEnded(s: State)
    requires Core(s) && s.free != []
    ensures var t := s.free[|s.free| - 1]; t in s.timers && s.timers[t].serial in s.ended
  {
    hide StackOk, Sorted;
    var t := s.free[|s.free| - 1];
    assert t in s.free;
    assert t in s.timers;
    assert s.timers[t].serial in s.ended;
  }

  lemma KillsPush(s: State, f: Frame)
    requires KillsLast(s) && !f.Drain? && f.t in s.timers
    ensures KillsLast(Enter(s, f))
  {
    var u := Enter(s, f);
    assert forall i {:trigger u.stack[i]} :: 0 <= i < |s.stack| ==> u.stack[i] == s.stack[i];
  }

  lemma EnterGoes(s: State, f: Frame, x: int)
    requires KillsLast(s) && Going(s, x) && !f.Drain? && f.t in s.timers
    ensures KillsLast(Enter(s, f)) && Going(Enter(s, f), x)
  {
    KillsPush(s, f);
    GoingOn(s, Enter(s, f), x);
  }

  lemma {:induction false} LoopGoes(s: State, k: nat, now: real, x: int)
    requires KillsLast(s) && Going(s, x)
    ensures KillsLast(LoopFrom(s, k, now)) && Going(LoopFrom(s, k, now), x)
    decreases |s.loops| - k
  {
    hide KillsLast, Going, Enter;
    if k < |s.loops| {
      if Due(s, s.loops[k], now) { EnterGoes(s, RunLoop(s.loops[k], OnTimer, now), x); }
      else { LoopGoes(s, k + 1, now, x); }
    }
  }

  lemma SingleGoes(s: State, k: nat, now: real, x: int)
    requires KillsLast(s) && Going(s, x)
    ensures KillsLast(SingleFrom(s, k, now)) && Going(SingleFrom(s, k, now), x)
  {
    hide KillsLast, Going, Enter, LoopFrom;
    if k < |s.single| && Due(s, s.single[k], now) { EnterGoes(s, RunSingle(s.single[k], OnTimer, now), x); }
    else { LoopGoes(s, 0, now, x); }
  }

  lemma PopKills(s: State, u: State)
    requires KillsLast(s) && s.stack != [] && u.stack == s.stack[..|s.stack| - 1] && u.tokill == s.tokill
    requires |s.stack| > 1 ==> !s.stack[|s.stack| - 2].Drain?
    ensures KillsLast(u)
  {
    assert forall i {:trigger u.stack[i]} :: 0 <= i < |u.stack| ==> u.stack[i] == s.stack[i];
  }

  /** A call other than KillTimer returns. */
  lemma PoppedGoes(s: State, x: int)
    requires Inv(s) && KillsLast(s) && Going(s, x) && s.stack != [] && !Top(s).Kill? && !Top(s).Drain?
    requires Top(s).t in s.timers
    ensures KillsLast(Retire(s)) && Going(Retire(s), x)
    ensures forall at: real {:trigger Leave(s, at)} :: KillsLast(Leave(s, at)) && Going(Leave(s, at), x)
    ensures KillsLast(ToEnd(s)) && Going(ToEnd(s), x)
  {
    hide Core, KillsLast, Going;
    BelowFire(s);
    PopKills(s, Retire(s));
    GoingOn(s, Retire(s), x);
    forall at: real ensures KillsLast(Leave(s, at)) && Going(Leave(s, at), x) {
      PopKills(s, Leave(s, at));
      GoingOn(s, Leave(s, at), x);
    }
    ToEndKills(s);
    GoingOn(s, ToEnd(s), x);
  }

  lemma ToEndKills(s: State)
    requires KillsLast(s) && s.stack != [] && !Top(s).Kill? && !Top(s).Drain? && Top(s).t in s.timers
    ensures KillsLast(ToEnd(s))
  {
    var u, n := ToEnd(s), |s.stack| - 1;
    assert forall i {:trigger u.stack[i]} :: 0 <= i < n ==> u.stack[i] == s.stack[i];
    forall i | 0 <= i < |u.stack| && u.stack[i].Drain?
      ensures i + 1 < |u.stack| && u.tokill != [] && u.stack[i + 1] == Kill(u.tokill[|u.tokill| - 1])
    {
      assert s.stack[i].Drain?;
      assert s.stack[i + 1].Kill?;
    }
  }

  lemma RunReturnGoes(s: State, stop: bool, now: real, x: int)
    requires Inv(s) && KillsLast(s) && Going(s, x) && s.stack != [] && !Top(s).Kill? && !Top(s).Drain?
    requires Top(s).t in s.timers
    ensures KillsLast(Return(s, stop, now)) && Going(Return(s, stop, now), x)
  {
    hide Inv, KillsLast, Going, Retire, Leave, ToEnd, SingleFrom, LoopFrom;
    PoppedGoes(s, x);
    var f, r := Top(s), s.timers[Top(s).t];
    match f
    case RunSingle(t, p, at) =>
      if p != OnTimer { SingleGoes(Retire(s), IndexOf(s.single, t), at, x); }
    case RunLoop(t, p, at) =>
      if p == OnTimerEnd { LoopGoes(Retire(s), IndexOf(s.loops, t), at, x); }
      else if !(r.killMe || stop) {
        LoopGoes(Leave(s, NextThink(r.toExec, r.interval, at)), IndexOf(s.loops, t) + 1, at, x);
      }
    case Fire(t, p, delay) =>
  }

  /** KillTimer returns, perhaps to the loop. */
  lemma KillReturnGoes(s: State, x: int)
    requires Inv(s) && KillsLast(s) && Going(s, x) && s.stack != [] && Top(s).Kill? && Top(s).t in s.timers
    ensures KillsLast(AfterKill(Retire(s))) && Going(AfterKill(Retire(s)), x)
  {
    hide Core, DrainLoop;
    var v := Retire(s);
    RetiredKill(s);
    GoingOn(s, v, x);
    if v.stack != [] && Top(v).Drain? {
      var n := |s.tokill| - 1;
      var w := v.(tokill := v.tokill[..n]);
      assert s.stack[|s.stack| - 2].Drain?;
      assert Top(s) == Kill(s.tokill[n]);
      forall t | t in v.timers && v.timers[t].serial !in w.ended ensures t in v.tokill ==> t in w.tokill {
        assert forall y :: y in s.tokill <==> y in s.tokill[..n] || y == s.tokill[n];
      }
      GoingOn(v, w, x);
      OneDrain(s, w);
      DrainKeeps(w, x);
    } else {
      PopKills(s, v);
    }
  }

  lemma RetiredKill(s: State)
    requires Core(s) && s.stack != [] && Top(s).Kill? && Top(s).t in s.timers
    ensures var v := Retire(s); v.timers == s.timers && v.tokill == s.tokill && v.ended == s.ended
    ensures Retire(s).stack == s.stack[..|s.stack| - 1] && s.timers[Top(s).t].serial in s.ended
  {
    hide ListsOk, StackOk, Sorted;
    assert Top(s).t in Ending(s.stack);
  }

  lemma OneDrain(s: State, w: State)
    requires FramesOk(s) && |s.stack| > 1 && s.stack[|s.stack| - 2].Drain? && w.stack == s.stack[..|s.stack| - 1]
    ensures forall i {:trigger w.stack[i]} :: 0 <= i < |w.stack| - 1 ==> !w.stack[i].Drain?
  {
  }

  /** Every step keeps that a creation is going, and the loop where it was. */
  lemma StepGoes(s: State, e: Event, x: int)
    requires Inv(s) && KillsLast(s) && Allowed(s, e) && (e.MapChange? ==> !Draining(s)) && Going(s, x)
    ensures KillsLast(Apply(s, e)) && Going(Apply(s, e), x)
  {
    hide Core, FramesOk, Create, SingleFrom, Return, Enter;
    match e
    case NewTimer(unused, interval, repeats, noMap, now) =>
      CreateGoing(s, unused, interval, repeats, noMap, now, x);
    case KillIt(t) =>
      if !s.timers[t].killMe {
        if s.timers[t].inExec { GoingOn(s, MarkKill(s, t), x); } else { EnterGoes(s, Kill(t), x); }
      }
    case FireIt(t, delay) => if !s.timers[t].inExec { EnterGoes(s, Fire(t, OnTimer, delay), x); }
    case MapChange => MapChangeGoes(s, x);
    case Tick(now) => SingleGoes(s, 0, now, x);
    case Back(stop, now) => ReturnGoes(s, stop, now, x);
  }

  lemma ReturnGoes(s: State, stop: bool, now: real, x: int)
    requires Inv(s) && KillsLast(s) && Going(s, x) && s.stack != []
    ensures KillsLast(Return(s, stop, now)) && Going(Return(s, stop, now), x)
  {
    hide Inv, KillsLast, Going, Retire, AfterKill;
    if !Top(s).Drain? && Top(s).t in s.timers {
      if Top(s).Kill? { KillReturnGoes(s, x); } else { RunReturnGoes(s, stop, now, x); }
    }
  }

  lemma {:induction false} NoMapHas(s: State, l: seq<int>, t: int)
    ensures t in NoMap(s, l) <==> t in l && t in s.timers && s.timers[t].noMap
  {
    if l != [] { NoMapHas(s, l[1..], t); }
  }

  /** The loop begins with the flagged timers of both lists. */
  lemma MapChangeGoes(s: State, x: int)
    requires !Draining(s)
    requires Going(s, x) || exists t :: t in s.timers && Live(s, t) && s.timers[t].serial == x && s.timers[t].noMap
    ensures KillsLast(RemoveMapChange(s)) && Going(RemoveMapChange(s), x)
  {
    hide NoMap, DrainLoop;
    var u := s.(tokill := s.tokill + NoMap(s, s.single) + NoMap(s, s.loops), stack := s.stack + [Drain]);
    if Going(s, x) {
      GoingOn(s, u, x);
    } else {
      var t :| t in s.timers && Live(s, t) && s.timers[t].serial == x && s.timers[t].noMap;
      NoMapHas(s, s.single, t);
      NoMapHas(s, s.loops, t);
      assert t in u.tokill && u.timers[t].serial == x;
    }
    DrainKeeps(u, x);
  }

  lemma {:induction false} RunGoes(s: State, es: seq<Event>, x: int)
    requires Inv(s) && KillsLast(s) && Runs(s, es) && Flat(s, es) && Going(s, x)
    ensures Inv(After(s, es)) && Going(After(s, es), x)
    decreases |es|
  {
    hide Inv, KillsLast, Going, Apply;
    if es != [] {
      StepGoes(s, es[0], x);
      ApplyInv(s, es[0]);
      RunGoes(Apply(s, es[0]), es[1..], x);
    }
  }

  /** Every live timer that is flagged when RemoveMapChangeTimers is called has been ended, or marked to end
      with the call it is in, when RemoveMapChangeTimers has returned, whatever the listeners do. */
  lemma FlaggedGo(s: State, es: seq<Event>, t: int)
    requires Inv(s) && !Draining(s) && Live(s, t) && t in s.timers && s.timers[t].noMap
    requires Runs(s, [MapChange] + es) && Flat(s, [MapChange] + es) && !Draining(After(s, [MapChange] + es))
    ensures var x, u := s.timers[t].serial, After(s, [MapChange] + es);
      x in u.ended || exists v :: v in u.timers && u.timers[v].serial == x && u.timers[v].killMe
  {
    hide Inv, KillsLast, RemoveMapChange;
    var x := s.timers[t].serial;
    assert ([MapChange] + es)[0] == MapChange && ([MapChange] + es)[1..] == es;
    MapChangeGoes(s, x);
    ApplyInv(s, MapChange);
    RunGoes(RemoveMapChange(s), es, x);
    NoneToKill(After(s, [MapChange] + es));
  }

  lemma NoneToKill(u: State)
    requires Inv(u) && !Draining(u)
    ensures u.tokill == []
  {
  }

  // ----- and no other -----

  /** What is still to be killed is flagged. */
  ghost predicate AllFlagged(s: State) {
    forall k {:trigger s.tokill[k]} :: 0 <= k < |s.tokill| ==> s.tokill[k] in s.timers && s.timers[s.tokill[k]].noMap
  }

  /** A creation uses an object again that is still to be killed, for a timer that is not flagged. */
  predicate Reuses(s: State, e: Event) {
    e.NewTimer? && !e.noMap && s.free != [] && s.free[|s.free| - 1] in s.tokill
  }

  /** Flags of existing objects stay, and nothing is added to what is to be killed. */
  ghost predicate FlagsStay(s: State, u: State) {
    && (forall t {:trigger t in s.timers} :: t in s.timers ==> t in u.timers && u.timers[t].noMap == s.timers[t].noMap)
    && |u.tokill| <= |s.tokill| && u.tokill == s.tokill[..|u.tokill|]
  }

  lemma FlagsAll(s: State, u: State)
    requires AllFlagged(s) && FlagsStay(s, u)
    ensures AllFlagged(u)
  {
    forall k | 0 <= k < |u.tokill| ensures u.tokill[k] in u.timers && u.timers[u.tokill[k]].noMap {
      assert u.tokill[k] == s.tokill[k];
    }
  }

  lemma FlagsTrans(s: State, u: State, v: State)
    requires FlagsStay(s, u) && FlagsStay(u, v)
    ensures FlagsStay(s, v)
  {
    forall t | t in s.timers ensures t in v.timers && v.timers[t].noMap == s.timers[t].noMap {
      assert t in u.timers && u.timers[t].noMap == s.timers[t].noMap;
    }
  }

  /** The loop calls KillTimer, or marks, only what was to be killed. */
  lemma {:induction false} DrainFlags(s: State)
    requires s.stack != [] && Top(s).Drain?
    ensures var u := DrainLoop(s);
      && FlagsStay(s, u)
      && (|u.stack| > |s.stack| ==> Top(u).Kill? && Top(u).t in s.tokill)
      && (forall t {:trigger t in s.timers} ::
            t in s.timers && t in u.timers && u.timers[t].killMe && !s.timers[t].killMe ==> t in s.tokill)
    decreases |s.tokill|
  {
    if s.tokill != [] {
      var n := |s.tokill| - 1;
      var t := s.tokill[n];
      assert forall y :: y in s.tokill <==> y in s.tokill[..n] || y == t;
      if t !in s.timers || s.timers[t].killMe {
        var v := s.(tokill := s.tokill[..n]);
        DrainFlags(v);
        FlagsTrans(s, v, DrainLoop(v));
      } else if s.timers[t].inExec {
        var v := MarkKill(s, t).(tokill := s.tokill[..n]);
        DrainFlags(v);
        FlagsTrans(s, v, DrainLoop(v));
      }
    }
  }

  lemma {:induction false} LoopFlags(s: State, k: nat, now: real)
    ensures FlagsStay(s, LoopFrom(s, k, now))
    decreases |s.loops| - k
  {
    if k < |s.loops| && !Due(s, s.loops[k], now) { LoopFlags(s, k + 1, now); }
  }

  lemma RetireFlags(s: State)
    requires s.stack != [] && !Top(s).Drain? && Top(s).t in s.timers
    ensures FlagsStay(s, Retire(s)) && Retire(s).tokill == s.tokill
    ensures forall at: real {:trigger Leave(s, at)} :: FlagsStay(s, Leave(s, at))
    ensures Top(s).RunSingle? || Top(s).RunLoop? || Top(s).Fire? ==> FlagsStay(s, ToEnd(s))
  {
    hide Without;
  }

  lemma KillFlags(s: State)
    ensures FlagsStay(s, AfterKill(s))
  {
    hide DrainLoop;
    if s.stack != [] && Top(s).Drain? && s.tokill != [] {
      var w := s.(tokill := s.tokill[..|s.tokill| - 1]);
      DrainFlags(w);
      FlagsTrans(s, w, DrainLoop(w));
    }
  }

  lemma ReturnFlags(s: State, stop: bool, now: real)
    requires s.stack != []
    ensures FlagsStay(s, Return(s, stop, now))
  {
    hide LoopFrom, AfterKill, Retire, Leave, ToEnd, FlagsStay;
    SelfFlags(s);
    if !Top(s).Drain? && Top(s).t in s.timers {
      RetireFlags(s);
      var f, r, v := Top(s), s.timers[Top(s).t], Retire(s);
      match f
      case RunSingle(t, p, at) =>
        SingleFlags(v, IndexOf(s.single, t), at);
        FlagsTrans(s, v, SingleFrom(v, IndexOf(s.single, t), at));
      case RunLoop(t, p, at) =>
        var w := Leave(s, NextThink(r.toExec, r.interval, at));
        LoopFlags(v, IndexOf(s.loops, t), at);
        LoopFlags(w, IndexOf(s.loops, t) + 1, at);
        FlagsTrans(s, v, LoopFrom(v, IndexOf(s.loops, t), at));
        FlagsTrans(s, w, LoopFrom(w, IndexOf(s.loops, t) + 1, at));
      case Fire(t, p, delay) =>
      case Kill(t) =>
        KillFlags(v);
        FlagsTrans(s, v, AfterKill(v));
    }
  }

  lemma SelfFlags(s: State)
    ensures FlagsStay(s, s)
  {
  }

  lemma SingleFlags(s: State, k: nat, now: real)
    ensures FlagsStay(s, SingleFrom(s, k, now))
  {
    hide LoopFrom;
    LoopFlags(s, 0, now);
  }

  lemma MapChangeFlags(s: State)
    requires Inv(s) && AllFlagged(s)
    ensures AllFlagged(RemoveMapChange(s))
  {
    hide Inv, DrainLoop;
    var u := s.(tokill := s.tokill + NoMap(s, s.single) + NoMap(s, s.loops), stack := s.stack + [Drain]);
    forall k | 0 <= k < |u.tokill| ensures u.tokill[k] in u.timers && u.timers[u.tokill[k]].noMap {
      if k >= |s.tokill| {
        NoMapHas(s, s.single, u.tokill[k]);
        NoMapHas(s, s.loops, u.tokill[k]);
        assert u.tokill[k] in NoMap(s, s.single) || u.tokill[k] in NoMap(s, s.loops);
      }
    }
    DrainFlags(u);
    FlagsAll(u, DrainLoop(u));
  }

  /** What is to be killed stays flagged, unless and only unless a creation uses such an object again for a
      timer that is not. */
  lemma FlaggedExactly(s: State, e: Event)
    requires Inv(s) && Allowed(s, e) && AllFlagged(s)
    ensures AllFlagged(Apply(s, e)) <==> !Reuses(s, e)
  {
    hide Core, RemoveMapChange, SingleFrom, LoopFrom, Return, Insert;
    match e
    case NewTimer(unused, interval, repeats, noMap, now) => CreateFlags(s, e);
    case KillIt(t) => FlagsAll(s, Apply(s, e));
    case FireIt(t, delay) => FlagsAll(s, Apply(s, e));
    case MapChange => MapChangeFlags(s);
    case Tick(now) =>
      SingleFlags(s, 0, now);
      FlagsAll(s, Apply(s, e));
    case Back(stop, now) =>
      ReturnFlags(s, stop, now);
      FlagsAll(s, Apply(s, e));
  }

  lemma CreateFlags(s: State, e: Event)
    requires FramesOk(s) && AllFlagged(s) && e.NewTimer? && e.unused !in s.timers
    ensures AllFlagged(Apply(s, e)) <==> !Reuses(s, e)
  {
    hide Insert;
    var u := Apply(s, e);
    var id := if s.free == [] then e.unused else s.free[|s.free| - 1];
    assert u.tokill == s.tokill && u.timers[id].noMap == e.noMap;
    forall k | 0 <= k < |s.tokill|
      ensures s.tokill[k] in u.timers
      ensures u.timers[s.tokill[k]].noMap <==> s.tokill[k] != id || e.noMap
    {
    }
    if Reuses(s, e) {
      var k :| 0 <= k < |s.tokill| && s.tokill[k] == id;
      assert !u.timers[u.tokill[k]].noMap;
    }
  }

  predicate NeverReuses(s: State, es: seq<Event>)
    decreases |es|
  {
    es == [] || (!Reuses(s, es[0]) && NeverReuses(Apply(s, es[0]), es[1..]))
  }

  lemma {:induction false} RunFlagged(s: State, es: seq<Event>)
    requires Inv(s) && AllFlagged(s) && KillsLast(s) && Runs(s, es) && Flat(s, es) && NeverReuses(s, es)
    ensures AllFlagged(After(s, es)) && KillsLast(After(s, es)) && Inv(After(s, es))
    decreases |es|
  {
    hide Inv, AllFlagged, KillsLast, Apply, Reuses;
    if es != [] {
      FlaggedExactly(s, es[0]);
      ApplyInv(s, es[0]);
      StepKills(s, es[0]);
      RunFlagged(Apply(s, es[0]), es[1..]);
    }
  }

  lemma NoneGoes(s: State)
    ensures Going(s, -1)
  {
  }

  lemma StepKills(s: State, e: Event)
    requires Inv(s) && KillsLast(s) && Allowed(s, e) && (e.MapChange? ==> !Draining(s))
    ensures KillsLast(Apply(s, e))
  {
    hide Inv, KillsLast, Apply;
    hide Going;
    NoneGoes(s);
    StepGoes(s, e, -1);
  }

  /** Then what the loop of RemoveMapChangeTimers kills is flagged. */
  lemma OnlyFlagged(es: seq<Event>, i: nat)
    requires Runs(START, es) && Flat(START, es) && NeverReuses(START, es)
    requires var s := After(START, es); i < |s.stack| && s.stack[i].Drain?
    ensures var s := After(START, es);
      i + 1 < |s.stack| && s.stack[i + 1].Kill? && s.stack[i + 1].t in s.timers && s.timers[s.stack[i + 1].t].noMap
  {
    hide Inv;
    StartInv();
    RunFlagged(START, es);
    var s := After(START, es);
    assert s.stack[i + 1] == Kill(s.tokill[|s.tokill| - 1]);
  }

  // ----- an object used again -----

  /** Two flagged timers; while the second is being killed its listener kills the first and makes a repeating
      timer that is not flagged, which gets the object of the first. */
  const REUSE_RUN: seq<Event> := [
    NewTimer(1, 1.0, false, true, 0.0),
    NewTimer(2, 2.0, false, true, 0.0),
    MapChange,
    KillIt(1),
    Back(false, 0.0),
    NewTimer(3, 5.0, true, false, 0.0),
    Back(false, 0.0)]

  const FIRST: Timer := Timer(0, 1.0, 1.0, false, true, false, false)
  const SECOND: Timer := Timer(1, 2.0, 2.0, false, true, false, false)
  const AGAIN: Timer := Timer(2, 5.0, 5.0, true, false, false, false)

  const BOTH: State := START.(timers := map[1 := FIRST, 2 := SECOND], single := [1, 2], made := 2)

  const KILLING: State := BOTH.(
    timers := map[1 := FIRST, 2 := SECOND.(inExec := true)], tokill := [1, 2], stack := [Drain, Kill(2)], ended := [1])

  const GONE: State := KILLING.(
    timers := map[1 := FIRST.(inExec := true), 2 := SECOND.(inExec := true)], single := [2], free := [1],
    ended := [1, 0])

  const MADE: State := GONE.(
    timers := map[1 := AGAIN, 2 := SECOND.(inExec := true)], loops := [1], free := [], made := 3)

  const ONE: State := START.(timers := map[1 := FIRST], single := [1], made := 1)

  lemma ReuseMade()
    ensures Apply(START, REUSE_RUN[0]) == ONE && Apply(ONE, REUSE_RUN[1]) == BOTH
  {
    assert InsertBefore(START, [], 1, 1.0) == [1] && [1] + [2] == [1, 2];
  }

  lemma ReuseKills()
    ensures Apply(BOTH, MapChange) == KILLING
  {
    NoMapBoth();
    var u := BOTH.(tokill := [1, 2], stack := [Drain]);
    assert BOTH.tokill + NoMap(BOTH, [1, 2]) + NoMap(BOTH, []) == [1, 2];
    assert [] + [Drain] == [Drain] && [Drain] + [Kill(2)] == [Drain, Kill(2)];
    assert DrainLoop(u) == Enter(u, Kill(2));
  }

  lemma NoMapBoth()
    ensures NoMap(BOTH, [1, 2]) == [1, 2] && NoMap(BOTH, []) == []
  {
    assert [1, 2][1..] == [2] && [2][1..] == [];
    assert NoMap(BOTH, [2]) == [2] + NoMap(BOTH, []);
    assert NoMap(BOTH, [1, 2]) == [1] + NoMap(BOTH, [2]);
  }

  const ENDING: State := KILLING.(
    timers := map[1 := FIRST.(inExec := true), 2 := SECOND.(inExec := true)], stack := [Drain, Kill(2), Kill(1)],
    ended := [1, 0])

  lemma ReuseGone()
    ensures Apply(KILLING, KillIt(1)) == ENDING && Apply(ENDING, Back(false, 0.0)) == GONE
  {
    assert [Drain, Kill(2)] + [Kill(1)] == [Drain, Kill(2), Kill(1)];
    assert [1, 2][1..] == [2] && Without([1, 2], 1) == [2];
    assert Retire(ENDING).stack == [Drain, Kill(2)] && Retire(ENDING).free == [1];
  }

  lemma ReuseAgain()
    ensures Apply(GONE, NewTimer(3, 5.0, true, false, 0.0)) == MADE && Reuses(GONE, NewTimer(3, 5.0, true, false, 0.0))
  {
    assert [1][..0] == [] && [] + [1] == [1];
  }

  lemma ReuseEnds()
    ensures var u := Apply(MADE, Back(false, 0.0));
      u.ended == [1, 0, 2] && u.stack == [Drain, Kill(1)] && u.timers[1] == AGAIN.(inExec := true)
  {
    assert Top(MADE) == Kill(2) && [2][1..] == [] && Without([2], 2) == [];
    var v := Retire(MADE);
    assert v.stack == [Drain] && v.tokill == [1, 2];
    var w := v.(tokill := [1]);
    assert [1, 2][..1] == [1];
    assert DrainLoop(w) == Enter(w, Kill(1));
    assert [1, 0] + [2] == [1, 0, 2] && [Drain] + [Kill(1)] == [Drain, Kill(1)];
  }

  /** One more step of a run. */
  lemma {:induction false} Longer(s: State, es: seq<Event>, e: Event)
    requires Runs(s, es) && Flat(s, es) && Allowed(After(s, es), e) && (e.MapChange? ==> !Draining(After(s, es)))
    ensures Runs(s, es + [e]) && Flat(s, es + [e]) && After(s, es + [e]) == Apply(After(s, es), e)
    decreases |es|
  {
    hide Apply, Allowed, Draining;
    if es == [] {
      assert es + [e] == [e] && [e][1..] == [];
    } else {
      Longer(Apply(s, es[0]), es[1..], e);
      assert (es + [e])[0] == es[0] && (es + [e])[1..] == es[1..] + [e];
    }
  }

  lemma ReuseRuns()
    ensures Runs(START, REUSE_RUN) && Flat(START, REUSE_RUN) && After(START, REUSE_RUN) == Apply(MADE, Back(false, 0.0))
  {
    hide Apply, Runs, Flat, After;
    ReuseMade();
    ReuseKills();
    ReuseGone();
    ReuseAgain();
    var es := REUSE_RUN;
    var run: seq<Event> := [];
    NoStep();
    Longer(START, run, es[0]);
    run := run + [es[0]];
    Longer(START, run, es[1]);
    run := run + [es[1]];
    Longer(START, run, es[2]);
    run := run + [es[2]];
    Longer(START, run, es[3]);
    run := run + [es[3]];
    Longer(START, run, es[4]);
    run := run + [es[4]];
    Longer(START, run, es[5]);
    run := run + [es[5]];
    Longer(START, run, es[6]);
    run := run + [es[6]];
    assert run == es;
  }

  lemma NoStep()
    ensures Runs(START, []) && Flat(START, []) && After(START, []) == START
  {
  }

  /** Its OnTimerEnd is called, though it was made after the map change began and is not flagged. */
  lemma UnflaggedGoes()
    ensures Runs(START, REUSE_RUN) && Flat(START, REUSE_RUN)
    ensures var s := After(START, REUSE_RUN);
      1 in s.timers && s.timers[1].serial == 2 && !s.timers[1].noMap && 2 in s.ended && Kill(1) in s.stack
  {
    hide Apply, Runs, Flat, After;
    ReuseRuns();
    ReuseEnds();
    var u := After(START, REUSE_RUN);
    ReuseKeys();
    assert u.stack[1] == Kill(1) && u.ended[2] == 2;
  }

  lemma ReuseKeys()
    ensures 1 in Apply(MADE, Back(false, 0.0)).timers
  {
    assert Top(MADE) == Kill(2);
    var v := Retire(MADE);
    var w := v.(tokill := [1]);
    assert v.stack == [Drain] && [1, 2][..1] == [1];
    assert DrainLoop(w) == Enter(w, Kill(1));
  }
}
