/** The timer system of sourcemod/core/TimerSys.cpp as a machine that is suspended whenever it calls a
    listener: the listener may call the system again, which stacks a new activation on the suspended one. */
module TimerMachine {
  /** A timer object; serial tells its creations apart. */
  datatype Timer = Timer(serial: nat, toExec: real, interval: real, repeats: bool, noMap: bool, inExec: bool,
        killMe: bool)

  datatype Phase = OnTimer | OnTimerEnd

  /** A suspended activation: the loops of RunFrame, FireTimerOnce or KillTimer in a call for timer t, or
      the loop of RemoveMapChangeTimers around a KillTimer. */
  datatype Frame =
    | RunSingle(t: int, phase: Phase, now: real)
    | RunLoop(t: int, phase: Phase, now: real)
    | Fire(t: int, phase: Phase, delay: bool)
    | Kill(t: int)
    | Drain

  /** single is kept in the order of execution. ended are the serials whose OnTimerEnd has been called;
      fault is set when an empty stack is popped. */
  datatype State = State(
    timers: map<int, Timer>, single: seq<int>, loops: seq<int>, free: seq<int>, tokill: seq<int>,
    stack: seq<Frame>, made: nat, ended: seq<nat>, fault: bool)

  const START := State(map[], [], [], [], [], [], 0, [], false)

  predicate Ends(f: Frame) {
    match f
    case RunSingle(_, p, _) => p == OnTimerEnd
    case RunLoop(_, p, _) => p == OnTimerEnd
    case Fire(_, p, _) => p == OnTimerEnd
    case Kill(_) => true
    case Drain => false
  }

  function Without(l: seq<int>, t: int): seq<int> {
    if l == [] then [] else if l[0] == t then l[1..] else [l[0]] + Without(l[1..], t)
  }

  function IndexOf(l: seq<int>, t: int): (k: nat)
    ensures k <= |l| && (k < |l| ==> l[k] == t)
  {
    if l == [] || l[0] == t then 0 else 1 + IndexOf(l[1..], t)
  }

  // ----- the sections between two calls -----

  /** The listener is called for t: the activation is suspended. */
  function Enter(s: State, f: Frame): State
    requires !f.Drain? && f.t in s.timers
  {
    var r := s.timers[f.t];
    s.(timers := s.timers[f.t := r.(inExec := true)], stack := s.stack + [f],
       ended := if Ends(f) then s.ended + [r.serial] else s.ended)
  }

  function Top(s: State): Frame
    requires s.stack != []
  {
    s.stack[|s.stack| - 1]
  }

  function Pop(s: State): State
    requires s.stack != []
  {
    s.(stack := s.stack[..|s.stack| - 1])
  }

  /** OnTimer has returned, and OnTimerEnd is called. */
  function ToEnd(s: State): State
    requires s.stack != [] && (Top(s).RunSingle? || Top(s).RunLoop? || Top(s).Fire?) && Top(s).t in s.timers
  {
    s.(stack := s.stack[|s.stack| - 1 := Top(s).(phase := OnTimerEnd)], ended := s.ended + [s.timers[Top(s).t].serial])
  }

  /** The timer stays, to be executed again at a new time. */
  function Leave(s: State, toExec: real): State
    requires s.stack != [] && !Top(s).Drain? && Top(s).t in s.timers
  {
    var t := Top(s).t;
    Pop(s).(timers := s.timers[t := s.timers[t].(inExec := false, toExec := toExec)])
  }

  /** OnTimerEnd has returned: the timer leaves its list for the free stack. */
  function Retire(s: State): State
    requires s.stack != [] && !Top(s).Drain? && Top(s).t in s.timers
  {
    var t := Top(s).t;
    var u := if s.timers[t].repeats then s.(loops := Without(s.loops, t)) else s.(single := Without(s.single, t));
    Pop(u).(free := s.free + [t])
  }

  function MarkKill(s: State, t: int): State
    requires t in s.timers
  {
    s.(timers := s.timers[t := s.timers[t].(killMe := true)])
  }

  // ----- CreateTimer -----

  predicate Due(s: State, t: int, now: real) { t in s.timers && now >= s.timers[t].toExec }

  function Later(s: State, t: int, at: real): bool { t in s.timers && s.timers[t].toExec >= at }

  /** Before the first that is not earlier. */
  function InsertBefore(s: State, l: seq<int>, t: int, at: real): seq<int> {
    if l == [] then [t] else if Later(s, l[0], at) then [t] + l else [l[0]] + InsertBefore(s, l[1..], t, at)
  }

  function Insert(s: State, l: seq<int>, t: int, at: real): seq<int> {
    if l != [] && l[|l| - 1] in s.timers && s.timers[l[|l| - 1]].toExec <= at then l + [t]
    else InsertBefore(s, l, t, at)
  }

  /** The top of the free stack, or a new object. */
  function Create(s: State, unused: int, interval: real, repeats: bool, noMap: bool, now: real): State {
    var id := if s.free == [] then unused else s.free[|s.free| - 1];
    var at := now + interval;
    var u := s.(timers := s.timers[id := Timer(s.made, at, interval, repeats, noMap, false, false)], made := s.made + 1,
                free := if s.free == [] then [] else s.free[..|s.free| - 1]);
    if repeats then u.(loops := u.loops + [id]) else u.(single := Insert(s, u.single, id, at))
  }

  // ----- KillTimer, FireTimerOnce -----

  function KillTimer(s: State, t: int): State
    requires t in s.timers
  {
    if s.timers[t].killMe then s
    else if s.timers[t].inExec then MarkKill(s, t)
    else Enter(s, Kill(t))
  }

  function FireTimer(s: State, t: int, delay: bool): State
    requires t in s.timers
  {
    if s.timers[t].inExec then s else Enter(s, Fire(t, OnTimer, delay))
  }

  // ----- RunFrame -----

  function NextThink(last: real, interval: real, now: real): real {
    if now - last - interval <= 0.1 then last + interval else now + interval
  }

  function LoopFrom(s: State, k: nat, now: real): State
    decreases |s.loops| - k
  {
    if k >= |s.loops| then s
    else if Due(s, s.loops[k], now) then Enter(s, RunLoop(s.loops[k], OnTimer, now))
    else LoopFrom(s, k + 1, now)
  }

  function SingleFrom(s: State, k: nat, now: real): State {
    if k < |s.single| && Due(s, s.single[k], now) then Enter(s, RunSingle(s.single[k], OnTimer, now))
    else LoopFrom(s, 0, now)
  }

  // ----- RemoveMapChangeTimers -----

  function NoMap(s: State, l: seq<int>): seq<int> {
    if l == [] then []
    else (if l[0] in s.timers && s.timers[l[0]].noMap then [l[0]] else []) + NoMap(s, l[1..])
  }

  /** The loop around KillTimer, until a KillTimer is suspended or the stack is empty. */
  function DrainLoop(s: State): State
    requires s.stack != []
    decreases |s.tokill|
  {
    if s.tokill == [] then Pop(s)
    else
      var n := |s.tokill| - 1;
      var t := s.tokill[n];
      if t !in s.timers || s.timers[t].killMe then DrainLoop(s.(tokill := s.tokill[..n]))
      else if s.timers[t].inExec then DrainLoop(MarkKill(s, t).(tokill := s.tokill[..n]))
      else Enter(s, Kill(t))
  }

  function RemoveMapChange(s: State): State {
    DrainLoop(s.(tokill := s.tokill + NoMap(s, s.single) + NoMap(s, s.loops), stack := s.stack + [Drain]))
  }

  // ----- a listener returns -----

  /** After KillTimer: back to the loop of RemoveMapChangeTimers, if that is what called it. */
  function AfterKill(s: State): State {
    if s.stack != [] && Top(s).Drain? then
      if s.tokill == [] then s.(fault := true) else DrainLoop(s.(tokill := s.tokill[..|s.tokill| - 1]))
    else s
  }

  function Return(s: State, stop: bool, now: real): State {
    if s.stack == [] || Top(s).Drain? || Top(s).t !in s.timers then s
    else
      var f := Top(s);
      var r := s.timers[f.t];
      match f
      case RunSingle(t, p, at) =>
        if p == OnTimer then ToEnd(s) else SingleFrom(Retire(s), IndexOf(s.single, t), at)
      case RunLoop(t, p, at) =>
        if p == OnTimerEnd then LoopFrom(Retire(s), IndexOf(s.loops, t), at)
        else if r.killMe || stop then ToEnd(s)
        else LoopFrom(Leave(s, NextThink(r.toExec, r.interval, at)), IndexOf(s.loops, t) + 1, at)
      case Fire(t, p, delay) =>
        if p == OnTimerEnd then Retire(s)
        else if r.repeats && !stop && !r.killMe then Leave(s, if delay then now + r.interval else r.toExec)
        else ToEnd(s)
      case Kill(t) => AfterKill(Retire(s))
  }

  // ----- runs -----

  /** What the engine or a listener may do next: call the system, or return. */
  datatype Event =
    | NewTimer(unused: int, interval: real, repeats: bool, noMap: bool, now: real)
    | KillIt(t: int)
    | FireIt(t: int, delay: bool)
    | MapChange
    | Tick(now: real)
    | Back(stop: bool, now: real)

  predicate Live(s: State, t: int) { t in s.single || t in s.loops }

  /** New objects are new, callers name timer objects there are, and RunFrame is not entered again. */
  predicate Allowed(s: State, e: Event) {
    match e
    case NewTimer(unused, _, _, _, _) => unused !in s.timers
    case KillIt(t) => t in s.timers
    case FireIt(t, _) => t in s.timers
    case MapChange => true
    case Tick(_) => s.stack == []
    case Back(_, _) => s.stack != []
  }

  function Apply(s: State, e: Event): State {
    match e
    case NewTimer(unused, interval, repeats, noMap, now) => Create(s, unused, interval, repeats, noMap, now)
    case KillIt(t) => if t in s.timers then KillTimer(s, t) else s
    case FireIt(t, delay) => if t in s.timers then FireTimer(s, t, delay) else s
    case MapChange => RemoveMapChange(s)
    case Tick(now) => SingleFrom(s, 0, now)
    case Back(stop, now) => Return(s, stop, now)
  }

  /** Whether RemoveMapChangeTimers is suspended somewhere. */
  predicate Draining(s: State) { Drain in s.stack }

  predicate Runs(s: State, es: seq<Event>)
    decreases |es|
  {
    es == [] || (Allowed(s, es[0]) && Runs(Apply(s, es[0]), es[1..]))
  }

  function After(s: State, es: seq<Event>): State
    decreases |es|
  {
    if es == [] then s else After(Apply(s, es[0]), es[1..])
  }

  /** RemoveMapChangeTimers is never called from within itself. */
  predicate Flat(s: State, es: seq<Event>)
    decreases |es|
  {
    es == [] || ((es[0].MapChange? ==> !Draining(s)) && Flat(Apply(s, es[0]), es[1..]))
  }
}
