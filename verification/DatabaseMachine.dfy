/** The threaded database queue of sourcemod/core/Database.cpp: the main thread and the worker as
    interleaved steps. A step of the main thread ends where it releases a lock, waits for the worker, or
    calls an operation; the operation may call the manager again. */
module DatabaseMachine {
  datatype Option<+T> = None | Some(value: T)

  datatype Operation = Operation(owner: int, driver: int)

  /** The operation the worker has taken from the queue, and whether its thread part has run. */
  datatype Hand = Empty | Taken(op: int) | Done(op: int)

  /** A suspended activation of the main thread: in RunThinkPart from RunFrame; in the loops of
      OnSourceModIdentityDropped and RemoveDriver, which first wait for the worker to stop; or in a wait
      of AddDriver. */
  datatype Act =
    | Think(op: int)
    | Drop(token: int, waiting: bool, todo: seq<int>, cur: Option<int>)
    | Remove(driver: int, waiting: bool, todo: seq<int>, cur: Option<int>)
    | Wait

  /** high, normal and low are the queues of the three priorities. jobs are the threads that have been
      made and not been run. ran, begun and destroyed record the thread parts, the think or cancel parts,
      and the destructions, in order. */
  datatype State = State(
    ops: map<int, Operation>, high: seq<int>, normal: seq<int>, low: seq<int>, jobs: nat, adding: bool,
    worker: bool, hand: Hand, think: seq<int>, stack: seq<Act>, addBlock: Option<int>,
    ran: seq<int>, begun: seq<int>, destroyed: seq<int>)

  const START := State(map[], [], [], [], 0, false, false, Empty, [], [], None, [], [], [])

  datatype Priority = High | Normal | Low

  datatype Step =
    | Add(op: int, what: Operation, prio: Priority, starts: bool)
    | MakeThread
    | RunFrame
    | IdentityDropped(token: int)
    | RemoveDriver(driver: int)
    | AddDriver
    | Stopped
    | Next
    | Back
    | End
    | TakeOp(prio: Priority)
    | RunThreadPart
    | PushThink

  function Top(s: State): Act
    requires s.stack != []
  {
    s.stack[|s.stack| - 1]
  }

  function WithTop(s: State, a: Act): State
    requires s.stack != []
  {
    s.(stack := s.stack[..|s.stack| - 1] + [a])
  }

  function Pop(s: State): State
    requires s.stack != []
  {
    s.(stack := s.stack[..|s.stack| - 1])
  }

  predicate Waiting(a: Act) {
    match a
    case Think(_) => false
    case Drop(_, w, _, _) => w
    case Remove(_, w, _, _) => w
    case Wait => true
  }

  /** The main thread is neither waiting nor between the two parts of AddToThreadQueue. */
  predicate MainFree(s: State) { !s.adding && (s.stack == [] || !Waiting(Top(s))) }

  /** The main thread is where it may call the manager: in the engine, or in an operation. */
  predicate MayCall(s: State) {
    MainFree(s) && (s.stack == [] || Top(s).Think? || Top(s).cur.Some?)
  }

  predicate Dropping(k: seq<Act>) { exists i :: 0 <= i < |k| && k[i].Drop? }

  function QueueOf(s: State, p: Priority): seq<int> {
    match p case High => s.high case Normal => s.normal case Low => s.low
  }

  function WithQueue(s: State, p: Priority, q: seq<int>): State {
    match p case High => s.(high := q) case Normal => s.(normal := q) case Low => s.(low := q)
  }

  /** The operations of a list that satisfy the test of a loop, and the others, in their order. */
  function Pick(ops: map<int, Operation>, l: seq<int>, test: Operation -> bool): seq<int> {
    if l == [] then [] else (if l[0] in ops && test(ops[l[0]]) then [l[0]] else []) + Pick(ops, l[1..], test)
  }

  function Leave(ops: map<int, Operation>, l: seq<int>, test: Operation -> bool): seq<int> {
    if l == [] then [] else (if l[0] in ops && test(ops[l[0]]) then [] else [l[0]]) + Leave(ops, l[1..], test)
  }

  function OwnedBy(t: int): Operation -> bool { (o: Operation) => o.owner == t }

  function DrivenBy(d: int): Operation -> bool { (o: Operation) => o.driver == d }

  /** In a loop over what has been set aside, between two operations. */
  predicate AtLoop(s: State) {
    MainFree(s) && s.stack != [] && (Top(s).Drop? || Top(s).Remove?) && Top(s).cur.None?
  }

  predicate Enabled(s: State, e: Step) {
    match e
    case Add(op, _, _, _) => MayCall(s) && op !in s.ops
    case MakeThread => s.adding
    case RunFrame => MainFree(s) && s.stack == [] && s.think != []
    case IdentityDropped(_) => MayCall(s)
    case RemoveDriver(_) => MayCall(s)
    case AddDriver => MayCall(s)
    case Stopped => !s.adding && s.stack != [] && Waiting(Top(s)) && (!s.worker || (s.jobs == 0 && s.hand.Empty?))
    case Next => AtLoop(s) && Top(s).todo != []
    case Back => MainFree(s) && s.stack != [] && (Top(s).Think? || Top(s).cur.Some?)
    case End => AtLoop(s) && Top(s).todo == []
    case TakeOp(p) => s.worker && s.jobs > 0 && s.hand.Empty? && QueueOf(s, p) != []
    case RunThreadPart => s.worker && s.hand.Taken?
    case PushThink => s.worker && s.hand.Done?
  }

  /** KillWorkerThread has returned. */
  function Stop(s: State): State
    requires s.stack != []
  {
    var u := s.(worker := false);
    match Top(s)
    case Drop(t, _, _, _) =>
      WithTop(u, Drop(t, false, Pick(s.ops, s.think, OwnedBy(t)), None))
        .(think := Leave(s.ops, s.think, OwnedBy(t)))
    case Remove(d, _, _, _) =>
      WithTop(u, Remove(d, false, Pick(s.ops, s.think, DrivenBy(d)), None))
        .(think := Leave(s.ops, s.think, DrivenBy(d)))
    case Wait => Pop(u)
    case Think(_) => u
  }

  function Apply(s: State, e: Step): State
    requires Enabled(s, e)
  {
    match e
    case Add(op, what, p, starts) =>
      if s.addBlock == Some(what.owner) then s
      else if !s.worker && !starts then s
      else WithQueue(s, p, QueueOf(s, p) + [op]).(ops := s.ops[op := what], worker := true, adding := true)
    case MakeThread => s.(jobs := s.jobs + 1, adding := false)
    case RunFrame =>
      s.(think := s.think[1..], stack := s.stack + [Think(s.think[0])], begun := s.begun + [s.think[0]])
    case IdentityDropped(t) => s.(addBlock := Some(t), stack := s.stack + [Drop(t, true, [], None)])
    case RemoveDriver(d) => s.(stack := s.stack + [Remove(d, true, [], None)])
    case AddDriver => s.(stack := s.stack + [Wait])
    case Stopped => Stop(s)
    case Next =>
      var a := Top(s);
      WithTop(s, a.(todo := a.todo[1..], cur := Some(a.todo[0]))).(begun := s.begun + [a.todo[0]])
    case Back =>
      var a := Top(s);
      if a.Think? then Pop(s).(destroyed := s.destroyed + [a.op])
      else WithTop(s, a.(cur := None)).(destroyed := s.destroyed + [a.cur.value])
    case End => if Top(s).Drop? then Pop(s).(addBlock := None) else Pop(s)
    case TakeOp(p) =>
      WithQueue(s, p, QueueOf(s, p)[1..]).(hand := Taken(QueueOf(s, p)[0]), jobs := s.jobs - 1)
    case RunThreadPart => s.(hand := Done(s.hand.op), ran := s.ran + [s.hand.op])
    case PushThink => s.(hand := Empty, think := s.think + [s.hand.op])
  }

  predicate Runs(s: State, es: seq<Step>)
    decreases |es|
  {
    es == [] || (Enabled(s, es[0]) && Runs(Apply(s, es[0]), es[1..]))
  }

  function After(s: State, es: seq<Step>): State
    requires Runs(s, es)
    decreases |es|
  {
    if es == [] then s else After(Apply(s, es[0]), es[1..])
  }
}
