/** Every interleaving of the main thread and the worker. */
module DatabaseRuns {
  import opened DatabaseMachine

  // ----- where the operations are -----

  function Count(l: seq<int>, x: int): nat {
    if l == [] then 0 else (if l[0] == x then 1 else 0) + Count(l[1..], x)
  }

  function One(op: int, x: int): nat { if op == x then 1 else 0 }

  function Queued(s: State, x: int): nat { Count(s.high, x) + Count(s.normal, x) + Count(s.low, x) }

  function InHand(h: Hand, x: int): nat { if h.Empty? then 0 else One(h.op, x) }

  function RanInHand(h: Hand, x: int): nat { if h.Done? then One(h.op, x) else 0 }

  function CurOf(a: Act, x: int): nat {
    match a
    case Think(op) => One(op, x)
    case Drop(_, _, _, cur) => if cur.Some? then One(cur.value, x) else 0
    case Remove(_, _, _, cur) => if cur.Some? then One(cur.value, x) else 0
    case Wait => 0
  }

  function TodoOf(a: Act, x: int): nat {
    match a
    case Drop(_, _, todo, _) => Count(todo, x)
    case Remove(_, _, todo, _) => Count(todo, x)
    case Think(_) => 0
    case Wait => 0
  }

  /** How often the activations call the operation, and how often they have set it aside. */
  function Cur(k: seq<Act>, x: int): nat {
    if k == [] then 0 else Cur(k[..|k| - 1], x) + CurOf(k[|k| - 1], x)
  }

  function Todo(k: seq<Act>, x: int): nat {
    if k == [] then 0 else Todo(k[..|k| - 1], x) + TodoOf(k[|k| - 1], x)
  }

  function Held(s: State, x: int): nat { Cur(s.stack, x) + Todo(s.stack, x) }

  /** How often the operation is on its way to the main thread. */
  function Coming(s: State, x: int): nat { Queued(s, x) + InHand(s.hand, x) + Count(s.think, x) }

  /** An accepted operation is in exactly one place, any other in none. Its thread part has run exactly
      when the worker is done with it, its think or cancel part has begun exactly when an activation calls
      it or it is destroyed. */
  predicate At(s: State, x: int) {
    && Queued(s, x) + InHand(s.hand, x) + Count(s.think, x) + Held(s, x) + Count(s.destroyed, x) ==
          (if x in s.ops then 1 else 0)
    && Count(s.ran, x) == RanInHand(s.hand, x) + Count(s.think, x) + Held(s, x) + Count(s.destroyed, x)
    && Count(s.begun, x) == Cur(s.stack, x) + Count(s.destroyed, x)
  }

  ghost predicate Placed(s: State) { forall x {:trigger At(s, x)} :: At(s, x) }

  /** There is a thread for each queued operation, but for one that is just being added. */
  predicate Threads(s: State) {
    && |s.high| + |s.normal| + |s.low| == s.jobs + (if s.adding then 1 else 0)
    && (!s.worker ==> s.jobs == 0 && s.hand.Empty? && !s.adding)
  }

  /** Only the topmost activation waits for the worker, and what waits has set nothing aside yet. */
  ghost predicate Waits(s: State) {
    && (forall i {:trigger s.stack[i]} ::
          0 <= i < |s.stack| && (s.stack[i].Drop? || s.stack[i].Remove?) && s.stack[i].waiting ==>
          i == |s.stack| - 1 && s.stack[i].todo == [] && s.stack[i].cur.None?)
    && (forall i {:trigger s.stack[i]} :: 0 <= i < |s.stack| - 1 ==> !s.stack[i].Wait?)
  }

  ghost predicate Inv(s: State) {
    Placed(s) && Threads(s) && Waits(s)
  }

  // ----- counting -----

  lemma {:induction false} CountLast(l: seq<int>, y: int, x: int)
    ensures Count(l + [y], x) == Count(l, x) + One(y, x)
  {
    if l == [] {
      assert [y][1..] == [];
    } else {
      CountLast(l[1..], y, x);
      assert (l + [y])[1..] == l[1..] + [y];
    }
  }

  lemma CurPush(k: seq<Act>, a: Act, x: int)
    ensures Cur(k + [a], x) == Cur(k, x) + CurOf(a, x) && Todo(k + [a], x) == Todo(k, x) + TodoOf(a, x)
  {
    assert (k + [a])[..|k + [a]| - 1] == k;
  }

  lemma {:induction false} PickLeave(ops: map<int, Operation>, l: seq<int>, test: Operation -> bool, x: int)
    ensures Count(Pick(ops, l, test), x) + Count(Leave(ops, l, test), x) == Count(l, x)
    ensures x in ops && test(ops[x]) ==> Count(Leave(ops, l, test), x) == 0
  {
    if l != [] {
      PickLeave(ops, l[1..], test, x);
      var p, q := Pick(ops, l[1..], test), Leave(ops, l[1..], test);
      if l[0] in ops && test(ops[l[0]]) {
        assert Pick(ops, l, test) == [l[0]] + p && ([l[0]] + p)[1..] == p && Leave(ops, l, test) == q;
      } else {
        assert Leave(ops, l, test) == [l[0]] + q && ([l[0]] + q)[1..] == q && Pick(ops, l, test) == p;
      }
    }
  }

  // ----- one operation through each step -----

  lemma AddAt(s: State, op: int, what: Operation, p: Priority, starts: bool, x: int)
    requires At(s, x) && At(s, op) && Enabled(s, Add(op, what, p, starts))
    ensures At(Apply(s, Add(op, what, p, starts)), x)
  {
    hide Count, Cur, Todo;
    CountLast(QueueOf(s, p), op, x);
  }

  lemma TakeAt(s: State, p: Priority, x: int)
    requires At(s, x) && Enabled(s, TakeOp(p))
    ensures At(Apply(s, TakeOp(p)), x)
  {
    CountHead(QueueOf(s, p), x);
    hide Count, Cur, Todo;
  }

  lemma CountHead(l: seq<int>, x: int)
    requires l != []
    ensures Count(l, x) == One(l[0], x) + Count(l[1..], x)
  {
  }

  lemma WorkerAt(s: State, x: int)
    requires At(s, x)
    ensures Enabled(s, RunThreadPart) ==> At(Apply(s, RunThreadPart), x)
    ensures Enabled(s, PushThink) ==> At(Apply(s, PushThink), x)
  {
    hide Count, Cur, Todo;
    if !s.hand.Empty? {
      CountLast(s.ran, s.hand.op, x);
      CountLast(s.think, s.hand.op, x);
    }
  }

  lemma RunFrameAt(s: State, x: int)
    requires At(s, x) && Enabled(s, RunFrame)
    ensures At(Apply(s, RunFrame), x)
  {
    hide Count, Cur, Todo;
    CurPush(s.stack, Think(s.think[0]), x);
    CountHead(s.think, x);
    CountLast(s.begun, s.think[0], x);
  }

  lemma CurTop(k: seq<Act>, x: int)
    requires k != []
    ensures Cur(k, x) == Cur(k[..|k| - 1], x) + CurOf(k[|k| - 1], x)
    ensures Todo(k, x) == Todo(k[..|k| - 1], x) + TodoOf(k[|k| - 1], x)
  {
  }

  lemma NextAt(s: State, x: int)
    requires At(s, x) && Enabled(s, Next)
    ensures At(Apply(s, Next), x)
  {
    hide Count, Cur, Todo;
    var a := Top(s);
    CurTop(s.stack, x);
    CurPush(s.stack[..|s.stack| - 1], a.(todo := a.todo[1..], cur := Some(a.todo[0])), x);
    CountHead(a.todo, x);
    CountLast(s.begun, a.todo[0], x);
  }

  lemma BackAt(s: State, x: int)
    requires At(s, x) && Enabled(s, Back)
    ensures At(Apply(s, Back), x)
  {
    hide Count, Cur, Todo;
    var a := Top(s);
    CurTop(s.stack, x);
    if a.Think? {
      CountLast(s.destroyed, a.op, x);
    } else {
      CurPush(s.stack[..|s.stack| - 1], a.(cur := None), x);
      CountLast(s.destroyed, a.cur.value, x);
    }
  }

  /** When the worker has stopped, the loop takes its own from the think queue. */
  lemma StopAt(s: State, x: int)
    requires At(s, x) && Waits(s) && Enabled(s, Stopped)
    ensures At(Apply(s, Stopped), x)
  {
    hide Count, Cur, Todo;
    CurTop(s.stack, x);
    CountNone(x);
    match Top(s)
    case Drop(t, _, todo, _) =>
      PickLeave(s.ops, s.think, OwnedBy(t), x);
      CurPush(s.stack[..|s.stack| - 1], Drop(t, false, Pick(s.ops, s.think, OwnedBy(t)), None), x);
    case Remove(d, _, todo, _) =>
      PickLeave(s.ops, s.think, DrivenBy(d), x);
      CurPush(s.stack[..|s.stack| - 1], Remove(d, false, Pick(s.ops, s.think, DrivenBy(d)), None), x);
    case Wait =>
    case Think(_) =>
  }

  lemma CountNone(x: int)
    ensures Count([], x) == 0
  {
  }

  lemma PushAt(s: State, a: Act, block: Option<int>, x: int)
    requires At(s, x) && CurOf(a, x) == 0 && TodoOf(a, x) == 0
    ensures At(s.(stack := s.stack + [a], addBlock := block), x)
  {
    hide Count, Cur, Todo;
    CurPush(s.stack, a, x);
  }

  lemma EndAt(s: State, x: int)
    requires At(s, x) && Enabled(s, End)
    ensures At(Apply(s, End), x)
  {
    hide Count, Cur, Todo;
    CurTop(s.stack, x);
    CountNone(x);
  }

  lemma ApplyAt(s: State, e: Step, x: int)
    requires Inv(s) && Enabled(s, e)
    ensures At(Apply(s, e), x)
  {
    hide Count, Cur, Todo, Threads, Waits;
    assert At(s, x);
    match e
    case Add(op, what, p, starts) =>
      assert At(s, op);
      AddAt(s, op, what, p, starts, x);
    case MakeThread =>
    case RunFrame => RunFrameAt(s, x);
    case IdentityDropped(t) =>
      CountNone(x);
      PushAt(s, Drop(t, true, [], None), Some(t), x);
    case RemoveDriver(d) =>
      CountNone(x);
      PushAt(s, Remove(d, true, [], None), s.addBlock, x);
    case AddDriver => PushAt(s, Wait, s.addBlock, x);
    case Stopped => StopAt(s, x);
    case Next => NextAt(s, x);
    case Back => BackAt(s, x);
    case End => EndAt(s, x);
    case TakeOp(p) => TakeAt(s, p, x);
    case RunThreadPart => WorkerAt(s, x);
    case PushThink => WorkerAt(s, x);
  }

  lemma ApplyThreads(s: State, e: Step)
    requires Threads(s) && Enabled(s, e)
    ensures Threads(Apply(s, e))
  {
    hide Pick, DatabaseMachine.Leave;
  }

  lemma ApplyWaits(s: State, e: Step)
    requires Waits(s) && Enabled(s, e)
    ensures Waits(Apply(s, e))
  {
    hide Pick, DatabaseMachine.Leave, Waits;
    var u := Apply(s, e);
    match e
    case RunFrame => PushWaits(s, u, Think(s.think[0]));
    case IdentityDropped(t) => PushWaits(s, u, Drop(t, true, [], None));
    case RemoveDriver(d) => PushWaits(s, u, Remove(d, true, [], None));
    case AddDriver => PushWaits(s, u, Wait);
    case Stopped => TopWaits(s, u);
    case Next => TopWaits(s, u);
    case Back => TopWaits(s, u);
    case End => TopWaits(s, u);
    case _ => SameWaits(s, u);
  }

  lemma PushWaits(s: State, u: State, a: Act)
    requires Waits(s) && (s.stack == [] || !Waiting(Top(s))) && u.stack == s.stack + [a]
    requires a.Drop? || a.Remove? ==> a.todo == [] && a.cur.None?
    ensures Waits(u)
  {
    assert forall i {:trigger u.stack[i]} :: 0 <= i < |s.stack| ==> u.stack[i] == s.stack[i];
  }

  lemma SameWaits(s: State, u: State)
    requires Waits(s) && u.stack == s.stack
    ensures Waits(u)
  {
  }

  /** The top is popped, or changed without beginning to wait. */
  lemma TopWaits(s: State, u: State)
    requires Waits(s) && s.stack != []
    requires u.stack == s.stack[..|s.stack| - 1] ||
      (|u.stack| == |s.stack| && u.stack[..|s.stack| - 1] == s.stack[..|s.stack| - 1] && !Waiting(Top(u)))
    ensures Waits(u)
  {
    var n := |s.stack| - 1;
    assert forall i {:trigger u.stack[i]} :: 0 <= i < n ==> u.stack[i] == s.stack[..n][i] == s.stack[i];
  }

  // ----- runs -----

  lemma StartInv()
    ensures Inv(START)
  {
  }

  lemma ApplyInv(s: State, e: Step)
    requires Inv(s) && Enabled(s, e)
    ensures Inv(Apply(s, e))
  {
    hide Placed, Threads, Waits, Enabled, Apply;
    PlacedStep(s, e);
    InvThreads(s);
    ApplyThreads(s, e);
    ApplyWaits(s, e);
  }

  lemma {:induction false} RunInv(s: State, es: seq<Step>)
    requires Inv(s) && Runs(s, es)
    ensures Inv(After(s, es))
    decreases |es|
  {
    hide Inv, Enabled, Apply;
    if es != [] {
      ApplyInv(s, es[0]);
      RunInv(Apply(s, es[0]), es[1..]);
    }
  }

  lemma InvThreads(s: State)
    requires Inv(s)
    ensures Threads(s)
  {
  }

  lemma PlacedStep(s: State, e: Step)
    requires Inv(s) && Enabled(s, e)
    ensures Placed(Apply(s, e))
  {
    hide At, Apply, Enabled, Inv;
    forall x ensures At(Apply(s, e), x) { ApplyAt(s, e, x); }
  }

  /** In every interleaving an accepted operation is in exactly one of the queues, the worker, the think
      queue, the hands of the main thread and the destroyed ones; its thread part has run before its think
      or cancel part began, each at most once; and it is destroyed at most once, after that. */
  lemma EachOnce(es: seq<Step>, x: int)
    requires Runs(START, es)
    ensures var s := After(START, es);
      && Coming(s, x) + Held(s, x) + Count(s.destroyed, x) == (if x in s.ops then 1 else 0)
      && Count(s.destroyed, x) <= Count(s.begun, x) <= Count(s.ran, x) <= 1
      && (Count(s.destroyed, x) == 1 ==> Count(s.begun, x) == 1 && Count(s.ran, x) == 1)
  {
    StartInv();
    RunInv(START, es);
    hide Count, Cur, Todo;
    assert At(After(START, es), x);
  }

  /** There is an operation for every thread: RunThread never finds the queues empty. */
  lemma ThreadFindsOp(es: seq<Step>)
    requires Runs(START, es) && After(START, es).jobs > 0
    ensures exists p :: QueueOf(After(START, es), p) != []
  {
    StartInv();
    RunInv(START, es);
    var s := After(START, es);
    assert s.high != [] || s.normal != [] || s.low != [];
    assert QueueOf(s, High) == s.high && QueueOf(s, Normal) == s.normal && QueueOf(s, Low) == s.low;
  }
}
