/** The block on additions while an identity is dropped: exactly when it holds, and what it is for. */
module DatabaseBlock {
  import opened DatabaseMachine
  import opened DatabaseRuns

  // ----- exactly when the block holds -----

  /** The block is on the identity of every drop that is under way. */
  predicate Guarded(s: State) {
    forall i {:trigger s.stack[i]} :: 0 <= i < |s.stack| && s.stack[i].Drop? ==> s.addBlock == Some(s.stack[i].token)
  }

  /** A drop of another identity begins, or an inner drop ends. */
  predicate Breaks(s: State, e: Step) {
    match e
    case IdentityDropped(t) => exists i {:trigger s.stack[i]} ::
          0 <= i < |s.stack| && s.stack[i].Drop? && s.stack[i].token != t
    case End => s.stack != [] && Top(s).Drop? && Dropping(s.stack[..|s.stack| - 1])
    case _ => false
  }

  /** While the block is on, nothing of the identities being dropped is accepted, and only then. */
  lemma GuardRefuses(s: State, op: int)
    requires MayCall(s) && op !in s.ops
    ensures Guarded(s) <==> forall i {:trigger s.stack[i]} :: 0 <= i < |s.stack| && s.stack[i].Drop? ==>
      Apply(s, Add(op, Operation(s.stack[i].token, 0), Normal, true)) == s
  {
    forall i {:trigger s.stack[i]} | 0 <= i < |s.stack| && s.stack[i].Drop?
      ensures Apply(s, Add(op, Operation(s.stack[i].token, 0), Normal, true)) == s <==>
            s.addBlock == Some(s.stack[i].token)
    {
      if s.addBlock != Some(s.stack[i].token) {
        assert op in Apply(s, Add(op, Operation(s.stack[i].token, 0), Normal, true)).ops;
      }
    }
  }

  /** A step takes the block away exactly when it begins the drop of another identity within a drop, or
      ends a drop within a drop. */
  lemma BlockSurvives(s: State, e: Step)
    requires Guarded(s) && Enabled(s, e)
    ensures Guarded(Apply(s, e)) <==> !Breaks(s, e)
  {
    hide Pick, DatabaseMachine.Leave;
    var u := Apply(s, e);
    match e
    case IdentityDropped(t) => DropSurvives(s, t);
    case End => EndSurvives(s);
    case Stopped => BelowSame(s, u);
    case Next => BelowSame(s, u);
    case Back => BelowSame(s, u);
    case RunFrame =>
    case RemoveDriver(_) =>
    case AddDriver =>
    case _ => assert u.stack == s.stack && u.addBlock == s.addBlock;
  }

  lemma DropSurvives(s: State, t: int)
    requires Guarded(s)
    ensures Guarded(s.(addBlock := Some(t), stack := s.stack + [Drop(t, true, [], None)])) <==>
          !Breaks(s, IdentityDropped(t))
  {
    var u := s.(addBlock := Some(t), stack := s.stack + [Drop(t, true, [], None)]);
    assert forall i {:trigger u.stack[i]} {:trigger s.stack[i]} :: 0 <= i < |s.stack| ==> u.stack[i] == s.stack[i];
  }

  lemma EndSurvives(s: State)
    requires Guarded(s) && Enabled(s, End)
    ensures Guarded(Apply(s, End)) <==> !Breaks(s, End)
  {
    var u, n := Apply(s, End), |s.stack| - 1;
    assert forall i {:trigger u.stack[i]} :: 0 <= i < n ==> u.stack[i] == s.stack[..n][i] == s.stack[i];
  }

  lemma BelowSame(s: State, u: State)
    requires s.stack != [] && u.addBlock == s.addBlock
    requires u.stack == s.stack[..|s.stack| - 1] ||
      (|u.stack| == |s.stack| && u.stack[..|s.stack| - 1] == s.stack[..|s.stack| - 1]
       && Top(u).Drop? == Top(s).Drop? && (Top(u).Drop? ==> Top(u).token == Top(s).token))
    requires Guarded(s)
    ensures Guarded(u)
  {
    assert forall i {:trigger u.stack[i]} :: 0 <= i < |s.stack| - 1 ==>
          u.stack[i] == s.stack[..|s.stack| - 1][i] == s.stack[i];
  }

  predicate Kept(s: State, es: seq<Step>)
    requires Runs(s, es)
    decreases |es|
  {
    es == [] || (!Breaks(s, es[0]) && Kept(Apply(s, es[0]), es[1..]))
  }

  predicate AlwaysGuarded(s: State, es: seq<Step>)
    requires Runs(s, es)
    decreases |es|
  {
    Guarded(s) && (es == [] || AlwaysGuarded(Apply(s, es[0]), es[1..]))
  }

  /** The block holds throughout a run if and only if no step of it breaks it. */
  lemma {:induction false} KeptExactly(s: State, es: seq<Step>)
    requires Guarded(s) && Runs(s, es)
    ensures AlwaysGuarded(s, es) <==> Kept(s, es)
    decreases |es|
  {
    hide Guarded, Breaks, Apply, Enabled;
    if es != [] {
      BlockSurvives(s, es[0]);
      if !Breaks(s, es[0]) { KeptExactly(Apply(s, es[0]), es[1..]); }
    }
  }

  // ----- what the block is for -----

  /** None of the operations of t is where it could still come to the main thread. */
  ghost predicate Clear(s: State, t: int) {
    forall op {:trigger s.ops[op]} :: op in s.ops && s.ops[op].owner == t ==>
      Queued(s, op) == 0 && InHand(s.hand, op) == 0 && Count(s.think, op) == 0
  }

  /** Activation n is a drop of t that has the block, and once the worker has stopped nothing of its own is
      left but what loops have set aside. */
  ghost predicate Shielded(s: State, n: nat, t: int) {
    && n < |s.stack| && s.stack[n].Drop? && s.stack[n].token == t
    && s.addBlock == Some(t)
    && (s.stack[n].waiting || Clear(s, t))
  }

  /** The drop of another identity begins, or a drop within this one ends. */
  predicate Disturbs(s: State, e: Step, n: nat, t: int) {
    match e
    case IdentityDropped(x) => x != t
    case End => |s.stack| > n + 1 && Top(s).Drop?
    case _ => false
  }

  ghost predicate NoMore(s: State, u: State) {
    u.ops == s.ops && forall x {:trigger Coming(u, x)} :: Coming(u, x) <= Coming(s, x)
  }

  lemma ClearFrame(s: State, u: State, t: int)
    requires Clear(s, t) && NoMore(s, u)
    ensures Clear(u, t)
  {
    hide Queued, Count;
    forall op {:trigger u.ops[op]} | op in u.ops && u.ops[op].owner == t
      ensures Queued(u, op) == 0 && InHand(u.hand, op) == 0 && Count(u.think, op) == 0
    {
      assert s.ops[op].owner == t && Coming(s, op) == 0;
      assert Coming(u, op) == 0;
    }
  }

  lemma AddClear(s: State, op: int, what: Operation, p: Priority, starts: bool, t: int)
    requires Placed(s) && Enabled(s, Add(op, what, p, starts)) && s.addBlock == Some(t) && Clear(s, t)
    ensures Clear(Apply(s, Add(op, what, p, starts)), t)
  {
    hide Placed, Count;
    var u := Apply(s, Add(op, what, p, starts));
    if u != s {
      forall x {:trigger u.ops[x]} | x in u.ops && u.ops[x].owner == t
        ensures Queued(u, x) == 0 && InHand(u.hand, x) == 0 && Count(u.think, x) == 0
      {
        CountLast(QueueOf(s, p), op, x);
        assert s.ops[x].owner == t;
      }
    }
  }

  lemma WorkerNoMore(s: State, e: Step)
    requires Enabled(s, e) && (e.TakeOp? || e.RunThreadPart? || e.PushThink?)
    ensures NoMore(s, Apply(s, e))
  {
    hide Count;
    var u := Apply(s, e);
    forall x {:trigger Coming(u, x)} ensures Coming(u, x) <= Coming(s, x) {
      match e
      case TakeOp(p) => CountHead(QueueOf(s, p), x);
      case PushThink => CountLast(s.think, s.hand.op, x);
      case RunThreadPart =>
    }
  }

  lemma StopNoMore(s: State)
    requires Enabled(s, Stopped)
    ensures NoMore(s, Apply(s, Stopped))
  {
    hide Count;
    var u := Apply(s, Stopped);
    forall x {:trigger Coming(u, x)} ensures Coming(u, x) <= Coming(s, x) {
      match Top(s)
      case Drop(t, _, _, _) => PickLeave(s.ops, s.think, OwnedBy(t), x);
      case Remove(d, _, _, _) => PickLeave(s.ops, s.think, DrivenBy(d), x);
      case Wait =>
      case Think(_) =>
    }
  }

  lemma StopClear(s: State)
    requires Threads(s) && Enabled(s, Stopped) && Top(s).Drop?
    ensures Clear(Apply(s, Stopped), Top(s).token)
  {
    hide Count;
    var u, t := Apply(s, Stopped), Top(s).token;
    assert s.high == [] && s.normal == [] && s.low == [] && s.hand.Empty?;
    forall x {:trigger u.ops[x]} | x in u.ops && u.ops[x].owner == t
      ensures Queued(u, x) == 0 && InHand(u.hand, x) == 0 && Count(u.think, x) == 0
    {
      CountNone(x);
      PickLeave(s.ops, s.think, OwnedBy(t), x);
    }
  }

  lemma LoopNoMore(s: State, e: Step)
    requires Enabled(s, e)
    requires e.Next? || e.Back? || e.End? || e.MakeThread? || e.RemoveDriver? || e.AddDriver? || e.IdentityDropped?
    ensures NoMore(s, Apply(s, e))
  {
    hide Count;
  }

  lemma FrameNoMore(s: State)
    requires Enabled(s, RunFrame)
    ensures NoMore(s, Apply(s, RunFrame))
  {
    hide Count;
    var u := Apply(s, RunFrame);
    forall x {:trigger Coming(u, x)} ensures Coming(u, x) <= Coming(s, x) { CountHead(s.think, x); }
  }

  /** Nothing of an identity that is blocked comes up by a step other than the end of the wait. */
  lemma StepClear(s: State, e: Step, t: int)
    requires Placed(s) && Enabled(s, e) && s.addBlock == Some(t) && Clear(s, t)
    ensures Clear(Apply(s, e), t)
  {
    hide Placed, Clear, NoMore, Apply, Enabled;
    match e
    case Add(op, what, p, starts) => AddClear(s, op, what, p, starts, t);
    case RunFrame =>
      FrameNoMore(s);
      ClearFrame(s, Apply(s, e), t);
    case Stopped =>
      StopNoMore(s);
      ClearFrame(s, Apply(s, e), t);
    case TakeOp(_) =>
      WorkerNoMore(s, e);
      ClearFrame(s, Apply(s, e), t);
    case RunThreadPart =>
      WorkerNoMore(s, e);
      ClearFrame(s, Apply(s, e), t);
    case PushThink =>
      WorkerNoMore(s, e);
      ClearFrame(s, Apply(s, e), t);
    case _ =>
      LoopNoMore(s, e);
      ClearFrame(s, Apply(s, e), t);
  }

  /** The top of the stack changes without becoming another activation. */
  predicate SameAct(a: Act, b: Act, stops: bool) {
    && a.Drop? == b.Drop?
    && (a.Drop? ==>
          && b.token == a.token
          && (a.waiting && !b.waiting ==> stops)
          && (b.waiting ==> a.waiting))
  }

  /** What a step does to the stack: nothing, a push, a pop, or a change of the top. */
  predicate Moves(k: seq<Act>, u: seq<Act>, e: Step) {
    || u == k
    || (|u| == |k| + 1 && u[..|k|] == k && (u[|k|].Drop? ==> e == IdentityDropped(u[|k|].token)))
    || (k != [] && u == k[..|k| - 1])
    || (k != [] && |u| == |k| && u[..|k| - 1] == k[..|k| - 1] && SameAct(k[|k| - 1], u[|k| - 1], e.Stopped?))
  }

  lemma StepMoves(s: State, e: Step)
    requires Enabled(s, e)
    ensures Moves(s.stack, Apply(s, e).stack, e)
  {
    hide Pick, DatabaseMachine.Leave, QueueOf;
    if s.stack != [] {
      var n := |s.stack| - 1;
      assert forall a: Act :: (s.stack[..n] + [a])[..n] == s.stack[..n];
    }
  }

  /** What a step leaves of activation n while there is one: its kind and token, what is below it, and that
      it waits unless the wait ends. */
  lemma StackStep(s: State, e: Step, n: nat)
    requires Enabled(s, e) && n < |s.stack| && n < |Apply(s, e).stack| && s.stack[n].Drop?
    ensures var u := Apply(s, e);
      && u.stack[..n] == s.stack[..n] && u.stack[n].Drop? && u.stack[n].token == s.stack[n].token
      && (s.stack[n].waiting && !u.stack[n].waiting ==> e.Stopped? && |s.stack| == n + 1)
      && (u.stack[n].waiting ==> s.stack[n].waiting)
  {
    hide Apply, Enabled;
    StepMoves(s, e);
    var k, u := s.stack, Apply(s, e).stack;
    if |u| > |k| {
      assert u[n] == u[..|k|][n] && u[..n] == u[..|k|][..n];
    } else if u != k {
      var m := |k| - 1;
      assert k[..n] == k[..m][..n] && u[..n] == u[..m][..n];
      assert n < m ==> k[n] == k[..m][n] && u[n] == u[..m][n];
    }
  }

  /** While a drop lasts, a step takes its block away if and only if it disturbs it. */
  lemma DisturbsExactly(s: State, e: Step, n: nat, t: int)
    requires Enabled(s, e) && n < |s.stack| && n < |Apply(s, e).stack|
    requires s.addBlock == Some(t)
    ensures Apply(s, e).addBlock == Some(t) <==> !Disturbs(s, e, n, t)
  {
    hide Pick, DatabaseMachine.Leave;
  }

  lemma ShieldStep(s: State, e: Step, n: nat, t: int)
    requires Inv(s) && Enabled(s, e) && Shielded(s, n, t) && !Disturbs(s, e, n, t) && n < |Apply(s, e).stack|
    ensures Shielded(Apply(s, e), n, t) && Apply(s, e).stack[..n] == s.stack[..n]
  {
    hide Placed, Threads, Waits, Clear, Apply, Enabled, Disturbs;
    StackStep(s, e, n);
    DisturbsExactly(s, e, n, t);
    if !s.stack[n].waiting {
      StepClear(s, e, t);
    } else if e.Stopped? && |s.stack| == n + 1 {
      StopClear(s);
    }
  }

  /** A drop that begins has the block and waits. */
  lemma ShieldBegins(s: State, t: int)
    requires Enabled(s, IdentityDropped(t))
    ensures Shielded(Apply(s, IdentityDropped(t)), |s.stack|, t)
    ensures Apply(s, IdentityDropped(t)).stack[..|s.stack|] == s.stack
  {
  }

  // ----- every drop at once -----

  /** Every drop under way is shielded. */
  ghost predicate Blocked(s: State) {
    forall i {:trigger s.stack[i]} :: 0 <= i < |s.stack| && s.stack[i].Drop? ==> Shielded(s, i, s.stack[i].token)
  }

  lemma ApplyBlocked(s: State, e: Step)
    requires Inv(s) && Blocked(s) && Enabled(s, e) && !Breaks(s, e)
    ensures Blocked(Apply(s, e))
  {
    hide Inv, Clear, Shielded;
    var u := Apply(s, e);
    forall i {:trigger u.stack[i]} | 0 <= i < |u.stack| && u.stack[i].Drop? ensures Shielded(u, i, u.stack[i].token) {
      if i < |s.stack| {
        KindKept(s, e, i);
        Undisturbed(s, e, i);
        ShieldStep(s, e, i, s.stack[i].token);
        ShieldSays(u, i, s.stack[i].token);
      } else {
        Pushed(s, e, i);
        ShieldBegins(s, e.token);
        ShieldSays(u, i, e.token);
      }
    }
  }

  lemma ShieldSays(s: State, n: nat, t: int)
    requires Shielded(s, n, t)
    ensures n < |s.stack| && s.stack[n].Drop? && s.stack[n].token == t
  {
  }

  lemma KindKept(s: State, e: Step, i: nat)
    requires Enabled(s, e) && i < |s.stack| && i < |Apply(s, e).stack|
    ensures Apply(s, e).stack[i].Drop? <==> s.stack[i].Drop?
  {
    hide Apply, Enabled;
    StepMoves(s, e);
    var k, u := s.stack, Apply(s, e).stack;
    if |u| > |k| {
      assert u[i] == u[..|k|][i];
    } else if u != k {
      var m := |k| - 1;
      assert i < m ==> k[i] == k[..m][i] && u[i] == u[..m][i];
    }
  }

  lemma Pushed(s: State, e: Step, i: nat)
    requires Enabled(s, e) && |s.stack| <= i < |Apply(s, e).stack| && Apply(s, e).stack[i].Drop?
    ensures e.IdentityDropped? && i == |s.stack|
  {
    hide Apply, Enabled;
    StepMoves(s, e);
  }

  lemma Undisturbed(s: State, e: Step, i: nat)
    requires !Breaks(s, e) && i < |s.stack| && s.stack[i].Drop?
    ensures !Disturbs(s, e, i, s.stack[i].token)
  {
    var n := |s.stack| - 1;
    if e.End? && n > i && Top(s).Drop? { assert s.stack[..n][i].Drop?; }
  }

  lemma {:induction false} RunBlocked(s: State, es: seq<Step>)
    requires Inv(s) && Blocked(s) && Runs(s, es) && Kept(s, es)
    ensures Blocked(After(s, es))
    decreases |es|
  {
    hide Inv, Blocked, Enabled, Apply, Breaks;
    if es != [] {
      ApplyBlocked(s, es[0]);
      ApplyInv(s, es[0]);
      RunBlocked(Apply(s, es[0]), es[1..]);
    }
  }

  // ----- and without it -----

  lemma {:induction false} Then(s: State, es: seq<Step>, e: Step)
    requires Runs(s, es) && Enabled(After(s, es), e)
    ensures Runs(s, es + [e]) && After(s, es + [e]) == Apply(After(s, es), e)
    ensures Kept(s, es + [e]) <==> Kept(s, es) && !Breaks(After(s, es), e)
    decreases |es|
  {
    hide Enabled, Apply, Breaks;
    if es == [] {
      assert es + [e] == [e] && [e][1..] == [];
      assert Runs(Apply(s, e), []) && After(Apply(s, e), []) == Apply(s, e);
    } else {
      Then(Apply(s, es[0]), es[1..], e);
      assert (es + [e])[1..] == es[1..] + [e] && (es + [e])[0] == es[0];
    }
  }

  lemma Extend(s: State, es: seq<Step>, e: Step, u: State) returns (fs: seq<Step>)
    requires Runs(s, es) && Enabled(After(s, es), e) && Apply(After(s, es), e) == u
    ensures fs == es + [e] && Runs(s, fs) && After(s, fs) == u
    ensures Kept(s, fs) <==> Kept(s, es) && !Breaks(After(s, es), e)
  {
    Then(s, es, e);
    fs := es + [e];
  }

  const ONE: map<int, Operation> := map[1 := Operation(10, 0)]

  /** The think part of the operation of 10, called by the drop of 10. */
  const CALLED: State :=
    State(ONE, [], [], [], 0, false, false, Empty, [], [Drop(10, false, [], Some(1))], Some(10), [1], [1], [])

  const DROPPING: State :=
    State(ONE, [], [1], [], 1, false, true, Empty, [], [Drop(10, true, [], None)], Some(10), [], [], [])

  /** The operation is queued, and the drop begins. */
  lemma ToDropping() returns (es: seq<Step>)
    ensures Runs(START, es) && After(START, es) == DROPPING
  {
    hide Runs, After, Kept, Breaks;
    RunsNone();
    var s := START.(ops := ONE, normal := [1], worker := true, adding := true);
    es := Extend(START, [], Add(1, Operation(10, 0), Normal, true), s);
    es := Extend(START, es, MakeThread, s.(jobs := 1, adding := false));
    es := Extend(START, es, IdentityDropped(10), DROPPING);
  }

  lemma RunsNone()
    ensures Runs(START, []) && After(START, []) == START
  {
  }

  /** The worker runs it, */
  lemma ToThought() returns (es: seq<Step>)
    ensures Runs(START, es)
    ensures After(START, es) == DROPPING.(normal := [], jobs := 0, think := [1], ran := [1])
  {
    hide Runs, After, Kept, Breaks;
    es := ToDropping();
    var s := DROPPING.(normal := [], jobs := 0);
    es := Extend(START, es, TakeOp(Normal), s.(hand := Taken(1)));
    es := Extend(START, es, RunThreadPart, s.(hand := Done(1), ran := [1]));
    es := Extend(START, es, PushThink, s.(think := [1], ran := [1]));
  }

  /** and stops. */
  lemma ToCalled() returns (es: seq<Step>)
    ensures Runs(START, es) && After(START, es) == CALLED
  {
    hide Runs, After, Kept, Breaks;
    es := ToThought();
    var t := DROPPING.(normal := [], jobs := 0, worker := false, ran := [1], stack := [Drop(10, false, [1], None)]);
    assert ONE[1].owner == 10 && [1][1..] == [];
    assert Pick(ONE, [1], OwnedBy(10)) == [1] && DatabaseMachine.Leave(ONE, [1], OwnedBy(10)) == [];
    es := Extend(START, es, Stopped, t);
    es := Extend(START, es, Next, CALLED);
  }

  /** It drops 20, whose drop takes the block away when it returns. */
  lemma ToUnblocked() returns (es: seq<Step>)
    ensures Runs(START, es) && After(START, es) == CALLED.(addBlock := None) && !Kept(START, es)
  {
    hide Runs, After, Kept;
    es := ToCalled();
    assert CALLED.stack[0].token == 10;
    var inner := [Drop(10, false, [], Some(1)), Drop(20, true, [], None)];
    es := Extend(START, es, IdentityDropped(20), CALLED.(stack := inner, addBlock := Some(20)));
    var stopped := [Drop(10, false, [], Some(1)), Drop(20, false, [], None)];
    es := Extend(START, es, Stopped, CALLED.(stack := stopped, addBlock := Some(20)));
    es := Extend(START, es, End, CALLED.(addBlock := None));
  }

  /** So an operation of 10 that the same think part queues then is accepted, and is still in the queue when
      the drop of 10 returns: the drop is not left alone, and DatabaseDrop.DropLeavesNothing
      does not hold of it. */
  lemma NestedDropFails() returns (es: seq<Step>)
    ensures Runs(START, es) && !Kept(START, es)
    ensures var s := After(START, es);
      && Enabled(s, End) && Top(s).Drop? && Top(s).token == 10 && 2 in s.ops && s.ops[2].owner == 10
      && var u := Apply(s, End); u.stack == [] && QueueOf(u, Normal) == [2] && 2 !in u.destroyed
  {
    hide Runs, After, Kept, Breaks;
    es := ToUnblocked();
    var s := CALLED.(addBlock := None, ops := ONE[2 := Operation(10, 0)], normal := [2], worker := true);
    es := Extend(START, es, Add(2, Operation(10, 0), Normal, true), s.(adding := true));
    es := Extend(START, es, MakeThread, s.(jobs := 1));
    es := Extend(START, es, Back, s.(jobs := 1, stack := [Drop(10, false, [], None)], destroyed := [1]));
  }
}
