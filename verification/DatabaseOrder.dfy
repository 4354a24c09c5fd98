/** Which operations the loops of the database queue take, and the order in which operations go through it. */
module DatabaseOrder {
  import opened DatabaseMachine
  import opened DatabaseRuns

  // ----- order in a list -----

  /** x stands before y. */
  predicate Before(l: seq<int>, x: int, y: int) {
    exists i, j {:trigger l[i], l[j]} :: 0 <= i < j < |l| && l[i] == x && l[j] == y
  }

  lemma BeforeHead(l: seq<int>, x: int, y: int)
    requires l != []
    ensures Before(l, x, y) <==> (l[0] == x && y in l[1..]) || Before(l[1..], x, y)
  {
    if Before(l, x, y) {
      var i, j :| 0 <= i < j < |l| && l[i] == x && l[j] == y;
      assert l[1..][j - 1] == y;
      if i > 0 { assert l[1..][i - 1] == x; }
    }
    if l[0] == x && y in l[1..] {
      var j :| 0 <= j < |l| - 1 && l[1..][j] == y;
      assert l[0] == x && l[j + 1] == y;
    }
    if Before(l[1..], x, y) {
      var i, j :| 0 <= i < j < |l| - 1 && l[1..][i] == x && l[1..][j] == y;
      assert l[i + 1] == x && l[j + 1] == y;
    }
  }

  lemma BeforeIn(l: seq<int>, x: int, y: int)
    requires Before(l, x, y)
    ensures x in l && y in l
  {
  }

  /** A loop takes the operations that satisfy its test, and leaves the others; neither changes the order. */
  lemma {:induction false} Sifted(ops: map<int, Operation>, l: seq<int>, test: Operation -> bool, x: int, y: int)
    requires forall k {:trigger l[k]} :: 0 <= k < |l| ==> l[k] in ops
    requires x in ops && y in ops
    ensures x in Pick(ops, l, test) <==> x in l && test(ops[x])
    ensures x in Leave(ops, l, test) <==> x in l && !test(ops[x])
    ensures Before(Pick(ops, l, test), x, y) <==> Before(l, x, y) && test(ops[x]) && test(ops[y])
    ensures Before(Leave(ops, l, test), x, y) <==> Before(l, x, y) && !test(ops[x]) && !test(ops[y])
  {
    hide Before;
    if l == [] {
      NoneBefore(x, y);
    } else {
      Sifted(ops, l[1..], test, x, y);
      Sifted(ops, l[1..], test, y, x);
      var p, q := Pick(ops, l[1..], test), Leave(ops, l[1..], test);
      BeforeHead(l, x, y);
      if test(ops[l[0]]) {
        assert Pick(ops, l, test) == [l[0]] + p && ([l[0]] + p)[1..] == p && Leave(ops, l, test) == q;
        BeforeHead([l[0]] + p, x, y);
      } else {
        assert Leave(ops, l, test) == [l[0]] + q && ([l[0]] + q)[1..] == q && Pick(ops, l, test) == p;
        BeforeHead([l[0]] + q, x, y);
      }
      if Before(l[1..], x, y) { BeforeIn(l[1..], x, y); }
    }
  }

  lemma NoneBefore(x: int, y: int)
    ensures !Before([], x, y)
  {
  }

  // ----- the two loops over the think queue -----

  lemma ThinkKnown(s: State)
    requires Placed(s)
    ensures forall k {:trigger s.think[k]} :: 0 <= k < |s.think| ==> s.think[k] in s.ops
  {
    forall k | 0 <= k < |s.think| ensures s.think[k] in s.ops {
      CountMember(s.think, k);
      assert At(s, s.think[k]);
    }
  }

  lemma {:induction false} CountMember(l: seq<int>, k: nat)
    requires k < |l|
    ensures Count(l, l[k]) > 0
  {
    if k > 0 { CountMember(l[1..], k - 1); }
  }

  /** When the worker has stopped for the drop of an identity, the loop sets aside exactly the operations of
      that identity; the others stay. Both keep the order they had. */
  lemma DropTakes(s: State, x: int, y: int)
    requires Inv(s) && Enabled(s, Stopped) && Top(s).Drop? && x in s.ops && y in s.ops
    ensures var u, t := Apply(s, Stopped), Top(s).token;
      && u.ops == s.ops && |u.stack| == |s.stack| && u.stack[..|s.stack| - 1] == s.stack[..|s.stack| - 1]
      && Top(u).Drop? && Top(u).token == t
      && (x in Top(u).todo <==> x in s.think && s.ops[x].owner == t)
      && (x in u.think <==> x in s.think && s.ops[x].owner != t)
      && (Before(Top(u).todo, x, y) <==> Before(s.think, x, y) && s.ops[x].owner == t && s.ops[y].owner == t)
      && (Before(u.think, x, y) <==> Before(s.think, x, y) && s.ops[x].owner != t && s.ops[y].owner != t)
  {
    hide Before, Pick, Leave;
    ThinkKnown(s);
    Sifted(s.ops, s.think, OwnedBy(Top(s).token), x, y);
    assert Top(Apply(s, Stopped)).todo == Pick(s.ops, s.think, OwnedBy(Top(s).token));
  }

  /** RemoveDriver does the same by driver. */
  lemma RemoveTakes(s: State, x: int, y: int)
    requires Inv(s) && Enabled(s, Stopped) && Top(s).Remove? && x in s.ops && y in s.ops
    ensures var u, d := Apply(s, Stopped), Top(s).driver;
      && u.ops == s.ops && |u.stack| == |s.stack| && u.stack[..|s.stack| - 1] == s.stack[..|s.stack| - 1]
      && Top(u).Remove? && Top(u).driver == d
      && (x in Top(u).todo <==> x in s.think && s.ops[x].driver == d)
      && (x in u.think <==> x in s.think && s.ops[x].driver != d)
      && (Before(Top(u).todo, x, y) <==> Before(s.think, x, y) && s.ops[x].driver == d && s.ops[y].driver == d)
      && (Before(u.think, x, y) <==> Before(s.think, x, y) && s.ops[x].driver != d && s.ops[y].driver != d)
  {
    hide Before, Pick, Leave;
    ThinkKnown(s);
    Sifted(s.ops, s.think, DrivenBy(Top(s).driver), x, y);
    assert Top(Apply(s, Stopped)).todo == Pick(s.ops, s.think, DrivenBy(Top(s).driver));
  }

  // ----- whose operations the loops call -----

  predicate OwnOp(ops: map<int, Operation>, x: int, t: int) { x in ops && ops[x].owner == t }

  predicate DriverOp(ops: map<int, Operation>, x: int, d: int) { x in ops && ops[x].driver == d }

  /** What an activation has set aside, or is calling, is for it to take. */
  ghost predicate Rightful(ops: map<int, Operation>, a: Act) {
    match a
    case Drop(t, _, todo, cur) =>
      && (forall k {:trigger todo[k]} :: 0 <= k < |todo| ==> OwnOp(ops, todo[k], t))
      && (cur.Some? ==> OwnOp(ops, cur.value, t))
    case Remove(d, _, todo, cur) =>
      && (forall k {:trigger todo[k]} :: 0 <= k < |todo| ==> DriverOp(ops, todo[k], d))
      && (cur.Some? ==> DriverOp(ops, cur.value, d))
    case Think(_) => true
    case Wait => true
  }

  ghost predicate AllRightful(s: State) {
    forall i {:trigger s.stack[i]} :: 0 <= i < |s.stack| ==> Rightful(s.ops, s.stack[i])
  }

  lemma StoppedRightful(s: State)
    requires Inv(s) && AllRightful(s) && Enabled(s, Stopped)
    ensures AllRightful(Apply(s, Stopped))
  {
    var u := Apply(s, Stopped);
    if Top(s).Drop? {
      hide Before;
      forall x | x in Top(u).todo ensures x in s.ops && s.ops[x].owner == Top(s).token {
        PickedIn(s.ops, s.think, OwnedBy(Top(s).token), x);
      }
    } else if Top(s).Remove? {
      forall x | x in Top(u).todo ensures x in s.ops && s.ops[x].driver == Top(s).driver {
        PickedIn(s.ops, s.think, DrivenBy(Top(s).driver), x);
      }
    }
  }

  lemma {:induction false} PickedIn(ops: map<int, Operation>, l: seq<int>, test: Operation -> bool, x: int)
    requires x in Pick(ops, l, test)
    ensures x in ops && test(ops[x]) && x in l
  {
    if l != [] {
      if x in Pick(ops, l[1..], test) { PickedIn(ops, l[1..], test, x); }
    }
  }

  lemma OpsStay(s: State, e: Step)
    requires Enabled(s, e)
    ensures forall x :: x in s.ops ==> x in Apply(s, e).ops && Apply(s, e).ops[x] == s.ops[x]
  {
  }

  lemma OpStays(ops: map<int, Operation>, more: map<int, Operation>, x: int, t: int)
    requires forall y :: y in ops ==> y in more && more[y] == ops[y]
    ensures OwnOp(ops, x, t) ==> OwnOp(more, x, t)
    ensures DriverOp(ops, x, t) ==> DriverOp(more, x, t)
  {
  }

  lemma RightfulStays(ops: map<int, Operation>, more: map<int, Operation>, a: Act)
    requires Rightful(ops, a)
    requires forall x :: x in ops ==> x in more && more[x] == ops[x]
    ensures Rightful(more, a)
  {
    forall x: int, t: int
      ensures OwnOp(ops, x, t) ==> OwnOp(more, x, t)
      ensures DriverOp(ops, x, t) ==> DriverOp(more, x, t)
    {
      OpStays(ops, more, x, t);
    }
  }

  /** An activation goes on to its next operation, or is done with one. */
  lemma ActRightful(ops: map<int, Operation>, a: Act)
    requires Rightful(ops, a) && (a.Drop? || a.Remove?)
    ensures Rightful(ops, a.(cur := None))
    ensures a.todo != [] ==> Rightful(ops, a.(todo := a.todo[1..], cur := Some(a.todo[0])))
  {
    if a.todo != [] {
      var rest := a.todo[1..];
      assert a.todo[0] == a.todo[0] && forall k {:trigger rest[k]} :: 0 <= k < |rest| ==> rest[k] == a.todo[k + 1];
    }
  }

  predicate Began(a: Act) {
    a.Think? || a.Wait? || (a.todo == [] && a.cur.None?)
  }

  predicate GoesOn(a: Act, b: Act) {
    && (a.Drop? || a.Remove?)
    && (b == a.(cur := None) || (a.todo != [] && b == a.(todo := a.todo[1..], cur := Some(a.todo[0]))))
  }

  /** What a step that is not Stopped leaves on the stack is what was there, but for the top. */
  lemma StackMoves(s: State, e: Step)
    requires Enabled(s, e) && !e.Stopped?
    ensures var u := Apply(s, e);
      && |u.stack| <= |s.stack| + 1
      && (forall i {:trigger u.stack[i]} :: 0 <= i < |u.stack| - 1 ==> i < |s.stack| && u.stack[i] == s.stack[i])
      && (u.stack != [] ==>
            || (|u.stack| <= |s.stack| && Top(u) == s.stack[|u.stack| - 1])
            || Began(Top(u)) || (s.stack != [] && GoesOn(Top(s), Top(u))))
  {
  }

  lemma TopRightful(s: State, e: Step)
    requires AllRightful(s) && Enabled(s, e) && !e.Stopped?
    ensures var u := Apply(s, e);
      && (forall i {:trigger u.stack[i]} :: 0 <= i < |u.stack| - 1 ==> i < |s.stack| && u.stack[i] == s.stack[i])
      && (u.stack != [] ==> Rightful(s.ops, Top(u)))
  {
    hide Apply, Enabled;
    StackMoves(s, e);
    var u := Apply(s, e);
    if s.stack != [] {
      assert Rightful(s.ops, s.stack[|s.stack| - 1]);
      if Top(s).Drop? || Top(s).Remove? { ActRightful(s.ops, Top(s)); }
    }
    if 0 < |u.stack| <= |s.stack| { assert Rightful(s.ops, s.stack[|u.stack| - 1]); }
  }

  lemma StepRightful(s: State, e: Step)
    requires Inv(s) && AllRightful(s) && Enabled(s, e)
    ensures AllRightful(Apply(s, e))
  {
    hide Inv, Apply, Enabled, Rightful;
    if e.Stopped? {
      StoppedRightful(s);
    } else {
      var u := Apply(s, e);
      TopRightful(s, e);
      OpsStay(s, e);
      forall i | 0 <= i < |u.stack| ensures Rightful(u.ops, u.stack[i]) {
        RightfulStays(s.ops, u.ops, u.stack[i]);
      }
    }
  }

  /** In every interleaving the loop of a drop calls operations of its identity only, and that of RemoveDriver
      operations of its driver only. */
  lemma {:induction false} RunRightful(s: State, es: seq<Step>)
    requires Inv(s) && AllRightful(s) && Runs(s, es)
    ensures AllRightful(After(s, es))
    decreases |es|
  {
    hide Inv, AllRightful, Apply, Enabled;
    if es != [] {
      StepRightful(s, es[0]);
      ApplyInv(s, es[0]);
      RunRightful(Apply(s, es[0]), es[1..]);
    }
  }

  // ----- first in, first out -----

  predicate Accepts(s: State, e: Step, p: Priority) {
    e.Add? && e.prio == p && s.addBlock != Some(e.what.owner) && (s.worker || e.starts)
  }

  /** The operations accepted with a priority, in the order of the calls. */
  function Entered(s: State, es: seq<Step>, p: Priority): seq<int>
    requires Runs(s, es)
    decreases |es|
  {
    if es == [] then []
    else (if Accepts(s, es[0], p) then [es[0].op] else []) + Entered(Apply(s, es[0]), es[1..], p)
  }

  /** Those the worker has taken from the queue of a priority, in order. */
  function Left(s: State, es: seq<Step>, p: Priority): seq<int>
    requires Runs(s, es)
    decreases |es|
  {
    if es == [] then []
    else
      (if es[0] == TakeOp(p) then [Apply(s, es[0]).hand.op] else []) + Left(Apply(s, es[0]), es[1..], p)
  }

  lemma QueueStep(s: State, e: Step, p: Priority)
    requires Enabled(s, e)
    ensures var u := Apply(s, e);
      if Accepts(s, e, p) then QueueOf(u, p) == QueueOf(s, p) + [e.op]
      else if e == TakeOp(p) then u.hand.Taken? && QueueOf(s, p) == [u.hand.op] + QueueOf(u, p)
      else QueueOf(u, p) == QueueOf(s, p)
  {
  }

  /** In every interleaving the operations of one priority leave their queue in the order in which they were
      accepted, and those that have not left are in it in that order. */
  lemma {:induction false} FirstInFirstOut(s: State, es: seq<Step>, p: Priority)
    requires Runs(s, es)
    ensures QueueOf(s, p) + Entered(s, es, p) == Left(s, es, p) + QueueOf(After(s, es), p)
    decreases |es|
  {
    hide Apply, Enabled, QueueOf;
    if es != [] {
      var u, e := Apply(s, es[0]), es[0];
      QueueStep(s, e, p);
      FirstInFirstOut(u, es[1..], p);
      var inn, out, q := Entered(u, es[1..], p), Left(u, es[1..], p), QueueOf(After(s, es), p);
      if Accepts(s, e, p) {
        assert QueueOf(s, p) + ([e.op] + inn) == (QueueOf(s, p) + [e.op]) + inn;
        assert [] + out == out;
      } else if e == TakeOp(p) {
        assert ([u.hand.op] + out) + q == [u.hand.op] + (out + q);
        assert ([u.hand.op] + QueueOf(u, p)) + inn == [u.hand.op] + (QueueOf(u, p) + inn);
        assert [] + inn == inn;
      } else {
        assert [] + inn == inn && [] + out == out;
      }
    }
  }

  // ----- the think queue -----

  /** The think queue is in the order in which the thread parts ran, and what the worker still holds ran
      after all of it. */
  ghost predicate InOrder(s: State) {
    && (forall x {:trigger x in s.think} :: x in s.think ==> x in s.ran)
    && (forall x, y {:trigger Before(s.think, x, y)} :: Before(s.think, x, y) ==> Before(s.ran, x, y))
    && (s.hand.Done? ==> s.hand.op in s.ran)
    && (s.hand.Done? ==> forall x {:trigger x in s.think} :: x in s.think ==> Before(s.ran, x, s.hand.op))
  }

  lemma BeforeLast(l: seq<int>, z: int, x: int, y: int)
    ensures Before(l + [z], x, y) <==> Before(l, x, y) || (x in l && y == z)
  {
    var m := l + [z];
    if Before(m, x, y) {
      var i, j :| 0 <= i < j < |m| && m[i] == x && m[j] == y;
      assert l[i] == x && (j < |l| ==> l[j] == y);
    }
    if Before(l, x, y) {
      var i, j :| 0 <= i < j < |l| && l[i] == x && l[j] == y;
      assert m[i] == x && m[j] == y;
    }
    if x in l && y == z {
      var i :| 0 <= i < |l| && l[i] == x;
      assert m[i] == x && m[|l|] == y;
    }
  }

  lemma OrderRan(s: State)
    requires InOrder(s) && Enabled(s, RunThreadPart)
    ensures InOrder(Apply(s, RunThreadPart))
  {
    hide Before;
    var u := Apply(s, RunThreadPart);
    forall x, y ensures Before(u.ran, x, y) <==> Before(s.ran, x, y) || (x in s.ran && y == s.hand.op) {
      BeforeLast(s.ran, s.hand.op, x, y);
    }
  }

  lemma OrderPushed(s: State)
    requires InOrder(s) && Enabled(s, PushThink)
    ensures InOrder(Apply(s, PushThink))
  {
    hide Before;
    var u := Apply(s, PushThink);
    forall x, y ensures Before(u.think, x, y) <==> Before(s.think, x, y) || (x in s.think && y == s.hand.op) {
      BeforeLast(s.think, s.hand.op, x, y);
    }
    forall x | x in u.think ensures x in s.think || x == s.hand.op {
    }
  }

  ghost predicate Fewer(l: seq<int>, m: seq<int>) {
    && (forall x {:trigger x in m} :: x in m ==> x in l)
    && (forall x, y {:trigger Before(m, x, y)} :: Before(m, x, y) ==> Before(l, x, y))
  }

  lemma OrderFewer(s: State, u: State)
    requires InOrder(s) && Fewer(s.think, u.think) && u.ran == s.ran && (u.hand == s.hand || !u.hand.Done?)
    ensures InOrder(u)
  {
    hide Before;
  }

  lemma LeaveFewer(s: State, test: Operation -> bool)
    requires Placed(s)
    ensures Fewer(s.think, Leave(s.ops, s.think, test))
  {
    hide Before, Leave, Pick;
    var m := Leave(s.ops, s.think, test);
    ThinkKnown(s);
    forall x | x in m ensures x in s.think { LeftIn(s.ops, s.think, test, x); }
    forall x, y | Before(m, x, y) ensures Before(s.think, x, y) {
      BeforeIn(m, x, y);
      LeftIn(s.ops, s.think, test, x);
      LeftIn(s.ops, s.think, test, y);
      Sifted(s.ops, s.think, test, x, y);
    }
  }

  lemma {:induction false} LeftIn(ops: map<int, Operation>, l: seq<int>, test: Operation -> bool, x: int)
    requires x in Leave(ops, l, test)
    ensures x in l
  {
    if l != [] {
      if x in Leave(ops, l[1..], test) { LeftIn(ops, l[1..], test, x); }
    }
  }

  lemma RestFewer(l: seq<int>)
    requires l != []
    ensures Fewer(l, l[1..])
  {
    hide Before;
    forall x, y | Before(l[1..], x, y) ensures Before(l, x, y) { BeforeHead(l, x, y); }
  }

  lemma SameFewer(l: seq<int>)
    ensures Fewer(l, l)
  {
  }

  lemma ThinkMoves(s: State, e: Step)
    requires Placed(s) && Enabled(s, e) && !e.RunThreadPart? && !e.PushThink?
    ensures var u := Apply(s, e);
      Fewer(s.think, u.think) && u.ran == s.ran && (u.hand == s.hand || !u.hand.Done?)
  {
    hide Before, Leave, Pick, Fewer, Placed;
    SameFewer(s.think);
    if e.RunFrame? { RestFewer(s.think); }
    if e.Stopped? {
      if Top(s).Drop? { LeaveFewer(s, OwnedBy(Top(s).token)); }
      if Top(s).Remove? { LeaveFewer(s, DrivenBy(Top(s).driver)); }
    }
  }

  lemma StepInOrder(s: State, e: Step)
    requires Inv(s) && InOrder(s) && Enabled(s, e)
    ensures InOrder(Apply(s, e))
  {
    hide InOrder, Before, Apply, Enabled, Fewer;
    if e.RunThreadPart? { OrderRan(s); }
    else if e.PushThink? { OrderPushed(s); }
    else {
      ThinkMoves(s, e);
      OrderFewer(s, Apply(s, e));
    }
  }

  lemma {:induction false} RunInOrder(s: State, es: seq<Step>)
    requires Inv(s) && InOrder(s) && Runs(s, es)
    ensures InOrder(After(s, es)) && Inv(After(s, es))
    decreases |es|
  {
    hide Inv, InOrder, Apply, Enabled;
    if es != [] {
      StepInOrder(s, es[0]);
      ApplyInv(s, es[0]);
      RunInOrder(Apply(s, es[0]), es[1..]);
    }
  }

  /** In every interleaving RunFrame calls, of the operations in the think queue, the one whose thread part
      ran first; and these ran in the order of the queue. */
  lemma FrameTakesFirst(es: seq<Step>, y: int)
    requires Runs(START, es) && Enabled(After(START, es), RunFrame)
    ensures var s := After(START, es); var u := Apply(s, RunFrame);
      && Top(u).Think? && u.begun == s.begun + [Top(u).op] && s.think == [Top(u).op] + u.think
      && (y in u.think ==> Before(s.ran, Top(u).op, y))
      && forall x :: Before(s.think, x, y) ==> Before(s.ran, x, y)
  {
    hide Before, Inv;
    var s := After(START, es);
    StartInv();
    StartInOrder();
    RunInOrder(START, es);
    BeforeHead(s.think, s.think[0], y);
  }

  lemma StartInOrder()
    ensures InOrder(START)
  {
  }

  /** The thread parts run in the order in which the worker took the operations. */
  function Taken(s: State, es: seq<Step>): seq<int>
    requires Runs(s, es)
    decreases |es|
  {
    if es == [] then []
    else (if es[0].TakeOp? then [Apply(s, es[0]).hand.op] else []) + Taken(Apply(s, es[0]), es[1..])
  }

  function Waited(h: Hand): seq<int> { if h.Taken? then [h.op] else [] }

  lemma {:induction false} RanAsTaken(s: State, es: seq<Step>)
    requires Runs(s, es)
    ensures (s.ran + Waited(s.hand)) + Taken(s, es) == After(s, es).ran + Waited(After(s, es).hand)
    decreases |es|
  {
    hide Apply, Enabled;
    if es != [] {
      var u, e := Apply(s, es[0]), es[0];
      HandMoves(s, e);
      RanAsTaken(u, es[1..]);
      var rest := Taken(u, es[1..]);
      if e.TakeOp? {
        assert (s.ran + []) + ([u.hand.op] + rest) == (s.ran + [u.hand.op]) + rest;
      }
      assert [] + rest == rest;
    }
  }

  lemma HandMoves(s: State, e: Step)
    requires Enabled(s, e)
    ensures var u := Apply(s, e);
      if e.TakeOp? then s.hand.Empty? && u.hand.Taken? && u.ran == s.ran
      else u.ran + Waited(u.hand) == s.ran + Waited(s.hand)
  {
  }

  /** In every interleaving from the start on, the loop of a drop has set aside and calls operations of its
      identity only, and that of RemoveDriver operations of its driver only. */
  lemma LoopsTakeTheirOwn(es: seq<Step>, i: nat, x: int)
    requires Runs(START, es) && i < |After(START, es).stack|
    ensures var s := After(START, es); var a := s.stack[i];
      && (a.Drop? && (x in a.todo || a.cur == Some(x)) ==> x in s.ops && s.ops[x].owner == a.token)
      && (a.Remove? && (x in a.todo || a.cur == Some(x)) ==> x in s.ops && s.ops[x].driver == a.driver)
  {
    hide Inv;
    StartInv();
    assert AllRightful(START);
    RunRightful(START, es);
    assert Rightful(After(START, es).ops, After(START, es).stack[i]);
  }
}
