/** The loops of DBManager over the think queue, which run while there is no worker. */
module DatabaseManager {
  import opened DatabaseMachine
  import opened DatabaseRuns
  import opened DatabaseOrder

  class DBManager {
    var thinkQueue: seq<int>
    var ops: map<int, Operation>

    constructor ()
      ensures thinkQueue == [] && ops == map[]
    {
      thinkQueue, ops := [], map[];
    }

    /** Those that satisfy the test are erased from the think queue and set aside, in their order. */
    method SetAside(test: Operation -> bool) returns (templist: seq<int>)
      requires forall k {:trigger thinkQueue[k]} :: 0 <= k < |thinkQueue| ==> thinkQueue[k] in ops
      modifies this`thinkQueue
      ensures templist == Pick(ops, old(thinkQueue), test)
      ensures thinkQueue == DatabaseMachine.Leave(ops, old(thinkQueue), test)
    {
      hide Pick, DatabaseMachine.Leave;
      ghost var all, k := thinkQueue, 0;
      PickEnds(ops, test);
      templist := [];
      var i := 0;
      while i < |thinkQueue|
        invariant 0 <= i <= |thinkQueue| && k <= |all| && thinkQueue[i..] == all[k..]
        invariant templist + Pick(ops, all[k..], test) == Pick(ops, all, test)
        invariant thinkQueue[..i] + DatabaseMachine.Leave(ops, all[k..], test) == DatabaseMachine.Leave(ops, all, test)
        decreases |thinkQueue| - i
      {
        assert all[k..][0] == all[k] == thinkQueue[i] && all[k..][1..] == all[k + 1..];
        PickStep(ops, all[k..], test);
        var op := thinkQueue[i];
        if test(ops[op]) {
          templist := templist + [op];
          ghost var kept := thinkQueue[..i];
          thinkQueue := thinkQueue[..i] + thinkQueue[i + 1..];
          assert thinkQueue[..i] == kept;
        } else {
          assert thinkQueue[..i + 1] == thinkQueue[..i] + [op];
          i := i + 1;
        }
        k := k + 1;
      }
      assert thinkQueue[..i] == thinkQueue;
    }

    /** The operations of an identity that is dropped. */
    method SetAsideOwned(token: int) returns (templist: seq<int>)
      requires forall k {:trigger thinkQueue[k]} :: 0 <= k < |thinkQueue| ==> thinkQueue[k] in ops
      modifies this`thinkQueue
      ensures forall op :: op in ops && ops[op].owner == token ==> Count(thinkQueue, op) == 0
      ensures forall op :: op in ops && ops[op].owner != token ==> Count(templist, op) == 0
      ensures forall x, y :: Before(templist, x, y) || Before(thinkQueue, x, y) ==> Before(old(thinkQueue), x, y)
      ensures forall op :: Count(templist, op) + Count(thinkQueue, op) == Count(old(thinkQueue), op)
    {
      ghost var all := thinkQueue;
      templist := SetAside(OwnedBy(token));
      forall op ensures Count(templist, op) + Count(thinkQueue, op) == Count(all, op)
      {
        PickLeave(ops, all, OwnedBy(token), op);
      }
      forall op | op in ops && ops[op].owner == token ensures Count(thinkQueue, op) == 0
      {
        PickLeave(ops, all, OwnedBy(token), op);
      }
      forall op | op in ops && ops[op].owner != token ensures Count(templist, op) == 0
      {
        Unpicked(ops, all, OwnedBy(token), op);
      }
      OrderKept(ops, all, OwnedBy(token));
    }

    /** The operations of a driver that is removed. */
    method SetAsideDriven(driver: int) returns (templist: seq<int>)
      requires forall k {:trigger thinkQueue[k]} :: 0 <= k < |thinkQueue| ==> thinkQueue[k] in ops
      modifies this`thinkQueue
      ensures forall op :: op in ops && ops[op].driver == driver ==> Count(thinkQueue, op) == 0
      ensures forall op :: op in ops && ops[op].driver != driver ==> Count(templist, op) == 0
      ensures forall x, y :: Before(templist, x, y) || Before(thinkQueue, x, y) ==> Before(old(thinkQueue), x, y)
      ensures forall op :: Count(templist, op) + Count(thinkQueue, op) == Count(old(thinkQueue), op)
    {
      ghost var all := thinkQueue;
      templist := SetAside(DrivenBy(driver));
      forall op ensures Count(templist, op) + Count(thinkQueue, op) == Count(all, op)
      {
        PickLeave(ops, all, DrivenBy(driver), op);
      }
      forall op | op in ops && ops[op].driver == driver ensures Count(thinkQueue, op) == 0
      {
        PickLeave(ops, all, DrivenBy(driver), op);
      }
      forall op | op in ops && ops[op].driver != driver ensures Count(templist, op) == 0
      {
        Unpicked(ops, all, DrivenBy(driver), op);
      }
      OrderKept(ops, all, DrivenBy(driver));
    }
  }

  lemma PickStep(ops: map<int, Operation>, l: seq<int>, test: Operation -> bool)
    requires l != [] && l[0] in ops
    ensures Pick(ops, l, test) == (if test(ops[l[0]]) then [l[0]] else []) + Pick(ops, l[1..], test)
    ensures DatabaseMachine.Leave(ops, l, test) ==
          (if test(ops[l[0]]) then [] else [l[0]]) + DatabaseMachine.Leave(ops, l[1..], test)
  {
  }

  lemma PickEnds(ops: map<int, Operation>, test: Operation -> bool)
    ensures Pick(ops, [], test) == [] && DatabaseMachine.Leave(ops, [], test) == []
  {
  }

  lemma {:induction false} Unpicked(ops: map<int, Operation>, l: seq<int>, test: Operation -> bool, x: int)
    requires x in ops && !test(ops[x])
    ensures Count(Pick(ops, l, test), x) == 0
  {
    if l != [] {
      Unpicked(ops, l[1..], test, x);
      var p := Pick(ops, l[1..], test);
      if l[0] in ops && test(ops[l[0]]) {
        assert Pick(ops, l, test) == [l[0]] + p && ([l[0]] + p)[1..] == p;
      } else {
        assert Pick(ops, l, test) == p;
      }
    }
  }

  lemma OrderKept(ops: map<int, Operation>, l: seq<int>, test: Operation -> bool)
    requires forall k {:trigger l[k]} :: 0 <= k < |l| ==> l[k] in ops
    ensures forall x, y :: Before(Pick(ops, l, test), x, y) ==> Before(l, x, y)
    ensures forall x, y :: Before(DatabaseMachine.Leave(ops, l, test), x, y) ==> Before(l, x, y)
  {
    hide Before, Pick, DatabaseMachine.Leave;
    var p, q := Pick(ops, l, test), DatabaseMachine.Leave(ops, l, test);
    forall x, y | Before(p, x, y) ensures Before(l, x, y) {
      BeforeIn(p, x, y);
      PickedIn(ops, l, test, x);
      PickedIn(ops, l, test, y);
      Sifted(ops, l, test, x, y);
    }
    forall x, y | Before(q, x, y) ensures Before(l, x, y) {
      BeforeIn(q, x, y);
      LeftIn(ops, l, test, x);
      LeftIn(ops, l, test, y);
      Sifted(ops, l, test, x, y);
    }
  }
}
