/** The TimerSystem class: the loops between two calls of a listener. The calls themselves, and what the
    listeners do in them, are the events of TimerMachine. */
module TimerSystem {
  import opened TimerMachine
  import opened TimerInv

  class TimerLists {
    var timers: map<int, Timer>
    var singleTimers: seq<int>
    var loopTimers: seq<int>
    var freeTimers: seq<int>
    var toKill: seq<int>
    // The activations and the observations of the machine.
    ghost var stack: seq<Frame>
    var made: nat
    ghost var ended: seq<nat>

    ghost function View(): State
      reads this
    {
      State(timers, singleTimers, loopTimers, freeTimers, toKill, stack, made, ended, false)
    }

    constructor ()
      ensures View() == START
    {
      timers, singleTimers, loopTimers, freeTimers, toKill := map[], [], [], [], [];
      stack, made, ended := [], 0, [];
    }

    /** CreateTimer: an object from the free stack or a new one; one-shot timers go in before the first
        that is not earlier, or to the end at once if the last is not later. */
    method CreateTimer(unused: int, interval: real, repeats: bool, noMap: bool, now: real) returns (id: int)
      requires Core(View()) && unused !in timers
      modifies this`timers, this`singleTimers, this`loopTimers, this`freeTimers, this`made
      ensures View() == Create(old(View()), unused, interval, repeats, noMap, now) && Core(View())
      ensures id == NewId(old(View()), unused) && Live(View(), id)
    {
      hide Core;
      CreateCore(View(), unused, interval, repeats, noMap, now);
      CreatedLive(View(), unused, interval, repeats, noMap, now);
      SinglesKnown(View());
      var toExec := now + interval;
      if freeTimers == [] {
        id := unused;
      } else {
        id := freeTimers[|freeTimers| - 1];
        freeTimers := freeTimers[..|freeTimers| - 1];
      }
      if repeats {
        loopTimers := loopTimers + [id];
      } else {
        InsertSame(old(View()), View(), singleTimers, id, toExec);
        InsertTimer(id, toExec);
      }
      timers := timers[id := Timer(made, toExec, interval, repeats, noMap, false, false)];
      made := made + 1;
    }

    method InsertTimer(id: int, toExec: real)
      requires forall k {:trigger singleTimers[k]} :: 0 <= k < |singleTimers| ==> singleTimers[k] in timers
      modifies this`singleTimers
      ensures singleTimers == Insert(old(View()), old(singleTimers), id, toExec)
    {
      ghost var s := View();
      var n := |singleTimers|;
      if n >= 1 && timers[singleTimers[n - 1]].toExec <= toExec {
        singleTimers := singleTimers + [id];
        return;
      }
      var i := 0;
      while i < n && timers[singleTimers[i]].toExec < toExec
        invariant 0 <= i <= n
        invariant forall k {:trigger singleTimers[k]} :: 0 <= k < i ==> !Later(s, singleTimers[k], toExec)
      {
        i := i + 1;
      }
      InsertedAt(s, singleTimers, i, id, toExec);
      singleTimers := singleTimers[..i] + [id] + singleTimers[i..];
    }

    /** The first two loops of RemoveMapChangeTimers. */
    method CollectMapTimers()
      requires Core(View())
      modifies this`toKill
      ensures toKill == old(toKill) + NoMap(old(View()), singleTimers) + NoMap(old(View()), loopTimers)
    {
      hide Core;
      KnownTimers(View());
      CollectFrom(singleTimers);
      NoMapSame(old(View()), View(), loopTimers);
      CollectFrom(loopTimers);
    }

    method CollectFrom(l: seq<int>)
      requires forall k {:trigger l[k]} :: 0 <= k < |l| ==> l[k] in timers
      modifies this`toKill
      ensures toKill == old(toKill) + NoMap(old(View()), l)
    {
      ghost var s := View();
      var i := 0;
      assert l[0..] == l;
      while i < |l|
        invariant 0 <= i <= |l| && toKill + NoMap(s, l[i..]) == old(toKill) + NoMap(s, l)
      {
        assert l[i..][0] == l[i] && l[i..][1..] == l[i + 1..];
        if timers[l[i]].noMap { toKill := toKill + [l[i]]; }
        i := i + 1;
      }
    }
  }

  lemma SinglesKnown(s: State)
    requires Core(s)
    ensures forall k {:trigger s.single[k]} :: 0 <= k < |s.single| ==> s.single[k] in s.timers
  {
    forall k {:trigger s.single[k]} | 0 <= k < |s.single| ensures s.single[k] in s.timers { SingleAt(s, k); }
  }

  lemma KnownTimers(s: State)
    requires Core(s)
    ensures forall k {:trigger s.single[k]} :: 0 <= k < |s.single| ==> s.single[k] in s.timers
    ensures forall k {:trigger s.loops[k]} :: 0 <= k < |s.loops| ==> s.loops[k] in s.timers
  {
    SinglesKnown(s);
    forall k {:trigger s.loops[k]} | 0 <= k < |s.loops| ensures s.loops[k] in s.timers {
      var t := s.loops[k];
      assert t in s.loops;
      assert t in s.timers;
    }
  }

  lemma CreatedLive(s: State, unused: int, interval: real, repeats: bool, noMap: bool, now: real)
    requires Core(s) && unused !in s.timers
    ensures Live(Create(s, unused, interval, repeats, noMap, now), NewId(s, unused))
  {
    CreateLists(s, unused, interval, repeats, noMap, now);
  }

  lemma {:induction false} InsertedAt(s: State, l: seq<int>, i: nat, t: int, at: real)
    requires i <= |l| && (forall k {:trigger l[k]} :: 0 <= k < i ==> !Later(s, l[k], at))
    requires (i < |l| ==> Later(s, l[i], at))
    ensures InsertBefore(s, l, t, at) == l[..i] + [t] + l[i..]
  {
    if i > 0 {
      var r := l[1..];
      assert forall k {:trigger r[k]} :: 0 <= k < |r| ==> r[k] == l[k + 1];
      InsertedAt(s, r, i - 1, t, at);
      assert [l[0]] + (r[..i - 1] + [t] + r[i - 1..]) == l[..i] + [t] + l[i..];
    } else {
      assert l[..0] + [t] + l[0..] == [t] + l;
    }
  }

  lemma {:induction false} InsertSame(s: State, u: State, l: seq<int>, t: int, at: real)
    requires u.timers == s.timers
    ensures Insert(u, l, t, at) == Insert(s, l, t, at) && InsertBefore(u, l, t, at) == InsertBefore(s, l, t, at)
  {
    if l != [] { InsertSame(s, u, l[1..], t, at); }
  }

  lemma {:induction false} NoMapSame(s: State, u: State, l: seq<int>)
    requires u.timers == s.timers
    ensures NoMap(u, l) == NoMap(s, l)
  {
    if l != [] { NoMapSame(s, u, l[1..]); }
  }
}
