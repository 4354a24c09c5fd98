/** What every section of the timer machine keeps. */
module TimerInv {
  import opened TimerMachine

  predicate Distinct<T(==)>(l: seq<T>) {
    forall i, j {:trigger l[i], l[j]} :: 0 <= i < j < |l| ==> l[i] != l[j]
  }

  /** The timers in activations, and those whose OnTimerEnd is being called. */
  function Busy(k: seq<Frame>): set<int> {
    if k == [] then {} else Busy(k[..|k| - 1]) + (if k[|k| - 1].Drain? then {} else {k[|k| - 1].t})
  }

  function Ending(k: seq<Frame>): set<int> {
    if k == [] then {} else Ending(k[..|k| - 1]) + (if Ends(k[|k| - 1]) then {k[|k| - 1].t} else {})
  }

  /** No timer is in two activations. */
  predicate Single(k: seq<Frame>) {
    k == [] || (Single(k[..|k| - 1]) && (k[|k| - 1].Drain? || k[|k| - 1].t !in Busy(k[..|k| - 1])))
  }

  /** Every object is in exactly one of the one-shot list, the repeat list and the free stack. */
  ghost predicate ListsOk(s: State) {
    && Distinct(s.single) && Distinct(s.loops) && Distinct(s.free)
    && (forall t {:trigger t in s.timers} :: t in s.timers <==> t in s.single || t in s.loops || t in s.free)
    && (forall t :: t in s.single ==> t !in s.loops && t !in s.free)
    && (forall t :: t in s.loops ==> t !in s.free)
    && (forall t {:trigger s.timers[t]} :: t in s.timers ==>
          (t in s.single ==> !s.timers[t].repeats) && (t in s.loops ==> s.timers[t].repeats))
  }

  /** The flags say which timers are in activations; those are live. */
  ghost predicate StackOk(s: State) {
    && Single(s.stack)
    && (forall t :: t in Busy(s.stack) ==> Live(s, t))
    && (forall t {:trigger s.timers[t]} :: t in s.timers ==>
          (s.timers[t].inExec <==> t in s.free || t in Busy(s.stack)))
  }

  /** Each creation is ended at most once: exactly those whose timer is gone or whose end is under way. */
  ghost predicate EndsOk(s: State) {
    && Distinct(s.ended) && (forall x :: x in s.ended ==> x < s.made)
    && (forall t {:trigger s.timers[t]} :: t in s.timers ==>
          s.timers[t].serial < s.made && (s.timers[t].serial in s.ended <==> t in s.free || t in Ending(s.stack)))
    && (forall t, u {:trigger s.timers[t], s.timers[u]} :: t in s.timers && u in s.timers && t != u ==>
          s.timers[t].serial != s.timers[u].serial)
    && (forall x {:trigger x in s.ended} :: 0 <= x < s.made ==> x in s.ended || Current(s, x))
  }

  /** The creation x is that of a live timer. */
  ghost predicate Current(s: State, x: nat) {
    exists t :: t in s.timers && t !in s.free && s.timers[t].serial == x
  }

  predicate SortedBy(m: map<int, Timer>, l: seq<int>) {
    && (forall k {:trigger l[k]} :: 0 <= k < |l| ==> l[k] in m)
    && (forall i, j {:trigger l[i], l[j]} :: 0 <= i < j < |l| ==> m[l[i]].toExec <= m[l[j]].toExec)
  }

  /** RunFrame may stop at the first one-shot timer that is not due. */
  ghost predicate Sorted(s: State) { SortedBy(s.timers, s.single) }

  ghost predicate Core(s: State) {
    ListsOk(s) && StackOk(s) && EndsOk(s) && Sorted(s)
  }

  lemma {:induction false} EndingBusy(k: seq<Frame>)
    ensures Ending(k) <= Busy(k)
  {
    if k != [] { EndingBusy(k[..|k| - 1]); }
  }

  lemma PushBusy(k: seq<Frame>, f: Frame)
    requires Single(k) && (f.Drain? || f.t !in Busy(k))
    ensures Single(k + [f])
    ensures Busy(k + [f]) == Busy(k) + (if f.Drain? then {} else {f.t})
    ensures Ending(k + [f]) == Ending(k) + (if Ends(f) then {f.t} else {})
  {
    assert (k + [f])[..|k + [f]| - 1] == k;
  }

  /** The activations below the top are of other timers. */
  lemma PopBusy(k: seq<Frame>)
    requires Single(k) && k != [] && !k[|k| - 1].Drain?
    ensures Single(k[..|k| - 1])
    ensures Busy(k[..|k| - 1]) == Busy(k) - {k[|k| - 1].t}
    ensures Ending(k[..|k| - 1]) == Ending(k) - {k[|k| - 1].t}
    ensures k[|k| - 1].t in Busy(k) && (k[|k| - 1].t in Ending(k) <==> Ends(k[|k| - 1]))
  {
    EndingBusy(k[..|k| - 1]);
  }

  lemma DistinctCons<T>(x: T, l: seq<T>)
    requires Distinct(l) && x !in l
    ensures Distinct([x] + l)
  {
  }

  lemma {:induction false} WithoutIn(l: seq<int>, t: int)
    requires Distinct(l)
    ensures Distinct(Without(l, t)) && forall x :: x in Without(l, t) <==> x in l && x != t
  {
    if l != [] {
      assert forall i {:trigger l[1..][i]} :: 0 <= i < |l| - 1 ==> l[1..][i] == l[i + 1];
      WithoutIn(l[1..], t);
      if l[0] != t { DistinctCons(l[0], Without(l[1..], t)); }
    }
  }

  lemma {:induction false} WithoutSorted(m: map<int, Timer>, l: seq<int>, t: int)
    requires Distinct(l) && SortedBy(m, l)
    ensures SortedBy(m, Without(l, t))
  {
    if l != [] {
      var r := l[1..];
      assert forall i {:trigger r[i]} :: 0 <= i < |r| ==> r[i] == l[i + 1];
      WithoutSorted(m, r, t);
      WithoutIn(r, t);
      if l[0] != t {
        var w := Without(r, t);
        forall i | 0 <= i < |w| ensures m[l[0]].toExec <= m[w[i]].toExec {
          assert w[i] in w;
          var k :| 0 <= k < |r| && r[k] == w[i];
          assert l[k + 1] == w[i];
        }
        assert Without(l, t) == [l[0]] + w;
      }
    }
  }

  lemma SortedFrame(m: map<int, Timer>, m': map<int, Timer>, l: seq<int>)
    requires SortedBy(m, l) && forall k {:trigger l[k]} :: 0 <= k < |l| ==>
          l[k] in m' && m'[l[k]].toExec == m[l[k]].toExec
    ensures SortedBy(m', l)
  {
  }

  // ----- the sections -----

  lemma EnterCore(s: State, f: Frame)
    requires Core(s) && !f.Drain? && Live(s, f.t) && f.t in s.timers && !s.timers[f.t].inExec
    ensures Core(Enter(s, f))
  {
    hide Busy, Ending, Single;
    PushBusy(s.stack, f);
    EndingBusy(s.stack);
    var u := Enter(s, f);
    forall x {:trigger x in u.ended} | 0 <= x < u.made ensures x in u.ended || Current(u, x) {
      if x !in s.ended {
        var t :| t in s.timers && t !in s.free && s.timers[t].serial == x;
        assert u.timers[t].serial == x;
      }
    }
  }

  lemma MarkCore(s: State, t: int)
    requires Core(s) && t in s.timers
    ensures Core(MarkKill(s, t))
  {
    hide Busy, Ending, Single;
    var u := MarkKill(s, t);
    forall x {:trigger x in u.ended} | 0 <= x < u.made ensures x in u.ended || Current(u, x) {
      if x !in s.ended {
        var v :| v in s.timers && v !in s.free && s.timers[v].serial == x;
        assert u.timers[v].serial == x;
      }
    }
  }

  /** What the top of the stack says about its timer. */
  lemma TopFacts(s: State)
    requires Core(s) && s.stack != [] && !Top(s).Drain?
    ensures var t := Top(s).t; Live(s, t) && t in s.timers && s.timers[t].inExec && t !in s.free
    ensures s.timers[Top(s).t].serial in s.ended <==> Ends(Top(s))
  {
    PopBusy(s.stack);
  }

  lemma ListsSame(s: State, u: State)
    requires ListsOk(s) && Sorted(s)
    requires u.timers == s.timers && u.single == s.single && u.loops == s.loops && u.free == s.free
    ensures ListsOk(u) && Sorted(u)
  {
  }

  lemma ToEndEnds(s: State, u: State, t: int)
    requires EndsOk(s) && Distinct(u.ended) && t in s.timers && t !in s.free && t !in Ending(s.stack)
    requires u.ended == s.ended + [s.timers[t].serial] && Ending(u.stack) == Ending(s.stack) + {t}
    requires u.timers == s.timers && u.free == s.free && u.made == s.made
    ensures EndsOk(u)
  {
    hide Ending, Distinct;
    forall y {:trigger y in u.ended} | 0 <= y < u.made ensures y in u.ended || Current(u, y) {
      if y !in s.ended {
        var v :| v in s.timers && v !in s.free && s.timers[v].serial == y;
        assert u.timers[v].serial == y;
      }
    }
  }

  lemma ToEndCore(s: State)
    requires Core(s) && s.stack != [] && (Top(s).RunSingle? || Top(s).RunLoop? || Top(s).Fire?) && !Ends(Top(s))
    ensures Top(s).t in s.timers && Core(ToEnd(s))
  {
    hide Core, Busy, Ending, Single, Distinct, ListsOk, Sorted, EndsOk, Live, StackOk;
    TopFacts(s);
    CoreParts(s);
    PopBusy(s.stack);
    var u, n := ToEnd(s), |s.stack| - 1;
    assert u.stack == s.stack[..n] + [Top(s).(phase := OnTimerEnd)];
    PushBusy(s.stack[..n], Top(s).(phase := OnTimerEnd));
    DistinctMore(s.ended, s.timers[Top(s).t].serial);
    ListsSame(s, u);
    ToEndEnds(s, u, Top(s).t);
    StackSame(s, u);
    CoreMade(u);
  }

  lemma StackSame(s: State, u: State)
    requires StackOk(s) && Single(u.stack) && Busy(u.stack) == Busy(s.stack)
    requires u.timers == s.timers && u.single == s.single && u.loops == s.loops && u.free == s.free
    ensures StackOk(u)
  {
    hide Single, Busy;
  }

  lemma CoreParts(s: State)
    requires Core(s)
    ensures ListsOk(s) && StackOk(s) && EndsOk(s) && Sorted(s) && Single(s.stack) && Distinct(s.ended)
  {
  }

  lemma CoreMade(s: State)
    requires ListsOk(s) && StackOk(s) && EndsOk(s) && Sorted(s)
    ensures Core(s)
  {
  }

  lemma DistinctMore<T>(l: seq<T>, x: T)
    requires Distinct(l) && x !in l
    ensures Distinct(l + [x])
  {
  }

  lemma SingleAt(s: State, k: nat)
    requires ListsOk(s) && k < |s.single|
    ensures s.single[k] in s.timers && !s.timers[s.single[k]].repeats && Live(s, s.single[k])
  {
    var t := s.single[k];
    assert t in s.single;
    assert t in s.timers;
    assert !s.timers[t].repeats;
  }

  lemma LeaveCore(s: State, toExec: real)
    requires Core(s) && s.stack != [] && !Top(s).Drain? && !Ends(Top(s))
    requires Top(s).t in s.timers && s.timers[Top(s).t].repeats
    ensures Core(Leave(s, toExec))
  {
    hide Busy, Ending, Single, Distinct, SortedBy;
    TopFacts(s);
    PopBusy(s.stack);
    var u := Leave(s, toExec);
    forall k {:trigger s.single[k]} | 0 <= k < |s.single| ensures s.single[k] in s.timers && s.single[k] != Top(s).t {
      SingleAt(s, k);
    }
    SortedFrame(s.timers, u.timers, s.single);
    forall x {:trigger x in u.ended} | 0 <= x < u.made ensures x in u.ended || Current(u, x) {
      if x !in s.ended {
        var v :| v in s.timers && v !in s.free && s.timers[v].serial == x;
        assert u.timers[v].serial == x;
      }
    }
  }

  lemma RetireLists(s: State)
    requires Core(s) && s.stack != [] && !Top(s).Drain? && Ends(Top(s)) && Top(s).t in s.timers
    ensures ListsOk(Retire(s)) && Sorted(Retire(s))
    ensures var u, t := Retire(s), Top(s).t; u.timers == s.timers && u.free == s.free + [t]
    ensures var t := Top(s).t; t !in s.free && !Live(Retire(s), t)
    ensures forall x :: x != Top(s).t ==> (Live(Retire(s), x) <==> Live(s, x))
  {
    hide Busy, Ending, Single, Distinct, SortedBy;
    TopFacts(s);
    var t := Top(s).t;
    WithoutIn(s.single, t);
    WithoutIn(s.loops, t);
    WithoutSorted(s.timers, s.single, t);
    DistinctMore(s.free, t);
  }

  lemma RetireCore(s: State)
    requires Core(s) && s.stack != [] && !Top(s).Drain? && Ends(Top(s)) && Top(s).t in s.timers
    ensures Core(Retire(s))
  {
    hide Busy, Ending, Single, Distinct, SortedBy, ListsOk, Sorted, Live;
    RetireLists(s);
    TopFacts(s);
    PopBusy(s.stack);
    var u := Retire(s);
    forall x {:trigger x in u.ended} | 0 <= x < u.made ensures x in u.ended || Current(u, x) {
      if x !in s.ended {
        var v :| v in s.timers && v !in s.free && s.timers[v].serial == x;
        assert v !in u.free && u.timers[v].serial == x;
      }
    }
  }

  // ----- creating -----

  lemma {:induction false} InsertBeforeIn(s: State, l: seq<int>, t: int, at: real)
    requires Distinct(l) && t !in l
    ensures var r := InsertBefore(s, l, t, at); Distinct(r) && forall x :: x in r <==> x in l || x == t
  {
    if l != [] && !Later(s, l[0], at) {
      var r := l[1..];
      assert forall i {:trigger r[i]} :: 0 <= i < |r| ==> r[i] == l[i + 1];
      InsertBeforeIn(s, r, t, at);
      DistinctCons(l[0], InsertBefore(s, r, t, at));
    } else if l != [] {
      DistinctCons(t, l);
    }
  }

  lemma {:induction false} InsertBeforeSorted(s: State, m: map<int, Timer>, l: seq<int>, t: int, at: real)
    requires SortedBy(s.timers, l) && Distinct(l) && t !in l && t in m && m[t].toExec == at
    requires forall k {:trigger l[k]} :: 0 <= k < |l| ==> l[k] in m && m[l[k]] == s.timers[l[k]]
    ensures SortedBy(m, InsertBefore(s, l, t, at))
  {
    var w := InsertBefore(s, l, t, at);
    if l == [] {
    } else if Later(s, l[0], at) {
      assert forall i {:trigger w[i]} :: 0 < i < |w| ==> w[i] == l[i - 1];
    } else {
      var r := l[1..];
      assert forall i {:trigger r[i]} :: 0 <= i < |r| ==> r[i] == l[i + 1];
      InsertBeforeSorted(s, m, r, t, at);
      InsertBeforeIn(s, r, t, at);
      var v := InsertBefore(s, r, t, at);
      forall i | 0 <= i < |v| ensures m[l[0]].toExec <= m[v[i]].toExec {
        assert v[i] in v;
        if v[i] in r {
          var k :| 0 <= k < |r| && r[k] == v[i];
          assert l[k + 1] == v[i];
        }
      }
      assert forall i {:trigger w[i]} :: 0 < i < |w| ==> w[i] == v[i - 1];
    }
  }

  lemma InsertOk(s: State, m: map<int, Timer>, l: seq<int>, t: int, at: real)
    requires SortedBy(s.timers, l) && Distinct(l) && t !in l && t in m && m[t].toExec == at
    requires forall k {:trigger l[k]} :: 0 <= k < |l| ==> l[k] in m && m[l[k]] == s.timers[l[k]]
    ensures var w := Insert(s, l, t, at); Distinct(w) && SortedBy(m, w) && forall x :: x in w <==> x in l || x == t
  {
    if l != [] && l[|l| - 1] in s.timers && s.timers[l[|l| - 1]].toExec <= at {
      DistinctMore(l, t);
      var w := l + [t];
      forall i | 0 <= i < |l| ensures m[l[i]].toExec <= at {
        assert i < |l| - 1 ==> s.timers[l[i]].toExec <= s.timers[l[|l| - 1]].toExec;
      }
    } else {
      InsertBeforeIn(s, l, t, at);
      InsertBeforeSorted(s, m, l, t, at);
    }
  }

  /** The object of a new timer: no list holds it but, perhaps, the top of the free stack. */
  function NewId(s: State, unused: int): int { if s.free == [] then unused else s.free[|s.free| - 1] }

  function LessFree(s: State): seq<int> { if s.free == [] then [] else s.free[..|s.free| - 1] }

  lemma FreeTop(s: State, unused: int)
    requires ListsOk(s) && unused !in s.timers
    ensures var id := NewId(s, unused); !Live(s, id) && id !in LessFree(s) && Distinct(LessFree(s))
    ensures forall x :: x in s.free <==> x in LessFree(s) || (s.free != [] && x == NewId(s, unused))
    ensures NewId(s, unused) in s.timers <==> s.free != []
  {
    if s.free != [] {
      var n := |s.free| - 1;
      assert s.free == s.free[..n] + [s.free[n]] && s.free[n] in s.free;
    }
  }

  lemma CreateLists(s: State, unused: int, interval: real, repeats: bool, noMap: bool, now: real)
    requires Core(s) && unused !in s.timers
    ensures var u := Create(s, unused, interval, repeats, noMap, now); ListsOk(u) && Sorted(u)
    ensures var u, id := Create(s, unused, interval, repeats, noMap, now), NewId(s, unused);
      u.free == LessFree(s) && forall x :: Live(u, x) <==> Live(s, x) || x == id
  {
    hide StackOk, EndsOk, Insert, SortedBy, Distinct;
    FreeTop(s, unused);
    var u, id := Create(s, unused, interval, repeats, noMap, now), NewId(s, unused);
    forall k {:trigger s.single[k]} | 0 <= k < |s.single|
      ensures s.single[k] in u.timers && u.timers[s.single[k]] == s.timers[s.single[k]]
    {
      SingleAt(s, k);
    }
    if repeats {
      DistinctMore(s.loops, id);
      SortedFrame(s.timers, u.timers, s.single);
    } else {
      InsertOk(s, u.timers, s.single, id, now + interval);
    }
  }

  /** A new timer is created from the top of the free stack, in its list. */
  lemma CreateCore(s: State, unused: int, interval: real, repeats: bool, noMap: bool, now: real)
    requires Core(s) && unused !in s.timers
    ensures Core(Create(s, unused, interval, repeats, noMap, now))
  {
    CreateLists(s, unused, interval, repeats, noMap, now);
    CreateRest(s, unused, interval, repeats, noMap, now);
  }

  lemma CreateRest(s: State, unused: int, interval: real, repeats: bool, noMap: bool, now: real)
    requires Core(s) && unused !in s.timers
    requires var u, id := Create(s, unused, interval, repeats, noMap, now), NewId(s, unused);
      u.free == LessFree(s) && forall x :: Live(u, x) <==> Live(s, x) || x == id
    ensures StackOk(Create(s, unused, interval, repeats, noMap, now))
    ensures EndsOk(Create(s, unused, interval, repeats, noMap, now))
  {
    hide Insert, SortedBy, Distinct, Busy, Ending, Single, Live, Sorted;
    FreeTop(s, unused);
    EndingBusy(s.stack);
    var u, id := Create(s, unused, interval, repeats, noMap, now), NewId(s, unused);
    forall x {:trigger x in u.ended} | 0 <= x < u.made ensures x in u.ended || Current(u, x) {
      if x == s.made {
        assert u.timers[id].serial == x;
      } else if x !in s.ended {
        var v :| v in s.timers && v !in s.free && s.timers[v].serial == x;
        assert u.timers[v].serial == x;
      }
    }
  }
}
