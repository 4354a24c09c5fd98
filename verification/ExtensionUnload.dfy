/** What an unload cascade does to the whole list: it removes the least set that it has to, and every
    trace of that set, and nothing else. */
module ExtensionUnload {
  import opened ExtensionGraph

  lemma {:induction false} KeepIn(l: seq<Info>, gone: seq<int>, d: Info)
    ensures d in Keep(l, gone) <==> d in l && d.owner !in gone
  {
    if l != [] { KeepIn(l[1..], gone, d); }
  }

  lemma {:induction false} KeepOne(l: seq<Info>, t: int)
    ensures Without(l, t) == Keep(l, [t])
  {
    if l != [] { KeepOne(l[1..], t); }
  }

  lemma {:induction false} KeepNone(l: seq<Info>)
    ensures Keep(l, []) == l
  {
    if l != [] { KeepNone(l[1..]); }
  }

  lemma {:induction false} KeepTwice(l: seq<Info>, a: seq<int>, b: seq<int>)
    ensures Keep(Keep(l, a), b) == Keep(l, a + b)
  {
    if l != [] {
      KeepTwice(l[1..], a, b);
      if l[0].owner !in a {
        assert Keep(l, a) == [l[0]] + Keep(l[1..], a);
        assert ([l[0]] + Keep(l[1..], a))[1..] == Keep(l[1..], a);
      } else {
        assert Keep(l, a) == Keep(l[1..], a);
      }
    }
  }

  lemma {:induction false} TakeOutSurvives(libs: seq<Ext>, t: int)
    ensures TakeOut(libs, t) == Survivors(libs, [t])
  {
    if libs != [] {
      TakeOutSurvives(libs[1..], t);
      KeepOne(libs[0].deps, t);
      KeepOne(libs[0].children, t);
    }
  }

  lemma {:induction false} SurvivorsNone(libs: seq<Ext>)
    ensures Survivors(libs, []) == libs
  {
    if libs != [] {
      SurvivorsNone(libs[1..]);
      KeepNone(libs[0].deps);
      KeepNone(libs[0].children);
    }
  }

  lemma {:induction false} SurvivorsTwice(libs: seq<Ext>, a: seq<int>, b: seq<int>)
    ensures Survivors(Survivors(libs, a), b) == Survivors(libs, a + b)
  {
    if libs != [] {
      SurvivorsTwice(libs[1..], a, b);
      if libs[0].id !in a {
        KeepTwice(libs[0].deps, a, b);
        KeepTwice(libs[0].children, a, b);
        var e := Ext(libs[0].id, Keep(libs[0].deps, a), Keep(libs[0].children, a));
        assert ([e] + Survivors(libs[1..], a))[1..] == Survivors(libs[1..], a);
      } else {
        assert Survivors(libs, a) == Survivors(libs[1..], a);
      }
    }
  }

  function Survivor(e: Ext, gone: seq<int>): Ext {
    Ext(e.id, Keep(e.deps, gone), Keep(e.children, gone))
  }

  /** A survivor is one of the list that is not gone, stripped. */
  lemma {:induction false} SurvivorIn(libs: seq<Ext>, gone: seq<int>, e: Ext)
    ensures e in Survivors(libs, gone) <==> exists x :: x in libs && x.id !in gone && e == Survivor(x, gone)
  {
    if libs != [] {
      SurvivorIn(libs[1..], gone, e);
      assert libs == [libs[0]] + libs[1..];
    }
  }

  lemma SurvivorLoaded(libs: seq<Ext>, gone: seq<int>, x: int)
    ensures Loaded(Survivors(libs, gone), x) <==> Loaded(libs, x) && x !in gone
  {
    var left := Survivors(libs, gone);
    if Loaded(left, x) {
      var i :| 0 <= i < |left| && left[i].id == x;
      SurvivorIn(libs, gone, left[i]);
    }
    if Loaded(libs, x) && x !in gone {
      var i :| 0 <= i < |libs| && libs[i].id == x;
      SurvivorIn(libs, gone, Survivor(libs[i], gone));
    }
  }

  lemma RefusesKept(e: Ext, gone: seq<int>, y: int, refuse: Refusal)
    ensures Refuses(Survivor(e, gone), y, refuse) <==> Refuses(e, y, refuse) && y !in gone
  {
    var f := Survivor(e, gone);
    if Refuses(f, y, refuse) {
      var i :| 0 <= i < |f.deps| && f.deps[i].owner == y && refuse(f.id, f.deps[i].iface);
      KeepIn(e.deps, gone, f.deps[i]);
    }
    if Refuses(e, y, refuse) && y !in gone {
      var i :| 0 <= i < |e.deps| && e.deps[i].owner == y && refuse(e.id, e.deps[i].iface);
      KeepIn(e.deps, gone, e.deps[i]);
    }
  }

  /** Among the survivors the refused dependencies are the same. */
  lemma SurvivorEdge(libs: seq<Ext>, gone: seq<int>, x: int, y: int, refuse: Refusal)
    ensures Edge(Survivors(libs, gone), x, y, refuse) <==> Edge(libs, x, y, refuse) && x !in gone && y !in gone
  {
    var left := Survivors(libs, gone);
    if Edge(left, x, y, refuse) {
      var i :| 0 <= i < |left| && left[i].id == x && Refuses(left[i], y, refuse);
      SurvivorIn(libs, gone, left[i]);
      var e :| e in libs && e.id !in gone && left[i] == Survivor(e, gone);
      RefusesKept(e, gone, y, refuse);
    }
    if Edge(libs, x, y, refuse) && x !in gone && y !in gone {
      var i :| 0 <= i < |libs| && libs[i].id == x && Refuses(libs[i], y, refuse);
      RefusesKept(libs[i], gone, y, refuse);
      SurvivorIn(libs, gone, Survivor(libs[i], gone));
    }
  }

  lemma {:induction false} QueueIn(libs: seq<Ext>, t: int, x: int, refuse: Refusal)
    ensures x in Queue(libs, t, refuse) <==> x != t && Edge(libs, x, t, refuse)
  {
    if libs != [] {
      QueueIn(libs[1..], t, x, refuse);
      assert Edge(libs, x, t, refuse) <==>
            (libs[0].id == x && Refuses(libs[0], t, refuse)) || Edge(libs[1..], x, t, refuse) by {
        if Edge(libs, x, t, refuse) {
          var i :| 0 <= i < |libs| && libs[i].id == x && Refuses(libs[i], t, refuse);
          if i > 0 { assert libs[1..][i - 1] == libs[i]; }
        }
        if Edge(libs[1..], x, t, refuse) {
          var i :| 0 <= i < |libs[1..]| && libs[1..][i].id == x && Refuses(libs[1..][i], t, refuse);
          assert libs[i + 1] == libs[1..][i];
        }
      }
    }
  }

  // ----- the cascade -----

  /** Each extension that went was loaded and went once. */
  ghost predicate Once(libs: seq<Ext>, gone: seq<int>) {
    && (forall x :: x in gone ==> Loaded(libs, x))
    && (forall i, j :: 0 <= i < j < |gone| ==> gone[i] != gone[j])
  }

  lemma LeastAfterFirst(libs: seq<Ext>, t: int, gone: seq<int>, refuse: Refusal)
    requires Loaded(libs, t)
    requires Least(Survivors(libs, [t]), Queue(libs, t, refuse), gone, refuse) && Once(Survivors(libs, [t]), gone)
    ensures Least(libs, [t], [t] + gone, refuse) && Once(libs, [t] + gone)
  {
    var left, q, all := Survivors(libs, [t]), Queue(libs, t, refuse), [t] + gone;
    forall x ensures Loaded(left, x) <==> Loaded(libs, x) && x != t { SurvivorLoaded(libs, [t], x); }
    forall x, y ensures Edge(left, x, y, refuse) <==> Edge(libs, x, y, refuse) && x != t && y != t {
      SurvivorEdge(libs, [t], x, y, refuse);
    }
    forall x ensures x in q <==> x != t && Edge(libs, x, t, refuse) { QueueIn(libs, t, x, refuse); }
    forall x, y | Edge(libs, x, y, refuse) && y in all ensures x in all {
      EdgeLoaded(libs, x, y, refuse);
      assert y == t ==> x == t || x in q;
    }
    forall c: iset<int> | Closed(libs, c, refuse) && t in c ensures forall x :: x in all ==> x in c {
      assert Closed(left, c, refuse);
    }
  }

  lemma EdgeLoaded(libs: seq<Ext>, x: int, y: int, refuse: Refusal)
    requires Edge(libs, x, y, refuse)
    ensures Loaded(libs, x)
  {
  }

  lemma LeastAfterRest(libs: seq<Ext>, t: int, q: seq<int>, first: seq<int>, rest: seq<int>, refuse: Refusal)
    requires Least(libs, [t], first, refuse) && Once(libs, first)
    requires Least(Survivors(libs, first), q, rest, refuse) && Once(Survivors(libs, first), rest)
    ensures Least(libs, [t] + q, first + rest, refuse) && Once(libs, first + rest)
  {
    var left, all := Survivors(libs, first), first + rest;
    forall x ensures Loaded(left, x) <==> Loaded(libs, x) && x !in first { SurvivorLoaded(libs, first, x); }
    forall x, y ensures Edge(left, x, y, refuse) <==> Edge(libs, x, y, refuse) && x !in first && y !in first {
      SurvivorEdge(libs, first, x, y, refuse);
    }
    forall x, y | Edge(libs, x, y, refuse) && y in all ensures x in all {
      if x !in first { assert Edge(left, x, y, refuse); }
    }
    forall i, j | 0 <= i < j < |all| ensures all[i] != all[j] {
      if i < |first| <= j { assert all[j] == rest[j - |first|] && all[j] in rest; }
    }
    forall x | x in [t] + q && Loaded(libs, x) ensures x in all {
      assert x == t || x in q;
    }
    forall c: iset<int> | Closed(libs, c, refuse) && (forall x :: x in [t] + q && Loaded(libs, x) ==> x in c)
      ensures forall x :: x in all ==> x in c
    {
      assert t in [t] + q;
      assert forall x :: x in q ==> x in [t] + q;
      assert Closed(left, c, refuse);
    }
  }

  /** An unload, for every dependency graph, cyclic or not: what remains is the list without the
      extensions that went and without every entry that names one of them; those that went are the
      least set that holds the target and whoever refuses to let go of a member; each went once. */
  lemma {:induction false} UnloadCascade(libs: seq<Ext>, t: int, refuse: Refusal)
    ensures var r := Unload(libs, t, refuse);
      && r.libs == Survivors(libs, r.gone)
      && Least(libs, [t], r.gone, refuse) && Once(libs, r.gone)
    decreases |libs|, 0
  {
    TakeOutSmaller(libs, t);
    if Loaded(libs, t) {
      var q := Queue(libs, t, refuse);
      TakeOutSurvives(libs, t);
      UnloadAllCascade(Survivors(libs, [t]), q, refuse);
      var r := UnloadAll(Survivors(libs, [t]), q, refuse);
      SurvivorsTwice(libs, [t], r.gone);
      LeastAfterFirst(libs, t, r.gone, refuse);
    } else {
      SurvivorsNone(libs);
    }
  }

  lemma {:induction false} UnloadAllCascade(libs: seq<Ext>, q: seq<int>, refuse: Refusal)
    ensures var r := UnloadAll(libs, q, refuse);
      && r.libs == Survivors(libs, r.gone)
      && Least(libs, q, r.gone, refuse) && Once(libs, r.gone)
    decreases |libs|, 1, |q|
  {
    if q == [] {
      SurvivorsNone(libs);
    } else {
      var first := Unload(libs, q[0], refuse);
      UnloadCascade(libs, q[0], refuse);
      UnloadAllCascade(first.libs, q[1..], refuse);
      var rest := UnloadAll(first.libs, q[1..], refuse);
      SurvivorsTwice(libs, first.gone, rest.gone);
      LeastAfterRest(libs, q[0], q[1..], first.gone, rest.gone, refuse);
      assert [q[0]] + q[1..] == q;
    }
  }

  // ----- reaching by a path -----

  /** A path of refused dependencies. */
  predicate Path(libs: seq<Ext>, p: seq<int>, refuse: Refusal) {
    |p| >= 1 && forall i {:trigger p[i]} :: 0 <= i < |p| - 1 ==> Edge(libs, p[i], p[i + 1], refuse)
  }

  ghost predicate Reaches(libs: seq<Ext>, x: int, t: int, refuse: Refusal) {
    exists p: seq<int> {:trigger Path(libs, p, refuse)} :: Path(libs, p, refuse) && p[0] == x && p[|p| - 1] == t
  }

  lemma {:induction false} PathGone(libs: seq<Ext>, p: seq<int>, gone: seq<int>, refuse: Refusal)
    requires Path(libs, p, refuse) && p[|p| - 1] in gone
    requires forall x, y {:trigger Edge(libs, x, y, refuse)} :: Edge(libs, x, y, refuse) && y in gone ==> x in gone
    ensures p[0] in gone
    decreases |p|
  {
    if |p| > 1 {
      assert forall i {:trigger p[1..][i]} :: 0 <= i < |p| - 2 ==> p[1..][i] == p[i + 1];
      PathGone(libs, p[1..], gone, refuse);
      assert Edge(libs, p[0], p[1], refuse);
    }
  }

  /** The extensions that go are exactly those that reach the target by refused dependencies. */
  lemma GoneReaches(libs: seq<Ext>, t: int, x: int, refuse: Refusal)
    requires Loaded(libs, t)
    ensures x in Unload(libs, t, refuse).gone <==> Reaches(libs, x, t, refuse)
  {
    var gone := Unload(libs, t, refuse).gone;
    UnloadCascade(libs, t, refuse);
    assert t in [t];
    if Reaches(libs, x, t, refuse) {
      var p: seq<int> :| Path(libs, p, refuse) && p[0] == x && p[|p| - 1] == t;
      PathGone(libs, p, gone, refuse);
    }
    var c := iset y | Reaches(libs, y, t, refuse);
    assert Path(libs, [t], refuse);
    forall y, z | Edge(libs, y, z, refuse) && z in c ensures y in c {
      var p: seq<int> :| Path(libs, p, refuse) && p[0] == z && p[|p| - 1] == t;
      assert Path(libs, [y] + p, refuse);
    }
    assert Closed(libs, c, refuse);
  }
}
