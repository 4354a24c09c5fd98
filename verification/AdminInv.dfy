/** What every run of the admin cache keeps. */
module AdminInv {
  import opened AdminLists
  import opened AdminOps

  /** The live and the free admins, the live and the free groups, in list order. */
  datatype Pools = Pools(lu: seq<int>, du: seq<int>, lg: seq<int>, dg: seq<int>)

  ghost predicate UsersOk(s: Cache, p: Pools) {
    && Ok(s.ul, p.lu, p.du) && s.users.Keys == s.ul.links.Keys
    && (forall u {:trigger s.users[u]} :: u in s.users ==> 0 <= u < s.next && (s.users[u].live <==> u in p.lu))
  }

  ghost predicate GroupsOk(s: Cache, p: Pools) {
    && Ok(s.gl, p.lg, p.dg) && s.groups.Keys == s.gl.links.Keys
    && (forall g {:trigger s.groups[g]} :: g in s.groups ==> 0 <= g < s.next && (s.groups[g].live <==> g in p.lg))
  }

  predicate LiveGroup(s: Cache, g: int) { g in s.groups && s.groups[g].live }

  /** The name index is a bijection with the live groups. */
  ghost predicate NamesOk(s: Cache) {
    && (forall n {:trigger s.names[n]} :: n in s.names ==> LiveGroup(s, s.names[n]) && s.groups[s.names[n]].name == n)
    && (forall g {:trigger s.groups[g].name} :: LiveGroup(s, g) ==>
          s.groups[g].name in s.names && s.names[s.groups[g].name] == g)
  }

  predicate TableOk(s: Cache, r: User) {
    && (r.size == 0 <==> r.table == NONE) && r.count <= r.size
    && (r.table != NONE ==> r.table in s.tables && |s.tables[r.table]| == r.size)
    && (!r.live ==> r.count == 0)
  }

  /** Each admin, live or not, has a table of its own. */
  ghost predicate TablesOk(s: Cache) {
    && s.next >= 0 && (forall t {:trigger t in s.tables} :: t in s.tables ==> 0 <= t < s.next)
    && (forall u {:trigger s.users[u]} :: u in s.users ==> TableOk(s, s.users[u]))
    && (forall u, v {:trigger s.users[u].table, s.users[v].table} ::
          (u in s.users && v in s.users && u != v && s.users[u].table != NONE) ==> s.users[u].table != s.users[v].table)
  }

  /** Each admin lists live groups, once each. */
  ghost predicate ListingsOk(s: Cache) {
    forall u {:trigger Listed(s, u)} :: u in s.users ==>
      Distinct(Listed(s, u)) && forall g :: g in Listed(s, u) ==> LiveGroup(s, g)
  }

  ghost predicate Inv(s: Cache, p: Pools) {
    UsersOk(s, p) && GroupsOk(s, p) && NamesOk(s) && TablesOk(s) && ListingsOk(s)
  }

  // ----- walking a list -----

  lemma {:induction false} WalkIs(m: map<int, Link>, l: seq<int>, i: nat, n: nat)
    requires Forward(m, l) && i <= |l| <= i + n
    ensures Walk(m, if i < |l| then l[i] else NONE, n) == l[i..]
    decreases n
  {
    if i < |l| {
      if i + 1 < |l| { assert m[l[i]].next == l[i + 1]; }
      WalkIs(m, l, i + 1, n - 1);
    }
  }

  lemma {:induction false} DistinctCount(l: seq<int>, all: set<int>)
    requires Distinct(l) && forall i {:trigger l[i]} :: 0 <= i < |l| ==> l[i] in all
    ensures |l| <= |all|
  {
    if l != [] {
      var n := |l| - 1;
      var x := l[n];
      assert forall i {:trigger l[..n][i]} :: 0 <= i < n ==> l[..n][i] == l[i] && l[i] != x;
      DistinctCount(l[..n], all - {x});
      assert x in all;
    }
  }

  /** The live list of the invariant is what a walk over the links finds. */
  lemma LiveIs(c: Lists, live: seq<int>, dead: seq<int>)
    requires Ok(c, live, dead)
    ensures Live(c) == live
  {
    assert c.links.Keys == c.links.Keys;
    assert forall i {:trigger live[i]} :: 0 <= i < |live| ==> live[i] in c.links.Keys;
    DistinctCount(live, c.links.Keys);
    assert |c.links| == |c.links.Keys|;
    WalkIs(c.links, live, 0, |c.links|);
    assert live[0..] == live;
  }

  lemma StartInv()
    ensures Inv(START, Pools([], [], [], []))
  {
  }

  // ----- creating -----

  function AfterCreate(p: Pools, id: int): Pools {
    p.(lu := p.lu + [id], du := if p.du == [] then [] else p.du[1..])
  }

  lemma CreateLists(s: Cache, p: Pools, name: string)
    requires UsersOk(s, p) && s.next >= 0
    ensures UsersOk(CreateAdmin(s, name).0, AfterCreate(p, CreateAdmin(s, name).1))
    ensures var id := CreateAdmin(s, name).1;
      && id != NONE && (id in s.users ==> !s.users[id].live && s.ul.free != NONE)
      && (id !in s.users ==> id == s.next && s.ul.free == NONE)
  {
    hide Ok, Append, Alloc;
    assert s.next !in s.ul.links;
    AppendKeeps(s.ul, p.lu, p.du, s.next, false);
    OkDisjoint(s.ul, p.lu, p.du);
    var (t, id) := CreateAdmin(s, name);
    var q := AfterCreate(p, id);
    forall u | u in t.users ensures 0 <= u < t.next && (t.users[u].live <==> u in q.lu) {
      if u != id { assert u in s.users; }
    }
  }

  lemma OkDisjoint(c: Lists, live: seq<int>, dead: seq<int>)
    requires Ok(c, live, dead)
    ensures forall x :: x in dead ==> x in c.links && x !in live
  {
  }

  lemma UsersFrame(s: Cache, t: Cache, p: Pools, q: Pools)
    requires UsersOk(s, p) && t.ul == s.ul && t.users == s.users && t.next >= s.next && q.lu == p.lu && q.du == p.du
    ensures UsersOk(t, q)
  {
    hide Ok;
  }

  lemma GroupsFrame(s: Cache, t: Cache, p: Pools, q: Pools)
    requires GroupsOk(s, p) && t.gl == s.gl && t.groups == s.groups && t.next >= s.next && q.lg == p.lg && q.dg == p.dg
    ensures GroupsOk(t, q)
  {
    hide Ok;
  }

  lemma NamesFrame(s: Cache, t: Cache)
    requires NamesOk(s) && t.names == s.names && t.groups == s.groups
    ensures NamesOk(t)
  {
  }

  lemma TablesFrame(s: Cache, t: Cache)
    requires TablesOk(s) && t.tables == s.tables && t.users == s.users && t.next >= s.next
    ensures TablesOk(t)
  {
  }

  /** The listings stay in order while tables stay and no group is retired, but for one admin. */
  lemma ListingsFrame(s: Cache, t: Cache, x: int)
    requires ListingsOk(s) && Distinct(Listed(t, x)) && forall g :: g in Listed(t, x) ==> LiveGroup(t, g)
    requires forall u {:trigger Listed(t, u)} :: u in t.users && u != x ==> u in s.users && Listed(t, u) == Listed(s, u)
    requires forall g {:trigger LiveGroup(t, g)} :: LiveGroup(s, g) ==> LiveGroup(t, g)
    ensures ListingsOk(t)
  {
  }

  lemma SameListings(s: Cache, t: Cache)
    requires ListingsOk(s) && t.users == s.users && t.tables == s.tables
    requires forall g {:trigger LiveGroup(t, g)} :: LiveGroup(s, g) ==> LiveGroup(t, g)
    ensures ListingsOk(t)
  {
    assert forall u {:trigger Listed(t, u)} :: Listed(t, u) == Listed(s, u);
  }

  /** A new admin goes to the tail of the live list; nothing else changes. */
  lemma CreateKeeps(s: Cache, p: Pools, name: string)
    requires Inv(s, p)
    ensures var (t, id) := CreateAdmin(s, name);
      Inv(t, AfterCreate(p, id)) && Listed(t, id) == [] && forall u :: u in s.users && u != id ==>
            t.users[u] == s.users[u]
  {
    hide Ok, Append, Alloc, UsersOk, GroupsOk, NamesOk;
    CreateLists(s, p, name);
    CreateTables(s, name);
    var (t, id) := CreateAdmin(s, name);
    ListingsFrame(s, t, id);
    GroupsFrame(s, t, p, AfterCreate(p, id));
    NamesFrame(s, t);
  }

  lemma CreateTables(s: Cache, name: string)
    requires TablesOk(s) && CreateAdmin(s, name).1 != NONE
    ensures TablesOk(CreateAdmin(s, name).0) && Listed(CreateAdmin(s, name).0, CreateAdmin(s, name).1) == []
  {
    hide Append, Alloc;
    var (t, id) := CreateAdmin(s, name);
    assert TableOk(t, t.users[id]);
  }

  function AfterAdd(p: Pools, id: int): Pools {
    p.(lg := p.lg + [id], dg := if p.dg == [] then [] else p.dg[1..])
  }

  lemma AddLists(s: Cache, p: Pools, name: string)
    requires GroupsOk(s, p) && s.next >= 0 && name !in s.names
    ensures GroupsOk(AddGroup(s, name).0, AfterAdd(p, AddGroup(s, name).1))
    ensures var id := AddGroup(s, name).1; id != NONE && !LiveGroup(s, id)
  {
    hide Ok, Append, Alloc;
    assert s.next !in s.gl.links;
    AppendKeeps(s.gl, p.lg, p.dg, s.next, true);
    OkDisjoint(s.gl, p.lg, p.dg);
    var (t, id) := AddGroup(s, name);
    var q := AfterAdd(p, id);
    forall g | g in t.groups ensures 0 <= g < t.next && (t.groups[g].live <==> g in q.lg) {
      if g != id { assert g in s.groups; }
    }
  }

  /** A group is added unless its name is taken; it goes to the tail of the live list. */
  lemma AddKeeps(s: Cache, p: Pools, name: string)
    requires Inv(s, p)
    ensures var (t, id) := AddGroup(s, name);
      if name in s.names then id == NONE && t == s else Inv(t, AfterAdd(p, id)) && t.names[name] == id
  {
    hide Ok, Append, Alloc, UsersOk, GroupsOk, NamesOk, ListingsOk;
    if name !in s.names {
      AddLists(s, p, name);
      AddNames(s, name);
      var (t, id) := AddGroup(s, name);
      assert forall g {:trigger LiveGroup(t, g)} :: LiveGroup(s, g) ==> LiveGroup(t, g);
      UsersFrame(s, t, p, AfterAdd(p, id));
      TablesFrame(s, t);
      SameListings(s, t);
    }
  }

  lemma AddNames(s: Cache, name: string)
    requires NamesOk(s) && name !in s.names && !LiveGroup(s, AddGroup(s, name).1)
    ensures NamesOk(AddGroup(s, name).0)
  {
    hide Append, Alloc;
  }
}
