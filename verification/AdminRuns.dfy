/** InvalidateGroup as a whole, and every run of the admin cache. */
module AdminRuns {
  import opened AdminLists
  import opened AdminOps
  import opened AdminInv
  import opened AdminDrops
  import opened AdminRetire

  lemma RestFacts(l: seq<int>, g: int)
    requires Distinct(l)
    ensures Distinct(Rest(l, g)) && (forall x :: x in Rest(l, g) <==> x in l && x != g)
  {
    var k := IndexOf(l, g);
    if k < |l| {
      WithoutDistinct(l, k);
      forall x ensures x in Without(l, k) <==> x in l && x != g { WithoutIn(l, k, x); }
    } else {
      assert l[..k] == l;
    }
  }

  /** What InvalidateGroup does to one admin. */
  ghost predicate Relists(s: Cache, t: Cache, u: int, g: int) {
    && u in s.users && u in t.users
    && Listed(t, u) == Rest(Listed(s, u), g) && g !in Listed(t, u)
    && (if g in Listed(s, u) then
          t.users[u].eflags == Join(s.users[u].flags, t.groups, Listed(t, u)) && t.users[u].flags == s.users[u].flags
        else t.users[u] == s.users[u])
  }

  lemma DropGroupEach(s: Cache, p: Pools, k: nat)
    requires Inv(s, p) && k < |p.lg|
    ensures var g := p.lg[k]; var t := DropGroup(s, g);
      && ValidGroup(s, g) && SameBut(RetireGroup(s, g), t) && TablesOk(t) && t.users.Keys == s.users.Keys
      && (forall u :: u in p.lu ==>
            t.users[u] == Relisted(RetireGroup(s, g), u, g) && Listed(t, u) == Rest(Listed(s, u), g))
      && (forall u :: u in s.users && u !in p.lu ==> t.users[u] == s.users[u])
      && (forall u :: u !in p.lu ==> Listed(t, u) == Listed(s, u))
  {
    hide Ok, Unlink, Free, NamesOk, ListingsOk, Live, Relisted, Rest;
    var g := p.lg[k];
    RetireLists(s, p, k);
    LiveIs(s.ul, p.lu, p.du);
    OkLive(s.ul, p.lu, p.du);
    var m := RetireGroup(s, g);
    TablesFrame(s, m);
    forall u ensures Listed(m, u) == Listed(s, u) { }
    hide Listed;
    DropListingsEach(m, p.lu, g);
  }

  lemma DropGroupListings(s: Cache, p: Pools, k: nat)
    requires Inv(s, p) && k < |p.lg|
    ensures ListingsOk(DropGroup(s, p.lg[k]))
    ensures forall u :: u in p.lu ==> Relists(s, DropGroup(s, p.lg[k]), u, p.lg[k])
  {
    hide Ok, Unlink, Free, NamesOk, DropGroup, Rest, Join;
    var g := p.lg[k];
    DropGroupEach(s, p, k);
    var t, m := DropGroup(s, g), RetireGroup(s, g);
    OkLive(s.ul, p.lu, p.du);
    assert forall u :: u in p.lu ==> u in s.users;
    assert forall x {:trigger LiveGroup(t, x)} :: LiveGroup(t, x) <==> LiveGroup(s, x) && x != g;
    forall u | u in p.lu
      ensures Relists(s, t, u, g) && Distinct(Listed(t, u)) && forall x :: x in Listed(t, u) ==> LiveGroup(t, x)
    {
      RestFacts(Listed(s, u), g);
      RelistedRetired(s, u, g);
    }
    forall u | u in t.users && u !in p.lu ensures Listed(t, u) == [] {
      assert TableOk(s, s.users[u]);
    }
  }

  lemma RelistedRetired(s: Cache, u: int, g: int)
    requires ValidGroup(s, g) && u in s.users && TableOk(s, s.users[u])
    ensures var m := RetireGroup(s, g); var r := Relisted(m, u, g);
      if g in Listed(s, u) then
        r.eflags == Join(s.users[u].flags, m.groups, Rest(Listed(s, u), g)) && r.flags == s.users[u].flags
      else r == s.users[u]
  {
    hide Unlink, Free, Join, Rest;
    assert Listed(RetireGroup(s, g), u) == Listed(s, u);
  }

  lemma DropGroupUsers(s: Cache, p: Pools, k: nat)
    requires Inv(s, p) && k < |p.lg|
    ensures UsersOk(DropGroup(s, p.lg[k]), AfterRetire(p, k))
  {
    hide Ok, Unlink, Free, NamesOk, DropGroup, Rest, Join, Listed, ListingsOk, TablesOk;
    var t := DropGroup(s, p.lg[k]);
    DropGroupEach(s, p, k);
    forall u | u in t.users ensures 0 <= u < t.next && (t.users[u].live <==> u in p.lu) {
      assert u in s.users;
    }
  }

  /** InvalidateGroup: the group leaves the live list and the index; every admin that listed it lists
      the others in their order and has its flags and theirs; every other admin is as it was. */
  lemma GroupGone(s: Cache, p: Pools, k: nat)
    requires Inv(s, p) && k < |p.lg|
    ensures var g := p.lg[k]; var t := DropGroup(s, g);
      && Inv(t, AfterRetire(p, k)) && g !in AfterRetire(p, k).lg
      && s.groups[g].name !in t.names
      && (forall n :: n in s.names && s.names[n] != g ==> n in t.names && t.names[n] == s.names[n])
      && (forall u :: u in p.lu ==> Relists(s, t, u, g))
      && (forall u :: u in s.users && u !in p.lu ==> u in t.users && t.users[u] == s.users[u])
  {
    hide Ok, Unlink, Free, DropGroup, Relists, Listed, UsersOk, TablesOk, ListingsOk, NamesOk;
    var g := p.lg[k];
    DropGroupEach(s, p, k);
    var t, m := DropGroup(s, g), RetireGroup(s, g);
    DropGroupListings(s, p, k);
    DropGroupUsers(s, p, k);
    RetireLists(s, p, k);
    RetireNames(s, g);
    GroupsFrame(m, t, AfterRetire(p, k), AfterRetire(p, k));
    NamesFrame(m, t);
    GroupsDistinct(s, p);
    WithoutDistinct(p.lg, k);
  }

  lemma GroupsDistinct(s: Cache, p: Pools)
    requires GroupsOk(s, p)
    ensures Distinct(p.lg)
  {
  }

  // ----- runs -----

  ghost predicate Sound(s: Cache) {
    exists p: Pools :: Inv(s, p)
  }

  lemma DropAdminSound(s: Cache, p: Pools, u: int)
    requires Inv(s, p)
    ensures Sound(DropAdmin(s, u))
  {
    hide Ok, GroupsOk, NamesOk, TablesOk, ListingsOk;
    if ValidUser(s, u) {
      var k := Position(p.lu, u);
      DropAdminKeeps(s, p, k);
    }
  }

  lemma DropGroupSound(s: Cache, p: Pools, g: int)
    requires Inv(s, p)
    ensures Sound(DropGroup(s, g))
  {
    hide Ok, UsersOk, NamesOk, TablesOk, ListingsOk;
    if ValidGroup(s, g) {
      var k := Position(p.lg, g);
      GroupGone(s, p, k);
    }
  }

  lemma DropAllSound(s: Cache, p: Pools)
    requires Inv(s, p)
    ensures Sound(DropAllAdmins(s)) && Live(DropAllAdmins(s).ul) == []
  {
    UsersLive(s, p);
    DropAdminsKeep(s, p);
    var t := DropAdmins(s, p.lu);
    var q :| Inv(t, q) && q.lu == [] && q.lg == p.lg && q.dg == p.dg;
    UsersLive(t, q);
  }

  lemma UsersLive(s: Cache, p: Pools)
    requires Inv(s, p)
    ensures Live(s.ul) == p.lu && Live(s.gl) == p.lg
  {
    LiveIs(s.ul, p.lu, p.du);
    LiveIs(s.gl, p.lg, p.dg);
  }

  lemma ApplySound(s: Cache, op: Op)
    requires Sound(s)
    ensures Sound(Apply(s, op))
  {
    hide Inv;
    var p: Pools :| Inv(s, p);
    match op
    case NewAdmin(name) => CreateKeeps(s, p, name);
    case NewGroup(name) => AddKeeps(s, p, name);
    case GroupFlag(g, flag, enabled) => SetAddFlagKeeps(s, p, g, flag, enabled);
    case AdminFlags(u, effective, bits) => SetFlagsKeeps(s, p, u, effective, bits);
    case JoinGroup(u, g) => InheritKeeps(s, p, u, g);
    case EndAdmin(u) => DropAdminSound(s, p, u);
    case EndGroup(g) => DropGroupSound(s, p, g);
    case EndAdmins => DropAllSound(s, p);
    case EndAll => StartInv();
  }

  /** In every run the live lists are exactly the live records and the free lists the others, the links
      run both ways, the index is a bijection with the live groups, and admins list live groups once. */
  lemma {:induction false} RunSound(ops: seq<Op>)
    ensures Sound(Run(ops))
  {
    if ops == [] {
      StartInv();
    } else {
      RunSound(ops[..|ops| - 1]);
      ApplySound(Run(ops[..|ops| - 1]), ops[|ops| - 1]);
    }
  }

  /** FindGroupByName finds exactly the live group of that name. */
  lemma NamesAreGroups(ops: seq<Op>, name: string, g: int)
    ensures var s := Run(ops); name in s.names && s.names[name] == g <==> ValidGroup(s, g) && s.groups[g].name == name
  {
    RunSound(ops);
    var s := Run(ops);
    var p: Pools :| Inv(s, p);
  }
}
