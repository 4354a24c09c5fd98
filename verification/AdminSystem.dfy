/** The AdminCache class: its methods relink the lists and edit the tables in place, and are proved
    against the functions of AdminOps. */
module AdminSystem {
  import opened AdminLists
  import opened AdminOps
  import opened AdminInv
  import opened AdminDrops
  import opened AdminRetire
  import opened AdminRuns

  class AdminCache {
    var firstUser: int
    var lastUser: int
    var freeUsers: int
    var userLinks: map<int, Link>
    var users: map<int, User>
    var firstGroup: int
    var lastGroup: int
    var freeGroups: int
    var groupLinks: map<int, Link>
    var groups: map<int, Group>
    var tables: map<int, seq<int>>
    var nextIndex: nat
    var names: map<string, int>

    // The live and the free entries, in list order.
    ghost var pools: Pools

    ghost function View(): Cache
      reads this
    {
      Cache(Lists(firstUser, lastUser, freeUsers, userLinks), users,
            Lists(firstGroup, lastGroup, freeGroups, groupLinks), groups, tables, nextIndex, names)
    }

    ghost predicate Valid()
      reads this
    {
      Inv(View(), pools)
    }

    constructor ()
      ensures Valid() && View() == START
    {
      firstUser, lastUser, freeUsers, userLinks, users := NONE, NONE, NONE, map[], map[];
      firstGroup, lastGroup, freeGroups, groupLinks, groups := NONE, NONE, NONE, map[], map[];
      tables, nextIndex, names := map[], 0, map[];
      pools := Pools([], [], [], []);
      new;
      StartInv();
    }

    function UserList(): Lists
      reads this
    {
      Lists(firstUser, lastUser, freeUsers, userLinks)
    }

    function GroupList(): Lists
      reads this
    {
      Lists(firstGroup, lastGroup, freeGroups, groupLinks)
    }

    /** A record for a new admin. */
    method AllocUser() returns (id: int)
      requires freeUsers != NONE ==> freeUsers in userLinks
      modifies this`freeUsers, this`userLinks, this`nextIndex
      ensures id == AllocId(old(UserList()), old(nextIndex)) && UserList() == Alloc(old(UserList()), old(nextIndex))
      ensures nextIndex == if old(freeUsers) != NONE then old(nextIndex) else old(nextIndex) + 1
    {
      if freeUsers != NONE {
        id := freeUsers;
        freeUsers := userLinks[id].next;
      } else {
        id := nextIndex;
        nextIndex := nextIndex + 1;
        userLinks := userLinks[id := Link(NONE, NONE)];
      }
    }

    /** To the tail of the live list. The prev link of an only entry keeps what it held. */
    method AppendUser(id: int)
      requires id in userLinks && (firstUser != NONE ==> lastUser in userLinks) && id != lastUser
      modifies this`firstUser, this`lastUser, this`userLinks
      ensures UserList() == Append(old(UserList()), id, false)
    {
      if firstUser == NONE {
        firstUser := id;
        lastUser := id;
      } else {
        userLinks := userLinks[lastUser := userLinks[lastUser].(next := id)];
        userLinks := userLinks[id := userLinks[id].(prev := lastUser)];
        lastUser := id;
      }
      userLinks := userLinks[id := userLinks[id].(next := NONE)];
    }

    method CreateRecord(name: string) returns (id: int)
      requires HeadsOk(UserList(), nextIndex)
      modifies this`firstUser, this`lastUser, this`freeUsers, this`userLinks, this`users, this`nextIndex
      ensures (View(), id) == AdminOps.CreateAdmin(old(View()), name)
    {
      hide Alloc, Append, AllocId, AdminOps.CreateAdmin;
      CreateParts(View(), name);
      AllocParts(UserList(), nextIndex);
      id := AllocUser();
      var r := if id in users then users[id] else User(false, "", 0, 0, 0, 0, NONE, 0);
      users := users[id := r.(live := true, name := name, flags := 0, eflags := 0, count := 0, serial := 1)];
      AppendUser(id);
    }

    /** A new admin, at the tail of the live list. */
    method CreateAdmin(name: string) returns (id: int)
      requires Valid()
      modifies this
      ensures (View(), id) == AdminOps.CreateAdmin(old(View()), name)
      ensures Valid() && pools == AfterCreate(old(pools), id)
    {
      hide Inv, AdminOps.CreateAdmin, AfterCreate, HeadsOk;
      Heads(View(), pools);
      CreateKeeps(View(), pools, name);
      id := CreateRecord(name);
      pools := AfterCreate(pools, id);
    }

    method AllocGroup() returns (id: int)
      requires freeGroups != NONE ==> freeGroups in groupLinks
      modifies this`freeGroups, this`groupLinks, this`nextIndex
      ensures id == AllocId(old(GroupList()), old(nextIndex)) && GroupList() == Alloc(old(GroupList()), old(nextIndex))
      ensures nextIndex == if old(freeGroups) != NONE then old(nextIndex) else old(nextIndex) + 1
    {
      if freeGroups != NONE {
        id := freeGroups;
        freeGroups := groupLinks[id].next;
      } else {
        id := nextIndex;
        nextIndex := nextIndex + 1;
        groupLinks := groupLinks[id := Link(NONE, NONE)];
      }
    }

    method AppendGroup(id: int)
      requires id in groupLinks && (firstGroup != NONE ==> lastGroup in groupLinks) && id != lastGroup
      modifies this`firstGroup, this`lastGroup, this`groupLinks
      ensures GroupList() == Append(old(GroupList()), id, true)
    {
      groupLinks := groupLinks[id := groupLinks[id].(next := NONE)];
      if firstGroup == NONE {
        firstGroup := id;
        lastGroup := id;
        groupLinks := groupLinks[id := groupLinks[id].(prev := NONE)];
      } else {
        groupLinks := groupLinks[lastGroup := groupLinks[lastGroup].(next := id)];
        groupLinks := groupLinks[id := groupLinks[id].(prev := lastGroup)];
        lastGroup := id;
      }
    }

    method AddRecord(name: string) returns (id: int)
      requires HeadsOk(GroupList(), nextIndex)
      modifies this`firstGroup, this`lastGroup, this`freeGroups, this`groupLinks, this`groups, this`nextIndex,
            this`names
      ensures (View(), id) == AdminOps.AddGroup(old(View()), name)
    {
      hide Alloc, Append, AllocId;
      if name in names { return NONE; }
      AllocParts(GroupList(), nextIndex);
      id := AllocGroup();
      AppendGroup(id);
      groups := groups[id := Group(true, name, 0)];
      names := names[name := id];
    }

    /** A new group, at the tail of the live list, unless the name is taken. */
    method AddGroup(name: string) returns (id: int)
      requires Valid()
      modifies this
      ensures (View(), id) == AdminOps.AddGroup(old(View()), name)
      ensures Valid() && pools == if name in old(names) then old(pools) else AfterAdd(old(pools), id)
    {
      hide Inv, AdminOps.AddGroup, AfterAdd, HeadsOk;
      Heads(View(), pools);
      AddKeeps(View(), pools, name);
      var taken := name in names;
      id := AddRecord(name);
      if !taken { pools := AfterAdd(pools, id); }
    }

    /** The live group of that name. */
    method FindGroupByName(name: string) returns (id: int)
      requires Valid()
      ensures id != NONE ==> ValidGroup(View(), id) && groups[id].name == name
      ensures id == NONE ==> forall g :: ValidGroup(View(), g) ==> groups[g].name != name
    {
      if name !in names { return NONE; }
      id := names[name];
      if id !in groups || !groups[id].live { return NONE; }
    }

    method SetGroupAddFlag(g: int, flag: nat, enabled: bool)
      requires Valid()
      modifies this`groups
      ensures View() == SetAddFlag(old(View()), g, flag, enabled) && Valid()
    {
      hide Inv, Or;
      SetAddFlagKeeps(View(), pools, g, flag, enabled);
      if g !in groups || !groups[g].live || g !in groupLinks { return; }
      if flag >= 21 { return; }
      var bit := (1 as bv32) << flag;
      var now := groups[g].addflags;
      groups := groups[g := groups[g].(addflags := if enabled then Or(now, bit) else now & !bit)];
    }

    method SetAdminFlags(u: int, effective: bool, bits: Bits)
      requires Valid()
      modifies this`users
      ensures View() == SetFlags(old(View()), u, effective, bits) && Valid()
    {
      hide Inv;
      SetFlagsKeeps(View(), pools, u, effective, bits);
      if u !in users || !users[u].live || u !in userLinks { return; }
      var r := users[u];
      if !effective { r := r.(flags := bits); }
      r := r.(eflags := bits);
      users := users[u := r.(serial := Bump(r.serial))];
    }

    /** Whether the admin's table has g among its entries in use. */
    method FindListing(u: int, g: int) returns (i: nat)
      requires u in users && TableOk(View(), users[u])
      ensures i == IndexOf(Listed(View(), u), g)
      ensures |Listed(View(), u)| == users[u].count && (i < users[u].count <==> g in Listed(View(), u))
    {
      ghost var l := Listed(View(), u);
      i := 0;
      while i < users[u].count && tables[users[u].table][i] != g
        invariant i <= |l| && g !in l[..i]
      {
        i := i + 1;
      }
      IndexIs(l, g, i);
      assert i == |l| ==> l[..i] == l;
    }

    /** Room for one more entry. */
    method GrowTable(u: int)
      requires u in users && TableOk(View(), users[u])
      modifies this`users, this`tables, this`nextIndex
      ensures View() == Grow(old(View()), u)
    {
      var r := users[u];
      if r.count + 1 > r.size {
        var size := if r.size == 0 then 2 else r.size * 2;
        var copied: seq<int> := if r.table != NONE then tables[r.table][..r.count] else [];
        tables := tables[nextIndex := Filled(copied, size)];
        users := users[u := r.(table := nextIndex, size := size)];
        nextIndex := nextIndex + 1;
      }
    }

    method StoreEntry(u: int, g: int)
      requires HasRoom(View(), u)
      modifies this`users, this`tables
      ensures View() == Store(old(View()), u, g)
    {
      var r := users[u];
      tables := tables[r.table := tables[r.table][r.count := g]];
      users := users[u := r.(count := r.count + 1)];
    }

    method AdminInheritGroup(u: int, g: int) returns (done: bool)
      requires Valid()
      modifies this`users, this`tables, this`nextIndex
      ensures (View(), done) == Inherit(old(View()), u, g) && Valid()
    {
      hide Inv, Grow, Or, IndexOf, Store, HasRoom, Listed, OthersSame;
      ghost var s := View();
      InheritKeeps(s, pools, u, g);
      InvParts(s, pools);
      if u !in users || !users[u].live || u !in userLinks { return false; }
      if g !in groups || !groups[g].live || g !in groupLinks { return false; }
      var i := FindListing(u, g);
      if i < users[u].count { return false; }
      GrowTables(s, u);
      GrowTable(u);
      StoreTables(View(), u, g);
      StoreEntry(u, g);
      var r := users[u];
      users := users[u := r.(eflags := Or(r.eflags, groups[g].addflags), serial := Bump(r.serial))];
      done := true;
    }

    // ----- invalidating -----

    method UnlinkUser(id: int)
      requires LinkedOk(UserList(), id)
      modifies this`firstUser, this`lastUser, this`userLinks
      ensures UserList() == Unlink(old(UserList()), id)
    {
      var r := userLinks[id];
      if id == firstUser && id == lastUser {
        firstUser := NONE;
        lastUser := NONE;
      } else if id == firstUser {
        firstUser := r.next;
        userLinks := userLinks[r.next := userLinks[r.next].(prev := NONE)];
      } else if id == lastUser {
        lastUser := r.prev;
        userLinks := userLinks[r.prev := userLinks[r.prev].(next := NONE)];
      } else {
        userLinks := userLinks[r.prev := userLinks[r.prev].(next := r.next)];
        userLinks := userLinks[r.next := userLinks[r.next].(prev := r.prev)];
      }
    }

    method RetireUser(u: int)
      requires LinkedOk(UserList(), u) && u in users && users[u].live && u in Unlink(UserList(), u).links
      modifies this`firstUser, this`lastUser, this`freeUsers, this`userLinks, this`users
      ensures View() == DropAdmin(old(View()), u)
    {
      hide Unlink;
      UnlinkUser(u);
      users := users[u := users[u].(live := false, count := 0, serial := 0)];
      userLinks := userLinks[u := userLinks[u].(next := freeUsers)];
      freeUsers := u;
    }

    method InvalidateAdmin(u: int) returns (done: bool)
      requires Valid()
      modifies this`firstUser, this`lastUser, this`freeUsers, this`userLinks, this`users, this`pools
      ensures View() == DropAdmin(old(View()), u) && done == ValidUser(old(View()), u) && Valid()
      ensures !done ==> pools == old(pools)
      ensures done ==>
            exists k: nat :: k < |old(pools).lu| && old(pools).lu[k] == u && pools == AfterDrop(old(pools), k)
    {
      hide Inv, DropAdmin, AfterDrop, LinkedOk;
      done := u in users && users[u].live && u in userLinks;
      UserGoes(View(), pools, u);
      if done {
        ghost var k := LivePosition(View(), pools, u);
        UserLinked(View(), pools, k);
        DropAdminKeeps(View(), pools, k);
        RetireUser(u);
        pools := AfterDrop(pools, k);
      }
    }

    /** InvalidateAdminCache: with unlinking, the admins are invalidated one by one from the head. */
    method InvalidateAdminCache()
      requires Valid()
      modifies this`firstUser, this`lastUser, this`freeUsers, this`userLinks, this`users, this`pools
      ensures View() == DropAllAdmins(old(View())) && Valid() && firstUser == NONE && pools.lu == []
    {
      hide Inv, DropAdmin, Live;
      ghost var s := View();
      UsersLive(s, pools);
      while firstUser != NONE
        invariant Valid() && DropAdmins(View(), pools.lu) == DropAllAdmins(s)
        decreases |pools.lu|
      {
        UserFirst(View(), pools);
        ghost var l := pools.lu;
        LiveDistinct(View(), pools);
        var _ := InvalidateAdmin(firstUser);
        assert Without(l, 0) == l[1..];
      }
      UserFirst(View(), pools);
    }

    // ----- a group goes -----

    method UnlinkGroup(id: int)
      requires LinkedOk(GroupList(), id)
      modifies this`firstGroup, this`lastGroup, this`groupLinks
      ensures GroupList() == Unlink(old(GroupList()), id)
    {
      var r := groupLinks[id];
      if id == firstGroup && id == lastGroup {
        lastGroup := NONE;
        firstGroup := NONE;
      } else if id == firstGroup {
        firstGroup := r.next;
        groupLinks := groupLinks[r.next := groupLinks[r.next].(prev := NONE)];
      } else if id == lastGroup {
        lastGroup := r.prev;
        groupLinks := groupLinks[r.prev := groupLinks[r.prev].(next := NONE)];
      } else {
        groupLinks := groupLinks[r.prev := groupLinks[r.prev].(next := r.next)];
        groupLinks := groupLinks[r.next := groupLinks[r.next].(prev := r.prev)];
      }
    }

    method RetireRecord(g: int)
      requires LinkedOk(GroupList(), g) && g in groups && groups[g].live && g in Unlink(GroupList(), g).links
      modifies this`firstGroup, this`lastGroup, this`freeGroups, this`groupLinks, this`groups, this`names
      ensures View() == RetireGroup(old(View()), g)
    {
      hide Unlink, LinkedOk;
      names := names - {groups[g].name};
      UnlinkGroup(g);
      groups := groups[g := groups[g].(live := false)];
      groupLinks := groupLinks[g := groupLinks[g].(next := freeGroups)];
      freeGroups := g;
    }

    /** Everything behind entry k moves down by one. */
    method ShiftEntries(u: int, k: nat)
      requires u in users && TableOk(View(), users[u]) && k < users[u].count
      modifies this`tables
      ensures tables == old(tables)[users[u].table := ShiftDown(old(tables)[users[u].table], k, users[u].count)]
    {
      var t, n := users[u].table, users[u].count;
      ghost var l := tables[t];
      var j := k + 1;
      assert l[..k] + l[k + 1..j] + l[j - 1..] == l;
      while j < n
        invariant k + 1 <= j <= n && t in tables && tables[t] == l[..k] + l[k + 1..j] + l[j - 1..]
        invariant tables == old(tables)[t := tables[t]]
      {
        ghost var was := tables[t];
        tables := tables[t := tables[t][j - 1 := tables[t][j]]];
        ShiftedOne(l, k, j, was);
        j := j + 1;
      }
    }

    /** The effective flags are those of the admin and of the groups it lists. */
    method RecalcFlags(u: int)
      requires u in users && TableOk(View(), users[u]) && forall g :: g in Listed(View(), u) ==> g in groups
      modifies this`users
      ensures var r := old(users)[u];
        users == old(users)[u := r.(eflags := Join(r.flags, groups, Listed(old(View()), u)))]
    {
      hide Or;
      ghost var l := Listed(View(), u);
      var r := users[u];
      users := users[u := r.(eflags := r.flags)];
      var j := 0;
      while j < users[u].count
        invariant j <= |l| && u in users && users == old(users)[u := r.(eflags := Join(r.flags, groups, l[..j]))]
      {
        var g := tables[users[u].table][j];
        assert l[..j + 1][..j] == l[..j] && g == l[j] && g in l;
        users := users[u := users[u].(eflags := Or(users[u].eflags, groups[g].addflags))];
        j := j + 1;
      }
      assert l[..j] == l;
    }

    /** The turn of the loop at one admin. */
    method DropEntry(u: int, g: int)
      requires u in users && TableOk(View(), users[u]) && forall x :: x in Listed(View(), u) ==> x in groups
      modifies this`users, this`tables
      ensures View() == DropListing(old(View()), u, g)
    {
      if users[u].count > 0 {
        var i := FindListing(u, g);
        if i < users[u].count { RemoveEntry(u, i); }
      }
    }

    method RemoveEntry(u: int, k: nat)
      requires u in users && TableOk(View(), users[u]) && k < users[u].count
      requires forall x :: x in Listed(View(), u) ==> x in groups
      modifies this`users, this`tables
      ensures var s := old(View()); var r := s.users[u]; var l := Listed(s, u);
        k < |l| && View() == s.(tables := s.tables[r.table := ShiftDown(s.tables[r.table], k, r.count)],
                     users := s.users[u := r.(count := r.count - 1, eflags := Join(r.flags, s.groups, Without(l, k)),
                           serial := Bump(r.serial))])
    {
      hide Join;
      ghost var s := View();
      ghost var r, l := users[u], Listed(s, u);
      ShiftedDown(tables[r.table], k, r.count);
      ShiftEntries(u, k);
      users := users[u := users[u].(count := users[u].count - 1)];
      assert Listed(View(), u) == Without(l, k);
      RecalcFlags(u);
      users := users[u := users[u].(serial := Bump(users[u].serial))];
    }

    /** InvalidateGroup. */
    method InvalidateGroup(g: int)
      requires Valid()
      modifies this
      ensures View() == DropGroup(old(View()), g) && Valid()
      ensures !ValidGroup(old(View()), g) ==> pools == old(pools)
      ensures ValidGroup(old(View()), g) ==> exists k: nat ::
        k < |old(pools).lg| && old(pools).lg[k] == g && pools == AfterRetire(old(pools), k)
    {
      hide Inv, RetireGroup, DropListings, AfterRetire, LinkedOk;
      if g !in groups || !groups[g].live || g !in groupLinks { return; }
      ghost var s, p := View(), pools;
      ghost var k := GroupPosition(s, p, g);
      GroupLinked(s, p, k);
      GroupGone(s, p, k);
      RetireRecord(g);
      RetiredReady(s, p, g);
      DropEntries(g, p.lu);
      pools := AfterRetire(p, k);
    }

    /** The loop over the admins. */
    method DropEntries(g: int, ghost live: seq<int>)
      requires Looping(View(), live) && firstUser == Head(live)
      modifies this`users, this`tables
      ensures View() == DropListings(old(View()), live, g)
    {
      hide DropListing, Listed;
      ghost var s := View();
      ghost var k := 0;
      var idx := firstUser;
      while idx != NONE
        invariant 0 <= k <= |live| && idx == (if k < |live| then live[k] else NONE)
        invariant Looping(View(), live) && DropListings(View(), live[k..], g) == DropListings(s, live, g)
        decreases |live| - k
      {
        LoopingTurn(View(), live, k, g);
        DropEntry(idx, g);
        idx := userLinks[idx].next;
        k := k + 1;
      }
    }

    method ForgetUsers()
      modifies this`firstUser, this`lastUser, this`freeUsers, this`userLinks, this`users
      ensures UserList() == EMPTY && users == map[]
    {
      firstUser, lastUser, freeUsers, userLinks, users := NONE, NONE, NONE, map[], map[];
    }

    method ForgetGroups()
      modifies this`firstGroup, this`lastGroup, this`freeGroups, this`groupLinks, this`groups
      ensures GroupList() == EMPTY && groups == map[]
    {
      firstGroup, lastGroup, freeGroups, groupLinks, groups := NONE, NONE, NONE, map[], map[];
    }

    /** InvalidateGroupCache: the index is cleared, and the arena reset with everything in it. */
    method InvalidateGroupCache()
      modifies this
      ensures View() == START && Valid()
    {
      hide Inv;
      names := map[];
      ForgetGroups();
      ForgetUsers();
      tables := map[];
      nextIndex := 0;
      pools := Pools([], [], [], []);
      StartInv();
    }
  }

  /** What the loop over the admins needs: the list, tables of their own, and listed groups that have
      records. */
  ghost predicate Looping(s: Cache, live: seq<int>) {
    && TablesOk(s) && Forward(s.ul.links, live)
    && (forall i {:trigger live[i]} :: 0 <= i < |live| ==> live[i] in s.users && s.users[live[i]].live)
    && (forall u {:trigger Listed(s, u)} :: u in s.users ==> forall x :: x in Listed(s, u) ==> x in s.groups)
  }

  lemma RestWithin(l: seq<int>, g: int)
    ensures forall x :: x in Rest(l, g) ==> x in l
  {
  }

  lemma LoopingTurn(s: Cache, live: seq<int>, k: nat, g: int)
    requires Looping(s, live) && k < |live|
    ensures live[k] in s.users && TableOk(s, s.users[live[k]]) && forall x :: x in Listed(s, live[k]) ==> x in s.groups
    ensures live[k] in s.ul.links && s.ul.links[live[k]].next == (if k + 1 < |live| then live[k + 1] else NONE)
    ensures live[k] != NONE && DropListing(s, live[k], g).ul == s.ul && Looping(DropListing(s, live[k], g), live)
    ensures DropListings(s, live[k..], g) == DropListings(DropListing(s, live[k], g), live[k + 1..], g)
  {
    hide DropListing, Join, TablesOk;
    assert live[k] in s.users;
    TablesHold(s, live[k]);
    DropListingTurn(s, live[k], g);
    RestWithin(Listed(s, live[k]), g);
    hide Listed;
    if k + 1 < |live| { assert s.ul.links[live[k]].next == live[k + 1]; }
    assert live[k..][0] == live[k] && live[k..][1..] == live[k + 1..];
  }

  lemma TablesHold(s: Cache, u: int)
    requires TablesOk(s) && u in s.users
    ensures TableOk(s, s.users[u])
  {
  }

  lemma RetiredReady(s: Cache, p: Pools, g: int)
    requires Inv(s, p) && ValidGroup(s, g)
    ensures Looping(RetireGroup(s, g), p.lu) && s.ul.first == Head(p.lu) && Live(s.ul) == p.lu
    ensures RetireGroup(s, g).ul == s.ul
  {
    hide Unlink, Free, Live, NamesOk, Forward, Backward, AdminLists.Distinct;
    LiveIs(s.ul, p.lu, p.du);
    LivesReady(s, p);
    var m := RetireGroup(s, g);
    TablesFrame(s, m);
    assert forall u {:trigger Listed(m, u)} :: Listed(m, u) == Listed(s, u);
  }

  lemma LivesReady(s: Cache, p: Pools)
    requires Inv(s, p)
    ensures Forward(s.ul.links, p.lu)
    ensures forall i {:trigger p.lu[i]} :: 0 <= i < |p.lu| ==> p.lu[i] in s.users && s.users[p.lu[i]].live
  {
    OkLive(s.ul, p.lu, p.du);
  }

  lemma ShiftedOne(l: seq<int>, k: nat, j: nat, was: seq<int>)
    requires k + 1 <= j < |l| && was == l[..k] + l[k + 1..j] + l[j - 1..]
    ensures was[j - 1 := was[j]] == l[..k] + l[k + 1..j + 1] + l[j..]
  {
  }

  lemma LiveDistinct(s: Cache, p: Pools)
    requires Inv(s, p)
    ensures Distinct(p.lu)
  {
  }

  lemma UserFirst(s: Cache, p: Pools)
    requires Inv(s, p)
    ensures s.ul.first == Head(p.lu)
    ensures p.lu != [] ==> p.lu[0] != NONE && ValidUser(s, p.lu[0])
  {
  }

  lemma UserGoes(s: Cache, p: Pools, u: int)
    ensures !ValidUser(s, u) ==> DropAdmin(s, u) == s
  {
  }

  lemma {:induction false} IndexIs(l: seq<int>, g: int, i: nat)
    requires i <= |l| && g !in l[..i] && (i < |l| ==> l[i] == g)
    ensures IndexOf(l, g) == i
  {
    if i > 0 {
      assert l[0] == l[..i][0] && l[1..][..i - 1] == l[..i][1..];
      IndexIs(l[1..], g, i - 1);
    }
  }

  lemma InvParts(s: Cache, p: Pools)
    requires Inv(s, p)
    ensures TablesOk(s) && (forall u {:trigger s.users[u]} :: u in s.users ==> TableOk(s, s.users[u]))
  {
  }

  /** The neighbours of a live entry are records. */
  predicate LinkedOk(c: Lists, id: int) {
    && id in c.links
    && (id != c.last ==> c.links[id].next in c.links)
    && (id != c.first ==> c.links[id].prev in c.links)
  }

  lemma UserLinked(s: Cache, p: Pools, k: nat)
    requires Inv(s, p) && k < |p.lu|
    ensures LinkedOk(s.ul, p.lu[k]) && p.lu[k] in Unlink(s.ul, p.lu[k]).links
  {
    if k + 1 < |p.lu| { assert s.ul.links[p.lu[k]].next == p.lu[k + 1]; }
    if k > 0 { assert s.ul.links[p.lu[k]].prev == p.lu[k - 1]; }
  }

  lemma GroupLinked(s: Cache, p: Pools, k: nat)
    requires Inv(s, p) && k < |p.lg|
    ensures LinkedOk(s.gl, p.lg[k]) && p.lg[k] in Unlink(s.gl, p.lg[k]).links
  {
    if k + 1 < |p.lg| { assert s.gl.links[p.lg[k]].next == p.lg[k + 1]; }
    if k > 0 { assert s.gl.links[p.lg[k]].prev == p.lg[k - 1]; }
  }

  lemma LivePosition(s: Cache, p: Pools, u: int) returns (k: nat)
    requires Inv(s, p) && ValidUser(s, u)
    ensures k < |p.lu| && p.lu[k] == u
  {
    k := Position(p.lu, u);
  }

  lemma GroupPosition(s: Cache, p: Pools, g: int) returns (k: nat)
    requires Inv(s, p) && ValidGroup(s, g)
    ensures k < |p.lg| && p.lg[k] == g
  {
    k := Position(p.lg, g);
  }

  lemma CreateParts(s: Cache, name: string)
    ensures var (t, id) := AdminOps.CreateAdmin(s, name);
      && id == AllocId(s.ul, s.next) && t.ul == Append(Alloc(s.ul, s.next), id, false)
      && t.next == (if s.ul.free != NONE then s.next else s.next + 1)
      && t == s.(ul := t.ul, next := t.next, users := t.users)
      && t.users == s.users[id := (if id in s.users then s.users[id] else User(false, "", 0, 0, 0, 0, NONE, 0)).
           (live := true, name := name, flags := 0, eflags := 0, count := 0, serial := 1)]
  {
  }

  /** The ends of the lists are records. */
  predicate HeadsOk(c: Lists, next: nat) {
    && (c.free != NONE ==> c.free in c.links)
    && (c.first != NONE ==> c.last in c.links)
    && AllocId(c, next) != c.last
  }

  lemma Heads(s: Cache, p: Pools)
    requires Inv(s, p)
    ensures HeadsOk(s.ul, s.next) && HeadsOk(s.gl, s.next)
  {
  }

  lemma AllocParts(c: Lists, next: nat)
    requires HeadsOk(c, next)
    ensures var d := Alloc(c, next);
      && AllocId(c, next) in d.links && d.first == c.first && d.last == c.last
      && (c.last in c.links ==> c.last in d.links)
  {
  }
}
