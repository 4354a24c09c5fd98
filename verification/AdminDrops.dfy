/** Inheriting groups, and taking admins and groups out of the cache. */
module AdminDrops {
  import opened AdminLists
  import opened AdminOps
  import opened AdminInv

  // ----- flags -----

  /** Only the admin u may have changed. */
  ghost predicate OthersSame(s: Cache, t: Cache, u: int) {
    && t.users.Keys == s.users.Keys
    && (forall x {:trigger t.users[x]} :: x in s.users && x != u ==> t.users[x] == s.users[x])
    && (forall x {:trigger Listed(t, x)} :: x != u ==> Listed(t, x) == Listed(s, x))
  }

  lemma OthersTrans(s: Cache, t: Cache, v: Cache, u: int)
    requires OthersSame(s, t, u) && OthersSame(t, v, u)
    ensures OthersSame(s, v, u)
  {
    forall x {:trigger Listed(v, x)} | x != u ensures Listed(v, x) == Listed(s, x) {
      assert Listed(v, x) == Listed(t, x);
    }
    forall x {:trigger v.users[x]} | x in s.users && x != u ensures v.users[x] == s.users[x] {
      assert v.users[x] == t.users[x];
    }
  }

  lemma SetAddFlagKeeps(s: Cache, p: Pools, g: int, flag: nat, enabled: bool)
    requires Inv(s, p)
    ensures Inv(SetAddFlag(s, g, flag, enabled), p)
  {
    hide Ok, UsersOk, TablesOk, ListingsOk;
    var t := SetAddFlag(s, g, flag, enabled);
    assert forall x {:trigger LiveGroup(t, x)} :: LiveGroup(s, x) <==> LiveGroup(t, x);
    UsersFrame(s, t, p, p);
    TablesFrame(s, t);
    SameListings(s, t);
  }

  /** A record is changed, but not its place in the lists or its table. */
  lemma RecordFrame(s: Cache, p: Pools, u: int, r: User)
    requires Inv(s, p) && u in s.users
    requires r.live == s.users[u].live && r.table == s.users[u].table && r.size == s.users[u].size
    requires r.count == s.users[u].count
    ensures Inv(s.(users := s.users[u := r]), p)
    ensures OthersSame(s, s.(users := s.users[u := r]), u) && Listed(s.(users := s.users[u := r]), u) == Listed(s, u)
  {
    hide Ok;
    var t := s.(users := s.users[u := r]);
    assert forall v {:trigger Listed(t, v)} :: Listed(t, v) == Listed(s, v);
    assert forall x {:trigger LiveGroup(t, x)} :: LiveGroup(s, x) <==> LiveGroup(t, x);
  }

  lemma SetFlagsKeeps(s: Cache, p: Pools, u: int, effective: bool, bits: Bits)
    requires Inv(s, p)
    ensures Inv(SetFlags(s, u, effective, bits), p)
  {
    if ValidUser(s, u) {
      var r := s.users[u];
      RecordFrame(s, p, u, r.(flags := if effective then r.flags else bits, eflags := bits, serial := Bump(r.serial)));
    }
  }

  // ----- inheriting -----

  lemma GrowTables(s: Cache, u: int)
    requires TablesOk(s) && u in s.users
    ensures var t := Grow(s, u);
      && TablesOk(t) && t.users[u].count == s.users[u].count < t.users[u].size && t.next >= s.next
      && OthersSame(s, t, u) && Listed(t, u) == Listed(s, u)
      && t.users[u].live == s.users[u].live && t.users[u].eflags == s.users[u].eflags && t.groups == s.groups
  {
    var t, r := Grow(s, u), s.users[u];
    assert TableOk(s, r);
    if r.count + 1 > r.size {
      assert s.next !in s.tables;
      assert TableOk(t, t.users[u]);
      forall v ensures Listed(t, v) == Listed(s, v) {
        if v == u {
          assert t.tables[s.next][..r.count] == Listed(s, u);
        } else if v in s.users {
          assert TableOk(s, s.users[v]);
        }
      }
    }
  }

  lemma StoreTables(t: Cache, u: int, g: int)
    requires TablesOk(t) && u in t.users && t.users[u].live && t.users[u].count < t.users[u].size
    ensures HasRoom(t, u) && TablesOk(Store(t, u, g)) && Listed(Store(t, u, g), u) == Listed(t, u) + [g]
    ensures OthersSame(t, Store(t, u, g), u) && Store(t, u, g).users[u] == t.users[u].(count := t.users[u].count + 1)
  {
    assert TableOk(t, t.users[u]);
    var v := Store(t, u, g);
    assert forall x {:trigger v.users[x]} :: x in v.users && x != u ==>
          TableOk(t, t.users[x]) && TableOk(v, v.users[x]);
    assert TableOk(v, v.users[u]);
  }

  lemma GrowKeeps(s: Cache, p: Pools, u: int)
    requires Inv(s, p) && u in s.users
    ensures Inv(Grow(s, u), p)
  {
    hide Ok, NamesOk, TablesOk;
    var t := Grow(s, u);
    GrowTables(s, u);
    NamesFrame(s, t);
    assert forall x {:trigger LiveGroup(t, x)} :: LiveGroup(s, x) <==> LiveGroup(t, x);
  }

  lemma StoreKeeps(t: Cache, p: Pools, u: int, g: int)
    requires Inv(t, p) && u in t.users && t.users[u].live && t.users[u].count < t.users[u].size
    requires LiveGroup(t, g) && g !in Listed(t, u)
    ensures HasRoom(t, u) && Inv(Store(t, u, g), p)
  {
    hide Ok, NamesOk, TablesOk, HasRoom;
    StoreTables(t, u, g);
    var v := Store(t, u, g);
    NamesFrame(t, v);
    assert forall x {:trigger LiveGroup(v, x)} :: LiveGroup(t, x) <==> LiveGroup(v, x);
    assert Distinct(Listed(t, u) + [g]);
  }

  lemma InheritAccepted(s: Cache, p: Pools, u: int, g: int)
    requires Inv(s, p) && ValidUser(s, u) && ValidGroup(s, g) && g !in Listed(s, u)
    ensures Inherit(s, u, g).1 && Inv(Inherit(s, u, g).0, p) && OthersSame(s, Inherit(s, u, g).0, u)
    ensures Listed(Inherit(s, u, g).0, u) == Listed(s, u) + [g]
    ensures Inherit(s, u, g).0.users[u].eflags == Or(s.users[u].eflags, s.groups[g].addflags)
  {
    hide Inv, Listed, HasRoom, Grow, Store, OthersSame, Or;
    var t := Grow(s, u);
    InvTables(s, p);
    GrowKeeps(s, p, u);
    GrowTables(s, u);
    StoreTables(t, u, g);
    StoreKeeps(t, p, u, g);
    var v := Store(t, u, g);
    var r := v.users[u];
    RecordFrame(v, p, u, r.(eflags := Or(r.eflags, s.groups[g].addflags), serial := Bump(r.serial)));
    OthersTrans(s, t, v, u);
    OthersTrans(s, v, v.(users := v.users[u := r.(eflags := Or(r.eflags, s.groups[g].addflags),
          serial := Bump(r.serial))]), u);
    assert Inherit(s, u, g).0 ==
          v.(users := v.users[u := r.(eflags := Or(r.eflags, s.groups[g].addflags), serial := Bump(r.serial))]);
  }

  /** An admin that inherits a group lists it last, and is given its flags; no other listing changes. It
      is refused exactly when one of the two is not live or the group is listed already. */
  lemma InheritKeeps(s: Cache, p: Pools, u: int, g: int)
    requires Inv(s, p)
    ensures var (t, done) := Inherit(s, u, g);
      && Inv(t, p)
      && (done <==> ValidUser(s, u) && ValidGroup(s, g) && g !in Listed(s, u))
      && (!done ==> t == s)
      && (done ==> Listed(t, u) == Listed(s, u) + [g])
      && (done ==> t.users[u].eflags == Or(s.users[u].eflags, s.groups[g].addflags))
      && (forall x :: x in s.users && x != u ==> t.users[x] == s.users[x] && Listed(t, x) == Listed(s, x))
  {
    hide Inv, Listed, HasRoom, Grow, Store;
    if ValidUser(s, u) && ValidGroup(s, g) && g !in Listed(s, u) {
      InheritAccepted(s, p, u, g);
    }
  }

  lemma InvTables(s: Cache, p: Pools)
    requires Inv(s, p)
    ensures TablesOk(s)
  {
  }
}
