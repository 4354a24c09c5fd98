/** The flags of admins and groups, flag by flag: what inheriting, invalidating and setting do to them. */
module AdminBits {
  import opened AdminLists
  import opened AdminOps
  import opened AdminInv
  import opened AdminDrops
  import opened AdminRetire
  import opened AdminRuns

  function Common(x: Bits, mask: Bits): Bits { x & mask }

  /** Some flag of the mask is among these. */
  predicate Has(x: Bits, mask: Bits) { Common(x, mask) != 0 }

  lemma CommonOr(a: Bits, b: Bits, mask: Bits)
    ensures Common(Or(a, b), mask) == Or(Common(a, mask), Common(b, mask))
  {
  }

  lemma NoneOr(a: Bits, b: Bits)
    ensures Or(a, b) == 0 <==> a == 0 && b == 0
  {
  }

  lemma OrHas(a: Bits, b: Bits, mask: Bits)
    ensures Has(Or(a, b), mask) <==> Has(a, mask) || Has(b, mask)
  {
    hide Or, Common;
    CommonOr(a, b, mask);
    NoneOr(Common(a, mask), Common(b, mask));
  }

  ghost predicate SomeHas(groups: map<int, Group>, l: seq<int>, mask: Bits) {
    exists x {:trigger groups[x]} :: x in l && x in groups && Has(groups[x].addflags, mask)
  }

  /** An admin's own flags joined with those of groups: a flag is there if and only if one of them has it. */
  lemma {:induction false} JoinHas(flags: Bits, groups: map<int, Group>, l: seq<int>, mask: Bits)
    ensures Has(Join(flags, groups, l), mask) <==> Has(flags, mask) || SomeHas(groups, l, mask)
  {
    hide Or, Has;
    if l != [] {
      var n := |l| - 1;
      var rest := Join(flags, groups, l[..n]);
      JoinHas(flags, groups, l[..n], mask);
      assert forall x :: x in l <==> x in l[..n] || x == l[n];
      if l[n] in groups { OrHas(rest, groups[l[n]].addflags, mask); }
    }
  }

  /** After inheriting a group an admin has exactly the flags it had and those the group adds. */
  lemma InheritHas(s: Cache, p: Pools, u: int, g: int, mask: Bits)
    requires Inv(s, p) && ValidUser(s, u) && ValidGroup(s, g) && g !in Listed(s, u)
    ensures var t := Inherit(s, u, g).0;
      && u in t.users && t.users[u].flags == s.users[u].flags
      && (Has(t.users[u].eflags, mask) <==> Has(s.users[u].eflags, mask) || Has(s.groups[g].addflags, mask))
  {
    hide Inv, Listed, Inherit, Or, OthersSame, Has;
    InheritAccepted(s, p, u, g);
    InheritOwn(s, u, g);
    OrHas(s.users[u].eflags, s.groups[g].addflags, mask);
  }

  lemma InheritOwn(s: Cache, u: int, g: int)
    requires ValidUser(s, u)
    ensures u in Inherit(s, u, g).0.users && Inherit(s, u, g).0.users[u].flags == s.users[u].flags
  {
    hide Or;
  }

  /** After a group has been invalidated an admin that listed it has exactly its own flags and those that
      the groups it still lists add. */
  lemma GroupGoneHas(s: Cache, p: Pools, k: nat, u: int, mask: Bits)
    requires Inv(s, p) && k < |p.lg| && u in p.lu && p.lg[k] in Listed(s, u)
    ensures var t := DropGroup(s, p.lg[k]);
      && u in t.users && t.users[u].flags == s.users[u].flags
      && (forall x :: x in Listed(t, u) <==> x in Listed(s, u) && x != p.lg[k])
      && (Has(t.users[u].eflags, mask) <==>
            || Has(s.users[u].flags, mask)
            || exists x {:trigger s.groups[x]} ::
                 x in Listed(t, u) && x in s.groups && Has(s.groups[x].addflags, mask))
  {
    hide Inv, DropGroup, Join, Listed, Has, Relists;
    GroupGoneOwn(s, p, k, u);
    var g := p.lg[k];
    var t := DropGroup(s, g);
    ListedDistinct(s, p, u);
    assert u in s.users;
    RestFacts(Listed(s, u), g);
    JoinHas(s.users[u].flags, t.groups, Listed(t, u), mask);
    AddFlagsStay(s, p, k);
    assert SomeHas(t.groups, Listed(t, u), mask) <==>
        exists x {:trigger s.groups[x]} :: x in Listed(t, u) && x in s.groups && Has(s.groups[x].addflags, mask);
  }

  lemma GroupGoneOwn(s: Cache, p: Pools, k: nat, u: int)
    requires Inv(s, p) && k < |p.lg| && u in p.lu && p.lg[k] in Listed(s, u)
    ensures var t := DropGroup(s, p.lg[k]);
      && u in t.users && t.users[u].flags == s.users[u].flags && Listed(t, u) == Rest(Listed(s, u), p.lg[k])
      && t.users[u].eflags == Join(s.users[u].flags, t.groups, Listed(t, u))
  {
    hide Inv, DropGroup, Join, Listed;
    GroupGone(s, p, k);
    assert Relists(s, DropGroup(s, p.lg[k]), u, p.lg[k]);
  }

  lemma ListedDistinct(s: Cache, p: Pools, u: int)
    requires Inv(s, p) && u in p.lu
    ensures u in s.users && Distinct(Listed(s, u))
  {
    hide GroupsOk, NamesOk, TablesOk;
  }

  lemma AddFlagsStay(s: Cache, p: Pools, k: nat)
    requires Inv(s, p) && k < |p.lg|
    ensures var t := DropGroup(s, p.lg[k]);
      t.groups.Keys == s.groups.Keys && forall x :: x in s.groups ==> t.groups[x].addflags == s.groups[x].addflags
  {
    hide Ok, Unlink, Free, NamesOk, ListingsOk, Live, Relisted, Rest, Listed, DropListings;
    DropGroupEach(s, p, k);
  }

  // ----- setting flags -----

  function FlagBit(flag: nat): Bits
    requires flag < 32
  {
    (1 as Bits) << flag
  }

  lemma BitThere(flag: nat)
    requires flag < 32
    ensures FlagBit(flag) != 0
  {
  }

  function Lacking(now: Bits, bit: Bits): Bits { now & !bit }

  lemma BitSet(now: Bits, bit: Bits, mask: Bits)
    ensures bit != 0 ==> Has(Or(now, bit), bit)
    ensures !Has(mask, bit) ==> Has(Or(now, bit), mask) == Has(now, mask)
  {
  }

  lemma BitCleared(now: Bits, bit: Bits, mask: Bits)
    ensures !Has(Lacking(now, bit), bit)
    ensures !Has(mask, bit) ==> Has(Lacking(now, bit), mask) == Has(now, mask)
  {
  }

  /** SetGroupAddFlag on a live group and a flag that exists: this flag is then there as asked for, any others
      are as before, and so is everything but the group's flags. */
  lemma AddFlagSet(s: Cache, g: int, flag: nat, enabled: bool, mask: Bits)
    requires ValidGroup(s, g) && flag < 21
    ensures var t := SetAddFlag(s, g, flag, enabled);
      && t == s.(groups := t.groups) && t.groups.Keys == s.groups.Keys
      && (forall x :: x in s.groups && x != g ==> t.groups[x] == s.groups[x])
      && t.groups[g] == s.groups[g].(addflags := t.groups[g].addflags)
      && (Has(t.groups[g].addflags, FlagBit(flag)) <==> enabled)
      && (!Has(mask, FlagBit(flag)) ==> (Has(t.groups[g].addflags, mask) <==> Has(s.groups[g].addflags, mask)))
  {
    hide Has, FlagBit, Or, Lacking, SetAddFlag;
    var now, bit := s.groups[g].addflags, FlagBit(flag);
    BitThere(flag);
    FlagWritten(s, g, flag, enabled);
    if enabled { BitSet(now, bit, mask); } else { BitCleared(now, bit, mask); }
  }

  lemma FlagWritten(s: Cache, g: int, flag: nat, enabled: bool)
    requires ValidGroup(s, g) && flag < 21
    ensures var t, now := SetAddFlag(s, g, flag, enabled), s.groups[g].addflags;
      && t == s.(groups := t.groups) && t.groups.Keys == s.groups.Keys
      && (forall x :: x in s.groups && x != g ==> t.groups[x] == s.groups[x])
      && t.groups[g] == s.groups[g].(addflags := t.groups[g].addflags)
      && t.groups[g].addflags == if enabled then Or(now, FlagBit(flag)) else Lacking(now, FlagBit(flag))
  {
  }

  /** For another group, or a flag that does not exist, it does nothing. */
  lemma AddFlagRefused(s: Cache, g: int, flag: nat, enabled: bool)
    ensures SetAddFlag(s, g, flag, enabled) == s || (ValidGroup(s, g) && flag < 21)
  {
  }

  /** SetAdminFlags writes the effective flags, and the own flags too unless only the effective ones are
      meant; it counts the change, and changes nothing else. */
  lemma FlagsSet(s: Cache, u: int, effective: bool, bits: Bits)
    ensures var t := SetFlags(s, u, effective, bits);
      if !ValidUser(s, u) then t == s
      else
        && t == s.(users := t.users) && t.users.Keys == s.users.Keys
        && (forall x :: x in s.users && x != u ==> t.users[x] == s.users[x])
        && t.users[u] == s.users[u].(flags := t.users[u].flags, eflags := bits, serial := t.users[u].serial)
        && t.users[u].flags == (if effective then s.users[u].flags else bits)
        && t.users[u].serial == (s.users[u].serial + 1) % 0x1_0000_0000
  {
  }

  // ----- new and retired records -----

  /** A new admin has its name, no flags and no groups; it is counted as changed once. A record used again keeps
      its table. */
  lemma CreatedRecord(s: Cache, name: string)
    ensures var (t, id) := CreateAdmin(s, name);
      && id in t.users && var r := t.users[id];
         && r.live && r.name == name && r.flags == 0 && r.eflags == 0 && r.count == 0 && r.serial == 1
         && (if id in s.users then r.table == s.users[id].table && r.size == s.users[id].size
             else r.table == NONE && r.size == 0)
    ensures var (t, id) := CreateAdmin(s, name);
      && (forall x :: x in s.users && x != id ==> x in t.users && t.users[x] == s.users[x])
      && t.groups == s.groups && t.names == s.names && t.tables == s.tables && t.gl == s.gl
  {
  }

  /** A new group has its name and no flags, and is found by its name. */
  lemma AddedRecord(s: Cache, name: string)
    requires name !in s.names
    ensures var (t, id) := AddGroup(s, name);
      && t.groups == s.groups[id := Group(true, name, 0)] && t.names == s.names[name := id]
      && t.users == s.users && t.tables == s.tables && t.ul == s.ul
  {
  }

  /** An admin that goes is marked, lists nothing and is counted as unchanged; its flags stay until it is used
      again. */
  lemma DroppedRecord(s: Cache, u: int)
    ensures var t := DropAdmin(s, u);
      if ValidUser(s, u) then
        t == s.(ul := t.ul, users := s.users[u := s.users[u].(live := false, count := 0, serial := 0)])
      else t == s
  {
  }

  /** A table grows only when it is full: to two entries, or to twice its size. */
  lemma GrowsWhenFull(s: Cache, u: int)
    requires TablesOk(s) && u in s.users
    ensures var t, r := Grow(s, u), s.users[u];
      if r.count < r.size then t == s
      else
        && t.users[u] == r.(table := s.next, size := if r.size == 0 then 2 else 2 * r.size) && s.next in t.tables
        && |t.tables[s.next]| == t.users[u].size && t.next == s.next + 1
        && t.tables[s.next][..r.count] == Listed(s, u)
  {
    assert TableOk(s, s.users[u]);
  }
}
