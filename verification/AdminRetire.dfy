/** Taking admins and groups out of the cache: a group that goes is on no admin's list afterwards. */
module AdminRetire {
  import opened AdminLists
  import opened AdminOps
  import opened AdminInv
  import opened AdminDrops

  // ----- an admin goes -----

  function AfterDrop(p: Pools, k: nat): Pools
    requires k < |p.lu|
  {
    p.(lu := Without(p.lu, k), du := [p.lu[k]] + p.du)
  }

  lemma DropUsers(s: Cache, p: Pools, k: nat)
    requires UsersOk(s, p) && k < |p.lu|
    ensures ValidUser(s, p.lu[k]) && UsersOk(DropAdmin(s, p.lu[k]), AfterDrop(p, k))
  {
    hide Ok, Unlink, Free, Without;
    var u := p.lu[k];
    OkLive(s.ul, p.lu, p.du);
    UnlinkKeeps(s.ul, p.lu, p.du, k);
    UnlinkHeads(s.ul, p.lu, p.du, k);
    var t, q := DropAdmin(s, u), AfterDrop(p, k);
    forall x | x in t.users ensures 0 <= x < t.next && (t.users[x].live <==> x in q.lu) {
      assert x in s.users;
      WithoutIn(p.lu, k, x);
    }
  }

  lemma OkLive(c: Lists, live: seq<int>, dead: seq<int>)
    requires Ok(c, live, dead)
    ensures Distinct(live) && forall i {:trigger live[i]} :: 0 <= i < |live| ==> live[i] in c.links && live[i] != NONE
  {
  }

  /** An admin that goes leaves the live list where it stood, heads the free list and lists nothing. */
  lemma DropAdminKeeps(s: Cache, p: Pools, k: nat)
    requires Inv(s, p) && k < |p.lu|
    ensures var t := DropAdmin(s, p.lu[k]);
      && Inv(t, AfterDrop(p, k)) && OthersSame(s, t, p.lu[k]) && Listed(t, p.lu[k]) == []
      && t.gl == s.gl && t.groups == s.groups && t.names == s.names && t.tables == s.tables
  {
    hide Ok, Unlink, Free, NamesOk, UsersOk, GroupsOk;
    DropUsers(s, p, k);
    var u := p.lu[k];
    var t := DropAdmin(s, u);
    assert TableOk(t, t.users[u]) by { assert TableOk(s, s.users[u]); }
    GroupsFrame(s, t, p, AfterDrop(p, k));
    NamesFrame(s, t);
    assert Listed(t, u) == [];
    forall x ensures x != u ==> Listed(t, x) == Listed(s, x) { }
    assert forall x {:trigger LiveGroup(t, x)} :: LiveGroup(s, x) <==> LiveGroup(t, x);
  }

  lemma {:induction false} DropAdminsKeep(s: Cache, p: Pools)
    requires Inv(s, p)
    ensures var t := DropAdmins(s, p.lu);
      && (exists q :: Inv(t, q) && q.lu == [] && q.lg == p.lg && q.dg == p.dg)
      && t.gl == s.gl && t.groups == s.groups && t.names == s.names
    decreases |p.lu|
  {
    hide Inv, DropAdmin;
    if p.lu != [] {
      DropAdminKeeps(s, p, 0);
      assert Without(p.lu, 0) == p.lu[1..];
      DropAdminsKeep(DropAdmin(s, p.lu[0]), AfterDrop(p, 0));
    } else {
      assert Inv(s, p);
    }
  }

  // ----- a group goes -----

  function AfterRetire(p: Pools, k: nat): Pools
    requires k < |p.lg|
  {
    p.(lg := Without(p.lg, k), dg := [p.lg[k]] + p.dg)
  }

  lemma RetireLists(s: Cache, p: Pools, k: nat)
    requires GroupsOk(s, p) && k < |p.lg|
    ensures ValidGroup(s, p.lg[k]) && GroupsOk(RetireGroup(s, p.lg[k]), AfterRetire(p, k))
  {
    hide Ok, Unlink, Free, Without;
    var g := p.lg[k];
    OkLive(s.gl, p.lg, p.dg);
    UnlinkKeeps(s.gl, p.lg, p.dg, k);
    UnlinkHeads(s.gl, p.lg, p.dg, k);
    var t, q := RetireGroup(s, g), AfterRetire(p, k);
    forall x | x in t.groups ensures 0 <= x < t.next && (t.groups[x].live <==> x in q.lg) {
      assert x in s.groups;
      WithoutIn(p.lg, k, x);
    }
  }

  lemma RetireNames(s: Cache, g: int)
    requires NamesOk(s) && ValidGroup(s, g)
    ensures NamesOk(RetireGroup(s, g)) && s.groups[g].name !in RetireGroup(s, g).names
    ensures forall n :: n in s.names && s.names[n] != g ==>
          n in RetireGroup(s, g).names && RetireGroup(s, g).names[n] == s.names[n]
  {
    hide Unlink, Free;
    var t := RetireGroup(s, g);
    forall x | LiveGroup(t, x) ensures t.groups[x].name in t.names && t.names[t.groups[x].name] == x {
      assert LiveGroup(s, x) && LiveGroup(s, g);
    }
  }

  /** A list without its entry for g. */
  function Rest(l: seq<int>, g: int): seq<int> {
    var k := IndexOf(l, g);
    if k == |l| then l else Without(l, k)
  }

  /** The admin after the turn of the loop. */
  function Relisted(s: Cache, u: int, g: int): User
    requires u in s.users
  {
    var r, l := s.users[u], Listed(s, u);
    if g !in l || r.count == 0 then r
    else r.(count := r.count - 1, eflags := Join(r.flags, s.groups, Rest(l, g)), serial := Bump(r.serial))
  }

  ghost predicate SameBut(s: Cache, t: Cache) {
    t.ul == s.ul && t.gl == s.gl && t.groups == s.groups && t.names == s.names && t.next == s.next
  }

  lemma ShiftedDown(l: seq<int>, k: nat, n: nat)
    requires k < n <= |l|
    ensures |ShiftDown(l, k, n)| == |l| && ShiftDown(l, k, n)[..n - 1] == Without(l[..n], k)
  {
    assert l[..n][..k] == l[..k] && l[..n][k + 1..] == l[k + 1..n];
  }

  lemma DropListingTurn(s: Cache, u: int, g: int)
    requires TablesOk(s) && u in s.users && s.users[u].live
    ensures var t := DropListing(s, u, g);
      && t.users[u] == Relisted(s, u, g) && Listed(t, u) == Rest(Listed(s, u), g)
      && SameBut(s, t) && TablesOk(t) && OthersSame(s, t, u)
  {
    hide Join;
    assert TableOk(s, s.users[u]);
    var t, r, l := DropListing(s, u, g), s.users[u], Listed(s, u);
    var k := IndexOf(l, g);
    if k < |l| {
      ShiftedDown(s.tables[r.table], k, r.count);
      assert g in l && TableOk(t, t.users[u]);
      forall x {:trigger t.users[x]} | x in t.users && x != u
        ensures TableOk(t, t.users[x]) && Listed(t, x) == Listed(s, x)
      {
        assert TableOk(s, s.users[x]);
      }
    }
  }

  /** The whole loop: every admin on the list has lost its entry for g, the others are as they were. */
  lemma {:induction false} DropListingsEach(s: Cache, l: seq<int>, g: int)
    requires TablesOk(s) && Distinct(l)
    requires forall i {:trigger l[i]} :: 0 <= i < |l| ==> l[i] in s.users && s.users[l[i]].live
    ensures var t := DropListings(s, l, g);
      && TablesOk(t) && SameBut(s, t) && t.users.Keys == s.users.Keys
      && (forall u :: u in l ==> t.users[u] == Relisted(s, u, g) && Listed(t, u) == Rest(Listed(s, u), g))
      && (forall u :: u in s.users && u !in l ==> t.users[u] == s.users[u])
      && (forall u :: u !in l ==> Listed(t, u) == Listed(s, u))
    decreases |l|
  {
    hide Relisted, DropListing, Listed, TablesOk, Rest;
    if l != [] {
      var m := DropListing(s, l[0], g);
      DropListingTurn(s, l[0], g);
      assert forall i {:trigger l[1..][i]} :: 0 <= i < |l| - 1 ==> l[1..][i] == l[i + 1] && l[i + 1] != l[0];
      forall i {:trigger l[1..][i]} | 0 <= i < |l| - 1 ensures l[1..][i] in m.users && m.users[l[1..][i]].live {
        assert m.users[l[i + 1]] == s.users[l[i + 1]];
      }
      DropListingsEach(m, l[1..], g);
      assert l[0] !in l[1..];
      forall u | u in l[1..] ensures Relisted(m, u, g) == Relisted(s, u, g) && Listed(m, u) == Listed(s, u) {
        RelistedSame(s, m, l[0], u, g);
      }
    }
  }

  lemma RelistedSame(s: Cache, m: Cache, x: int, u: int, g: int)
    requires OthersSame(s, m, x) && SameBut(s, m) && u != x && u in s.users
    ensures Relisted(m, u, g) == Relisted(s, u, g) && Listed(m, u) == Listed(s, u)
  {
    hide Listed;
    assert m.users[u] == s.users[u] && Listed(m, u) == Listed(s, u);
  }
}
