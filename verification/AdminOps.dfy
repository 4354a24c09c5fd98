/** The admin cache of sourcemod/core/AdminCache.cpp as functions on its state: admins and groups in an
    arena, each with a live list and a free list, the name index of the groups, and the tables in which
    admins list their groups. */
module AdminOps {
  import opened AdminLists

  type Bits = bv32

  function Or(a: Bits, b: Bits): Bits { a | b }

  datatype Group = Group(live: bool, name: string, addflags: Bits)

  /** An admin: count of the size entries of its table are in use; table is NONE while size is 0. */
  datatype User = User(live: bool, name: string, flags: Bits, eflags: Bits, count: nat, size: nat, table: int,
        serial: nat)

  datatype Cache = Cache(ul: Lists, users: map<int, User>, gl: Lists, groups: map<int, Group>,
                         tables: map<int, seq<int>>, next: nat, names: map<string, int>)

  const START := Cache(EMPTY, map[], EMPTY, map[], map[], 0, map[])

  function Bump(n: nat): nat { (n + 1) % 0x1_0000_0000 }

  /** The list that starts at x. */
  function Walk(m: map<int, Link>, x: int, n: nat): seq<int>
    decreases n
  {
    if n == 0 || x == NONE || x !in m then [] else [x] + Walk(m, m[x].next, n - 1)
  }

  function Live(c: Lists): seq<int> { Walk(c.links, c.first, |c.links|) }

  predicate ValidUser(s: Cache, u: int) { u in s.users && s.users[u].live && u in s.ul.links }

  predicate ValidGroup(s: Cache, g: int) { g in s.groups && s.groups[g].live && g in s.gl.links }

  /** The groups an admin lists. */
  function Listed(s: Cache, u: int): seq<int> {
    if u in s.users && s.users[u].table in s.tables && s.users[u].count <= |s.tables[s.users[u].table]| then
      s.tables[s.users[u].table][..s.users[u].count]
    else []
  }

  /** The flags together with the added flags of these groups. */
  function Join(flags: Bits, groups: map<int, Group>, l: seq<int>): Bits {
    if l == [] then flags
    else
      var rest := Join(flags, groups, l[..|l| - 1]);
      if l[|l| - 1] in groups then Or(rest, groups[l[|l| - 1]].addflags) else rest
  }

  // ----- creating -----

  function CreateAdmin(s: Cache, name: string): (Cache, int) {
    var id := AllocId(s.ul, s.next);
    var was := if id in s.users then s.users[id] else User(false, "", 0, 0, 0, 0, NONE, 0);
    (s.(ul := Append(Alloc(s.ul, s.next), id, false), next := if s.ul.free != NONE then s.next else s.next + 1,
        users := s.users[id := was.(live := true, name := name, flags := 0, eflags := 0, count := 0, serial := 1)]),
     id)
  }

  function AddGroup(s: Cache, name: string): (Cache, int) {
    if name in s.names then (s, NONE)
    else
      var id := AllocId(s.gl, s.next);
      (s.(gl := Append(Alloc(s.gl, s.next), id, true), next := if s.gl.free != NONE then s.next else s.next + 1,
          groups := s.groups[id := Group(true, name, 0)], names := s.names[name := id]),
       id)
  }

  function SetAddFlag(s: Cache, g: int, flag: nat, enabled: bool): Cache {
    if !ValidGroup(s, g) || flag >= 21 then s
    else
      var bit := (1 as bv32) << flag;
      var now := s.groups[g].addflags;
      s.(groups := s.groups[g := s.groups[g].(addflags := if enabled then Or(now, bit) else now & !bit)])
  }

  function SetFlags(s: Cache, u: int, effective: bool, bits: Bits): Cache {
    if !ValidUser(s, u) then s
    else
      var r := s.users[u];
      s.(users := s.users[u := r.(flags := if effective then r.flags else bits, eflags := bits,
            serial := Bump(r.serial))])
  }

  // ----- an admin inherits a group -----

  function Grown(size: nat): nat { if size == 0 then 2 else size * 2 }

  function Filled(l: seq<int>, n: nat): seq<int> { if |l| >= n then l else l + seq(n - |l|, _ => 0) }

  /** Room for one more entry: the table is moved to one twice as large. */
  function Grow(s: Cache, u: int): Cache
    requires u in s.users
  {
    var r := s.users[u];
    if r.count + 1 <= r.size then s
    else
      s.(tables := s.tables[s.next := Filled(Listed(s, u), Grown(r.size))], next := s.next + 1,
         users := s.users[u := r.(table := s.next, size := Grown(r.size))])
  }

  predicate HasRoom(s: Cache, u: int) {
    u in s.users && s.users[u].table in s.tables && s.users[u].count < |s.tables[s.users[u].table]|
  }

  /** The group goes behind the entries in use. */
  function Store(s: Cache, u: int, g: int): Cache
    requires HasRoom(s, u)
  {
    var r := s.users[u];
    s.(tables := s.tables[r.table := s.tables[r.table][r.count := g]], users := s.users[u := r.(count := r.count + 1)])
  }

  function Inherit(s: Cache, u: int, g: int): (Cache, bool) {
    if !ValidUser(s, u) || !ValidGroup(s, g) || g in Listed(s, u) || !HasRoom(Grow(s, u), u) then (s, false)
    else
      var t := Store(Grow(s, u), u, g);
      var r := t.users[u];
      (t.(users := t.users[u := r.(eflags := Or(r.eflags, s.groups[g].addflags), serial := Bump(r.serial))]), true)
  }

  // ----- invalidating -----

  function DropAdmin(s: Cache, u: int): Cache {
    if !ValidUser(s, u) then s
    else
      s.(ul := Free(Unlink(s.ul, u), u), users := s.users[u := s.users[u].(live := false, count := 0, serial := 0)])
  }

  function IndexOf(l: seq<int>, g: int): (k: nat)
    ensures k <= |l| && g !in l[..k] && (k < |l| ==> l[k] == g)
  {
    if l == [] || l[0] == g then 0 else 1 + IndexOf(l[1..], g)
  }

  /** Everything behind entry k of the n in use moves down by one. */
  function ShiftDown(l: seq<int>, k: nat, n: nat): seq<int>
    requires k < n <= |l|
  {
    l[..k] + l[k + 1..n] + l[n - 1..]
  }

  /** The turn of InvalidateGroup's loop at one admin. */
  function DropListing(s: Cache, u: int, g: int): Cache {
    var l := Listed(s, u);
    var k := IndexOf(l, g);
    if k == |l| then s
    else
      var r := s.users[u];
      s.(tables := s.tables[r.table := ShiftDown(s.tables[r.table], k, r.count)],
         users := s.users[u := r.(count := r.count - 1, eflags := Join(r.flags, s.groups, Without(l, k)),
               serial := Bump(r.serial))])
  }

  function DropListings(s: Cache, l: seq<int>, g: int): Cache
    decreases |l|
  {
    if l == [] then s else DropListings(DropListing(s, l[0], g), l[1..], g)
  }

  /** The first part of InvalidateGroup: out of the index and the live list, onto the free list. */
  function RetireGroup(s: Cache, g: int): Cache
    requires ValidGroup(s, g)
  {
    s.(gl := Free(Unlink(s.gl, g), g), groups := s.groups[g := s.groups[g].(live := false)],
       names := s.names - {s.groups[g].name})
  }

  function DropGroup(s: Cache, g: int): Cache {
    if !ValidGroup(s, g) then s else DropListings(RetireGroup(s, g), Live(s.ul), g)
  }

  function DropAdmins(s: Cache, l: seq<int>): Cache
    decreases |l|
  {
    if l == [] then s else DropAdmins(DropAdmin(s, l[0]), l[1..])
  }

  /** InvalidateAdminCache(true). */
  function DropAllAdmins(s: Cache): Cache { DropAdmins(s, Live(s.ul)) }

  // ----- runs -----

  datatype Op =
    | NewAdmin(name: string)
    | NewGroup(name: string)
    | GroupFlag(g: int, flag: nat, enabled: bool)
    | AdminFlags(u: int, effective: bool, bits: Bits)
    | JoinGroup(u: int, g: int)
    | EndAdmin(u: int)
    | EndGroup(g: int)
    | EndAdmins
    | EndAll // InvalidateGroupCache resets the arena.

  function Apply(s: Cache, op: Op): Cache {
    match op
    case NewAdmin(name) => CreateAdmin(s, name).0
    case NewGroup(name) => AddGroup(s, name).0
    case GroupFlag(g, flag, enabled) => SetAddFlag(s, g, flag, enabled)
    case AdminFlags(u, effective, bits) => SetFlags(s, u, effective, bits)
    case JoinGroup(u, g) => Inherit(s, u, g).0
    case EndAdmin(u) => DropAdmin(s, u)
    case EndGroup(g) => DropGroup(s, g)
    case EndAdmins => DropAllAdmins(s)
    case EndAll => START
  }

  function Run(ops: seq<Op>): Cache {
    if ops == [] then START else Apply(Run(ops[..|ops| - 1]), ops[|ops| - 1])
  }
}
