/** The dependency graph of loaded extensions (sourcemod/core/ExtensionSys.cpp) and the cascade of an
    unload, as functions on values. */
module ExtensionGraph {
  /** An interface and the extension at the other end of the dependency. */
  datatype Info = Info(iface: int, owner: int)

  /** A loaded extension: what it depends on, and who depends on it and refuses to let go. */
  datatype Ext = Ext(id: int, deps: seq<Info>, children: seq<Info>)

  /** Whether an extension refuses to have an interface dropped: the answer of QueryInterfaceDrop is no. */
  type Refusal = (int, int) -> bool

  function Without(l: seq<Info>, t: int): seq<Info> {
    if l == [] then [] else (if l[0].owner == t then [] else [l[0]]) + Without(l[1..], t)
  }

  function Strip(e: Ext, t: int): Ext { Ext(e.id, Without(e.deps, t), Without(e.children, t)) }

  /** The list without extension t, and without anything that names it. */
  function TakeOut(libs: seq<Ext>, t: int): seq<Ext> {
    if libs == [] then [] else (if libs[0].id == t then [] else [Strip(libs[0], t)]) + TakeOut(libs[1..], t)
  }

  predicate Refuses(e: Ext, t: int, refuse: Refusal) {
    exists i :: 0 <= i < |e.deps| && e.deps[i].owner == t && refuse(e.id, e.deps[i].iface)
  }

  /** Those that have to go with t, in the order of the list. */
  function Queue(libs: seq<Ext>, t: int, refuse: Refusal): seq<int> {
    if libs == [] then []
    else (if libs[0].id != t && Refuses(libs[0], t, refuse) then [libs[0].id] else []) + Queue(libs[1..], t, refuse)
  }

  predicate Loaded(libs: seq<Ext>, t: int) {
    exists i :: 0 <= i < |libs| && libs[i].id == t
  }

  predicate Distinct(libs: seq<Ext>) {
    forall i, j :: 0 <= i < j < |libs| ==> libs[i].id != libs[j].id
  }

  lemma {:induction false} TakeOutSmaller(libs: seq<Ext>, t: int)
    ensures |TakeOut(libs, t)| <= |libs|
    ensures Loaded(libs, t) ==> |TakeOut(libs, t)| < |libs|
  {
    if libs != [] {
      TakeOutSmaller(libs[1..], t);
      if Loaded(libs, t) && libs[0].id != t {
        var i :| 0 <= i < |libs| && libs[i].id == t;
        assert libs[1..][i - 1].id == t;
      }
    }
  }

  /** What an unload leaves: the list, and the extensions whose OnExtensionUnload ran, in order. */
  datatype Left = Left(libs: seq<Ext>, gone: seq<int>)

  function Unload(libs: seq<Ext>, t: int, refuse: Refusal): (r: Left)
    ensures |r.libs| <= |libs|
    decreases |libs|, 0
  {
    TakeOutSmaller(libs, t);
    if !Loaded(libs, t) then Left(libs, [])
    else
      var r := UnloadAll(TakeOut(libs, t), Queue(libs, t, refuse), refuse);
      Left(r.libs, [t] + r.gone)
  }

  function UnloadAll(libs: seq<Ext>, q: seq<int>, refuse: Refusal): (r: Left)
    ensures |r.libs| <= |libs|
    decreases |libs|, 1, |q|
  {
    if q == [] then Left(libs, [])
    else
      var first := Unload(libs, q[0], refuse);
      var rest := UnloadAll(first.libs, q[1..], refuse);
      Left(rest.libs, first.gone + rest.gone)
  }

  // ----- the least set -----

  /** x depends on y and refuses to let go of it. */
  predicate Edge(libs: seq<Ext>, x: int, y: int, refuse: Refusal) {
    exists i :: 0 <= i < |libs| && libs[i].id == x && Refuses(libs[i], y, refuse)
  }

  /** Whoever refuses to let go of a member is a member. */
  ghost predicate Closed(libs: seq<Ext>, c: iset<int>, refuse: Refusal) {
    forall x, y {:trigger Edge(libs, x, y, refuse)} :: Edge(libs, x, y, refuse) && y in c ==> x in c
  }

  /** The set of the ids in gone: it holds the loaded members of q, is closed, and is the least such. */
  ghost predicate Least(libs: seq<Ext>, q: seq<int>, gone: seq<int>, refuse: Refusal) {
    && (forall t :: t in q && Loaded(libs, t) ==> t in gone)
    && (forall x, y {:trigger Edge(libs, x, y, refuse)} :: Edge(libs, x, y, refuse) && y in gone ==> x in gone)
    && (forall c: iset<int> {:trigger Closed(libs, c, refuse)} ::
          Closed(libs, c, refuse) && (forall t :: t in q && Loaded(libs, t) ==> t in c) ==>
            forall x :: x in gone ==> x in c)
  }

  /** The entries of a list whose owners are not in gone. */
  function Keep(l: seq<Info>, gone: seq<int>): seq<Info> {
    if l == [] then [] else (if l[0].owner in gone then [] else [l[0]]) + Keep(l[1..], gone)
  }

  /** The extensions that are not in gone, without the entries that name one that is. */
  function Survivors(libs: seq<Ext>, gone: seq<int>): seq<Ext> {
    if libs == [] then []
    else
      (if libs[0].id in gone then [] else [Ext(libs[0].id, Keep(libs[0].deps, gone), Keep(libs[0].children, gone))])
      + Survivors(libs[1..], gone)
  }
}
