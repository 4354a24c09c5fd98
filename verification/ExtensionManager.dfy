/** The extension manager of sourcemod/core/ExtensionSys.cpp: dependencies are bound and extensions
    unloaded in place, and the invariant that both keep. */
module ExtensionManager {
  import opened ExtensionGraph
  import opened ExtensionUnload

  // ----- the invariant of every run -----

  predicate Unique(l: seq<Info>) {
    forall i, j :: 0 <= i < j < |l| ==> l[i] != l[j]
  }

  /** Entries name loaded extensions, once each. */
  ghost predicate Grounded(libs: seq<Ext>) {
    forall e {:trigger e in libs} :: e in libs ==>
      Unique(e.deps) && Unique(e.children) && (forall d :: d in e.deps || d in e.children ==> Loaded(libs, d.owner))
  }

  ghost predicate Mirrors(e: Ext, f: Ext, refuse: Refusal) {
    && (forall d: Info {:trigger d in e.deps} :: d in e.deps && d.owner == f.id && refuse(e.id, d.iface) ==>
          Info(d.iface, e.id) in f.children)
    && (forall d: Info {:trigger d in f.children} :: d in f.children && d.owner == e.id ==>
          Info(d.iface, f.id) in e.deps)
  }

  /** A refused dependency has its entry with the owner, and such an entry its dependency. */
  ghost predicate Mirrored(libs: seq<Ext>, refuse: Refusal) {
    forall e, f {:trigger e in libs, f in libs} :: e in libs && f in libs ==> Mirrors(e, f, refuse)
  }

  ghost predicate Sane(libs: seq<Ext>, refuse: Refusal) {
    Distinct(libs) && Grounded(libs) && Mirrored(libs, refuse)
  }

  // ----- binding -----

  function Append(l: seq<Info>, d: Info): seq<Info> { if d in l then l else l + [d] }

  /** What binding the dependency d of extension x does to extension e; kept says whether the owner
      is told. */
  function BindAt(e: Ext, x: int, d: Info, kept: bool): Ext {
    var e1 := if e.id == x then e.(deps := Append(e.deps, d)) else e;
    if e.id == d.owner && kept then e1.(children := Append(e1.children, Info(d.iface, x))) else e1
  }

  function Bind(libs: seq<Ext>, x: int, d: Info, kept: bool): seq<Ext> {
    if libs == [] then [] else [BindAt(libs[0], x, d, kept)] + Bind(libs[1..], x, d, kept)
  }

  lemma {:induction false} BindIn(libs: seq<Ext>, x: int, d: Info, kept: bool)
    ensures |Bind(libs, x, d, kept)| == |libs|
    ensures forall i {:trigger Bind(libs, x, d, kept)[i]} {:trigger libs[i]} ::
      0 <= i < |libs| ==> Bind(libs, x, d, kept)[i] == BindAt(libs[i], x, d, kept)
  {
    if libs != [] { BindIn(libs[1..], x, d, kept); }
  }

  lemma BindLoaded(libs: seq<Ext>, x: int, d: Info, kept: bool, y: int)
    ensures Loaded(Bind(libs, x, d, kept), y) <==> Loaded(libs, y)
  {
    BindIn(libs, x, d, kept);
    var after := Bind(libs, x, d, kept);
    if Loaded(libs, y) {
      var i :| 0 <= i < |libs| && libs[i].id == y;
      assert after[i].id == y;
    }
  }

  lemma BindMirrors(e: Ext, f: Ext, x: int, d: Info, kept: bool, refuse: Refusal)
    requires Mirrors(e, f, refuse) && (refuse(x, d.iface) ==> kept)
    ensures Mirrors(BindAt(e, x, d, kept), BindAt(f, x, d, kept), refuse)
  {
  }

  lemma BindGrounded(libs: seq<Ext>, x: int, d: Info, kept: bool, e: Ext)
    requires Grounded(libs) && e in libs && Loaded(libs, x) && Loaded(libs, d.owner)
    ensures var f := BindAt(e, x, d, kept); Unique(f.deps) && Unique(f.children)
    ensures var f := BindAt(e, x, d, kept); forall c :: c in f.deps || c in f.children ==> Loaded(libs, c.owner)
  {
  }

  /** Binding keeps the invariant; an owner that is not told is one that is not refused. */
  lemma BindSane(libs: seq<Ext>, x: int, d: Info, kept: bool, refuse: Refusal)
    requires Sane(libs, refuse) && Loaded(libs, x) && Loaded(libs, d.owner) && (refuse(x, d.iface) ==> kept)
    ensures Sane(Bind(libs, x, d, kept), refuse)
  {
    hide Mirrors, Unique, Loaded, BindAt;
    var after := Bind(libs, x, d, kept);
    BindIn(libs, x, d, kept);
    forall y ensures Loaded(after, y) <==> Loaded(libs, y) { BindLoaded(libs, x, d, kept, y); }
    forall e, f | e in after && f in after ensures Mirrors(e, f, refuse) {
      var i :| 0 <= i < |after| && after[i] == e;
      var j :| 0 <= j < |after| && after[j] == f;
      assert libs[i] in libs && libs[j] in libs;
      BindMirrors(libs[i], libs[j], x, d, kept, refuse);
    }
    forall e | e in after
      ensures Unique(e.deps) && Unique(e.children)
      ensures (forall c :: c in e.deps || c in e.children ==> Loaded(after, c.owner))
    {
      var i :| 0 <= i < |after| && after[i] == e;
      assert libs[i] in libs;
      BindGrounded(libs, x, d, kept, libs[i]);
    }
    forall i, j | 0 <= i < j < |after| ensures after[i].id != after[j].id {
      BindId(libs[i], x, d, kept);
      BindId(libs[j], x, d, kept);
    }
  }

  lemma BindId(e: Ext, x: int, d: Info, kept: bool)
    ensures BindAt(e, x, d, kept).id == e.id
  {
  }

  // ----- unloading -----

  lemma {:induction false} KeepUnique(l: seq<Info>, gone: seq<int>)
    requires Unique(l)
    ensures Unique(Keep(l, gone))
  {
    if l != [] {
      KeepUnique(l[1..], gone);
      KeepIn(l[1..], gone, l[0]);
      assert l[0] !in l[1..];
    }
  }

  lemma {:induction false} SurvivorsDistinct(libs: seq<Ext>, gone: seq<int>)
    requires Distinct(libs)
    ensures Distinct(Survivors(libs, gone))
  {
    if libs != [] {
      SurvivorsDistinct(libs[1..], gone);
      var tail := Survivors(libs[1..], gone);
      forall k | 0 <= k < |tail| ensures tail[k].id != libs[0].id {
        SurvivorIn(libs[1..], gone, tail[k]);
      }
    }
  }

  lemma SurvivorMirrors(e: Ext, f: Ext, gone: seq<int>, refuse: Refusal)
    requires Mirrors(e, f, refuse) && e.id !in gone && f.id !in gone
    ensures Mirrors(Survivor(e, gone), Survivor(f, gone), refuse)
  {
    forall d: Info ensures d in Keep(e.deps, gone) <==> d in e.deps && d.owner !in gone { KeepIn(e.deps, gone, d); }
    forall d: Info
      ensures d in Keep(f.children, gone) <==> d in f.children && d.owner !in gone { KeepIn(f.children, gone, d); }
  }

  lemma SurvivorsGrounded(libs: seq<Ext>, gone: seq<int>, e: Ext)
    requires Grounded(libs) && e in Survivors(libs, gone)
    ensures Unique(e.deps) && Unique(e.children)
    ensures forall d :: d in e.deps || d in e.children ==> Loaded(Survivors(libs, gone), d.owner)
  {
    SurvivorIn(libs, gone, e);
    var x :| x in libs && x.id !in gone && e == Survivor(x, gone);
    KeepUnique(x.deps, gone);
    KeepUnique(x.children, gone);
    forall d | d in e.deps || d in e.children ensures Loaded(Survivors(libs, gone), d.owner) {
      KeepIn(x.deps, gone, d);
      KeepIn(x.children, gone, d);
      SurvivorLoaded(libs, gone, d.owner);
    }
  }

  /** An unload keeps the invariant: in particular nothing that remains names an extension that went. */
  lemma UnloadSane(libs: seq<Ext>, t: int, refuse: Refusal)
    requires Sane(libs, refuse)
    ensures Sane(Unload(libs, t, refuse).libs, refuse)
  {
    var gone := Unload(libs, t, refuse).gone;
    var left := Survivors(libs, gone);
    UnloadCascade(libs, t, refuse);
    SurvivorsDistinct(libs, gone);
    forall e | e in left
      ensures Unique(e.deps) && Unique(e.children)
      ensures (forall d :: d in e.deps || d in e.children ==> Loaded(left, d.owner))
    {
      SurvivorsGrounded(libs, gone, e);
    }
    forall e, f | e in left && f in left ensures Mirrors(e, f, refuse) {
      SurvivorIn(libs, gone, e);
      SurvivorIn(libs, gone, f);
      var x :| x in libs && x.id !in gone && e == Survivor(x, gone);
      var y :| y in libs && y.id !in gone && f == Survivor(y, gone);
      SurvivorMirrors(x, y, gone, refuse);
    }
  }

  // ----- runs -----

  datatype Op =
    | Load(id: int)
    | BindDep(x: int, d: Info)
    | BindRaw(x: int, d: Info)
    | Drop(t: int)

  /** One operation of the manager; one that names an extension that is not loaded does nothing. */
  function Apply(libs: seq<Ext>, op: Op, refuse: Refusal): seq<Ext> {
    match op
    case Load(id) => if Loaded(libs, id) then libs else libs + [Ext(id, [], [])]
    case BindDep(x, d) =>
      if Loaded(libs, x) && Loaded(libs, d.owner) then Bind(libs, x, d, refuse(x, d.iface)) else libs
    case BindRaw(x, d) =>
      if Loaded(libs, x) && Loaded(libs, d.owner) then Bind(libs, x, d, true) else libs
    case Drop(t) => Unload(libs, t, refuse).libs
  }

  function Run(ops: seq<Op>, refuse: Refusal): seq<Ext> {
    if ops == [] then [] else Apply(Run(ops[..|ops| - 1], refuse), ops[|ops| - 1], refuse)
  }

  lemma LoadSane(libs: seq<Ext>, id: int, refuse: Refusal)
    requires Sane(libs, refuse) && !Loaded(libs, id)
    ensures Sane(libs + [Ext(id, [], [])], refuse)
  {
    var after := libs + [Ext(id, [], [])];
    forall y | Loaded(libs, y) ensures Loaded(after, y) {
      var i :| 0 <= i < |libs| && libs[i].id == y;
      assert after[i].id == y;
    }
    forall e, f | e in after && f in after ensures Mirrors(e, f, refuse) {
      if e in libs && f in libs {
      } else if e in libs {
        assert forall d :: d in e.deps ==> d.owner != id;
      } else if f in libs {
        assert forall d :: d in f.children ==> d.owner != id;
      }
    }
  }

  /** In every run of loading, binding and unloading the lists are distinct, name only what is loaded,
      and mirror each other. */
  lemma {:induction false} RunSane(ops: seq<Op>, refuse: Refusal)
    ensures Sane(Run(ops, refuse), refuse)
  {
    if ops != [] {
      var libs, op := Run(ops[..|ops| - 1], refuse), ops[|ops| - 1];
      RunSane(ops[..|ops| - 1], refuse);
      match op
      case Load(id) => if !Loaded(libs, id) { LoadSane(libs, id, refuse); }
      case BindDep(x, d) =>
        if Loaded(libs, x) && Loaded(libs, d.owner) { BindSane(libs, x, d, refuse(x, d.iface), refuse); }
      case BindRaw(x, d) =>
        if Loaded(libs, x) && Loaded(libs, d.owner) { BindSane(libs, x, d, true, refuse); }
      case Drop(t) => UnloadSane(libs, t, refuse);
    }
  }

  lemma WithoutStep(l: seq<Info>, t: int)
    requires l != []
    ensures Without(l, t) == (if l[0].owner == t then [] else [l[0]]) + Without(l[1..], t)
  {
  }

  lemma WithoutEnds(t: int)
    ensures Without([], t) == []
  {
  }

  // ----- the classes -----

  /** CExtension, with its two lists. */
  class Extension {
    const id: int
    var deps: seq<Info>
    var children: seq<Info>

    function Value(): Ext
      reads this
    {
      Ext(id, deps, children)
    }

    constructor (ident: int)
      ensures id == ident && deps == [] && children == []
    {
      id, deps, children := ident, [], [];
    }

    method AddDependency(d: Info)
      modifies this`deps
      ensures deps == Append(old(deps), d)
    {
      if d !in deps { deps := deps + [d]; }
    }

    method AddChildDependent(other: int, iface: int)
      modifies this`children
      ensures children == Append(old(children), Info(iface, other))
    {
      var info := Info(iface, other);
      var i := 0;
      while i < |children|
        invariant 0 <= i <= |children| && info !in children[..i]
      {
        if children[i] == info { return; }
        i := i + 1;
      }
      children := children + [info];
    }

    /** The interfaces of t are dropped: every dependency on t is erased from the list, and the answer
        is whether one of them was refused. */
    method DropDependencies(t: int, refuse: Refusal) returns (dropped: bool)
      modifies this`deps
      ensures deps == Without(old(deps), t)
      ensures dropped == Refuses(old(Value()), t, refuse)
    {
      hide Without;
      ghost var before := deps;
      ghost var k := 0;
      WithoutEnds(t);
      dropped := false;
      var i := 0;
      while i < |deps|
        invariant 0 <= i <= |deps| && k <= |before| && deps[i..] == before[k..]
        invariant Without(before, t) == deps[..i] + Without(before[k..], t)
        invariant dropped <==> exists j :: 0 <= j < k && before[j].owner == t && refuse(id, before[j].iface)
        decreases |deps| - i
      {
        assert before[k..][0] == before[k] == deps[i] && before[k..][1..] == before[k + 1..];
        WithoutStep(before[k..], t);
        if deps[i].owner == t {
          if !dropped && refuse(id, deps[i].iface) { dropped := true; }
          ghost var done := deps[..i];
          deps := deps[..i] + deps[i + 1..];
          assert deps[..i] == done;
        } else {
          assert deps[..i + 1] == deps[..i] + [deps[i]];
          i := i + 1;
        }
        k := k + 1;
      }
      assert deps[..i] == deps;
    }

    /** The back references to t are flushed. */
    method DropChildren(t: int)
      modifies this`children
      ensures children == Without(old(children), t)
    {
      hide Without;
      ghost var before := children;
      ghost var k := 0;
      WithoutEnds(t);
      var i := 0;
      while i < |children|
        invariant 0 <= i <= |children| && k <= |before| && children[i..] == before[k..]
        invariant Without(before, t) == children[..i] + Without(before[k..], t)
        decreases |children| - i
      {
        assert before[k..][0] == before[k] == children[i] && before[k..][1..] == before[k + 1..];
        WithoutStep(before[k..], t);
        if children[i].owner == t {
          ghost var done := children[..i];
          children := children[..i] + children[i + 1..];
          assert children[..i] == done;
        } else {
          assert children[..i + 1] == children[..i] + [children[i]];
          i := i + 1;
        }
        k := k + 1;
      }
      assert children[..i] == children;
    }
  }
}
