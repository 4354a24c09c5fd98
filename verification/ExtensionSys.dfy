/** CExtensionManager: the list of loaded extensions, and UnloadExtension as it edits the list while it
    walks it and calls itself for those that have to go too. */
module ExtensionSys {
  import opened ExtensionGraph
  import opened ExtensionManager

  function Values(l: seq<Extension>): (r: seq<Ext>)
    reads l
    ensures |r| == |l| && forall i {:trigger r[i]} {:trigger l[i]} :: 0 <= i < |l| ==> r[i] == l[i].Value()
  {
    if l == [] then [] else [l[0].Value()] + Values(l[1..])
  }

  function Idents(l: seq<Extension>): (r: seq<int>)
    ensures |r| == |l| && forall i {:trigger r[i]} {:trigger l[i]} :: 0 <= i < |l| ==> r[i] == l[i].id
  {
    if l == [] then [] else [l[0].id] + Idents(l[1..])
  }

  predicate DistinctIds(l: seq<Extension>) {
    forall i, j {:trigger l[i], l[j]} :: 0 <= i < j < |l| ==> l[i].id != l[j].id
  }

  /** No other object of the list has this one's id. */
  ghost predicate Known(l: seq<Extension>, e: Extension) {
    e in l || forall i {:trigger l[i]} :: 0 <= i < |l| ==> l[i].id != e.id
  }

  ghost predicate Within(l: seq<Extension>, m: seq<Extension>) {
    forall i {:trigger l[i]} :: 0 <= i < |l| ==> l[i] in m
  }

  lemma StillKnown(l: seq<Extension>, l': seq<Extension>, e: Extension)
    requires DistinctIds(l) && Within(l', l) && Known(l, e)
    ensures Known(l', e)
  {
    if e !in l' {
      forall i {:trigger l'[i]} | 0 <= i < |l'| ensures l'[i].id != e.id {
        assert l'[i] in l;
      }
    }
  }

  lemma Assoc<T>(x: seq<T>, y: seq<T>, z: seq<T>)
    ensures x + (y + z) == (x + y) + z
  {
  }

  lemma {:induction false} QueueSplit(a: seq<Ext>, b: seq<Ext>, t: int, refuse: Refusal)
    ensures Queue(a + b, t, refuse) == Queue(a, t, refuse) + Queue(b, t, refuse)
  {
    hide Refuses;
    if a == [] {
      assert a + b == b;
    } else {
      var h := if a[0].id != t && Refuses(a[0], t, refuse) then [a[0].id] else [];
      QueueSplit(a[1..], b, t, refuse);
      assert (a + b)[1..] == a[1..] + b && (a + b)[0] == a[0];
      Assoc(h, Queue(a[1..], t, refuse), Queue(b, t, refuse));
    }
  }

  lemma QueueOne(e: Ext, t: int, refuse: Refusal)
    ensures Queue([e], t, refuse) == if e.id != t && Refuses(e, t, refuse) then [e.id] else []
  {
    assert [e][1..] == [];
  }

  function StripAll(libs: seq<Ext>, t: int): (r: seq<Ext>)
    ensures |r| == |libs| && forall i {:trigger r[i]} :: 0 <= i < |libs| ==> r[i] == Strip(libs[i], t)
  {
    if libs == [] then [] else [Strip(libs[0], t)] + StripAll(libs[1..], t)
  }

  lemma {:induction false} TakeOutNone(libs: seq<Ext>, t: int)
    requires !Loaded(libs, t)
    ensures TakeOut(libs, t) == StripAll(libs, t)
  {
    if libs != [] {
      assert forall i :: 0 <= i < |libs[1..]| ==> libs[1..][i] == libs[i + 1];
      TakeOutNone(libs[1..], t);
    }
  }

  lemma {:induction false} TakeOutSplit(a: seq<Ext>, b: seq<Ext>, t: int)
    ensures TakeOut(a + b, t) == TakeOut(a, t) + TakeOut(b, t)
  {
    hide Strip;
    if a == [] {
      assert a + b == b;
    } else {
      var h := if a[0].id == t then [] else [Strip(a[0], t)];
      TakeOutSplit(a[1..], b, t);
      assert (a + b)[1..] == a[1..] + b && (a + b)[0] == a[0];
      Assoc(h, TakeOut(a[1..], t), TakeOut(b, t));
    }
  }

  lemma TakeOutOne(e: Ext)
    ensures TakeOut([e], e.id) == []
  {
    assert [e][1..] == [];
  }

  lemma TakeOutMid(a: seq<Ext>, e: Ext, b: seq<Ext>)
    ensures TakeOut(a + ([e] + b), e.id) == TakeOut(a + b, e.id)
  {
    TakeOutOne(e);
    hide TakeOut;
    TakeOutSplit(a, [e] + b, e.id);
    TakeOutSplit([e], b, e.id);
    TakeOutSplit(a, b, e.id);
  }

  lemma Middle<T>(l: seq<T>, i: nat)
    requires i < |l|
    ensures l == l[..i] + ([l[i]] + l[i + 1..])
  {
  }

  lemma OthersDiffer(libs: seq<Ext>, i: nat)
    requires Distinct(libs) && i < |libs|
    ensures !Loaded(libs[..i] + libs[i + 1..], libs[i].id)
  {
    var rest := libs[..i] + libs[i + 1..];
    forall j | 0 <= j < |rest| ensures rest[j].id != libs[i].id {
      assert rest[j] == if j < i then libs[j] else libs[j + 1];
    }
  }

  /** Taking out the one at i, and stripping the others. */
  lemma TakeOutAt(libs: seq<Ext>, i: nat)
    requires Distinct(libs) && i < |libs|
    ensures TakeOut(libs, libs[i].id) == StripAll(libs[..i] + libs[i + 1..], libs[i].id)
  {
    hide Strip, TakeOut, StripAll;
    Middle(libs, i);
    TakeOutMid(libs[..i], libs[i], libs[i + 1..]);
    OthersDiffer(libs, i);
    TakeOutNone(libs[..i] + libs[i + 1..], libs[i].id);
  }

  lemma QueueAt(libs: seq<Ext>, i: nat, refuse: Refusal)
    requires i < |libs|
    ensures Queue(libs, libs[i].id, refuse) == Queue(libs[..i] + libs[i + 1..], libs[i].id, refuse)
  {
    var t, a, b := libs[i].id, libs[..i], libs[i + 1..];
    QueueOne(libs[i], t, refuse);
    hide Queue, Refuses;
    assert libs == a + ([libs[i]] + b);
    QueueSplit(a, [libs[i]] + b, t, refuse);
    QueueSplit([libs[i]], b, t, refuse);
    QueueSplit(a, b, t, refuse);
  }

  /** One extension out, and then the queue. */
  lemma UnloadAt(libs: seq<Ext>, i: nat, refuse: Refusal)
    requires Distinct(libs) && i < |libs|
    ensures var t, rest := libs[i].id, libs[..i] + libs[i + 1..];
      var r := UnloadAll(StripAll(rest, t), Queue(rest, t, refuse), refuse);
      Unload(libs, t, refuse) == Left(r.libs, [t] + r.gone)
  {
    hide UnloadAll, Queue;
    assert Loaded(libs, libs[i].id);
    TakeOutAt(libs, i);
    QueueAt(libs, i, refuse);
  }

  /** The queue, up to its k-th extension. */
  lemma UnloadNext(libs: seq<Ext>, q: seq<int>, k: nat, refuse: Refusal)
    requires k < |q|
    ensures var first := Unload(libs, q[k], refuse); var rest := UnloadAll(first.libs, q[k + 1..], refuse);
      UnloadAll(libs, q[k..], refuse) == Left(rest.libs, first.gone + rest.gone)
  {
    hide Unload;
    assert q[k..][0] == q[k] && q[k..][1..] == q[k + 1..];
  }

  class Manager {
    const refuse: Refusal
    var libs: seq<Extension>
    // Observation: the extensions whose OnExtensionUnload ran.
    ghost var gone: seq<int>

    ghost predicate Valid()
      reads this, libs
    {
      DistinctIds(libs) && Sane(Values(libs), refuse)
    }

    constructor (answers: Refusal)
      ensures Valid() && refuse == answers && libs == [] && gone == []
    {
      refuse, libs, gone := answers, [], [];
    }

    /** The end of LoadExtension. */
    method AddExtension(ext: Extension)
      requires Valid() && !Loaded(Values(libs), ext.id) && ext.deps == [] && ext.children == []
      modifies this`libs
      ensures Valid() && libs == old(libs) + [ext]
    {
      LoadSane(Values(libs), ext.id, refuse);
      assert Values(libs + [ext]) == Values(libs) + [Ext(ext.id, [], [])];
      assert forall i {:trigger libs[i]} :: 0 <= i < |libs| ==> libs[i].id == Values(libs)[i].id;
      libs := libs + [ext];
    }

    /** BindDependency: the owner is told only if the requester refuses to let go. */
    method BindDependency(ext: Extension, owner: Extension, iface: int)
      requires Valid() && ext in libs && owner in libs
      modifies libs
      ensures Valid() && Values(libs) == Bind(old(Values(libs)), ext.id, Info(iface, owner.id), refuse(ext.id, iface))
    {
      AddEntries(ext, owner, iface, refuse(ext.id, iface));
    }

    /** AddRawDependency: the owner is always told. */
    method AddRawDependency(ext: Extension, owner: Extension, iface: int)
      requires Valid() && ext in libs && owner in libs
      modifies libs
      ensures Valid() && Values(libs) == Bind(old(Values(libs)), ext.id, Info(iface, owner.id), true)
    {
      AddEntries(ext, owner, iface, true);
    }

    method AddEntries(ext: Extension, owner: Extension, iface: int, tell: bool)
      requires Valid() && ext in libs && owner in libs && (refuse(ext.id, iface) ==> tell)
      modifies libs
      ensures Valid() && Values(libs) == Bind(old(Values(libs)), ext.id, Info(iface, owner.id), tell)
    {
      hide Bind, Sane, Values;
      ghost var before := Values(libs);
      var d := Info(iface, owner.id);
      ext.AddDependency(d);
      if tell { owner.AddChildDependent(ext.id, iface); }
      BindIn(before, ext.id, d, tell);
      SameIds(libs, ext);
      SameIds(libs, owner);
      assert forall i {:trigger libs[i]} :: 0 <= i < |libs| ==> libs[i].Value() == BindAt(before[i], ext.id, d, tell);
      assert Values(libs) == Bind(before, ext.id, d, tell);
      BindSane(before, ext.id, d, tell, refuse);
    }

    /** Where the extension is in the list, or the list's length. */
    method Find(ext: Extension) returns (i: nat)
      ensures i <= |libs| && ext !in libs[..i] && (i < |libs| ==> libs[i] == ext)
    {
      i := 0;
      while i < |libs| && libs[i] != ext
        invariant i <= |libs| && ext !in libs[..i]
      {
        i := i + 1;
      }
    }

    /** The others are told that ext goes; those that refuse are queued. */
    method NotifyOthers(ext: Extension) returns (queue: seq<Extension>)
      requires DistinctIds(libs) && ext !in libs && !Loaded(Values(libs), ext.id)
      modifies libs
      ensures Values(libs) == StripAll(old(Values(libs)), ext.id)
      ensures Idents(queue) == Queue(old(Values(libs)), ext.id, refuse)
      ensures forall e :: e in queue ==> e in libs
    {
      hide Queue, Refuses, Without, StripAll, Values, Idents;
      ghost var before := Values(libs);
      QueueNone(ext.id, refuse);
      queue := [];
      var k := 0;
      while k < |libs|
        invariant 0 <= k <= |libs|
        invariant forall m {:trigger libs[m]} :: 0 <= m < k ==> libs[m].Value() == Strip(before[m], ext.id)
        invariant forall m {:trigger libs[m]} :: k <= m < |libs| ==> libs[m].Value() == before[m]
        invariant Idents(queue) == Queue(before[..k], ext.id, refuse)
        invariant forall e :: e in queue ==> e in libs
      {
        var dep := libs[k];
        assert dep.Value() == before[k] && before[k].id != ext.id;
        var dropped := dep.DropDependencies(ext.id, refuse);
        dep.DropChildren(ext.id);
        assert before[..k + 1] == before[..k] + [before[k]];
        QueueSplit(before[..k], [before[k]], ext.id, refuse);
        QueueOne(before[k], ext.id, refuse);
        if dropped {
          assert Idents(queue + [dep]) == Idents(queue) + [dep.id];
          queue := queue + [dep];
        }
        k := k + 1;
      }
      assert before[..k] == before;
    }

    /** The extension at i leaves the list, and the others are told. */
    method RemoveAt(i: nat) returns (queue: seq<Extension>)
      requires DistinctIds(libs) && i < |libs|
      modifies this`libs, libs
      ensures var before, t := old(Values(libs)), old(libs)[i].id; var rest := before[..i] + before[i + 1..];
        Values(libs) == StripAll(rest, t) && Idents(queue) == Queue(rest, t, refuse)
      ensures DistinctIds(libs) && Within(libs, old(libs)) && |libs| == |old(libs)| - 1
      ensures forall k {:trigger queue[k]} :: 0 <= k < |queue| ==> queue[k] in libs
    {
      hide Queue, StripAll, Values, Idents;
      ghost var before := Values(libs);
      var ext := libs[i];
      assert before[i].id == ext.id;
      libs := libs[..i] + libs[i + 1..];
      assert Values(libs) == before[..i] + before[i + 1..];
      queue := NotifyOthers(ext);
    }

    /** UnloadExtension. One that is not in the list, as after an unload further down, is left alone. */
    method UnloadExtension(ext: Extension?) returns (ok: bool)
      requires DistinctIds(libs)
      requires ext != null ==> Known(libs, ext)
      modifies this`libs, this`gone, libs
      ensures ok == (ext != null && ext in old(libs))
      ensures ext == null ==> libs == old(libs) && gone == old(gone) && Values(libs) == old(Values(libs))
      ensures ext != null ==> var r := Unload(old(Values(libs)), ext.id, refuse);
        Values(libs) == r.libs && gone == old(gone) + r.gone
      ensures DistinctIds(libs) && Within(libs, old(libs))
      decreases |libs|
    {
      hide Unload, UnloadAll, Queue, StripAll, Values, Idents;
      if ext == null { return false; }
      ghost var before := Values(libs);
      var i := Find(ext);
      if i == |libs| {
        UnloadAbsent(before, ext.id, refuse);
        return false;
      }
      ghost var t := ext.id;
      assert before[i].id == t;
      UnloadAt(before, i, refuse);
      var queue := RemoveAt(i);
      gone := gone + [t];
      UnloadQueue(queue);
      ok := true;
    }

    /** The loop over the queue. */
    method UnloadQueue(queue: seq<Extension>)
      requires DistinctIds(libs)
      requires forall k {:trigger queue[k]} :: 0 <= k < |queue| ==> Known(libs, queue[k])
      modifies this`libs, this`gone, libs
      ensures var r := UnloadAll(old(Values(libs)), Idents(queue), refuse);
        Values(libs) == r.libs && gone == old(gone) + r.gone
      ensures DistinctIds(libs) && Within(libs, old(libs))
      decreases |libs| + 1, |queue|
    {
      hide Unload, UnloadAll, Values, Idents;
      ghost var all, before := UnloadAll(Values(libs), Idents(queue), refuse), gone;
      ghost var done: seq<int> := [];
      var k := 0;
      while k < |queue|
        invariant 0 <= k <= |queue| && DistinctIds(libs) && |libs| <= |old(libs)|
        invariant Within(libs, old(libs))
        invariant forall k {:trigger queue[k]} :: 0 <= k < |queue| ==> Known(libs, queue[k])
        invariant gone == before + done
        invariant var r := UnloadAll(Values(libs), Idents(queue)[k..], refuse); all == Left(r.libs, done + r.gone)
      {
        UnloadNext(Values(libs), Idents(queue), k, refuse);
        ghost var was, first := libs, Unload(Values(libs), queue[k].id, refuse);
        var _ := UnloadExtension(queue[k]);
        forall m {:trigger queue[m]} | 0 <= m < |queue| ensures Known(libs, queue[m]) {
          StillKnown(was, libs, queue[m]);
        }
        done := done + first.gone;
        k := k + 1;
      }
      assert Idents(queue)[k..] == [];
      UnloadNone(Values(libs), refuse);
    }
  }

  lemma SameIds(l: seq<Extension>, e: Extension)
    requires DistinctIds(l) && e in l
    ensures forall i {:trigger l[i]} :: 0 <= i < |l| ==> (l[i].id == e.id <==> l[i] == e)
    ensures Loaded(Values(l), e.id)
  {
    var k :| 0 <= k < |l| && l[k] == e;
    assert Values(l)[k].id == e.id;
  }

  lemma UnloadAbsent(libs: seq<Ext>, t: int, refuse: Refusal)
    requires !Loaded(libs, t)
    ensures Unload(libs, t, refuse) == Left(libs, [])
  {
  }

  lemma QueueNone(t: int, refuse: Refusal)
    ensures Queue([], t, refuse) == Idents([])
  {
  }

  lemma UnloadNone(libs: seq<Ext>, refuse: Refusal)
    ensures UnloadAll(libs, [], refuse) == Left(libs, [])
  {
  }
}
