/** What is counted in the handle table: handles per type, clones per original, and the objects
    still held against those destroyed. */
module HandleCounts {
  import opened HandleTable

  // ----- handles per type -----

  ghost function OfType(h: Table, ty: TypeId): set<Index> {
    set j: Index | 0 <= j <= MAX_HANDLES && !h[j].state.Unset? && h[j].htype == ty
  }

  ghost predicate TypesOk(s: Sys) {
    forall ty: TypeId :: s.openCount[ty] == |OfType(s.h, ty)|
  }

  lemma OfTypeUpdate(h: Table, h': Table, i: Index, u: TypeId)
    requires forall j: Index {:trigger h'[j]} :: j != i ==>
          h'[j].state.Unset? == h[j].state.Unset? && h'[j].htype == h[j].htype
    ensures h[i].state.Unset? && !h'[i].state.Unset? ==>
      OfType(h', u) == OfType(h, u) + (if u == h'[i].htype then {i} else {}) && i !in OfType(h, u)
    ensures !h[i].state.Unset? && h'[i].state.Unset? ==>
      OfType(h', u) == OfType(h, u) - (if u == h[i].htype then {i} else {}) && (u == h[i].htype ==> i in OfType(h, u))
  {
  }

  lemma TypesMade(s: Sys, t: Sys, i: Index, ty: TypeId)
    requires TypesOk(s) && s.h[i].state.Unset? && !t.h[i].state.Unset? && t.h[i].htype == ty
    requires t.openCount == s.openCount[ty := s.openCount[ty] + 1]
    requires forall j: Index {:trigger t.h[j]} :: j != i ==>
          t.h[j].state.Unset? == s.h[j].state.Unset? && t.h[j].htype == s.h[j].htype
    ensures TypesOk(t)
  {
    forall u: TypeId ensures t.openCount[u] == |OfType(t.h, u)| {
      OfTypeUpdate(s.h, t.h, i, u);
    }
  }

  lemma TypesVacated(s: Sys, t: Sys, i: Index)
    requires TypesOk(s) && !s.h[i].state.Unset? && t.h[i].state.Unset?
    requires var ty := s.h[i].htype; t.openCount == s.openCount[ty := Dec32(s.openCount[ty])]
    requires forall j: Index {:trigger t.h[j]} :: j != i ==>
          t.h[j].state.Unset? == s.h[j].state.Unset? && t.h[j].htype == s.h[j].htype
    ensures TypesOk(t)
  {
    forall u: TypeId ensures t.openCount[u] == |OfType(t.h, u)| {
      OfTypeUpdate(s.h, t.h, i, u);
    }
  }

  lemma TypesSame(s: Sys, t: Sys)
    requires TypesOk(s) && t.openCount == s.openCount
    requires forall j: Index :: t.h[j].state.Unset? == s.h[j].state.Unset? && t.h[j].htype == s.h[j].htype
    ensures TypesOk(t)
  {
    forall u: TypeId ensures t.openCount[u] == |OfType(t.h, u)| {
      assert OfType(t.h, u) == OfType(s.h, u);
    }
  }

  // ----- clones per original -----

  predicate Original(r: QHandle) {
    r.clone == 0 && Plain(r)
  }

  predicate Plain(r: QHandle) {
    r.state.Used? || r.state.Freed?
  }

  ghost function ClonesOf(h: Table, m: Index): set<Index> {
    set j: Index | 0 <= j <= MAX_HANDLES && h[j].state.Used? && h[j].clone == m
  }

  /** A clone refers to an original, never to another clone, of its own type. */
  ghost predicate ClonesShallow(h: Table) {
    forall j: Index :: h[j].state.Used? && h[j].clone != 0 ==>
      Original(h[h[j].clone]) && h[h[j].clone].htype == h[j].htype
  }

  /** An original counts itself while Used, and its clones; once freed it still has clones.
      A clone counts itself. */
  ghost predicate Counted(h: Table, m: Index) {
    && (Original(h[m]) ==>
          && h[m].refcount == |ClonesOf(h, m)| + (if h[m].state.Used? then 1 else 0)
          && 0 < h[m].refcount)
    && (h[m].state.Used? && h[m].clone != 0 ==> h[m].refcount == 1)
  }

  ghost predicate ClonesOk(h: Table) {
    && h[0].state.Unset?
    && ClonesShallow(h)
    && (forall m: Index :: Counted(h, m))
    && (forall m: Index :: h[m].state.Freed? ==> h[m].clone == 0)
  }

  /** The fields the clone accounting looks at, the reference count aside. */
  ghost predicate SameClone(a: QHandle, b: QHandle) {
    b.state == a.state && b.clone == a.clone && b.htype == a.htype
  }

  lemma ClonesCreated(h: Table, h': Table, i: Index, identity: bool)
    requires ClonesOk(h) && i != 0 && h[i].state.Unset?
    requires h'[i].state == (if identity then Identity else Used) && h'[i].clone == 0 && h'[i].refcount == 1
    requires forall j: Index :: j != i ==> SameClone(h[j], h'[j])
    requires forall j: Index :: j != i && Plain(h[j]) ==> h'[j].refcount == h[j].refcount
    ensures ClonesOk(h')
  {
    forall m: Index | m != 0 ensures ClonesOf(h', m) == ClonesOf(h, m) {
    }
    assert ClonesOf(h, i) == {} by {
      assert forall j: Index :: h[j].state.Used? && h[j].clone != 0 ==> h[j].clone != i;
    }
    forall m: Index ensures Counted(h', m) {
      assert Counted(h, m);
    }
  }

  lemma ClonesCloned(h: Table, h': Table, i: Index, m: Index)
    requires ClonesOk(h) && i != 0 && h[i].state.Unset? && Original(h[m])
    requires h'[i].state.Used? && h'[i].clone == m && h'[i].refcount == 1 && h'[i].htype == h[m].htype
    requires h'[m].refcount == h[m].refcount + 1
    requires forall j: Index :: j != i ==> SameClone(h[j], h'[j])
    requires forall j: Index :: j != i && j != m && Plain(h[j]) ==> h'[j].refcount == h[j].refcount
    ensures ClonesOk(h')
  {
    forall x: Index ensures x != 0 ==> ClonesOf(h', x) == ClonesOf(h, x) + if x == m then {i} else {} {
    }
    forall x: Index ensures Counted(h', x) {
      assert Counted(h, x);
    }
    forall j: Index | h'[j].state.Used? && h'[j].clone != 0
      ensures Original(h'[h'[j].clone]) && h'[h'[j].clone].htype == h'[j].htype
    {
      if j != i { assert SameClone(h[j], h'[j]); }
      assert SameClone(h[h'[j].clone], h'[h'[j].clone]);
    }
  }

  /** A clone goes; its original goes with it when it was freed and this was the last clone. */
  lemma ClonesReleased(h: Table, h': Table, j: Index)
    requires ClonesOk(h) && h[j].state.Used? && h[j].clone != 0 && h'[j].state.Unset?
    requires var m := h[j].clone;
      if h[m].refcount == 1 then h'[m].state.Unset?
      else SameClone(h[m], h'[m]) && h'[m].refcount == h[m].refcount - 1
    requires forall x: Index :: x != j && x != h[j].clone ==> SameClone(h[x], h'[x])
    requires forall x: Index :: x != j && x != h[j].clone && Plain(h[x]) ==> h'[x].refcount == h[x].refcount
    ensures ClonesOk(h')
  {
    var m := h[j].clone;
    assert Counted(h, m) && j in ClonesOf(h, m);
    assert h[m].refcount == 1 ==> |ClonesOf(h, m) - {j}| == 0;
    forall x: Index | x != 0 && x != m ensures ClonesOf(h', x) == ClonesOf(h, x) {
    }
    assert ClonesOf(h', m) == ClonesOf(h, m) - {j};
    forall x: Index ensures Counted(h', x) {
      assert Counted(h, x);
    }
    forall x: Index | h'[x].state.Used? && h'[x].clone != 0
      ensures Original(h'[h'[x].clone]) && h'[h'[x].clone].htype == h'[x].htype
    {
      var y := h'[x].clone;
      assert h[x].state.Used? && h[x].clone == y && Original(h[y]);
      if y == m { assert x in ClonesOf(h, m) - {j}; }
    }
  }

  /** An original without clones goes. */
  lemma ClonesDied(h: Table, h': Table, m: Index)
    requires ClonesOk(h) && h[m].state.Used? && h[m].clone == 0 && h[m].refcount == 1 && h'[m].state.Unset?
    requires forall x: Index :: x != m ==> SameClone(h[x], h'[x])
    requires forall x: Index :: x != m && Plain(h[x]) ==> h'[x].refcount == h[x].refcount
    ensures ClonesOk(h')
  {
    assert Counted(h, m) && ClonesOf(h, m) == {};
    forall x: Index | x != 0 ensures ClonesOf(h', x) == ClonesOf(h, x) {
    }
    forall x: Index ensures Counted(h', x) {
      assert Counted(h, x);
    }
    forall x: Index | h'[x].state.Used? && h'[x].clone != 0 ensures h'[x].clone != m {
      assert x !in ClonesOf(h, m);
    }
  }

  /** An original with clones is freed: it stays, for them. */
  lemma ClonesFreed(h: Table, h': Table, m: Index)
    requires ClonesOk(h) && h[m].state.Used? && h[m].clone == 0 && h[m].refcount > 1
    requires h'[m].state.Freed? && h'[m].clone == 0 && h'[m].htype == h[m].htype && h'[m].refcount == h[m].refcount - 1
    requires forall x: Index :: x != m ==> SameClone(h[x], h'[x])
    requires forall x: Index :: x != m && Plain(h[x]) ==> h'[x].refcount == h[x].refcount
    ensures ClonesOk(h')
  {
    forall x: Index | x != 0 ensures ClonesOf(h', x) == ClonesOf(h, x) {
    }
    forall x: Index ensures Counted(h', x) {
      assert Counted(h, x);
    }
  }

  // ----- objects -----

  ghost function Held(h: seq<QHandle>): multiset<Object> {
    if h == [] then multiset{}
    else
      Held(h[..|h| - 1]) + HeldBy(h[|h| - 1])
  }

  ghost function HeldBy(r: QHandle): multiset<Object> {
    if Original(r) then multiset{Object(r.htype, r.obj)} else multiset{}
  }

  lemma Shuffle(a: multiset<Object>, b: multiset<Object>, c: multiset<Object>, d: multiset<Object>, e: multiset<Object>)
    requires a + b == c + d
    ensures (a + e) + b == (c + e) + d
  {
    assert (a + e) + b == (a + b) + e;
    assert (c + e) + d == (c + d) + e;
  }

  lemma HeldStep(h: seq<QHandle>, h': seq<QHandle>, a: multiset<Object>, b: multiset<Object>)
    requires 0 < |h| == |h'|
    requires Held(h'[..|h| - 1]) + a == Held(h[..|h| - 1]) + b
    requires HeldBy(h'[|h| - 1]) == HeldBy(h[|h| - 1])
    ensures Held(h') + a == Held(h) + b
  {
    var n := |h| - 1;
    Shuffle(Held(h'[..n]), a, Held(h[..n]), b, HeldBy(h[n]));
  }

  lemma HeldTop(h: seq<QHandle>, h': seq<QHandle>)
    requires 0 < |h| == |h'|
    requires Held(h'[..|h| - 1]) == Held(h[..|h| - 1])
    ensures Held(h') + HeldBy(h[|h| - 1]) == Held(h) + HeldBy(h'[|h| - 1])
  {
    var x, u, v := Held(h[..|h| - 1]), HeldBy(h'[|h| - 1]), HeldBy(h[|h| - 1]);
    assert (x + u) + v == (x + v) + u;
  }

  lemma {:induction false} HeldUpdate(h: seq<QHandle>, h': seq<QHandle>, i: nat)
    requires |h| == |h'| && i < |h|
    requires forall j :: 0 <= j < |h| && j != i ==> HeldBy(h'[j]) == HeldBy(h[j])
    ensures Held(h') + HeldBy(h[i]) == Held(h) + HeldBy(h'[i])
  {
    var n := |h| - 1;
    if i < n {
      HeldUpdate(h[..n], h'[..n], i);
      HeldStep(h, h', HeldBy(h[i]), HeldBy(h'[i]));
    } else {
      HeldSame(h[..n], h'[..n]);
      HeldTop(h, h');
    }
  }

  lemma {:induction false} HeldSame(h: seq<QHandle>, h': seq<QHandle>)
    requires |h| == |h'|
    requires forall j :: 0 <= j < |h| ==> HeldBy(h'[j]) == HeldBy(h[j])
    ensures Held(h') == Held(h)
  {
    if h != [] {
      HeldSame(h[..|h| - 1], h'[..|h| - 1]);
    }
  }

  /** Every object handed over is held by exactly one original or has been destroyed once. */
  ghost predicate ObjectsOk(s: Sys) {
    multiset(s.created) == multiset(s.destroyed) + Held(s.h)
  }
}
