/** The intrusive lists of sourcemod/core/AdminCache.cpp: records in an arena, linked by index into one
    doubly linked live list and one free list. Admins and groups each have a pair of them. */
module AdminLists {
  const NONE: int := -1

  datatype Link = Link(next: int, prev: int)

  /** The heads of the two lists and the links of the records. */
  datatype Lists = Lists(first: int, last: int, free: int, links: map<int, Link>)

  const EMPTY := Lists(NONE, NONE, NONE, map[])

  predicate Distinct(l: seq<int>) {
    forall i, j {:trigger l[i], l[j]} :: 0 <= i < j < |l| ==> l[i] != l[j]
  }

  /** The next links run through l and end. */
  predicate Forward(m: map<int, Link>, l: seq<int>) {
    && (forall i {:trigger l[i]} :: 0 <= i < |l| ==> l[i] in m && l[i] != NONE)
    && (forall i, j {:trigger l[i], l[j]} :: 0 <= i && j == i + 1 < |l| ==> m[l[i]].next == l[j])
    && (l != [] ==> m[l[|l| - 1]].next == NONE)
  }

  /** The prev links invert them, but for the head, whose prev link nothing reads. */
  predicate Backward(m: map<int, Link>, l: seq<int>) {
    && (forall i {:trigger l[i]} :: 0 <= i < |l| ==> l[i] in m)
    && (forall i, j {:trigger l[i], l[j]} :: 0 <= i && j == i + 1 < |l| ==> m[l[j]].prev == l[i])
  }

  predicate Disjoint(a: seq<int>, b: seq<int>) {
    forall i, j {:trigger a[i], b[j]} :: 0 <= i < |a| && 0 <= j < |b| ==> a[i] != b[j]
  }

  function Head(l: seq<int>): int { if l == [] then NONE else l[0] }

  function Tail(l: seq<int>): int { if l == [] then NONE else l[|l| - 1] }

  ghost predicate Ok(c: Lists, live: seq<int>, dead: seq<int>) {
    && c.first == Head(live) && c.last == Tail(live) && c.free == Head(dead)
    && Forward(c.links, live) && Backward(c.links, live) && Forward(c.links, dead)
    && Distinct(live) && Distinct(dead) && Disjoint(live, dead)
    && (forall x {:trigger x in c.links} :: x in c.links <==> x in live || x in dead)
  }

  // ----- the operations -----

  /** The record for a new entry: the head of the free list, or a new one at unused. */
  function Alloc(c: Lists, unused: int): Lists {
    if c.free != NONE && c.free in c.links then c.(free := c.links[c.free].next)
    else c.(links := c.links[unused := Link(NONE, NONE)])
  }

  function AllocId(c: Lists, unused: int): int { if c.free != NONE then c.free else unused }

  /** Append to the live list; clear says whether the prev link of an only entry is reset. */
  function Append(c: Lists, id: int, clear: bool): Lists {
    var own := if id in c.links then c.links[id] else Link(NONE, NONE);
    if c.first == NONE || c.last !in c.links then
      c.(first := id, last := id, links := c.links[id := Link(NONE, if clear then NONE else own.prev)])
    else
      c.(last := id, links := c.links[c.last := c.links[c.last].(next := id)][id := Link(NONE, c.last)])
  }

  /** Unlink from the live list. */
  function Unlink(c: Lists, id: int): Lists
    requires id in c.links
  {
    var r := c.links[id];
    if id == c.first && id == c.last then c.(first := NONE, last := NONE)
    else if id == c.first then
      if r.next in c.links then c.(first := r.next, links := c.links[r.next := c.links[r.next].(prev := NONE)]) else c
    else if id == c.last then
      if r.prev in c.links then c.(last := r.prev, links := c.links[r.prev := c.links[r.prev].(next := NONE)]) else c
    else if r.prev in c.links && r.next in c.links then
      var m := c.links[r.prev := c.links[r.prev].(next := r.next)];
      c.(links := m[r.next := m[r.next].(prev := r.prev)])
    else c
  }

  /** Put on the free list. */
  function Free(c: Lists, id: int): Lists
    requires id in c.links
  {
    c.(free := id, links := c.links[id := c.links[id].(next := c.free)])
  }

  // ----- they keep the invariant -----

  lemma {:induction false} AppendKeeps(c: Lists, live: seq<int>, dead: seq<int>, unused: int, clear: bool)
    requires Ok(c, live, dead) && unused !in c.links && unused != NONE
    ensures var id := AllocId(c, unused);
      && Ok(Append(Alloc(c, unused), id, clear), live + [id], if dead == [] then [] else dead[1..])
      && id !in live && id != NONE
      && Append(Alloc(c, unused), id, clear).links.Keys == c.links.Keys + {id}
      && (id in c.links <==> c.free != NONE) && (id in c.links ==> id in dead)
  {
    var id := AllocId(c, unused);
    var d := Append(Alloc(c, unused), id, clear);
    var live', dead' := live + [id], if dead == [] then [] else dead[1..];
    AppendFrees(c, live, dead, unused, clear);
    forall x ensures x in d.links <==> x in live' || x in dead' {
      if dead != [] { assert dead == [dead[0]] + dead[1..]; }
    }
  }

  lemma AppendFrees(c: Lists, live: seq<int>, dead: seq<int>, unused: int, clear: bool)
    requires Ok(c, live, dead) && unused !in c.links && unused != NONE
    ensures var id := AllocId(c, unused); var d := Append(Alloc(c, unused), id, clear);
      && Forward(d.links, live + [id]) && Backward(d.links, live + [id])
      && Forward(d.links, if dead == [] then [] else dead[1..])
      && Distinct(live + [id]) && Disjoint(live + [id], if dead == [] then [] else dead[1..])
  {
    var id := AllocId(c, unused);
    assert id !in live;
    assert dead != [] ==> id == dead[0];
  }

  /** The position of an entry. */
  lemma Position(l: seq<int>, x: int) returns (k: nat)
    requires x in l
    ensures k < |l| && l[k] == x
  {
    k :| 0 <= k < |l| && l[k] == x;
  }

  function Without(l: seq<int>, k: nat): seq<int>
    requires k < |l|
  {
    l[..k] + l[k + 1..]
  }

  /** The links after an unlink: only those of the neighbours have changed. */
  lemma UnlinkEffect(c: Lists, live: seq<int>, dead: seq<int>, k: nat, x: int)
    requires Ok(c, live, dead) && k < |live| && x in c.links && x != live[k]
    ensures var d := Free(Unlink(c, live[k]), live[k]);
      && x in d.links
      && d.links[x].next == (if k > 0 && x == live[k - 1] then Head(live[k + 1..]) else c.links[x].next)
      && (!(k + 1 < |live| && x == live[k + 1]) ==> d.links[x].prev == c.links[x].prev)
      && (k > 0 && k + 1 < |live| && x == live[k + 1] ==> d.links[x].prev == live[k - 1])
  {
    var id := live[k];
    assert k > 0 ==> c.links[id].prev == live[k - 1];
    assert k + 1 < |live| ==> c.links[id].next == live[k + 1];
  }

  lemma LeftAt(live: seq<int>, k: nat, i: nat)
    requires k < |live| && i < |live| - 1
    ensures Without(live, k)[i] == live[if i < k then i else i + 1]
  {
  }

  lemma UnlinkForward(c: Lists, live: seq<int>, dead: seq<int>, k: nat)
    requires Ok(c, live, dead) && k < |live|
    ensures Forward(Free(Unlink(c, live[k]), live[k]).links, Without(live, k))
  {
    var left, d := Without(live, k), Free(Unlink(c, live[k]), live[k]);
    forall i | 0 <= i < |left| ensures left[i] in d.links && left[i] != NONE && left[i] != live[k] {
      LeftAt(live, k, i);
      UnlinkEffect(c, live, dead, k, left[i]);
    }
    hide Unlink;
    forall i, j | 0 <= i && j == i + 1 < |left| ensures d.links[left[i]].next == left[j] {
      LeftAt(live, k, i);
      LeftAt(live, k, j);
      UnlinkEffect(c, live, dead, k, left[i]);
    }
    if left != [] {
      var n := |left| - 1;
      LeftAt(live, k, n);
      UnlinkEffect(c, live, dead, k, left[n]);
    }
  }

  lemma UnlinkBackward(c: Lists, live: seq<int>, dead: seq<int>, k: nat)
    requires Ok(c, live, dead) && k < |live|
    ensures Backward(Free(Unlink(c, live[k]), live[k]).links, Without(live, k))
  {
    var left, d := Without(live, k), Free(Unlink(c, live[k]), live[k]);
    hide Unlink;
    forall i | 0 <= i < |left| ensures left[i] in d.links && left[i] != live[k] {
      LeftAt(live, k, i);
      UnlinkEffect(c, live, dead, k, left[i]);
    }
    forall i, j | 0 <= i && j == i + 1 < |left| ensures d.links[left[j]].prev == left[i] {
      LeftAt(live, k, i);
      LeftAt(live, k, j);
      UnlinkEffect(c, live, dead, k, left[j]);
    }
  }

  lemma UnlinkDead(c: Lists, live: seq<int>, dead: seq<int>, k: nat)
    requires Ok(c, live, dead) && k < |live|
    ensures Forward(Free(Unlink(c, live[k]), live[k]).links, [live[k]] + dead)
  {
    var d, all := Free(Unlink(c, live[k]), live[k]), [live[k]] + dead;
    forall i | 0 <= i < |dead| ensures dead[i] in d.links && d.links[dead[i]].next == c.links[dead[i]].next {
      UnlinkEffect(c, live, dead, k, dead[i]);
    }
    assert forall i {:trigger all[i]} :: 0 < i < |all| ==> all[i] == dead[i - 1];
  }

  lemma UnlinkHeads(c: Lists, live: seq<int>, dead: seq<int>, k: nat)
    requires Ok(c, live, dead) && k < |live|
    ensures var d := Free(Unlink(c, live[k]), live[k]);
      && d.first == Head(Without(live, k)) && d.last == Tail(Without(live, k)) && d.free == live[k]
      && d.links.Keys == c.links.Keys
  {
    assert k > 0 ==> c.links[live[k]].prev == live[k - 1];
    assert k + 1 < |live| ==> c.links[live[k]].next == live[k + 1];
  }

  lemma WithoutIn(live: seq<int>, k: nat, x: int)
    requires k < |live| && Distinct(live)
    ensures x in Without(live, k) <==> x in live && x != live[k]
  {
    var left := Without(live, k);
    if x in left {
      var i := Position(left, x);
      LeftAt(live, k, i);
    }
    if x in live && x != live[k] {
      var j := Position(live, x);
      LeftAt(live, k, if j < k then j else j - 1);
    }
  }

  lemma WithoutDistinct(live: seq<int>, k: nat)
    requires k < |live| && Distinct(live)
    ensures Distinct(Without(live, k)) && live[k] !in Without(live, k)
  {
    var left := Without(live, k);
    forall i, j | 0 <= i < j < |left| ensures left[i] != left[j] {
      LeftAt(live, k, i);
      LeftAt(live, k, j);
    }
    WithoutIn(live, k, live[k]);
  }

  lemma UnlinkKeeps(c: Lists, live: seq<int>, dead: seq<int>, k: nat)
    requires Ok(c, live, dead) && k < |live|
    ensures Ok(Free(Unlink(c, live[k]), live[k]), Without(live, k), [live[k]] + dead)
  {
    var id, left := live[k], Without(live, k);
    UnlinkForward(c, live, dead, k);
    UnlinkBackward(c, live, dead, k);
    UnlinkDead(c, live, dead, k);
    UnlinkHeads(c, live, dead, k);
    WithoutDistinct(live, k);
    assert forall i :: 0 <= i < |dead| ==> dead[i] != id;
    hide Forward, Backward, Unlink, Without;
    forall x ensures x in left <==> x in live && x != id { WithoutIn(live, k, x); }
  }
}
