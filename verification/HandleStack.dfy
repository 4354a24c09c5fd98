/** The stack of free slots: entries 1..free of the freeID fields. */
module HandleStack {
  import opened HandleTable
  import opened HandleOps

  ghost predicate OnStack(s: Sys, j: Index) {
    exists i: Index {:trigger s.h[i].freeID} :: 1 <= i <= s.free && s.h[i].freeID == j
  }

  ghost predicate EntriesVacant(s: Sys) {
    forall i: Index {:trigger s.h[i].freeID} :: 1 <= i <= s.free ==>
      1 <= s.h[i].freeID <= s.tail && s.h[s.h[i].freeID].state.Unset?
  }

  ghost predicate EntriesDistinct(s: Sys) {
    forall i: Index, k: Index {:trigger s.h[i].freeID, s.h[k].freeID} :: 1 <= i < k <= s.free ==>
      s.h[i].freeID != s.h[k].freeID
  }

  ghost predicate VacantListed(s: Sys) {
    && (forall j: Index {:trigger OnStack(s, j)} :: 1 <= j <= s.tail && s.h[j].state.Unset? ==> OnStack(s, j))
    && (forall j: Index {:trigger s.h[j].state} :: j == 0 || j > s.tail ==> s.h[j].state.Unset?)
  }

  /** The entries are distinct and are exactly the vacant slots up to the tail. */
  ghost predicate StackOk(s: Sys) {
    s.free <= s.tail && EntriesVacant(s) && EntriesDistinct(s) && VacantListed(s)
  }

  function Ids(h: Table, n: Index): set<Index> {
    if n == 0 then {} else Ids(h, n - 1) + {h[n].freeID}
  }

  function Upto(n: Index): set<Index> {
    if n == 0 then {} else Upto(n - 1) + {n}
  }

  lemma UptoCount(n: Index)
    ensures |Upto(n)| == n && forall x: Index :: x in Upto(n) <==> 1 <= x <= n
  {
    if n > 0 { UptoCount(n - 1); }
  }

  lemma {:induction false} IdsEntry(h: Table, n: Index, x: Index) returns (i: Index)
    requires x in Ids(h, n)
    ensures 1 <= i <= n && h[i].freeID == x
  {
    if x == h[n].freeID { i := n; } else { i := IdsEntry(h, n - 1, x); }
  }

  ghost predicate DistinctIds(h: Table, n: Index) {
    forall i: Index, j: Index {:trigger h[i].freeID, h[j].freeID} :: 1 <= i < j <= n ==> h[i].freeID != h[j].freeID
  }

  lemma {:induction false} IdsCount(h: Table, n: Index)
    requires DistinctIds(h, n)
    ensures |Ids(h, n)| == n
  {
    if n > 0 {
      IdsCount(h, n - 1);
      var x := h[n].freeID;
      if x in Ids(h, n - 1) {
        var _ := IdsEntry(h, n - 1, x);
      }
      assert Ids(h, n) == Ids(h, n - 1) + {x};
    }
  }

  /** While a slot is in use the stack cannot be as long as the used part of the table. */
  lemma Room(s: Sys, j: Index)
    requires StackOk(s) && !s.h[j].state.Unset?
    ensures s.free < s.tail
  {
    assert DistinctIds(s.h, s.free);
    IdsCount(s.h, s.free);
    forall x | x in Ids(s.h, s.free) ensures 1 <= x <= s.tail && x != j {
      var i := IdsEntry(s.h, s.free, x);
    }
    UptoCount(s.tail);
    var ids, all := Ids(s.h, s.free), Upto(s.tail);
    assert ids <= all - {j};
    assert |all - {j}| == s.tail - 1;
    Cardinality(ids, all - {j});
  }

  lemma Cardinality(a: set<Index>, b: set<Index>)
    requires a <= b
    ensures |a| <= |b|
  {
    assert a + (b - a) == b;
  }

  ghost predicate OnlyTaken(s: Sys, t: Sys, i: Index) {
    && !t.h[i].state.Unset?
    && (forall j: Index {:trigger t.h[j].freeID} :: t.h[j].freeID == s.h[j].freeID)
    && (forall j: Index {:trigger t.h[j].state} :: j != i ==> t.h[j].state.Unset? == s.h[j].state.Unset?)
  }

  lemma Listed(s: Sys, t: Sys, j: Index)
    requires OnStack(s, j) && s.free <= t.free + 1
    requires forall i: Index {:trigger t.h[i].freeID} :: 1 <= i <= s.free && i <= t.free ==>
          t.h[i].freeID == s.h[i].freeID
    requires t.free < s.free ==> s.h[s.free].freeID != j
    ensures OnStack(t, j)
  {
    var k: Index :| 1 <= k <= s.free && s.h[k].freeID == j;
    assert t.h[k].freeID == j || k == s.free;
  }

  lemma StackPopped(s: Sys, t: Sys)
    requires StackOk(s) && 0 < s.free && t.tail == s.tail && t.free == s.free - 1
    requires OnlyTaken(s, t, s.h[s.free].freeID)
    ensures StackOk(t)
  {
    var i := s.h[s.free].freeID;
    assert EntriesVacant(t) by {
      forall k: Index | 1 <= k <= t.free
        ensures 1 <= t.h[k].freeID <= t.tail && t.h[t.h[k].freeID].state.Unset?
      {
        assert s.h[k].freeID != i;
      }
    }
    assert VacantListed(t) by {
      forall j: Index | 1 <= j <= t.tail && t.h[j].state.Unset? ensures OnStack(t, j) {
        Listed(s, t, j);
      }
    }
  }

  lemma StackGrown(s: Sys, t: Sys)
    requires StackOk(s) && s.free == 0 && t.tail == s.tail + 1 && t.free == 0
    requires OnlyTaken(s, t, s.tail + 1)
    ensures StackOk(t)
  {
    assert forall j: Index :: 1 <= j <= s.tail && s.h[j].state.Unset? ==> OnStack(s, j);
  }

  /** MakePrimHandle: the slot just allocated comes into use. */
  lemma StackMade(s: Sys, t: Sys)
    requires StackOk(s) && AllocSlot(s) != 0
    requires t.tail == Alloc(s).tail && t.free == Alloc(s).free
    requires OnlyTaken(s, t, AllocSlot(s))
    ensures StackOk(t)
  {
    if s.free != 0 { StackPopped(s, t); } else { StackGrown(s, t); }
  }

  lemma StackVacated(s: Sys, t: Sys, j: Index)
    requires StackOk(s) && !s.h[j].state.Unset? && s.free < MAX_HANDLES
    requires t.tail == s.tail && t.free == s.free + 1 && t.h[j].state.Unset?
    requires forall x: Index {:trigger t.h[x].freeID} :: t.h[x].freeID == (if x == s.free + 1 then j else s.h[x].freeID)
    requires forall x: Index {:trigger t.h[x].state} :: x != j ==> t.h[x].state.Unset? == s.h[x].state.Unset?
    ensures StackOk(t)
  {
    Room(s, j);
    forall x: Index | 1 <= x <= t.tail && t.h[x].state.Unset? ensures OnStack(t, x) {
      if x == j {
        assert t.h[s.free + 1].freeID == j;
      } else {
        Listed(s, t, x);
      }
    }
  }

  lemma StackSame(s: Sys, t: Sys)
    requires StackOk(s) && t.tail == s.tail && t.free == s.free
    requires forall x: Index {:trigger t.h[x].freeID} :: t.h[x].freeID == s.h[x].freeID
    requires forall x: Index {:trigger t.h[x].state} :: t.h[x].state.Unset? == s.h[x].state.Unset?
    ensures StackOk(t)
  {
    forall x: Index | 1 <= x <= t.tail && t.h[x].state.Unset? ensures OnStack(t, x) {
      Listed(s, t, x);
    }
  }
}
