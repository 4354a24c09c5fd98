/** Menu pagination (RenderMenu of sourcemod/core/MenuManager.cpp): from which item a page is searched,
    what is on it and which way it can be left, as functions of the drawable items. */
module MenuPages {
  datatype Option<+T> = None | Some(value: T)

  datatype Order = Ascending | Descending

  /** The items to search from: backwards for the previous page, forwards for the next. */
  datatype States = States(first: nat, last: nat)

  /** The items in the order in which they are drawn, and whether Back and Next are offered. */
  datatype Page = Page(items: seq<nat>, prev: bool, next: bool)

  /** The drawable items from i on. */
  function Up(draw: seq<bool>, i: nat): seq<nat>
    decreases |draw| - i
  {
    if i >= |draw| then [] else (if draw[i] then [i] else []) + Up(draw, i + 1)
  }

  /** The drawable items below n, downwards. */
  function Down(draw: seq<bool>, n: nat): seq<nat>
    requires n <= |draw|
  {
    if n == 0 then [] else (if draw[n - 1] then [n - 1] else []) + Down(draw, n - 1)
  }

  /** Items found downwards are drawn from the last found. */
  function Upwards(found: seq<nat>): seq<nat> {
    seq(|found|, i requires 0 <= i < |found| => found[|found| - 1 - i])
  }

  /** The next drawable item after p. */
  function Above(draw: seq<bool>, p: nat): Option<nat> {
    var l := Up(draw, p + 1);
    if l == [] then None else Some(l[0])
  }

  /** The last drawable item before p, as the search finds it: it stops short of item 0. */
  function Below(draw: seq<bool>, p: nat): Option<nat>
    requires p <= |draw|
  {
    var l := Down(draw, p);
    if l == [] || l[0] == 0 then None else Some(l[0])
  }

  /** Where the search begins, and which way it goes. */
  function Start(draw: seq<bool>, m: nat, st: States, order: Order): (nat, Order)
    requires draw != []
  {
    match order
    case Ascending => if st.last >= |draw| then (|draw| - 1, Descending) else (st.last, Ascending)
    case Descending => if st.first <= m then (0, Ascending) else (st.first, Descending)
  }

  function Take(l: seq<nat>, m: nat): seq<nat> { if |l| > m then l[..m] else l }

  function RenderUp(draw: seq<bool>, m: nat, st: States, start: nat): (Option<Page>, States)
    requires m >= 1
  {
    var l := Up(draw, start);
    if l == [] then (None, st)
    else
      var last := if |l| > m then l[m] else st.last;
      var below := if l[0] <= |draw| then Below(draw, l[0]) else None;
      (Some(Page(Take(l, m), below.Some?, |l| > m)), States(if below.Some? then below.value else st.first, last))
  }

  /** The drawable items from start on, downwards; positions past the end are not items. */
  function DownFromItem(draw: seq<bool>, start: nat): seq<nat> {
    Down(draw, if start < |draw| then start + 1 else |draw|)
  }

  function RenderDown(draw: seq<bool>, m: nat, st: States, start: nat): (Option<Page>, States)
    requires m >= 1
  {
    var l := DownFromItem(draw, start);
    if l == [] then (None, st)
    else
      var first := if |l| > m then l[m] else st.first;
      var above := Above(draw, l[0]);
      var last := if above.Some? then above.value else st.last;
      (Some(Page(Upwards(Take(l, m)), |l| > m, above.Some?)), States(first, last))
  }

  /** One page of m items at most, and the states it leaves. */
  function Render(draw: seq<bool>, m: nat, st: States, order: Order): (Option<Page>, States)
    requires m >= 1
  {
    if draw == [] then (None, st)
    else
      var (start, way) := Start(draw, m, st, order);
      if way == Ascending then RenderUp(draw, m, st, start) else RenderDown(draw, m, st, start)
  }

  // ----- chunks of the drawable items -----

  /** The chunk that starts at the a-th drawable item. */
  function Chunk(draw: seq<bool>, m: nat, a: nat): seq<nat> {
    var d := Up(draw, 0);
    if a >= |d| then [] else Take(d[a..], m)
  }

  ghost predicate Aligned(a: nat, m: nat) {
    exists k: nat :: a == k * m
  }

  lemma {:induction false} UpIn(draw: seq<bool>, i: nat, x: nat)
    ensures x in Up(draw, i) <==> i <= x < |draw| && draw[x]
    decreases |draw| - i
  {
    if i < |draw| { UpIn(draw, i + 1, x); }
  }

  /** Increasing numbers, the j-th at least i + j, all below n. */
  predicate Increasing(l: seq<nat>, i: nat, n: nat) {
    && (forall j, k {:trigger l[j], l[k]} :: 0 <= j < k < |l| ==> l[j] < l[k])
    && (forall j {:trigger l[j]} :: 0 <= j < |l| ==> i + j <= l[j] < n)
  }

  lemma IncreasingMore(l: seq<nat>, i: nat, n: nat)
    requires Increasing(l, i + 1, n) && i < n
    ensures Increasing([i] + l, i, n) && Increasing(l, i, n)
  {
    var r := [i] + l;
    assert forall j {:trigger r[j]} :: 0 < j < |r| ==> r[j] == l[j - 1];
  }

  lemma {:induction false} UpIncreasing(draw: seq<bool>, i: nat)
    ensures Increasing(Up(draw, i), i, |draw|)
    decreases |draw| - i
  {
    hide Increasing;
    if i < |draw| {
      UpIncreasing(draw, i + 1);
      IncreasingMore(Up(draw, i + 1), i, |draw|);
      assert Up(draw, i) == if draw[i] then [i] + Up(draw, i + 1) else Up(draw, i + 1);
    } else {
      NoneIncreasing(i, |draw|);
    }
  }

  lemma NoneIncreasing(i: nat, n: nat)
    ensures Increasing([], i, n)
  {
  }

  lemma UpSorted(draw: seq<bool>, i: nat)
    ensures forall j, k {:trigger Up(draw, i)[j], Up(draw, i)[k]} :: 0 <= j < k < |Up(draw, i)| ==>
          Up(draw, i)[j] < Up(draw, i)[k]
    ensures forall j {:trigger Up(draw, i)[j]} :: 0 <= j < |Up(draw, i)| ==> i + j <= Up(draw, i)[j] < |draw|
  {
    hide Up;
    UpIncreasing(draw, i);
  }

  lemma Consed(draw: seq<bool>, i: nat)
    requires i < |draw| && draw[i]
    ensures Up(draw, i) == [i] + Up(draw, i + 1)
    ensures forall j {:trigger Up(draw, i)[j]} :: 0 < j < |Up(draw, i)| ==> Up(draw, i)[j] == Up(draw, i + 1)[j - 1]
  {
  }

  /** From a drawable item on, the rest of the list. */
  lemma {:induction false} UpFrom(draw: seq<bool>, i: nat, a: nat)
    requires a < |Up(draw, i)|
    ensures Up(draw, Up(draw, i)[a]) == Up(draw, i)[a..] && Up(draw, Up(draw, i)[a] + 1) == Up(draw, i)[a + 1..]
    decreases |draw| - i
  {
    if i < |draw| {
      if draw[i] {
        Consed(draw, i);
        if a > 0 {
          UpFrom(draw, i + 1, a - 1);
          Dropped(i, Up(draw, i + 1), a);
        } else {
          Dropped(i, Up(draw, i + 1), 0);
        }
      } else {
        assert Up(draw, i) == Up(draw, i + 1);
        UpFrom(draw, i + 1, a);
      }
    }
  }

  lemma Dropped(x: nat, r: seq<nat>, a: nat)
    requires a <= |r|
    ensures ([x] + r)[a + 1..] == r[a..] && (a > 0 ==> ([x] + r)[a..] == r[a - 1..]) && ([x] + r)[0..] == [x] + r
  {
  }

  /** What is drawn first was found last. */
  lemma LastFound(l: seq<nat>)
    requires l != []
    ensures |Upwards(l)| == |l| && Upwards(l)[0] == l[|l| - 1]
  {
  }

  lemma UpwardsFirst(l: seq<nat>, x: nat)
    ensures Upwards(l + [x]) == [x] + Upwards(l)
  {
  }

  lemma {:induction false} UpSplit(draw: seq<bool>, i: nat, n: nat)
    requires i <= n <= |draw|
    ensures Up(draw, i) == Up(draw[..n], i) + Up(draw, n)
    decreases n - i
  {
    if i < n {
      UpSplit(draw, i + 1, n);
    }
  }

  /** One more item at the end of the menu. */
  lemma UpLonger(draw: seq<bool>, n: nat)
    requires 0 < n <= |draw|
    ensures Up(draw[..n], 0) == Up(draw[..n - 1], 0) + (if draw[n - 1] then [n - 1] else [])
  {
    UpSplit(draw[..n], 0, n - 1);
    assert draw[..n][..n - 1] == draw[..n - 1];
    assert Up(draw[..n], n) == [];
    assert Up(draw[..n], n - 1) == if draw[n - 1] then [n - 1] else [];
  }

  /** Downwards from n: the list up to n, reversed. */
  lemma {:induction false} DownIs(draw: seq<bool>, n: nat)
    requires n <= |draw|
    ensures Down(draw, n) == Upwards(Up(draw[..n], 0))
  {
    hide Upwards, Up;
    if n > 0 {
      DownIs(draw, n - 1);
      UpLonger(draw, n);
      if draw[n - 1] {
        UpwardsFirst(Up(draw[..n - 1], 0), n - 1);
      } else {
        assert Up(draw[..n], 0) == Up(draw[..n - 1], 0);
      }
    } else {
      NoneUp(draw);
    }
  }

  lemma NoneUp(draw: seq<bool>)
    ensures Upwards(Up(draw[..0], 0)) == []
  {
  }

  /** Downwards from below the a-th drawable item: those before it, reversed. */
  lemma DownFrom(draw: seq<bool>, a: nat)
    requires a < |Up(draw, 0)|
    ensures var d := Up(draw, 0); d[a] < |draw| && Down(draw, d[a]) == Upwards(d[..a])
    ensures var d := Up(draw, 0); Down(draw, d[a] + 1) == Upwards(d[..a + 1])
  {
    var d := Up(draw, 0);
    UpSorted(draw, 0);
    DownIs(draw, d[a]);
    DownIs(draw, d[a] + 1);
    UpSplit(draw, 0, d[a]);
    UpSplit(draw, 0, d[a] + 1);
    UpFrom(draw, 0, a);
    Prefixes(d, Up(draw[..d[a]], 0), a);
    Prefixes(d, Up(draw[..d[a] + 1], 0), a + 1);
  }

  lemma Prefixes(d: seq<nat>, x: seq<nat>, a: nat)
    requires a <= |d| && d == x + d[a..]
    ensures x == d[..a]
  {
    assert |x| == a;
    assert x == (x + d[a..])[..a];
  }
}
