/** Every page reached by Next and Back is an aligned chunk of the drawable items. */
module MenuRuns {
  import opened MenuPages

  /** The last m items of x, found downwards and drawn upwards, are in the order of x again. */
  lemma LastItems(x: seq<nat>, m: nat)
    requires 0 < m <= |x|
    ensures Upwards(Take(Upwards(x), m)) == x[|x| - m..]
    ensures Upwards(x)[0] == x[|x| - 1] && (m < |x| ==> Upwards(x)[m] == x[|x| - 1 - m])
  {
    assert |Take(Upwards(x), m)| == m;
  }

  ghost predicate At(draw: seq<bool>, m: nat, a: nat, st: States) {
    var d := Up(draw, 0);
    && a < |d| && Aligned(a, m)
    && (a + m < |d| ==> st.last == d[a + m])
    && (a > 0 ==> st.first == d[a - 1])
  }

  /** The chunk at a, with Back offered unless it is the first and Next unless it is the last. */
  function PageAt(draw: seq<bool>, m: nat, a: nat): Page {
    Page(Chunk(draw, m, a), a > 0, a + m < |Up(draw, 0)|)
  }

  lemma AlignedStep(a: nat, m: nat)
    requires Aligned(a, m) && m >= 2
    ensures Aligned(a + m, m)
    ensures a > 0 ==> a >= m && Aligned(a - m, m)
    ensures a > 0 ==> a == m || a >= 2 * m
  {
    var k: nat :| a == k * m;
    assert a + m == (k + 1) * m;
    if k > 0 {
      assert a - m == (k - 1) * m;
      if k > 1 { assert a == 2 * m + (k - 2) * m && (k - 2) * m >= 0; }
    }
  }

  lemma UpHead(draw: seq<bool>)
    requires Up(draw, 0) != []
    ensures draw != [] && Up(draw, 0)[0] <= |draw| && Below(draw, Up(draw, 0)[0]).None?
  {
    DownFrom(draw, 0);
    assert Up(draw, 0)[..0] == [];
  }

  lemma FirstPage(draw: seq<bool>, m: nat, st: States)
    requires m >= 2 && Up(draw, 0) != []
    ensures var (page, next) := RenderUp(draw, m, st, 0);
      page == Some(PageAt(draw, m, 0)) && At(draw, m, 0, next)
  {
    hide Up, Down, Upwards, Below;
    UpHead(draw);
    assert Up(draw, 0)[0..] == Up(draw, 0);
    assert 0 == 0 * m;
  }

  /** A menu opens on the first chunk. */
  lemma OpenPage(draw: seq<bool>, m: nat)
    requires m >= 2
    ensures var (page, st) := Render(draw, m, States(0, 0), Ascending);
      if Up(draw, 0) == [] then page == None else page == Some(PageAt(draw, m, 0)) && At(draw, m, 0, st)
  {
    if Up(draw, 0) != [] {
      UpHead(draw);
      FirstPage(draw, m, States(0, 0));
    }
  }

  lemma BelowAt(draw: seq<bool>, a: nat)
    requires 1 < a < |Up(draw, 0)|
    ensures var d := Up(draw, 0); d[a] < |draw| && Below(draw, d[a]) == Some(d[a - 1])
  {
    hide Up, Down, Upwards;
    var d := Up(draw, 0);
    UpSorted(draw, 0);
    DownFrom(draw, a);
    LastFound(d[..a]);
  }

  /** A menu may also be opened at an item further down. Back is then missing exactly when item 0 is the
      one drawable item before the page: the search stops short of it. */
  lemma BackMissing(draw: seq<bool>, m: nat, a: nat)
    requires m >= 2 && 0 < a < |Up(draw, 0)|
    ensures var d := Up(draw, 0); var (page, _) := Render(draw, m, States(0, d[a]), Ascending);
      page.Some? && page.value.items[0] == d[a] && (page.value.prev <==> d[a - 1] != 0)
  {
    hide Up, Down, Upwards;
    var d := Up(draw, 0);
    UpSorted(draw, 0);
    UpFrom(draw, 0, a);
    DownFrom(draw, a);
    LastFound(d[..a]);
    assert d[a..][0] == d[a];
  }

  /** Next goes on to the following chunk. */
  lemma NextPage(draw: seq<bool>, m: nat, a: nat, st: States)
    requires m >= 2 && At(draw, m, a, st) && a + m < |Up(draw, 0)|
    ensures var (page, next) := Render(draw, m, st, Ascending);
      page == Some(PageAt(draw, m, a + m)) && At(draw, m, a + m, next)
  {
    hide Up, Down, Upwards, Aligned, Below;
    var d := Up(draw, 0);
    UpSorted(draw, 0);
    UpFrom(draw, 0, a + m);
    BelowAt(draw, a + m);
    AlignedStep(a, m);
    assert d[a + m..][0] == d[a + m];
    assert d[a + m..] != [] && (|d[a + m..]| > m ==> d[a + m..][m] == d[a + m + m]);
  }

  /** Back returns to the chunk before. */
  lemma BackPage(draw: seq<bool>, m: nat, a: nat, st: States)
    requires m >= 2 && At(draw, m, a, st) && a > 0
    ensures a >= m
    ensures var (page, next) := Render(draw, m, st, Descending);
      page == Some(PageAt(draw, m, a - m)) && At(draw, m, a - m, next)
  {
    hide Up, Down, Upwards, Aligned, RenderUp, RenderDown, PageAt;
    var d := Up(draw, 0);
    UpSorted(draw, 0);
    AlignedStep(a, m);
    if d[a - 1] <= m {
      FirstPage(draw, m, st);
    } else {
      BackDown(draw, m, a, st);
    }
  }

  /** The m items before the a-th, found downwards. */
  lemma BackList(d: seq<nat>, m: nat, a: nat)
    requires m >= 2 && m <= a < |d|
    ensures var l := Upwards(d[..a]);
      && |l| == a && l[0] == d[a - 1] && (a > m ==> l[m] == d[a - m - 1])
      && Upwards(Take(l, m)) == Take(d[a - m..], m)
  {
    var x := d[..a];
    LastItems(x, m);
    assert x[a - m..] == d[a - m..][..m];
  }

  /** What is found downwards from before the a-th drawable item. */
  lemma BackFound(draw: seq<bool>, m: nat, a: nat)
    requires m >= 2 && m <= a < |Up(draw, 0)|
    ensures var d := Up(draw, 0); var l := DownFromItem(draw, d[a - 1]);
      && |l| == a && l[0] == d[a - 1] && (a > m ==> l[m] == d[a - m - 1])
      && Upwards(Take(l, m)) == Take(d[a - m..], m) && Above(draw, l[0]) == Some(d[a])
  {
    hide Up, Down, Upwards, Take, Above;
    var d := Up(draw, 0);
    DownFrom(draw, a - 1);
    BackList(d, m, a);
    AboveAt(draw, a);
    assert a - 1 + 1 == a;
    assert DownFromItem(draw, d[a - 1]) == Upwards(d[..a]);
  }

  lemma BackDown(draw: seq<bool>, m: nat, a: nat, st: States)
    requires m >= 2 && At(draw, m, a, st) && a >= m && Aligned(a - m, m)
    ensures var (page, next) := RenderDown(draw, m, st, Up(draw, 0)[a - 1]);
      page == Some(PageAt(draw, m, a - m)) && At(draw, m, a - m, next)
  {
    hide Up, Upwards, Aligned, Take, Above, DownFromItem;
    BackFound(draw, m, a);
  }

  lemma AboveAt(draw: seq<bool>, a: nat)
    requires 0 < a < |Up(draw, 0)|
    ensures Above(draw, Up(draw, 0)[a - 1]) == Some(Up(draw, 0)[a])
  {
    hide Up;
    UpFrom(draw, 0, a - 1);
    assert a - 1 + 1 == a;
    assert Up(draw, 0)[a..][0] == Up(draw, 0)[a];
  }

  // ----- runs -----

  datatype Press = Next | Back

  /** A button works while it is offered. */
  function Pressed(draw: seq<bool>, m: nat, at: (Page, States), p: Press): (Page, States)
    requires m >= 1
  {
    if p == Next && at.0.next then
      var r := Render(draw, m, at.1, Ascending);
      if r.0.Some? then (r.0.value, r.1) else at
    else if p == Back && at.0.prev then
      var r := Render(draw, m, at.1, Descending);
      if r.0.Some? then (r.0.value, r.1) else at
    else at
  }

  function Run(draw: seq<bool>, m: nat, presses: seq<Press>): Option<(Page, States)>
    requires m >= 1
  {
    if presses == [] then
      var r := Render(draw, m, States(0, 0), Ascending);
      if r.0.Some? then Some((r.0.value, r.1)) else None
    else
      var before := Run(draw, m, presses[..|presses| - 1]);
      if before.Some? then Some(Pressed(draw, m, before.value, presses[|presses| - 1])) else None
  }

  /** Where the presses lead among n drawable items. */
  function Offset(n: nat, m: nat, presses: seq<Press>): nat {
    if presses == [] then 0
    else
      var a := Offset(n, m, presses[..|presses| - 1]);
      match presses[|presses| - 1]
      case Next => if a + m < n then a + m else a
      case Back => if a >= m then a - m else a
  }

  /** Every run of presses shows the aligned chunk they lead to; Back and Next are offered exactly when
      there is a chunk that way. */
  lemma {:induction false} RunPages(draw: seq<bool>, m: nat, presses: seq<Press>)
    requires m >= 2
    ensures var d := Up(draw, 0); var a := Offset(|d|, m, presses); var r := Run(draw, m, presses);
      if d == [] then r == None
      else r.Some? && r.value.0 == PageAt(draw, m, a) && At(draw, m, a, r.value.1)
  {
    hide Up, Down, Upwards, Aligned, Render, Chunk;
    var d := Up(draw, 0);
    OpenPage(draw, m);
    if presses != [] {
      var init := presses[..|presses| - 1];
      RunPages(draw, m, init);
      if d != [] {
        var a, st := Offset(|d|, m, init), Run(draw, m, init).value.1;
        AlignedStep(a, m);
        if presses[|presses| - 1] == Next {
          if a + m < |d| { NextPage(draw, m, a, st); }
        } else if a > 0 {
          BackPage(draw, m, a, st);
        }
      }
    }
  }

  /** Back undoes Next. */
  lemma BackUndoesNext(draw: seq<bool>, m: nat, presses: seq<Press>)
    requires m >= 2 && Run(draw, m, presses).Some? && Run(draw, m, presses).value.0.next
    ensures Run(draw, m, presses + [Next, Back]).Some?
    ensures Run(draw, m, presses + [Next, Back]).value.0 == Run(draw, m, presses).value.0
  {
    hide Up, Render, Chunk, At;
    var d := Up(draw, 0);
    var one, two := presses + [Next], presses + [Next, Back];
    RunPages(draw, m, presses);
    RunPages(draw, m, two);
    assert two[..|two| - 1] == one && one[..|one| - 1] == presses;
  }

  function Nexts(k: nat): seq<Press> { if k == 0 then [] else Nexts(k - 1) + [Next] }

  /** The items of the first k + 1 pages, one after the other. */
  function Shown(draw: seq<bool>, m: nat, k: nat): seq<nat>
    requires m >= 1
  {
    var page := if Run(draw, m, Nexts(k)).Some? then Run(draw, m, Nexts(k)).value.0.items else [];
    if k == 0 then page else Shown(draw, m, k - 1) + page
  }

  lemma {:induction false} NextsOffset(n: nat, m: nat, k: nat)
    requires k * m < n
    ensures Offset(n, m, Nexts(k)) == k * m
  {
    if k > 0 {
      assert (k - 1) * m + m == k * m;
      NextsOffset(n, m, k - 1);
      assert Nexts(k)[..|Nexts(k)| - 1] == Nexts(k - 1);
    }
  }

  lemma NextPart(d: seq<nat>, a: nat, m: nat)
    requires a < |d|
    ensures d[..a] + Take(d[a..], m) == if a + m < |d| then d[..a + m] else d
  {
  }

  /** Going on with Next shows the drawable items in their order, each once; by the last page all. */
  lemma {:induction false} NextShowsAll(draw: seq<bool>, m: nat, k: nat)
    requires m >= 2 && k * m < |Up(draw, 0)|
    ensures var d := Up(draw, 0);
      Shown(draw, m, k) == if (k + 1) * m < |d| then d[..(k + 1) * m] else d
  {
    hide Up, Upwards, Render, Run, Nexts, Take, At;
    var d := Up(draw, 0);
    var a, b := k * m, (k + 1) * m;
    assert b == a + m;
    NextsOffset(|d|, m, k);
    RunPages(draw, m, Nexts(k));
    if k > 0 {
      assert (k - 1) * m + m == a;
      NextShowsAll(draw, m, k - 1);
      assert Shown(draw, m, k - 1) == d[..a];
      NextPart(d, a, m);
    } else {
      NextPart(d, 0, m);
      assert a == 0 && d[0..] == d && d[..0] + Take(d, m) == Take(d, m);
    }
  }

  // ----- a search that would begin past the end -----

  /** Next from past the last item, which well-behaved menus do not come to, gives the last items. */
  lemma PastEnd(draw: seq<bool>, m: nat, st: States)
    requires m >= 1 && draw != [] && st.last >= |draw|
    ensures var d := Up(draw, 0);
      Render(draw, m, st, Ascending).0 ==
        if d == [] then None
        else if |d| > m then Some(Page(d[|d| - m..], true, false))
        else Some(Page(d, false, false))
  {
    hide Up, Down, Upwards;
    var d, n := Up(draw, 0), |draw|;
    DownIs(draw, n);
    assert draw[..n] == draw;
    assert DownFromItem(draw, n - 1) == Upwards(d);
    SameLength(d);
    if d != [] {
      LastItems(d, if |d| > m then m else |d|);
      UpSorted(draw, 0);
      LastFound(d);
      NoneAbove(draw);
    }
  }

  lemma SameLength(d: seq<nat>)
    ensures |Upwards(d)| == |d|
  {
  }

  lemma NoneAbove(draw: seq<bool>)
    requires Up(draw, 0) != []
    ensures Above(draw, Up(draw, 0)[|Up(draw, 0)| - 1]) == None
  {
    UpFrom(draw, 0, |Up(draw, 0)| - 1);
  }
}
