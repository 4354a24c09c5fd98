/** RenderMenu: the scanning loops that fill a page and move the states of the menu. */
module MenuManager {
  import opened MenuPages

  /** menu_states_t, as far as paging needs it. */
  class MenuStates {
    var firstItem: nat
    var lastItem: nat
    var itemOnPage: nat

    function View(): States
      reads this
    {
      States(firstItem, lastItem)
    }

    constructor ()
      ensures View() == States(0, 0)
    {
      firstItem, lastItem, itemOnPage := 0, 0, 0;
    }

    /** The slot items from start on, up to m of them, and the one after those. */
    static method FindItems(draw: seq<bool>, m: nat, start: nat, order: Order)
        returns (found: seq<nat>, extra: Option<nat>)
      requires m >= 1 && draw != [] && (order == Ascending ==> start < |draw|)
      ensures found == Take(From(draw, start, order), m)
      ensures extra == if |From(draw, start, order)| > m then Some(From(draw, start, order)[m]) else None
    {
      hide Up, Down, DownFromItem;
      ghost var l := From(draw, start, order);
      found, extra := [], None;
      var i: nat := start;
      assert found + l == l;
      while true
        invariant order == Ascending ==> i < |draw|
        invariant |found| <= m && l == found + From(draw, i, order)
        decreases if order == Ascending then |draw| - i else i
      {
        FromStep(draw, i, order);
        if i < |draw| && draw[i] {
          if |found| >= m {
            extra := Some(i);
            assert l[..m] == found && l[m] == i;
            return;
          }
          Moved(found, i, After(draw, i, order));
          found := found + [i];
        }
        assert l == found + After(draw, i, order);
        if order == Descending {
          if i == 0 { break; }
          i := i - 1;
        } else {
          if i >= |draw| - 1 { break; }
          i := i + 1;
        }
      }
      assert l == found;
    }

    /** The next slot item after p. */
    static method FindAbove(draw: seq<bool>, p: nat) returns (item: Option<nat>)
      requires p < |draw|
      ensures item == Above(draw, p)
    {
      item := None;
      if p >= |draw| - 1 { return; }
      var i := p + 1;
      while i < |draw|
        invariant p < i <= |draw| && Up(draw, p + 1) == Up(draw, i)
      {
        if draw[i] { return Some(i); }
        i := i + 1;
      }
    }

    /** The last slot item before p, not counting item 0. */
    static method FindBelow(draw: seq<bool>, p: nat) returns (item: Option<nat>)
      requires p < |draw|
      ensures item == Below(draw, p)
    {
      hide Down;
      DownNone(draw);
      item := None;
      if p == 0 { return; }
      var i: nat := p - 1;
      while i != 0
        invariant i < p && Down(draw, p) == Down(draw, i + 1)
      {
        DownStep(draw, i);
        if draw[i] { return Some(i); }
        i := i - 1;
      }
      DownStep(draw, 0);
    }

    /** The page of a menu with pagination m, for a fixed answer to what can be drawn. */
    method RenderPage(draw: seq<bool>, m: nat, asked: Order) returns (page: Option<Page>)
      modifies this
      ensures m < 2 ==> page == None && View() == old(View())
      ensures m >= 2 ==> (page, View()) == Render(draw, m, old(View()), asked)
      ensures page.Some? ==> page.value.items != [] && itemOnPage == page.value.items[0]
    {
      hide Up, Down, DownFromItem, Take;
      if m < 2 || |draw| == 0 { return None; }
      var start, order := 0, asked;
      if order == Ascending {
        start := lastItem;
        if start >= |draw| {
          start := |draw| - 1;
          order := Descending;
        }
      } else {
        start := firstItem;
        if start <= m {
          start := 0;
          order := Ascending;
        }
      }
      var found, extra := FindItems(draw, m, start, order);
      TakeSome(From(draw, start, order), m);
      if found == [] { return None; }
      page := FinishPage(draw, m, found, extra, order, start);
    }

    method FinishPage(draw: seq<bool>, m: nat, found: seq<nat>, extra: Option<nat>, order: Order, ghost start: nat)
        returns (page: Option<Page>)
      requires m >= 1 && found != [] && found == Take(From(draw, start, order), m)
      requires extra == if |From(draw, start, order)| > m then Some(From(draw, start, order)[m]) else None
      modifies this
      ensures order == Ascending ==> (page, View()) == RenderUp(draw, m, old(View()), start)
      ensures order != Ascending ==> (page, View()) == RenderDown(draw, m, old(View()), start)
      ensures page.Some? && page.value.items != [] && itemOnPage == page.value.items[0]
    {
      hide Up, Down, DownFromItem, Take, Above, Below;
      var prev, next := false, false;
      TakeSome(From(draw, start, order), m);
      FoundWithin(draw, start, order);
      if order == Descending {
        if extra.Some? {
          prev := true;
          firstItem := extra.value;
        }
        var above := FindAbove(draw, found[0]);
        if above.Some? {
          next := true;
          lastItem := above.value;
        }
        assert Upwards(found)[0] == found[|found| - 1];
        itemOnPage := found[|found| - 1];
        page := Some(Page(Upwards(found), prev, next));
      } else {
        if extra.Some? {
          next := true;
          lastItem := extra.value;
        }
        var below := FindBelow(draw, found[0]);
        if below.Some? {
          prev := true;
          firstItem := below.value;
        }
        itemOnPage := found[0];
        page := Some(Page(found, prev, next));
      }
    }
  }

  lemma TakeSome(l: seq<nat>, m: nat)
    requires m >= 1
    ensures Take(l, m) == [] <==> l == []
    ensures l != [] ==> Take(l, m)[0] == l[0]
  {
  }

  lemma Moved(found: seq<nat>, i: nat, rest: seq<nat>)
    ensures found + ([i] + rest) == (found + [i]) + rest
  {
  }

  /** The slot items from i on, in the order of the search. */
  function From(draw: seq<bool>, i: nat, order: Order): seq<nat> {
    if order == Ascending then Up(draw, i) else DownFromItem(draw, i)
  }

  /** Those behind i. */
  function After(draw: seq<bool>, i: nat, order: Order): seq<nat> {
    if order == Ascending then Up(draw, i + 1) else if i == 0 then [] else DownFromItem(draw, i - 1)
  }

  lemma FromStep(draw: seq<bool>, i: nat, order: Order)
    requires order == Ascending ==> i < |draw|
    ensures From(draw, i, order) ==
          (if i < |draw| && draw[i] then [i] + After(draw, i, order) else After(draw, i, order))
    ensures order == Ascending && i + 1 >= |draw| ==> After(draw, i, order) == []
  {
    if order == Descending && i < |draw| {
      DownStep(draw, i);
      if i == 0 { assert Down(draw, 0) == []; } else { assert i - 1 + 1 == i; }
    }
  }

  lemma DownNone(draw: seq<bool>)
    ensures Down(draw, 0) == []
  {
  }

  lemma DownStep(draw: seq<bool>, i: nat)
    requires i < |draw|
    ensures Down(draw, i + 1) == if draw[i] then [i] + Down(draw, i) else Down(draw, i)
  {
  }

  lemma FoundWithin(draw: seq<bool>, start: nat, order: Order)
    ensures var l := From(draw, start, order); l != [] ==> l[0] < |draw|
  {
    if order == Ascending {
      UpSorted(draw, start);
    } else {
      DownHead(draw, if start < |draw| then start + 1 else |draw|);
    }
  }

  lemma {:induction false} DownHead(draw: seq<bool>, n: nat)
    requires n <= |draw|
    ensures Down(draw, n) != [] ==> Down(draw, n)[0] < n
  {
    if n > 0 && !draw[n - 1] { DownHead(draw, n - 1); }
  }
}
