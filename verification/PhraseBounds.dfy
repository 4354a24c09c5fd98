/** An accepted #format list fills every slot, and an expansion fits the buffer that is never checked. */
module PhraseBounds {
  import opened PhraseFormat

  // ----- pigeonhole -----

  function Filled(l: seq<Option<string>>): nat {
    if l == [] then 0 else Filled(l[..|l| - 1]) + (if l[|l| - 1].Some? then 1 else 0)
  }

  function Total(l: seq<Option<string>>): nat {
    if l == [] then 0 else Total(l[..|l| - 1]) + (if l[|l| - 1].Some? then |l[|l| - 1].value| else 0)
  }

  lemma {:induction false} FilledUpdate(l: seq<Option<string>>, k: nat, s: string)
    requires k < |l| && l[k].None?
    ensures Filled(l[k := Some(s)]) == Filled(l) + 1 && Total(l[k := Some(s)]) == Total(l) + |s|
  {
    var n := |l| - 1;
    if k < n {
      FilledUpdate(l[..n], k, s);
      assert l[k := Some(s)][..n] == l[..n][k := Some(s)];
    } else {
      assert l[k := Some(s)][..n] == l[..n];
    }
  }

  lemma {:induction false} FilledMost(l: seq<Option<string>>)
    ensures Filled(l) <= |l|
    ensures Filled(l) == |l| ==> forall k :: 0 <= k < |l| ==> l[k].Some?
  {
    if l != [] { FilledMost(l[..|l| - 1]); }
  }

  lemma {:induction false} BlankEmpty(n: nat)
    ensures Filled(Blank(n)) == 0 && Total(Blank(n)) == 0
  {
    if n > 0 {
      BlankEmpty(n - 1);
      assert Blank(n)[..n - 1] == Blank(n - 1);
    }
  }

  /** A format string: a percent sign and at least one more character, within the buffer. */
  predicate FormatOk(s: string) { 2 <= |s| < FMT_BUF && s[0] == '%' }

  predicate ListOk(l: seq<Option<string>>) {
    forall k :: 0 <= k < |l| && l[k].Some? ==> FormatOk(l[k].value)
  }

  predicate Pending(st: ParseState, count: nat, r: Reading) {
    && r.st == st && ListOk(r.list) && r.bytes == Total(r.list)
    && count == Filled(r.list) + (if st == InNone then 0 else 1)
    && (st == InFormat ==> 1 <= r.cur <= |r.list| && r.list[r.cur - 1].None? && (r.out == "" || FormatOk(r.out)))
  }

  lemma PendingStep(v: string, i: nat, st: ParseState, count: nat, last: nat, r: Reading)
    requires i < |v| && Pending(st, count, r) && Browse(v[i], i, st, count, last).Some? && ReadOne(v, i, r).Some?
    ensures var b := Browse(v[i], i, st, count, last).value;
      Pending(b.0, b.1, ReadOne(v, i, r).value) && |ReadOne(v, i, r).value.list| == |r.list|
  {
    if st == InFormat && v[i] == '}' {
      FilledUpdate(r.list, r.cur - 1, r.out);
    }
  }

  /** Both passes go through the same states, and every entry counted by the first is filled by the
      second. */
  lemma {:induction false} PassesAgree(v: string, i: nat, st: ParseState, count: nat, last: nat, r: Reading)
    requires Pending(st, count, r) && Pass1(v, i, st, count, last) == Some(|r.list|) && Pass2(v, i, r).Some?
    ensures var t := Pass2(v, i, r).value;
      |t.list| == |r.list| && Filled(t.list) == |t.list| && ListOk(t.list) && t.bytes == Total(t.list)
    decreases |v| - i
  {
    hide Pending, ListOk, Browse, ReadOne;
    if i < |v| {
      PendingStep(v, i, st, count, last, r);
      var b := Browse(v[i], i, st, count, last).value;
      PassesAgree(v, i + 1, b.0, b.1, b.2, ReadOne(v, i, r).value);
    } else {
      PendingDone(st, count, r);
    }
  }

  lemma PendingDone(st: ParseState, count: nat, r: Reading)
    requires Pending(st, count, r)
    ensures st == InNone ==> Filled(r.list) == count && ListOk(r.list) && r.bytes == Total(r.list)
  {
  }

  /** A list that both passes accept has a string for every index, so the check that follows them never
      fires; the strings are percent sequences that fit the format buffer, and fmt_bytes is their sum. */
  lemma FormatComplete(v: string, n: nat)
    requires Pass1(v, 0, InNone, 0, 0) == Some(n) && Pass2(v, 0, StartReading(n)).Some?
    ensures var r := Pass2(v, 0, StartReading(n)).value;
      && ReadFormat(v) == Some(r) && |r.list| == n && r.bytes == Total(r.list)
      && forall k :: 0 <= k < n ==> r.list[k].Some? && FormatOk(r.list[k].value)
  {
    hide Pass1, Pass2, Filled, Total;
    BlankEmpty(n);
    PassesAgree(v, 0, InNone, 0, 0, StartReading(n));
    var r := Pass2(v, 0, StartReading(n)).value;
    FilledMost(r.list);
  }

  // ----- the expansion -----

  function Sum(l: seq<string>): nat {
    if l == [] then 0 else Sum(l[..|l| - 1]) + |l[|l| - 1]|
  }

  /** The characters inserted for these parameters. */
  function Inserted(l: seq<string>, order: seq<nat>): nat
    requires forall i :: 0 <= i < |order| ==> order[i] < |l|
  {
    if order == [] then 0 else Inserted(l, order[..|order| - 1]) + |l[order[|order| - 1]]|
  }

  predicate OrderOk(order: seq<nat>, n: nat) {
    && (forall i :: 0 <= i < |order| ==> order[i] < n)
    && (forall i, j :: 0 <= i < j < |order| ==> order[i] != order[j])
  }

  lemma {:induction false} InsertedSplit(l: seq<string>, a: seq<nat>, b: seq<nat>)
    requires forall i :: 0 <= i < |a| ==> a[i] < |l|
    requires forall i :: 0 <= i < |b| ==> b[i] < |l|
    ensures forall i :: 0 <= i < |a + b| ==> (a + b)[i] < |l|
    ensures Inserted(l, a + b) == Inserted(l, a) + Inserted(l, b)
    decreases |b|
  {
    if b == [] {
      assert a + b == a;
    } else {
      var n := |b| - 1;
      InsertedSplit(l, a, b[..n]);
      assert (a + b)[..|a + b| - 1] == a + b[..n];
    }
  }

  lemma {:induction false} InsertedPrefix(l: seq<string>, n: nat, order: seq<nat>)
    requires n <= |l| && forall i :: 0 <= i < |order| ==> order[i] < n
    ensures Inserted(l, order) == Inserted(l[..n], order)
    decreases |order|
  {
    if order != [] { InsertedPrefix(l, n, order[..|order| - 1]); }
  }

  function Without(order: seq<nat>, k: nat): seq<nat>
    requires k < |order|
  {
    order[..k] + order[k + 1..]
  }

  lemma WithoutOk(order: seq<nat>, k: nat, n: nat)
    requires OrderOk(order, n + 1) && k < |order| && order[k] == n
    ensures OrderOk(Without(order, k), n) && |Without(order, k)| == |order| - 1
  {
    var rest := Without(order, k);
    assert forall i :: 0 <= i < |rest| ==> rest[i] == order[if i < k then i else i + 1];
  }

  lemma InsertedWithout(l: seq<string>, order: seq<nat>, k: nat)
    requires k < |order| && forall i :: 0 <= i < |order| ==> order[i] < |l|
    ensures forall i :: 0 <= i < |Without(order, k)| ==> Without(order, k)[i] < |l|
    ensures Inserted(l, order) == Inserted(l, Without(order, k)) + |l[order[k]]|
  {
    var a, x, b := order[..k], [order[k]], order[k + 1..];
    assert Inserted(l, x) == |l[order[k]]| by { assert x[..0] == []; }
    hide Inserted;
    assert order == (a + x) + b;
    InsertedSplit(l, a, x);
    InsertedSplit(l, a + x, b);
    InsertedSplit(l, a, b);
  }

  /** Each parameter goes in at most once, so all insertions together are at most fmt_bytes long. */
  lemma {:induction false} InsertedFits(l: seq<string>, order: seq<nat>)
    requires OrderOk(order, |l|)
    ensures Inserted(l, order) <= Sum(l) && |order| <= |l|
    decreases |l|
  {
    hide Inserted;
    if order == [] {
      InsertedNone(l);
    } else {
      assert order[0] < |l|;
      var n := |l| - 1;
      if n in order {
        var k :| 0 <= k < |order| && order[k] == n;
        WithoutOk(order, k, n);
        InsertedWithout(l, order, k);
        InsertedPrefix(l, n, Without(order, k));
        InsertedFits(l[..n], Without(order, k));
      } else {
        InsertedPrefix(l, n, order);
        InsertedFits(l[..n], order);
      }
    }
  }

  lemma InsertedNone(l: seq<string>)
    ensures Inserted(l, []) == 0
  {
  }

  lemma {:induction false} ClosingFinds(v: string, i: nat)
    ensures Closing(v, i).Some? ==> i <= Closing(v, i).value < |v| && v[Closing(v, i).value] == '}'
    decreases |v| - i
  {
    if i < |v| && v[i] != '}' { ClosingFinds(v, i + 1); }
  }

  function Strings(list: Option<seq<string>>): seq<string> { if list.Some? then list.value else [] }

  /** Between two characters: what has been written is no longer than what has been read and inserted. */
  predicate Fits(v: string, i: nat, l: seq<string>, out: string, order: seq<nat>) {
    OrderOk(order, |l|) && |out| <= i + Inserted(l, order)
  }

  lemma ExpandUnfolds(v: string, i: nat, list: Option<seq<string>>, out: string, order: seq<nat>)
    ensures i >= |v| ==> Expand(v, i, list, out, order) == Expanded(out, order)
    ensures i < |v| && v[i] == '\\' && i + 1 < |v| && Known(v[i + 1]) ==>
      Expand(v, i, list, out, order) == Expand(v, i + 2, list, out + [v[i + 1]], order)
    ensures i < |v| && v[i] == '\\' && !(i + 1 < |v| && Known(v[i + 1])) ==>
      Expand(v, i, list, out, order) ==
            if i + 2 >= |v| then Overrun else Expand(v, i + 3, list, out + ['\\', v[i + 1]], order)
    ensures i < |v| && v[i] == '{' && list.Some? ==>
      Expand(v, i, list, out, order) == match Param(v, i, list.value, order)
        case None => Expand(v, i + 1, list, out + ['{'], order)
        case Some((k, j)) =>
          if k < |list.value| && j >= i then Expand(v, j + 1, list, out + list.value[k], order + [k]) else Overrun
    ensures i < |v| && v[i] != '\\' && !(v[i] == '{' && list.Some?) ==>
      Expand(v, i, list, out, order) == Expand(v, i + 1, list, out + [v[i]], order)
  {
    hide Param;
  }

  lemma ParamWithin(v: string, i: nat, list: seq<string>, order: seq<nat>)
    requires i < |v| && Param(v, i, list, order).Some?
    ensures var (k, j) := Param(v, i, list, order).value; k < |list| && i < j < |v| && k !in order
  {
    hide Strtol;
    ClosingFinds(v, i + 1);
  }

  /** There is room for one more parameter. */
  lemma FitsMore(v: string, i: nat, l: seq<string>, out: string, order: seq<nat>, k: nat)
    requires Fits(v, i, l, out, order) && k < |l| && k !in order
    ensures Fits(v, i, l, out + l[k], order + [k])
    ensures |out| + |l[k]| <= i + Sum(l)
  {
    var ord := order + [k];
    assert ord[..|order|] == order;
    InsertedFits(l, ord);
  }

  lemma {:induction false} ExpandStep(v: string, i: nat, list: Option<seq<string>>, out: string, order: seq<nat>)
    requires Fits(v, i, Strings(list), out, order) && i <= |v|
    ensures match Expand(v, i, list, out, order)
      case Overrun => true
      case Expanded(o, ord) => Fits(v, |v|, Strings(list), o, ord)
    decreases |v| - i
  {
    hide Expand, Inserted, Param;
    ExpandUnfolds(v, i, list, out, order);
    if i < |v| && v[i] == '{' && list.Some? && Param(v, i, list.value, order).Some? {
      var (k, j) := Param(v, i, list.value, order).value;
      ParamWithin(v, i, list.value, order);
      FitsMore(v, i, Strings(list), out, order, k);
      ExpandStep(v, j + 1, list, out + list.value[k], order + [k]);
    } else if i < |v| && v[i] == '\\' {
      if i + 1 < |v| && Known(v[i + 1]) {
        ExpandStep(v, i + 2, list, out + [v[i + 1]], order);
      } else if i + 2 < |v| {
        ExpandStep(v, i + 3, list, out + ['\\', v[i + 1]], order);
      }
    } else if i < |v| {
      ExpandStep(v, i + 1, list, out + [v[i]], order);
    }
  }

  /** An expansion with its terminator fits a buffer of strlen(value) + fmt_bytes + 1 characters, and
      fmt_order has room for its distinct parameters. */
  lemma ExpansionFits(v: string, list: Option<seq<string>>)
    ensures match Expand(v, 0, list, "", [])
      case Overrun => true
      case Expanded(out, order) =>
        |out| + 1 <= |v| + Sum(Strings(list)) + 1 && OrderOk(order, |Strings(list)|) && |order| <= |Strings(list)|
  {
    ExpandStep(v, 0, list, "", []);
    match Expand(v, 0, list, "", [])
    case Overrun =>
    case Expanded(out, order) => InsertedFits(Strings(list), order);
  }

  /** Every backslash has a known character or two characters behind it. */
  predicate Escaped(v: string) {
    forall i {:trigger v[i]} :: 0 <= i < |v| && v[i] == '\\' ==> (i + 2 < |v| || (i + 1 < |v| && Known(v[i + 1])))
  }

  /** Then the reader never steps over the terminator. */
  lemma {:induction false} EscapedExpands(v: string, i: nat, list: Option<seq<string>>, out: string, order: seq<nat>)
    requires Escaped(v)
    ensures Expand(v, i, list, out, order).Expanded?
    decreases |v| - i
  {
    if i < |v| {
      if v[i] == '\\' {
        if i + 1 < |v| && Known(v[i + 1]) {
          EscapedExpands(v, i + 2, list, out + [v[i + 1]], order);
        } else {
          assert i + 2 < |v|;
          EscapedExpands(v, i + 3, list, out + ['\\', v[i + 1]], order);
        }
      } else if v[i] == '{' && list.Some? {
        ClosingFinds(v, i + 1);
        match Param(v, i, list.value, order)
        case None => EscapedExpands(v, i + 1, list, out + ['{'], order);
        case Some((k, j)) => EscapedExpands(v, j + 1, list, out + list.value[k], order + [k]);
      } else {
        EscapedExpands(v, i + 1, list, out + [v[i]], order);
      }
    }
  }

  /** No unknown escape hides another backslash. */
  predicate Apart(v: string) {
    forall j {:trigger v[j]} :: 0 <= j < |v| - 1 && v[j] == '\\' && !Known(v[j + 1]) ==>
      v[j + 1] != '\\' && (j + 2 < |v| ==> v[j + 2] != '\\')
  }

  /** Every brace that could open a parameter is escaped. */
  predicate NoParams(v: string, list: Option<seq<string>>) {
    list.None? || forall k {:trigger v[k]} :: 0 <= k < |v| && v[k] == '{' ==> k > 0 && v[k - 1] == '\\'
  }

  predicate EscapedTo(v: string, i: nat) {
    forall k {:trigger v[k]} :: 0 <= k < |v| && k < i && v[k] == '\\' ==>
          (k + 2 < |v| || (k + 1 < |v| && Known(v[k + 1])))
  }

  /** From a position behind no backslash, the reader comes to every backslash. */
  lemma {:induction false} EscapedFrom(v: string, i: nat, list: Option<seq<string>>, out: string, order: seq<nat>)
    requires Apart(v) && NoParams(v, list) && EscapedTo(v, i)
    requires i <= |v| && (i > 0 ==> v[i - 1] != '\\')
    ensures Expand(v, i, list, out, order).Expanded? <==> Escaped(v)
    decreases |v| - i
  {
    if i < |v| {
      if v[i] != '\\' {
        EscapedFrom(v, i + 1, list, out + [v[i]], order);
      } else if i + 1 < |v| && Known(v[i + 1]) {
        EscapedFrom(v, i + 2, list, out + [v[i + 1]], order);
      } else if i + 2 < |v| {
        EscapedFrom(v, i + 3, list, out + ['\\', v[i + 1]], order);
      }
    }
  }

  /** For such texts the condition is exact. */
  lemma EscapedExact(v: string, list: Option<seq<string>>)
    requires Apart(v) && NoParams(v, list)
    ensures Expand(v, 0, list, "", []).Expanded? <==> Escaped(v)
  {
    EscapedFrom(v, 0, list, "", []);
  }

  /** A text without backslashes and braces is its own expansion. */
  lemma {:induction false} PlainExpands(v: string, i: nat, list: Option<seq<string>>, order: seq<nat>)
    requires i <= |v| && forall k :: 0 <= k < |v| ==> v[k] != '\\' && v[k] != '{'
    ensures Expand(v, i, list, v[..i], order) == Expanded(v, order)
    decreases |v| - i
  {
    if i < |v| {
      assert v[..i] + [v[i]] == v[..i + 1];
      PlainExpands(v, i + 1, list, order);
    } else {
      assert v[..i] == v;
    }
  }
}
