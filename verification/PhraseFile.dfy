/** CPhraseFile: the loops over a #format list and over a translation, writing to the format buffer, the
    parameter flags and the output buffer without further checks. */
module PhraseFile {
  import opened PhraseFormat
  import opened PhraseBounds
  import opened PhraseParams

  /** The first pass. */
  method BrowseFormat(v: string) returns (count: Option<nat>)
    ensures count == Pass1(v, 0, InNone, 0, 0)
  {
    var state, n, last, i := InNone, 0, 0, 0;
    while i < |v|
      invariant i <= |v| && Pass1(v, i, state, n, last) == Pass1(v, 0, InNone, 0, 0)
    {
      if state == InNone {
        if v[i] == '{' {
          n := n + 1;
          state := InIndex;
        }
      } else if state == InIndex {
        if v[i] == ':' {
          state := InFormat;
          if i - last >= 15 { return None; }
        } else if !IsDigit(v[i]) {
          return None;
        }
      } else if v[i] == '}' {
        state := InNone;
        last := i + 1;
      }
      i := i + 1;
    }
    if state != InNone { return None; }
    return Some(n);
  }

  /** The second pass, through a buffer of 16 characters. */
  method ReadStrings(v: string, n: nat) returns (done: bool, list: seq<Option<string>>, bytes: nat)
    ensures var r := Pass2(v, 0, StartReading(n));
      done == r.Some? && (done ==> list == r.value.list && bytes == r.value.bytes)
  {
    hide Pass2, Strtol;
    var buf := new char[FMT_BUF];
    var state: ParseState, idx: Option<nat>, cur: nat, len: nat := InNone, None, 0, 0;
    list, bytes := Blank(n), 0;
    var i: nat := 0;
    while i < |v|
      invariant i <= |v| && len <= buf.Length == FMT_BUF && fresh(buf)
      invariant Pass2(v, i, Reading(state, idx, cur, buf[..len], list, bytes)) == Pass2(v, 0, StartReading(n))
      invariant idx.Some? ==> idx.value <= i
      invariant state == InFormat ==> 1 <= cur <= |list|
    {
      ghost var r := Reading(state, idx, cur, buf[..len], list, bytes);
      Pass2Step(v, i, r);
      if state == InNone {
        if v[i] == '{' {
          state := InIndex;
          idx := None;
        }
      } else if state == InIndex {
        if v[i] == ':' {
          if idx.None? { return false, list, bytes; }
          var k := Strtol(v[idx.value..i]);
          if k < 1 || k > |list| { return false, list, bytes; }
          if list[k - 1].Some? { return false, list, bytes; }
          cur := k;
          state := InFormat;
          len := 0;
        } else if idx.None? {
          idx := Some(i);
        }
      } else if v[i] == '}' {
        if len == 0 { return false, list, bytes; }
        state := InNone;
        bytes := bytes + len;
        list := list[cur - 1 := Some(buf[..len])];
      } else {
        if len == 0 {
          buf[0] := '%';
          len := 1;
          assert buf[..1] == "%";
        }
        if len >= FMT_BUF - 1 { return false, list, bytes; }
        ghost var was := buf[..len];
        buf[len] := v[i];
        len := len + 1;
        assert buf[..len] == was + [v[i]];
      }
      i := i + 1;
    }
    Pass2Ends(v, i, Reading(state, idx, cur, buf[..len], list, bytes));
    done := true;
  }

  lemma Pass2Step(v: string, i: nat, r: Reading)
    requires i < |v|
    ensures Pass2(v, i, r) == match ReadOne(v, i, r) case None => None case Some(r') => Pass2(v, i + 1, r')
  {
  }

  lemma Pass2Ends(v: string, i: nat, r: Reading)
    requires i >= |v|
    ensures Pass2(v, i, r) == Some(r)
  {
  }

  // ----- translations -----

  /** What has been written to the output buffer. */
  ghost predicate Written(buf: array<char>, o: nat, out: string)
    reads buf
  {
    o == |out| && o <= buf.Length && forall k {:trigger out[k]} :: 0 <= k < o ==> buf[k] == out[k]
  }

  method Put(buf: array<char>, o: nat, c: char, ghost out: string) returns (next: nat)
    requires Written(buf, o, out) && o < buf.Length
    modifies buf
    ensures Written(buf, next, out + [c])
  {
    buf[o] := c;
    next := o + 1;
  }

  method PutAll(buf: array<char>, o: nat, s: string, ghost out: string) returns (next: nat)
    requires Written(buf, o, out) && o + |s| <= buf.Length
    modifies buf
    ensures Written(buf, next, out + s)
  {
    next := o;
    var k := 0;
    assert out + s[..0] == out;
    while k < |s|
      invariant k <= |s| && next == o + k && Written(buf, next, out + s[..k])
    {
      next := Put(buf, next, s[k], out + s[..k]);
      assert (out + s[..k]) + [s[k]] == out + s[..k + 1];
      k := k + 1;
    }
    assert s[..k] == s;
  }

  /** The search for the brace that closes a parameter, and what is between. */
  method ReadParam(v: string, i: nat, list: seq<string>, params: array<bool>, ghost order: seq<nat>)
      returns (param: Option<(nat, nat)>)
    requires i < |v| && (Looked(v, i, list).Some? ==> Looked(v, i, list).value < params.Length)
    requires forall k {:trigger params[k]} :: 0 <= k < params.Length ==> (params[k] <==> k in order)
    ensures param == Param(v, i, list, order)
  {
    hide Strtol;
    ClosingFinds(v, i + 1);
    var j := i + 1;
    while j < |v|
      invariant i < j <= |v| && Closing(v, i + 1) == Closing(v, j)
    {
      if v[j] == '}' {
        if j == i + 1 { return None; }
        var k := Strtol(v[i + 1..j]);
        if k < 1 || k > |list| { return None; }
        if params[k - 1] { return None; }
        return Some(((k - 1) as nat, j));
      }
      j := j + 1;
    }
    return None;
  }

  /** The output buffer, the order of the parameters, or that the reader stepped over the terminator. */
  method Translate(v: string, list: Option<seq<string>>, fmtBytes: nat)
      returns (ok: bool, buf: array<char>, order: seq<nat>)
    requires fmtBytes == Sum(Strings(list)) && StaysIn(v, 0, list, [], MAX_TRANSLATE_PARAMS)
    ensures fresh(buf) && buf.Length == |v| + fmtBytes + 1
    ensures match Expand(v, 0, list, "", [])
      case Overrun => !ok
      case Expanded(out, ord) =>
        && ok && order == ord && |order| <= |Strings(list)|
        && |out| < buf.Length && buf[..|out|] == out && buf[|out|] == '\0'
  {
    hide Expand, Inserted, Sum, Param, StaysIn, Looked;
    buf := new char[|v| + fmtBytes + 1];
    var params := new bool[MAX_TRANSLATE_PARAMS](_ => false);
    order := [];
    var i: nat, o: nat := 0, 0;
    ghost var out := "";
    InsertedNone(Strings(list));
    ExpansionFits(v, list);
    while i < |v|
      invariant i <= |v| && fresh(buf) && fresh(params) && buf.Length == |v| + fmtBytes + 1
      invariant params.Length == MAX_TRANSLATE_PARAMS
      invariant Written(buf, o, out) && Fits(v, i, Strings(list), out, order)
      invariant forall k {:trigger params[k]} :: 0 <= k < params.Length ==> (params[k] <==> k in order)
      invariant StaysIn(v, i, list, order, MAX_TRANSLATE_PARAMS)
      invariant Expand(v, i, list, out, order) == Expand(v, 0, list, "", [])
    {
      InsertedFits(Strings(list), order);
      ExpandUnfolds(v, i, list, out, order);
      StaysUnfolds(v, i, list, order, MAX_TRANSLATE_PARAMS);
      if v[i] == '\\' {
        if i + 1 < |v| && Known(v[i + 1]) {
          o := Put(buf, o, v[i + 1], out);
          out := out + [v[i + 1]];
          i := i + 2;
        } else {
          if i + 2 >= |v| { return false, buf, order; }
          o := Put(buf, o, v[i], out);
          o := Put(buf, o, v[i + 1], out + ['\\']);
          assert (out + ['\\']) + [v[i + 1]] == out + ['\\', v[i + 1]];
          out := out + ['\\', v[i + 1]];
          i := i + 3;
        }
      } else if v[i] == '{' && list.Some? {
        var param := ReadParam(v, i, list.value, params, order);
        if param.Some? {
          var (k, j) := param.value;
          ParamWithin(v, i, list.value, order);
          ParamLooked(v, i, list.value, order);
          FitsMore(v, i, Strings(list), out, order, k);
          o := PutAll(buf, o, list.value[k], out);
          order := order + [k];
          params[k] := true;
          out := out + list.value[k];
          i := j + 1;
        } else {
          o := Put(buf, o, v[i], out);
          out := out + [v[i]];
          i := i + 1;
        }
      } else {
        o := Put(buf, o, v[i], out);
        out := out + [v[i]];
        i := i + 1;
      }
    }
    InsertedFits(Strings(list), order);
    ExpandUnfolds(v, i, list, out, order);
    buf[o] := '\0';
    assert buf[..o] == out;
    ok := true;
  }

  /** The list in which every index has its string. */
  function Filling(strings: seq<string>): seq<Option<string>> {
    seq(|strings|, k requires 0 <= k < |strings| => Some(strings[k]))
  }

  /** A phrase while its section is read. */
  class Phrase {
    var ignored: bool
    var fmtList: Option<seq<string>>
    var fmtBytes: nat
    var translations: nat

    ghost predicate Valid()
      reads this
    {
      !ignored ==> fmtBytes == Sum(Strings(fmtList)) && forall k :: 0 <= k < |Strings(fmtList)| ==>
            FormatOk(Strings(fmtList)[k])
    }

    constructor ()
      ensures Valid() && !ignored && fmtList == None && translations == 0
    {
      ignored, fmtList, fmtBytes, translations := false, None, 0, 0;
    }

    /** A #format key: the phrase is ignored if the list is not accepted, and the key is if it is a
        second one or comes after a translation. */
    method ReadFormatKey(v: string)
      requires Valid()
      modifies this
      ensures Valid() && translations == old(translations)
      ensures old(ignored) || old(fmtList).Some? || old(translations) > 0 ==>
            ignored == old(ignored) && fmtList == old(fmtList)
      ensures !old(ignored) && old(fmtList).None? && old(translations) == 0 ==>
        match ReadFormat(v)
        case None => ignored
        case Some(r) => !ignored && fmtList.Some? && r.list == Filling(fmtList.value)
    {
      hide Pass1, Pass2, Sum, Total;
      if ignored || fmtList.Some? || translations > 0 { return; }
      var count := BrowseFormat(v);
      if count.None? {
        ignored := true;
        return;
      }
      var done, list, bytes := ReadStrings(v, count.value);
      if !done {
        ignored := true;
        return;
      }
      FormatComplete(v, count.value);
      var strings := [];
      var i := 0;
      while i < |list|
        invariant i <= |list| && |strings| == i && forall k :: 0 <= k < i ==> list[k] == Some(strings[k])
      {
        strings := strings + [list[i].value];
        i := i + 1;
      }
      SumIsTotal(strings, list);
      assert list == Filling(strings);
      fmtList := Some(strings);
      fmtBytes := bytes;
    }

    /** A translation, into a buffer of its own. */
    method ReadTranslation(v: string) returns (ok: bool, buf: array<char>, order: seq<nat>)
      requires Valid() && !ignored && StaysIn(v, 0, fmtList, [], MAX_TRANSLATE_PARAMS)
      modifies this`translations
      ensures Valid() && fresh(buf) && translations == old(translations) + 1
      ensures match Expand(v, 0, fmtList, "", [])
        case Overrun => !ok
        case Expanded(out, ord) => ok && order == ord && |out| < buf.Length && buf[..|out|] == out && buf[|out|] == '\0'
    {
      hide Expand;
      ok, buf, order := Translate(v, fmtList, fmtBytes);
      translations := translations + 1;
    }
  }

  lemma {:induction false} SumIsTotal(strings: seq<string>, list: seq<Option<string>>)
    requires |strings| == |list| && forall k :: 0 <= k < |list| ==> list[k] == Some(strings[k])
    ensures Sum(strings) == Total(list)
  {
    if list != [] { SumIsTotal(strings[..|list| - 1], list[..|list| - 1]); }
  }
}
