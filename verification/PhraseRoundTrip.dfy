/** Format lists and translations as a translator writes them, and what the phrase compiler makes of them. */
module PhraseRoundTrip {
  import opened PhraseFormat
  import opened PhraseBounds

  // ----- indices -----

  function Digit(n: nat): char
    requires n < 10
  {
    '0' + (n as char)
  }

  /** A number in decimal. */
  function Show(n: nat): (s: string)
    ensures s != "" && forall k :: 0 <= k < |s| ==> IsDigit(s[k])
  {
    if n < 10 then [Digit(n)] else Show(n / 10) + [Digit(n % 10)]
  }

  lemma {:induction false} ShowValue(n: nat)
    ensures DigitsValue(Show(n)) == n
  {
    if n >= 10 {
      ShowValue(n / 10);
      var s := Show(n);
      assert s[..|s| - 1] == Show(n / 10) && s[|s| - 1] == Digit(n % 10);
    } else {
      assert DigitsValue([Digit(n)]) == DigitsValue([Digit(n)][..0]) * 10 + n;
    }
  }

  lemma {:induction false} AllLeading(s: string)
    requires forall k :: 0 <= k < |s| ==> IsDigit(s[k])
    ensures LeadingDigits(s) == s
  {
    if s != "" { AllLeading(s[1..]); }
  }

  /** An index is read back. */
  lemma ShowReads(n: nat)
    ensures Strtol(Show(n)) == n
  {
    var s := Show(n);
    assert IsDigit(s[0]);
    AllLeading(s);
    ShowValue(n);
  }

  predicate Spacy(s: string) {
    forall k {:trigger s[k]} :: 0 <= k < |s| ==>
      s[k] == ' ' || s[k] == '\t' || s[k] == '\n' || s[k] == '\r' || s[k] == (11 as char) || s[k] == (12 as char)
  }

  lemma {:induction false} OverSpaces(sp: string, s: string)
    requires Spacy(sp) && (s == "" || !IsSpace(s[0]))
    ensures SkipSpaces(sp + s) == s
  {
    if sp == "" {
      assert sp + s == s;
    } else {
      assert (sp + s)[1..] == sp[1..] + s;
      OverSpaces(sp[1..], s);
    }
  }

  lemma {:induction false} LeadingOf(d: string, rest: string)
    requires (forall k :: 0 <= k < |d| ==> IsDigit(d[k])) && (rest == "" || !IsDigit(rest[0]))
    ensures LeadingDigits(d + rest) == d
  {
    if d == "" {
      assert d + rest == rest;
    } else {
      assert (d + rest)[1..] == d[1..] + rest;
      LeadingOf(d[1..], rest);
    }
  }

  /** strtol skips spaces, takes a sign, and reads up to the first character that is no digit. */
  lemma StrtolReads(sp: string, n: nat, rest: string)
    requires Spacy(sp) && (rest == "" || !IsDigit(rest[0]))
    ensures Strtol(sp + (Show(n) + rest)) == n
    ensures Strtol(sp + ("+" + (Show(n) + rest))) == n
    ensures Strtol(sp + ("-" + (Show(n) + rest))) == -(n as int)
  {
    var d := Show(n);
    assert IsDigit((d + rest)[0]) by { assert (d + rest)[0] == d[0]; }
    OverSpaces(sp, d + rest);
    OverSpaces(sp, "+" + (d + rest));
    OverSpaces(sp, "-" + (d + rest));
    assert ("+" + (d + rest))[1..] == d + rest && ("-" + (d + rest))[1..] == d + rest;
    LeadingOf(d, rest);
    ShowValue(n);
  }

  // ----- format lists -----

  /** An entry {index:format}. */
  datatype Entry = Entry(index: nat, format: string)

  function PrintEntry(e: Entry): string { "{" + (Show(e.index) + (":" + (e.format + "}"))) }

  function PrintList(es: seq<Entry>, first: bool): string {
    if es == [] then "" else ((if first then "" else ",") + PrintEntry(es[0])) + PrintList(es[1..], false)
  }

  /** Formats have no closing brace. */
  predicate Plain(e: Entry) { '}' !in e.format }

  /** The characters from the end of the entry before up to the colon are fewer than fifteen. */
  predicate Short(e: Entry, first: bool) { |Comma(first)| + 1 + |Show(e.index)| < 15 }

  /** Formats have one to fourteen characters, and indices are those of a list of n. */
  predicate Proper(e: Entry, n: nat) { 1 <= |e.format| <= 14 && 1 <= e.index <= n }

  ghost predicate Here(v: string, p: nat, piece: string) {
    p + |piece| <= |v| && v[p..p + |piece|] == piece
  }

  lemma HereSplit(v: string, p: nat, a: string, b: string)
    requires Here(v, p, a + b)
    ensures Here(v, p, a) && Here(v, p + |a|, b)
  {
    var t := v[p..p + |a + b|];
    assert t[..|a|] == a && t[|a|..] == b;
  }

  lemma HereChar(v: string, p: nat, piece: string, k: nat)
    requires Here(v, p, piece) && k < |piece|
    ensures v[p + k] == piece[k]
  {
    assert v[p..p + |piece|][k] == piece[k];
  }

  // The first pass.

  lemma {:induction false} Pass1Digits(v: string, i: nat, s: string, count: nat, last: nat)
    requires Here(v, i, s) && forall k :: 0 <= k < |s| ==> IsDigit(s[k])
    ensures Pass1(v, i, InIndex, count, last) == Pass1(v, i + |s|, InIndex, count, last)
    decreases |s|
  {
    if s != "" {
      HereSplit(v, i, [s[0]], s[1..]) by { assert [s[0]] + s[1..] == s; }
      HereChar(v, i, s, 0);
      Pass1Digits(v, i + 1, s[1..], count, last);
    }
  }

  lemma {:induction false} Pass1Format(v: string, i: nat, s: string, count: nat, last: nat)
    requires Here(v, i, s + "}") && '}' !in s
    ensures Pass1(v, i, InFormat, count, last) == Pass1(v, i + |s| + 1, InNone, count, i + |s| + 1)
    decreases |s|
  {
    HereChar(v, i, s + "}", 0);
    if s != "" {
      HereSplit(v, i, [s[0]], s[1..] + "}") by { assert [s[0]] + (s[1..] + "}") == s + "}"; }
      Pass1Format(v, i + 1, s[1..], count, last);
    }
  }

  function Comma(first: bool): string { if first then "" else "," }

  lemma Pass1Step(v: string, i: nat, st: ParseState, count: nat, last: nat)
    requires i < |v| && Browse(v[i], i, st, count, last).Some?
    ensures var b := Browse(v[i], i, st, count, last).value;
      Pass1(v, i, st, count, last) == Pass1(v, i + 1, b.0, b.1, b.2)
  {
  }

  /** Where the parts of a printed entry stand. */
  lemma EntryParts(v: string, i: nat, e: Entry, first: bool)
    requires Here(v, i, Comma(first) + PrintEntry(e))
    ensures var a := i + |Comma(first)|; var b := a + 1 + |Show(e.index)|;
      && (!first ==> i < |v| && v[i] == ',') && a < |v| && v[a] == '{'
      && Here(v, a + 1, Show(e.index)) && b < |v| && v[b] == ':' && Here(v, b + 1, e.format + "}")
      && b + 2 + |e.format| == i + |Comma(first) + PrintEntry(e)|
  {
    hide Here, Show;
    var d, f := Show(e.index), e.format;
    HereSplit(v, i, Comma(first), PrintEntry(e));
    if !first { HereFirst(v, i, ",", ""); }
    var a := i + |Comma(first)|;
    HereFirst(v, a, "{", d + (":" + (f + "}")));
    HereSplit(v, a, "{", d + (":" + (f + "}")));
    HereSplit(v, a + 1, d, ":" + (f + "}"));
    HereFirst(v, a + 1 + |d|, ":", f + "}");
    HereSplit(v, a + 1 + |d|, ":", f + "}");
  }

  lemma HereFirst(v: string, p: nat, c: string, rest: string)
    requires Here(v, p, c + rest) && |c| == 1
    ensures p < |v| && v[p] == c[0]
  {
    assert v[p..p + |c + rest|][0] == (c + rest)[0];
  }

  /** The first pass counts an entry that is short enough, and rejects the list otherwise. */
  lemma Pass1Entry(v: string, i: nat, e: Entry, first: bool, count: nat)
    requires Plain(e) && Here(v, i, Comma(first) + PrintEntry(e))
    ensures var j := i + |Comma(first) + PrintEntry(e)|;
      Pass1(v, i, InNone, count, i) == if Short(e, first) then Pass1(v, j, InNone, count + 1, j) else None
  {
    hide Pass1, Here, Show, PrintEntry;
    EntryParts(v, i, e, first);
    var d, f := Show(e.index), e.format;
    var a := i + |Comma(first)|;
    var b := a + 1 + |d|;
    if !first { Pass1Step(v, i, InNone, count, i); }
    Pass1Step(v, a, InNone, count, i);
    Pass1Digits(v, a + 1, d, count + 1, i);
    if Short(e, first) {
      Pass1Step(v, b, InIndex, count + 1, i);
      Pass1Format(v, b + 1, f, count + 1, i);
    } else {
      Pass1Rejects(v, b, InIndex, count + 1, i);
    }
  }

  lemma Pass1Rejects(v: string, i: nat, st: ParseState, count: nat, last: nat)
    requires i < |v| && Browse(v[i], i, st, count, last).None?
    ensures Pass1(v, i, st, count, last) == None
  {
  }

  predicate AllShort(es: seq<Entry>, first: bool)
    decreases |es|
  {
    es == [] || (Short(es[0], first) && AllShort(es[1..], false))
  }

  lemma {:induction false} Pass1List(v: string, i: nat, es: seq<Entry>, first: bool, count: nat)
    requires Here(v, i, PrintList(es, first)) && i + |PrintList(es, first)| == |v| && forall e :: e in es ==> Plain(e)
    ensures Pass1(v, i, InNone, count, i) == if AllShort(es, first) then Some(count + |es|) else None
    decreases |es|
  {
    hide Here, Short, PrintEntry;
    if es != [] {
      var head := Comma(first) + PrintEntry(es[0]);
      HereSplit(v, i, head, PrintList(es[1..], false));
      Pass1Entry(v, i, es[0], first, count);
      Pass1List(v, i + |head|, es[1..], false, count + 1);
    }
  }

  // The second pass.

  lemma {:induction false} Pass2Digits(v: string, i: nat, s: string, r: Reading)
    requires Here(v, i, s) && (forall k :: 0 <= k < |s| ==> IsDigit(s[k])) && r.st == InIndex && s != ""
    ensures Pass2(v, i, r) == Pass2(v, i + |s|, r.(idx := Some(if r.idx.Some? then r.idx.value else i)))
    decreases |s|
  {
    HereSplit(v, i, [s[0]], s[1..]) by { assert [s[0]] + s[1..] == s; }
    HereChar(v, i, s, 0);
    var r' := r.(idx := Some(if r.idx.Some? then r.idx.value else i));
    assert ReadOne(v, i, r) == Some(r');
    if |s| > 1 { Pass2Digits(v, i + 1, s[1..], r'); }
  }

  lemma Pass2Step(v: string, i: nat, r: Reading)
    requires i < |v| && ReadOne(v, i, r).Some?
    ensures Pass2(v, i, r) == Pass2(v, i + 1, ReadOne(v, i, r).value)
  {
  }

  /** The string of an entry so far. */
  function SoFar(f: string): string { if f == "" then "" else "%" + f }

  lemma FormatChar(v: string, i: nat, f: string, r: Reading)
    requires i < |v| && v[i] != '}' && r.st == InFormat && r.out == SoFar(f) && |f| < FMT_BUF - 2
    ensures ReadOne(v, i, r) == Some(r.(out := SoFar(f + [v[i]])))
  {
    assert (if r.out == "" then "%" else r.out) + [v[i]] == SoFar(f + [v[i]]);
  }

  /** The state when an entry is over. */
  function Stored(r: Reading, f: string): Reading
    requires 1 <= r.cur <= |r.list|
  {
    r.(st := InNone, out := "%" + f, list := r.list[r.cur - 1 := Some("%" + f)], bytes := r.bytes + 1 + |f|)
  }

  lemma {:induction false} Pass2Format(v: string, i: nat, f: string, s: string, r: Reading)
    requires Here(v, i, s + "}") && '}' !in s && r.st == InFormat && r.out == SoFar(f)
    requires 1 <= |f + s| <= FMT_BUF - 2 && 1 <= r.cur <= |r.list|
    ensures Pass2(v, i, r) == Pass2(v, i + |s| + 1, Stored(r, f + s))
    decreases |s|
  {
    hide Pass2, Here, ReadOne;
    if s == "" {
      HereFirst(v, i, "}", "") by { assert "}" + "" == s + "}"; }
      FormatEnds(v, i, f, r);
      Pass2Step(v, i, r);
      assert f + s == f;
    } else {
      assert [s[0]] + (s[1..] + "}") == s + "}";
      HereFirst(v, i, [s[0]], s[1..] + "}");
      HereSplit(v, i, [s[0]], s[1..] + "}");
      FormatChar(v, i, f, r);
      Pass2Step(v, i, r);
      assert (f + [s[0]]) + s[1..] == f + s;
      Pass2Format(v, i + 1, f + [s[0]], s[1..], r.(out := SoFar(f + [s[0]])));
    }
  }

  lemma FormatEnds(v: string, i: nat, f: string, r: Reading)
    requires i < |v| && v[i] == '}' && r.st == InFormat && r.out == SoFar(f) && f != "" && 1 <= r.cur <= |r.list|
    ensures ReadOne(v, i, r) == Some(Stored(r, f))
  {
  }

  lemma IndexEnds(v: string, i: nat, k: nat, r: Reading)
    requires r.idx.Some? && r.idx.value <= i < |v| && v[i] == ':' && r.st == InIndex
    requires Strtol(v[r.idx.value..i]) == k && 1 <= k <= |r.list| && r.list[k - 1].None?
    ensures ReadOne(v, i, r) == Some(r.(cur := k, st := InFormat, out := ""))
  {
    hide Strtol;
  }

  /** The second pass puts a percent sign and the characters between the colon and the brace where the index
      says. */
  lemma Pass2Entry(v: string, i: nat, e: Entry, first: bool, r: Reading) returns (r': Reading)
    requires Plain(e) && Proper(e, |r.list|) && Here(v, i, Comma(first) + PrintEntry(e)) && r.st == InNone
    requires r.list[e.index - 1].None?
    ensures Pass2(v, i, r) == Pass2(v, i + |Comma(first) + PrintEntry(e)|, r') && r'.st == InNone
    ensures r'.list == r.list[e.index - 1 := Some("%" + e.format)] && r'.bytes == r.bytes + 1 + |e.format|
  {
    hide Pass2, Here, Show, PrintEntry, Strtol;
    EntryParts(v, i, e, first);
    var d, f := Show(e.index), e.format;
    var a := i + |Comma(first)|;
    var b := a + 1 + |d|;
    if !first { Pass2Step(v, i, r); }
    Pass2Step(v, a, r);
    var r1 := r.(st := InIndex, idx := None);
    Pass2Digits(v, a + 1, d, r1);
    ShowReads(e.index);
    HereIs(v, a + 1, d);
    var r2 := r1.(idx := Some(a + 1));
    IndexEnds(v, b, e.index, r2);
    Pass2Step(v, b, r2);
    var r3 := r2.(cur := e.index, st := InFormat, out := "");
    assert "" + f == f;
    Pass2Format(v, b + 1, "", f, r3);
    r' := Stored(r3, f);
  }

  lemma HereIs(v: string, p: nat, piece: string)
    requires Here(v, p, piece)
    ensures p + |piece| <= |v| && v[p..p + |piece|] == piece
  {
  }

  /** The entry is stored, if its index is one of the list and free, and its format neither empty nor too long;
      otherwise the second pass rejects the list. */
  lemma Pass2Refuses(v: string, i: nat, e: Entry, first: bool, r: Reading)
    requires Plain(e) && Here(v, i, Comma(first) + PrintEntry(e)) && r.st == InNone
    requires !Proper(e, |r.list|) || r.list[e.index - 1].Some?
    ensures Pass2(v, i, r) == None
  {
    hide Pass2, Here, Show, PrintEntry, Strtol;
    EntryParts(v, i, e, first);
    var d, f, k := Show(e.index), e.format, e.index;
    var a := i + |Comma(first)|;
    var b := a + 1 + |d|;
    if !first { Pass2Step(v, i, r); }
    Pass2Step(v, a, r);
    var r1 := r.(st := InIndex, idx := None);
    Pass2Digits(v, a + 1, d, r1);
    ShowReads(k);
    HereIs(v, a + 1, d);
    var r2 := r1.(idx := Some(a + 1));
    if k < 1 || k > |r.list| || r.list[k - 1].Some? {
      IndexRefused(v, b, k, r2);
      Pass2Rejects(v, b, r2);
    } else {
      IndexEnds(v, b, k, r2);
      Pass2Step(v, b, r2);
      assert "" + f == f;
      FormatRefused(v, b + 1, "", f, r2.(cur := k, st := InFormat, out := ""));
    }
  }

  lemma Pass2Rejects(v: string, i: nat, r: Reading)
    requires i < |v| && ReadOne(v, i, r) == None
    ensures Pass2(v, i, r) == None
  {
  }

  lemma IndexRefused(v: string, i: nat, k: nat, r: Reading)
    requires r.idx.Some? && r.idx.value <= i < |v| && v[i] == ':' && r.st == InIndex
    requires Strtol(v[r.idx.value..i]) == k && (k < 1 || k > |r.list| || r.list[k - 1].Some?)
    ensures ReadOne(v, i, r) == None
  {
    hide Strtol;
  }

  /** A format that is empty or has more than fourteen characters. */
  lemma {:induction false} FormatRefused(v: string, i: nat, f: string, s: string, r: Reading)
    requires Here(v, i, s + "}") && '}' !in s && r.st == InFormat && r.out == SoFar(f)
    requires (f + s == "" || |f + s| > 14) && |f| <= 14
    ensures Pass2(v, i, r) == None
    decreases |s|
  {
    hide Pass2, Here, ReadOne;
    if s == "" {
      HereFirst(v, i, "}", "") by { assert "}" + "" == s + "}"; }
      assert f == "" by { assert f + s == f; }
      FormatEmpty(v, i, r);
      Pass2Rejects(v, i, r);
    } else {
      assert [s[0]] + (s[1..] + "}") == s + "}";
      HereFirst(v, i, [s[0]], s[1..] + "}");
      HereSplit(v, i, [s[0]], s[1..] + "}");
      if |f| == 14 {
        FormatFull(v, i, f, r);
        Pass2Rejects(v, i, r);
      } else {
        FormatChar(v, i, f, r);
        Pass2Step(v, i, r);
        assert (f + [s[0]]) + s[1..] == f + s;
        FormatRefused(v, i + 1, f + [s[0]], s[1..], r.(out := SoFar(f + [s[0]])));
      }
    }
  }

  lemma FormatEmpty(v: string, i: nat, r: Reading)
    requires i < |v| && v[i] == '}' && r.st == InFormat && r.out == ""
    ensures ReadOne(v, i, r) == None
  {
  }

  lemma FormatFull(v: string, i: nat, f: string, r: Reading)
    requires i < |v| && v[i] != '}' && r.st == InFormat && r.out == SoFar(f) && |f| == 14
    ensures ReadOne(v, i, r) == None
  {
  }

  /** Every entry is proper and names a place that is free, also of those before it. */
  predicate Open(es: seq<Entry>, l: seq<Option<string>>)
    decreases |es|
  {
    es == [] || (
      && Proper(es[0], |l|) && l[es[0].index - 1].None?
      && Open(es[1..], l[es[0].index - 1 := Some("%" + es[0].format)]))
  }

  lemma {:induction false} Pass2List(v: string, i: nat, es: seq<Entry>, first: bool, r: Reading) returns (t: Reading)
    requires Here(v, i, PrintList(es, first)) && i + |PrintList(es, first)| == |v| && r.st == InNone
    requires forall e :: e in es ==> Plain(e)
    ensures Pass2(v, i, r) == if Open(es, r.list) then Some(t) else None
    ensures Open(es, r.list) ==>
      && |t.list| == |r.list|
      && (forall e :: e in es ==> 1 <= e.index <= |t.list| && t.list[e.index - 1] == Some("%" + e.format))
      && (forall k :: 0 <= k < |r.list| && r.list[k].Some? ==> t.list[k] == r.list[k])
    decreases |es|
  {
    hide Here, ReadOne, PrintEntry;
    t := r;
    if es != [] {
      var head, rest := Comma(first) + PrintEntry(es[0]), es[1..];
      HereSplit(v, i, head, PrintList(rest, false));
      if Proper(es[0], |r.list|) && r.list[es[0].index - 1].None? {
        var r' := Pass2Entry(v, i, es[0], first, r);
        t := Pass2List(v, i + |head|, rest, false, r');
        assert forall e :: e in es <==> e == es[0] || e in rest;
        assert r'.list[es[0].index - 1].Some?;
      } else {
        Pass2Refuses(v, i, es[0], first, r);
      }
    }
  }

  ghost predicate Indices(es: seq<Entry>, n: nat) {
    && (forall i {:trigger es[i]} :: 0 <= i < |es| ==> Proper(es[i], n))
    && (forall i, j {:trigger es[i], es[j]} :: 0 <= i < j < |es| ==> es[i].index != es[j].index)
  }

  ghost predicate Free(es: seq<Entry>, l: seq<Option<string>>) {
    Indices(es, |l|) && forall i {:trigger es[i]} :: 0 <= i < |es| ==> l[es[i].index - 1].None?
  }

  lemma FreeRest(es: seq<Entry>, l: seq<Option<string>>)
    requires es != [] && Free(es, l)
    ensures Proper(es[0], |l|) && l[es[0].index - 1].None?
    ensures Free(es[1..], l[es[0].index - 1 := Some("%" + es[0].format)])
  {
    var rest, m := es[1..], l[es[0].index - 1 := Some("%" + es[0].format)];
    forall i | 0 <= i < |rest| ensures Proper(rest[i], |m|) && m[rest[i].index - 1].None? {
      assert es[0].index != es[i + 1].index;
    }
    forall i, j | 0 <= i < j < |rest| ensures rest[i].index != rest[j].index {
      assert es[i + 1].index != es[j + 1].index;
    }
  }

  lemma FreeMore(es: seq<Entry>, l: seq<Option<string>>)
    requires es != [] && Proper(es[0], |l|) && l[es[0].index - 1].None?
    requires Free(es[1..], l[es[0].index - 1 := Some("%" + es[0].format)])
    ensures Free(es, l)
  {
    var rest, m := es[1..], l[es[0].index - 1 := Some("%" + es[0].format)];
    forall i | 0 <= i < |es|
      ensures Proper(es[i], |l|) && l[es[i].index - 1].None? && (i > 0 ==> es[i].index != es[0].index)
    {
      if i > 0 { assert rest[i - 1] == es[i] && m[rest[i - 1].index - 1].None?; }
    }
    forall i, j | 0 <= i < j < |es| ensures es[i].index != es[j].index {
      if i > 0 { assert rest[i - 1] == es[i] && rest[j - 1] == es[j]; }
    }
  }

  /** That is so when the indices differ and none of their places is taken. */
  lemma {:induction false} OpenExactly(es: seq<Entry>, l: seq<Option<string>>)
    ensures Open(es, l) <==> Free(es, l)
    decreases |es|
  {
    hide Free;
    if es != [] {
      if Free(es, l) { FreeRest(es, l); }
      if Proper(es[0], |l|) && l[es[0].index - 1].None? {
        var m := l[es[0].index - 1 := Some("%" + es[0].format)];
        OpenExactly(es[1..], m);
        if Free(es[1..], m) { FreeMore(es, l); }
      }
    } else {
      NoneFree(l);
    }
  }

  lemma NoneFree(l: seq<Option<string>>)
    ensures Free([], l)
  {
  }

  /** A list of n entries is accepted if and only if its indices are those from 1 to n, each once, in any order
      and not written too long, and its formats have one to fourteen characters. Then every format is stored
      under its index, behind a percent sign. */
  lemma ListExact(es: seq<Entry>)
    requires forall e :: e in es ==> Plain(e)
    ensures ReadFormat(PrintList(es, true)).Some? <==> AllShort(es, true) && Indices(es, |es|)
    ensures match ReadFormat(PrintList(es, true))
      case None => true
      case Some(r) =>
        |r.list| == |es| && forall e :: e in es ==> 1 <= e.index <= |es| && r.list[e.index - 1] == Some("%" + e.format)
  {
    hide Pass1, Pass2, PrintList, Open, Free, Indices, AllShort, Filled, Total;
    var v := PrintList(es, true);
    assert Here(v, 0, v);
    Pass1List(v, 0, es, true, 0);
    var r := StartReading(|es|);
    var t := Pass2List(v, 0, es, true, r);
    OpenExactly(es, r.list);
    BlankFree(es);
    if AllShort(es, true) && Open(es, r.list) { FormatComplete(v, |es|); }
  }

  lemma BlankFree(es: seq<Entry>)
    ensures Indices(es, |es|) <==> Free(es, Blank(|es|))
  {
  }

  // ----- translations -----

  /** A translation: plain text, a group in braces, or an escaped brace. */
  datatype Piece = Lit(text: string) | Group(text: string) | Brace

  function PrintPiece(p: Piece): string {
    match p
    case Lit(text) => text
    case Group(text) => "{" + (text + "}")
    case Brace => "\\{"
  }

  function PrintText(ps: seq<Piece>): string { if ps == [] then "" else PrintPiece(ps[0]) + PrintText(ps[1..]) }

  /** The group names a parameter of the list that has not been used before. */
  predicate Names(text: string, list: seq<string>, order: seq<nat>) {
    text != "" && 1 <= Strtol(text) <= |list| && (Strtol(text) - 1) as nat !in order
  }

  /** What a piece comes to: a group that names no parameter is text. */
  function Rendered(p: Piece, list: seq<string>, order: seq<nat>): string {
    match p
    case Lit(text) => text
    case Group(text) => if Names(text, list, order) then list[Strtol(text) - 1] else PrintPiece(p)
    case Brace => "{"
  }

  function Orders(p: Piece, list: seq<string>, order: seq<nat>): seq<nat> {
    if p.Group? && Names(p.text, list, order) then [(Strtol(p.text) - 1) as nat] else []
  }

  /** Text has no backslash and no opening brace, and that of a group no closing brace. */
  predicate Fit(p: Piece) {
    !p.Brace? ==> '\\' !in p.text && '{' !in p.text && (p.Group? ==> '}' !in p.text)
  }

  predicate FitAll(ps: seq<Piece>) { forall p :: p in ps ==> Fit(p) }

  function RenderedAll(ps: seq<Piece>, list: seq<string>, order: seq<nat>): string
    decreases |ps|
  {
    if ps == [] then ""
    else Rendered(ps[0], list, order) + RenderedAll(ps[1..], list, order + Orders(ps[0], list, order))
  }

  function OrdersAll(ps: seq<Piece>, list: seq<string>, order: seq<nat>): seq<nat>
    decreases |ps|
  {
    if ps == [] then []
    else Orders(ps[0], list, order) + OrdersAll(ps[1..], list, order + Orders(ps[0], list, order))
  }

  lemma {:induction false} ExpandLit(v: string, i: nat, s: string, list: seq<string>, out: string, order: seq<nat>)
    requires Here(v, i, s) && '\\' !in s && '{' !in s
    ensures Expand(v, i, Some(list), out, order) == Expand(v, i + |s|, Some(list), out + s, order)
    decreases |s|
  {
    hide Param, Here, Known;
    if s == "" {
      assert out + s == out;
    } else {
      assert [s[0]] + s[1..] == s && (out + [s[0]]) + s[1..] == out + s;
      HereSplit(v, i, [s[0]], s[1..]);
      HereChar(v, i, s, 0);
      ExpandLit(v, i + 1, s[1..], list, out + [s[0]], order);
    }
  }

  lemma {:induction false} ClosingDigits(v: string, i: nat, s: string)
    requires Here(v, i, s + "}") && '}' !in s
    ensures Closing(v, i) == Some(i + |s|)
    decreases |s|
  {
    HereChar(v, i, s + "}", 0);
    if s != "" {
      HereSplit(v, i, [s[0]], s[1..] + "}") by { assert [s[0]] + (s[1..] + "}") == s + "}"; }
      ClosingDigits(v, i + 1, s[1..]);
    }
  }

  lemma GroupParam(v: string, i: nat, text: string, list: seq<string>, order: seq<nat>)
    requires Here(v, i, "{" + (text + "}")) && '}' !in text
    ensures i < |v| && v[i] == '{' && Here(v, i + 1, text + "}") && i + 1 + |text| < |v|
    ensures Param(v, i, list, order) ==
      if Names(text, list, order) then Some(((Strtol(text) - 1) as nat, i + 1 + |text|)) else None
  {
    hide Here, Strtol;
    HereFirst(v, i, "{", text + "}");
    HereSplit(v, i, "{", text + "}");
    ClosingDigits(v, i + 1, text);
    HereSplit(v, i + 1, text, "}");
    HereIs(v, i + 1, text);
    HereIs(v, i + 1 + |text|, "}");
  }

  lemma ExpandOpens(v: string, i: nat, list: seq<string>, out: string, order: seq<nat>)
    requires i < |v| && v[i] == '{'
    ensures match Param(v, i, list, order)
      case None => Expand(v, i, Some(list), out, order) == Expand(v, i + 1, Some(list), out + ['{'], order)
      case Some((k, j)) => k < |list| && j >= i ==>
        Expand(v, i, Some(list), out, order) == Expand(v, j + 1, Some(list), out + list[k], order + [k])
  {
    hide Param;
  }

  lemma ExpandGroup(v: string, i: nat, text: string, list: seq<string>, out: string, order: seq<nat>)
    requires Here(v, i, "{" + (text + "}")) && Fit(Group(text))
    ensures Expand(v, i, Some(list), out, order) == Expand(v, i + |text| + 2, Some(list),
      out + Rendered(Group(text), list, order), order + Orders(Group(text), list, order))
  {
    hide Here, Strtol, Param, Expand;
    GroupParam(v, i, text, list, order);
    ExpandOpens(v, i, list, out, order);
    if !Names(text, list, order) {
      ExpandLit(v, i + 1, text + "}", list, out + "{", order);
      assert (out + "{") + (text + "}") == out + ("{" + (text + "}"));
      assert order + [] == order;
    }
  }

  lemma ExpandBrace(v: string, i: nat, list: seq<string>, out: string, order: seq<nat>)
    requires Here(v, i, "\\{")
    ensures Expand(v, i, Some(list), out, order) == Expand(v, i + 2, Some(list), out + "{", order)
  {
    HereChar(v, i, "\\{", 0);
    HereChar(v, i, "\\{", 1);
  }

  /** A translation expands to its text, with the format of each parameter in place of the group that first
      names it, other groups as they are, and escaped braces as braces; the order is that of the parameters. */
  lemma {:induction false} TextExpands(v: string, i: nat, ps: seq<Piece>, list: seq<string>, out: string,
      order: seq<nat>)
    requires Here(v, i, PrintText(ps)) && i + |PrintText(ps)| == |v| && FitAll(ps)
    ensures Expand(v, i, Some(list), out, order) ==
      Expanded(out + RenderedAll(ps, list, order), order + OrdersAll(ps, list, order))
    decreases |ps|
  {
    hide Here, Expand, PrintPiece, Rendered, Orders, Fit;
    if ps == [] {
      assert out + "" == out && order + [] == order;
      TextEnds(v, i, list, out, order);
    } else {
      var p, rest := ps[0], ps[1..];
      HereSplit(v, i, PrintPiece(p), PrintText(rest));
      assert p in ps;
      PieceExpands(v, i, p, list, out, order);
      var out', order' := out + Rendered(p, list, order), order + Orders(p, list, order);
      TextExpands(v, i + |PrintPiece(p)|, rest, list, out', order');
      var more, later := RenderedAll(rest, list, order'), OrdersAll(rest, list, order');
      assert out' + more == out + (Rendered(p, list, order) + more);
      assert order' + later == order + (Orders(p, list, order) + later);
    }
  }

  lemma TextEnds(v: string, i: nat, list: seq<string>, out: string, order: seq<nat>)
    requires i == |v|
    ensures Expand(v, i, Some(list), out, order) == Expanded(out, order)
  {
  }

  lemma PieceExpands(v: string, i: nat, p: Piece, list: seq<string>, out: string, order: seq<nat>)
    requires Here(v, i, PrintPiece(p)) && Fit(p)
    ensures Expand(v, i, Some(list), out, order) ==
      Expand(v, i + |PrintPiece(p)|, Some(list), out + Rendered(p, list, order), order + Orders(p, list, order))
  {
    hide Here, Expand, Strtol;
    assert order + [] == order;
    match p
    case Lit(text) => ExpandLit(v, i, text, list, out, order);
    case Group(text) => ExpandGroup(v, i, text, list, out, order);
    case Brace => ExpandBrace(v, i, list, out, order);
  }

  /** So it is for a whole translation. */
  lemma TranslationReads(ps: seq<Piece>, list: seq<string>)
    requires FitAll(ps)
    ensures Expand(PrintText(ps), 0, Some(list), "", []) ==
      Expanded(RenderedAll(ps, list, []), OrdersAll(ps, list, []))
  {
    assert Here(PrintText(ps), 0, PrintText(ps));
    TextExpands(PrintText(ps), 0, ps, list, "", []);
    assert "" + RenderedAll(ps, list, []) == RenderedAll(ps, list, []);
    assert [] + OrdersAll(ps, list, []) == OrdersAll(ps, list, []);
  }
}
