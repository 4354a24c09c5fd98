/** The phrase compiler of sourcemod/core/Translator.cpp: the two passes over a #format list, and the
    expansion of a translation, as functions on the characters before the terminator. */
module PhraseFormat {
  datatype Option<+T> = None | Some(value: T)

  datatype ParseState = InNone | InIndex | InFormat

  const FMT_BUF: nat := 16
  const MAX_TRANSLATE_PARAMS: nat := 32

  predicate IsDigit(c: char) { '0' <= c <= '9' }

  // ----- the first pass: how many entries there are -----

  /** One character of the first pass; None rejects the phrase. last is where the entry's text began. */
  function Browse(c: char, i: nat, st: ParseState, count: nat, last: nat): Option<(ParseState, nat, nat)> {
    match st
    case InNone => if c == '{' then Some((InIndex, count + 1, last)) else Some((InNone, count, last))
    case InIndex =>
      if c == ':' then (if i - last >= 15 then None else Some((InFormat, count, last)))
      else if IsDigit(c) then Some((InIndex, count, last)) else None
    case InFormat => if c == '}' then Some((InNone, count, i + 1)) else Some((InFormat, count, last))
  }

  /** The number of entries, if the list is well formed. */
  function Pass1(v: string, i: nat, st: ParseState, count: nat, last: nat): Option<nat>
    decreases |v| - i
  {
    if i >= |v| then (if st == InNone then Some(count) else None)
    else
      match Browse(v[i], i, st, count, last)
      case None => None
      case Some((st', count', last')) => Pass1(v, i + 1, st', count', last')
  }

  // ----- the second pass: the format strings -----

  function DigitsValue(s: string): nat {
    if s == "" then 0
    else DigitsValue(s[..|s| - 1]) * 10 + (if IsDigit(s[|s| - 1]) then s[|s| - 1] as nat - '0' as nat else 0)
  }

  function LeadingDigits(s: string): string {
    if s == "" || !IsDigit(s[0]) then "" else [s[0]] + LeadingDigits(s[1..])
  }

  predicate IsSpace(c: char) {
    c == ' ' || c == '\t' || c == '\n' || c == '\r' || c == (11 as char) || c == (12 as char)
  }

  function SkipSpaces(s: string): string {
    if s == "" || !IsSpace(s[0]) then s else SkipSpaces(s[1..])
  }

  /** strtol in base ten; a value too large for a long is as far out of range as the true one. */
  function Strtol(s: string): int {
    var t := SkipSpaces(s);
    if t != "" && t[0] == '-' then -(DigitsValue(LeadingDigits(t[1..])) as int)
    else if t != "" && t[0] == '+' then DigitsValue(LeadingDigits(t[1..]))
    else DigitsValue(LeadingDigits(t))
  }

  /** The state of the second pass: where the index begins, the entry it names, and its string so far
      (empty until the first character, which is preceded by a percent sign). */
  datatype Reading = Reading(st: ParseState, idx: Option<nat>, cur: nat, out: string, list: seq<Option<string>>,
        bytes: nat)

  function Blank(n: nat): seq<Option<string>> { seq(n, _ => None) }

  /** One character of the second pass; None rejects the phrase. */
  function ReadOne(v: string, i: nat, r: Reading): Option<Reading>
    requires i < |v|
  {
    var c := v[i];
    match r.st
    case InNone => if c == '{' then Some(r.(st := InIndex, idx := None)) else Some(r)
    case InIndex =>
      if c == ':' then
        if r.idx.None? || r.idx.value > i then None
        else
          var k := Strtol(v[r.idx.value..i]);
          if k < 1 || k > |r.list| then None
          else if r.list[k - 1].Some? then None
          else Some(r.(cur := k, st := InFormat, out := ""))
      else if r.idx.None? then Some(r.(idx := Some(i))) else Some(r)
    case InFormat =>
      if c == '}' then
        if r.out == "" || r.cur < 1 || r.cur > |r.list| then None
        else Some(r.(st := InNone, list := r.list[r.cur - 1 := Some(r.out)], bytes := r.bytes + |r.out|))
      else
        var out := if r.out == "" then "%" else r.out;
        if |out| >= FMT_BUF - 1 then None else Some(r.(out := out + [c]))
  }

  function Pass2(v: string, i: nat, r: Reading): Option<Reading>
    decreases |v| - i
  {
    if i >= |v| then Some(r)
    else
      match ReadOne(v, i, r)
      case None => None
      case Some(r') => Pass2(v, i + 1, r')
  }

  function StartReading(n: nat): Reading { Reading(InNone, None, 0, "", Blank(n), 0) }

  /** The #format list, both passes and the check that every index has its string. */
  function ReadFormat(v: string): Option<Reading> {
    match Pass1(v, 0, InNone, 0, 0)
    case None => None
    case Some(n) =>
      match Pass2(v, 0, StartReading(n))
      case None => None
      case Some(r) => if forall k :: 0 <= k < |r.list| ==> r.list[k].Some? then Some(r) else None
  }

  // ----- the expansion of a translation -----

  /** The output and the order of the parameters, or an overrun: a backslash that is neither followed by
      a known character nor by two more characters makes the reader step over the terminator. */
  datatype Expansion = Expanded(out: string, order: seq<nat>) | Overrun

  predicate Known(c: char) { c == '\n' || c == '\t' || c == '\r' || c == '{' }

  /** The position of the next closing brace. */
  function Closing(v: string, i: nat): Option<nat>
    decreases |v| - i
  {
    if i >= |v| then None else if v[i] == '}' then Some(i) else Closing(v, i + 1)
  }

  /** The parameter that the brace at i opens, and where it closes. */
  function Param(v: string, i: nat, list: seq<string>, order: seq<nat>): Option<(nat, nat)>
    requires i < |v|
  {
    var j := Closing(v, i + 1);
    if j.None? || j.value <= i + 1 || j.value > |v| then None
    else
      var k := Strtol(v[i + 1..j.value]);
      if k < 1 || k > |list| || (k - 1) as nat in order then None else Some(((k - 1) as nat, j.value))
  }

  function Expand(v: string, i: nat, list: Option<seq<string>>, out: string, order: seq<nat>): Expansion
    decreases |v| - i
  {
    if i >= |v| then Expanded(out, order)
    else if v[i] == '\\' then
      if i + 1 < |v| && Known(v[i + 1]) then Expand(v, i + 2, list, out + [v[i + 1]], order)
      else if i + 2 >= |v| then Overrun
      else Expand(v, i + 3, list, out + ['\\', v[i + 1]], order)
    else if v[i] == '{' && list.Some? then
      match Param(v, i, list.value, order)
      case None => Expand(v, i + 1, list, out + ['{'], order)
      case Some((k, j)) =>
        if k < |list.value| && j >= i then Expand(v, j + 1, list, out + list.value[k], order + [k]) else Overrun
    else Expand(v, i + 1, list, out + [v[i]], order)
  }
}
