/** ParseStream_SMC: the character loop over a 4096-byte buffer that is shifted and refilled under the
    staged strings, proved to make exactly the callbacks of the machine on the whole text. */
module SmcParser {
  import opened SmcMachine
  import opened SmcWindow
  import opened SmcBuffer
  import opened SmcLoop

  const NULL: int := -1

  /** StringInfo: ptr and end are indices into the buffer. */
  datatype Info = Info(ptr: int, end: int, quoted: bool, special: bool)

  const EMPTY := Info(NULL, NULL, false, false)

  function InfoOf(t: Option<Token>, base: nat): Info {
    match t
    case None => EMPTY
    case Some(x) => Info(x.start - base, if x.closed then x.End() - base else NULL, x.quoted, x.special)
  }

  /** How a turn of the character loop ends: on to the next character, a wait for more input with this
      one to be parsed again, or a failure. */
  datatype Signal = Go | Reparse | Failed(err: SMCError)

  /** The turn of the machine that a turn of the loop stands for. */
  ghost predicate Answers(r: Turn, sig: Signal, st': St, ev: seq<Event>) {
    match sig
    case Go => r == Next(st', ev)
    case Reparse => r == Wait(st')
    case Failed(err) => r == Stop(err, ev)
  }

  /** The same for a branch, before the character is consumed. */
  ghost predicate Leads(r: Turn, sig: Signal, u: St, c: char, ev: seq<Event>) {
    match sig
    case Go => r == Next(Consume(u, c), ev)
    case Reparse => r == Wait(u)
    case Failed(err) => r == Stop(err, ev)
  }

  /** The character written for the one at i, and how many characters are read for it. */
  function Resolve(body: string, i: nat): (char, nat)
    requires i < |body|
  {
    if body[i] != '\\' || i + 1 >= |body| then (body[i], 1)
    else if body[i + 1] == 'n' then ('\n', 2)
    else if body[i + 1] == 't' then ('\t', 2)
    else if body[i + 1] == 'r' then ('\r', 2)
    else if body[i + 1] == '\\' || body[i + 1] == '\"' then (body[i + 1], 2)
    else (body[i], 1)
  }

  lemma {:induction false} UnescapeHead(rest: string)
    requires rest != ""
    ensures var (c, n) := Resolve(rest, 0);
      n <= |rest| && Unescape(rest) == [c] + Unescape(rest[n..])
  {
  }

  lemma UnescapeNone(body: string, i: nat)
    requires i == |body|
    ensures Unescape(body[i..]) == ""
  {
  }

  lemma {:induction false} UnescapeStep(body: string, written: string, i: nat)
    requires i < |body| && Unescape(body) == written + Unescape(body[i..])
    ensures var (c, n) := Resolve(body, i);
      i + n <= |body| && Unescape(body) == (written + [c]) + Unescape(body[i + n..])
  {
    var (c, n) := Resolve(body, i);
    UnescapeHead(body[i..]);
    assert Resolve(body[i..], 0) == (c, n);
    assert body[i..][n..] == body[i + n..];
  }

  class Parser {
    const buf: array<char>
    const hear: Listener
    var s0: Info
    var s1: Info
    var s2: Info
    var level: nat
    var inQuote: bool
    var ignoring: bool
    var ml: bool
    var line: nat
    var col: nat
    var lineBegin: int
    var events: seq<Event>

    ghost predicate Mirrors(st: St, base: nat)
      reads this
    {
      && s0 == InfoOf(st.t0, base) && s1 == InfoOf(st.t1, base) && s2 == InfoOf(st.t2, base)
      && level == st.level && inQuote == st.inQuote && ignoring == st.ignoring && ml == st.ml
      && line == st.at.line && col == st.at.col && lineBegin == st.bol - base
    }

    ghost predicate Sound(w: Window, st: St, d: nat)
      reads this, buf
    {
      buf.Length == BUFFER && Mirrors(st, w.base) && Kept(buf[..], w, st, d)
    }

    constructor (listener: Listener)
      ensures buf.Length == BUFFER && fresh(buf) && hear == listener && events == []
      ensures Mirrors(START, 0)
    {
      hear := listener;
      buf := new char[4096];
      s0, s1, s2, level, inQuote, ignoring, ml, line, col, lineBegin, events :=
        EMPTY, EMPTY, EMPTY, 0, false, false, false, 1, 0, 0, [];
    }

    /** One turn of the loop below: the character at i, or the escape sequence there, is moved down. */
    method ResolveOne(p: nat, n: nat, i: nat, out: nat, ghost body: string) returns (next: nat)
      requires out <= i < n == |body| && p + n < buf.Length
      requires forall k {:trigger body[k]} :: i <= k < n ==> buf[p + k] == body[k]
      modifies buf
      ensures next == i + Resolve(body, i).1
      ensures buf[p + out] == Resolve(body, i).0
      ensures forall k {:trigger buf[k]} :: 0 <= k < buf.Length && (k < p + out || p + next <= k) ==>
            buf[k] == old(buf[k])
    {
      assert body[i] == buf[p + i];
      assert i + 1 < n ==> body[i + 1] == buf[p + i + 1];
      next := i;
      if buf[p + next] == '\\' && next < n - 1 {
        next := next + 1;
        if buf[p + next] == 'n' {
          buf[p + next] := '\n';
        } else if buf[p + next] == 't' {
          buf[p + next] := '\t';
        } else if buf[p + next] == 'r' {
          buf[p + next] := '\r';
        } else if buf[p + next] != '\\' && buf[p + next] != '\"' {
          next := next - 1;
        }
      }
      buf[p + out] := buf[p + next];
      next := next + 1;
    }

    /** The in-place loop of FixupString: n characters from p on are rewritten, never to a longer string. */
    method ResolveEscapes(p: nat, n: nat)
      requires p + n < buf.Length
      modifies buf
      ensures Same(old(buf[..]), buf[..], p, p + n)
      ensures Ended(buf[..], p, Unescape(old(buf[p..p + n])))
    {
      hide Unescape, Resolve;
      ghost var body := buf[p..p + n];
      ghost var written := "";
      var i, out := 0, 0;
      assert body[0..] == body;
      while i < n
        invariant |written| == out <= i <= n
        invariant Same(old(buf[..]), buf[..], p, p + n)
        invariant forall k {:trigger body[k]} :: i <= k < n ==> buf[p + k] == body[k]
        invariant forall k {:trigger written[k]} :: 0 <= k < out ==> buf[p + k] == written[k]
        invariant Unescape(body) == written + Unescape(body[i..])
      {
        UnescapeStep(body, written, i);
        written := written + [Resolve(body, i).0];
        i := ResolveOne(p, n, i, out, body);
        out := out + 1;
      }
      UnescapeNone(body, i);
      buf[p + out] := '\0';
      assert Lies(buf[..], p, written);
    }

    method FixupString(d: Info) returns (r: Info)
      requires d.end == NULL ==> !d.quoted && !d.special
      requires d.end != NULL ==> 0 <= d.ptr + (if d.quoted then 1 else 0) <= d.end < buf.Length
      modifies buf
      ensures r == d.(ptr := d.ptr + (if d.quoted then 1 else 0))
      ensures if d.end != NULL then Fixed(old(buf[..]), buf[..], r.ptr, d.end, d.special) else buf[..] == old(buf[..])
    {
      r := d;
      if d.quoted { r := r.(ptr := r.ptr + 1); }
      if r.end != NULL {
        ghost var body := buf[r.ptr..r.end];
        assert body == old(buf[..])[r.ptr..r.end];
        if r.special && r.end - r.ptr >= 2 {
          ResolveEscapes(r.ptr, r.end - r.ptr);
        }
        UnescapeShorter(body);
        buf[r.end] := '\0';
      }
    }

    // ----- the staged strings -----

    method RotateStrings() returns (full: bool)
      modifies this`s0, this`s1, this`s2
      ensures full == (old(s2).ptr != NULL)
      ensures if full || old(s0).ptr == NULL then s0 == old(s0) && s1 == old(s1) && s2 == old(s2)
        else s0 == EMPTY && s1 == old(s0) && s2 == old(s1)
    {
      full := s2.ptr != NULL;
      if !full && s0.ptr != NULL {
        s2 := s1;
        s1 := s0;
        s0 := EMPTY;
      }
    }

    /** End the string being read at q, if there is one, and rotate it out. */
    method EndString(q: nat, ghost w: Window, ghost st: St) returns (ok: bool)
      requires Mirrors(st, w.base) && Based(st, w.base) && q == st.pos - w.base
      modifies this`s0, this`s1, this`s2
      ensures ok == Restage(st).Some?
      ensures ok ==> Mirrors(Restage(st).value, w.base)
    {
      ok := true;
      if s0.ptr != NULL {
        s0 := s0.(end := q);
        var full := RotateStrings();
        ok := !full;
      }
    }

    method ScrapStrings()
      modifies this`s0, this`s1, this`s2
      ensures s0 == s1 == s2 == EMPTY
    {
      s0, s1, s2 := EMPTY, EMPTY, EMPTY;
    }

    /** What the listener is given for a string that has been fixed up. */
    function Text(d: Info): Option<string>
      requires d.end != NULL ==> 0 <= d.ptr <= buf.Length
      reads this, buf
    {
      if d.end != NULL then Some(CStr(buf[d.ptr..])) else None
    }

    // ----- characters that hand nothing over -----

    method EatBlank(q: nat, ghost w: Window, ghost st: St, ghost c: char) returns (sig: Signal, ghost u: St)
      requires Sound(w, st, 1) && q == st.pos - w.base && !st.ignoring
      modifies this
      ensures Leads(Blank(st, c, events), sig, u, c, events) && events == old(events) && !sig.Reparse?
      ensures sig.Go? ==> Sound(w, u, 0) && u.pos == st.pos
    {
      KeptBased(buf[..], w, st, 1);
      PlainKept(buf[..], w, st);
      BlankKept(buf[..], w, st);
      sig, u := Go, st;
      if s0.ptr != NULL {
        if s1.ptr == NULL {
          u := Restage(st).value;
          var _ := EndString(q, w, st);
        } else if !s1.quoted {
          sig := Failed(InvalidTokens);
        }
      }
    }

    method StartQuote(q: nat, ghost w: Window, ghost st: St) returns (sig: Signal, ghost u: St)
      requires Sound(w, st, 1) && q == st.pos - w.base && !st.ignoring
      modifies this
      ensures Leads(OpenQuote(st, events), sig, u, '\"', events) && events == old(events) && !sig.Reparse?
      ensures sig.Go? ==> Sound(w, u, 0) && u.pos == st.pos
    {
      hide Shape, Holds;
      KeptBased(buf[..], w, st, 1);
      OpenQuoteKept(buf[..], w, st);
      sig, u := Go, st;
      var ok := EndString(q, w, st);
      if !ok { return Failed(InvalidTokens), st; }
      s0 := s0.(ptr := q);
      inQuote := true;
      ignoring := true;
      u := Begin(Restage(st).value).(inQuote := true, ignoring := true);
    }

    method EatPlain(q: nat, ghost w: Window, ghost st: St, ghost c: char) returns (ghost u: St)
      requires Sound(w, st, 1) && q == st.pos - w.base && !st.ignoring
      modifies this
      ensures Leads(Plain(st, c, events), Go, u, c, events) && events == old(events)
      ensures Sound(w, u, 0) && u.pos == st.pos
    {
      KeptBased(buf[..], w, st, 1);
      PlainKept(buf[..], w, st);
      u := st;
      if s0.ptr == NULL {
        s0 := s0.(ptr := q);
        u := Begin(st);
      }
    }

    method StartComment(q: nat, multi: bool, ghost w: Window, ghost st: St, ghost c: char)
      returns (sig: Signal, ghost u: St)
      requires Sound(w, st, 1) && q == st.pos - w.base && !st.ignoring
      modifies this
      ensures Leads(Comment(st, c, if multi then true else st.ml, events), sig, u, c, events)
      ensures events == old(events) && !sig.Reparse?
      ensures sig.Go? ==> Sound(w, u, 0) && u.pos == st.pos
    {
      hide Shape, Holds;
      KeptBased(buf[..], w, st, 1);
      ghost var v := st.(ignoring := true, ml := if multi then true else st.ml);
      CommentKept(buf[..], w, st, v.ml);
      ignoring := true;
      if multi { ml := true; }
      sig, u := Go, st;
      var ok := EndString(q, w, v);
      if !ok { return Failed(InvalidTokens), st; }
      u := Restage(v).value;
    }

    method EatSlash(q: nat, limit: nat, ghost w: Window, ghost st: St) returns (sig: Signal, ghost u: St)
      requires Sound(w, st, 1) && q == st.pos - w.base && limit == w.fill - w.base && q < limit && !st.ignoring
      requires w.fill <= |w.text|
      modifies this
      ensures Leads(Slash(st, Ahead(w.text, st.pos, w.fill), events), sig, u, '/', events) && events == old(events)
      ensures sig.Go? ==> Sound(w, u, 0) && u.pos == st.pos
      ensures sig.Reparse? ==> Sound(w, u, 1) && u.pos == st.pos
    {
      hide Shape, Holds, Comment, Consume;
      KeptBased(buf[..], w, st, 1);
      PlainKept(buf[..], w, st);
      sig, u := Go, st;
      if q == limit - 1 { return Reparse, st; }
      if buf[q + 1] == '/' {
        sig, u := StartComment(q, false, w, st, '/');
      } else if buf[q + 1] == '*' {
        sig, u := StartComment(q, true, w, st, '/');
      }
    }

    method EatQuoted(q: nat, limit: nat, ghost w: Window, ghost st: St, c: char) returns (sig: Signal, ghost u: St)
      requires Sound(w, st, 1) && q == st.pos - w.base && limit == w.fill - w.base && q < limit && st.inQuote
      requires w.fill <= |w.text|
      modifies this
      ensures Leads(InQuote(st, c, Ahead(w.text, st.pos, w.fill), events), sig, u, c, events) && events == old(events)
      ensures sig.Go? ==> Sound(w, u, 0) && u.pos == st.pos
      ensures sig.Reparse? ==> Sound(w, u, 1) && u.pos == st.pos
    {
      hide Shape, Holds;
      KeptBased(buf[..], w, st, 1);
      QuotedKept(buf[..], w, st);
      CloseQuoteKept(buf[..], w, st);
      sig, u := Go, st;
      ghost var t := st.t0.value;
      if q != 0 && c == '\"' && buf[q - 1] != '\\' {
        inQuote := false;
        ignoring := false;
        s0 := s0.(quoted := true);
        ghost var v := st.(inQuote := false, ignoring := false, t0 := Some(t.(quoted := true)));
        var ok := EndString(q, w, v);
        if !ok { return Failed(InvalidTokens), st; }
        u := Restage(v).value;
      } else if c == '\\' {
        s0 := s0.(special := true);
        u := st.(t0 := Some(t.(special := true)));
        if q == limit - 1 { sig := Reparse; }
      }
    }

    method EatComment(q: nat, limit: nat, ghost w: Window, ghost st: St, c: char)
        returns (sig: Signal, next: nat, ghost u: St, ghost d: char)
      requires Sound(w, st, 1) && q == st.pos - w.base && limit == w.fill - w.base && q < limit && st.ignoring
      requires !st.inQuote
      requires w.fill <= |w.text| && c == w.text[st.pos]
      modifies this
      ensures Leads(InComment(st, c, Ahead(w.text, st.pos, w.fill), events), sig, u, d, events) && events == old(events)
      ensures sig.Go? ==> Sound(w, u, 0) && u.pos == w.base + next && next < limit && d == w.text[u.pos]
      ensures sig.Reparse? ==> Sound(w, u, 1) && u.pos == st.pos
      ensures !sig.Failed?
    {
      hide Shape, Holds;
      KeptBased(buf[..], w, st, 1);
      PlainKept(buf[..], w, st);
      sig, next, u, d := Go, q, st, c;
      if c == '*' {
        if q == limit - 1 { return Reparse, q, st, c; }
        if buf[q + 1] == '/' {
          CommentEndKept(buf[..], w, st);
          ml := false;
          ignoring := false;
          next := q + 1;
          col := col + 1;
          u := Consume(st.(ml := false, ignoring := false), '*');
          d := '/';
          assert (st.line + ['*']) + ['/'] == st.line + "*/";
        }
      }
    }

    // ----- characters that hand strings over -----

    method FixToken(d: Info, ghost base: nat, ghost t: Token) returns (r: Info)
      requires d == InfoOf(Some(t), base) && (!t.closed ==> !t.quoted && !t.special)
      requires t.closed ==> 0 <= First(t, base) <= Last(t, base) < buf.Length
      modifies buf
      ensures FixedUp(old(buf[..]), buf[..], base, t)
      ensures r == d.(ptr := First(t, base))
    {
      r := FixupString(d);
    }

    /** The key and the value of a pair, fixed up in the order in which the arguments of the callback
        happen to be evaluated. */
    method FixBoth(keyFirst: bool, ghost base: nat, ghost key: Token, ghost value: Token)
      requires s2 == InfoOf(Some(key), base) && s1 == InfoOf(Some(value), base)
      requires PairLies(buf[..], base, key, value) && (!value.closed ==> !value.quoted && !value.special)
      modifies this`s1, this`s2, buf
      ensures s2 == old(s2).(ptr := First(key, base)) && s1 == old(s1).(ptr := First(value, base))
      ensures Outside(old(buf[..]), buf[..], key, value, base) && PairFixed(buf[..], base, key, value)
    {
      ghost var b := buf[..];
      ghost var b1;
      assert 0 <= First(key, base) <= Last(key, base) < |b| && 0 <= First(value, base) <= Last(value, base) < |b|;
      if keyFirst {
        s2 := FixToken(s2, base, key);
        b1 := buf[..];
        s1 := FixToken(s1, base, value);
      } else {
        s1 := FixToken(s1, base, value);
        b1 := buf[..];
        s2 := FixToken(s2, base, key);
      }
      PairIsFixed(b, b1, buf[..], base, key, value, keyFirst);
      PairLeaves(b, b1, buf[..], base, key, value, keyFirst);
    }

    /** The callback for a pair; C++ leaves the order of FixBoth open. */
    method HandPair(ghost base: nat, ghost key: Token, ghost value: Token) returns (res: SMCResult)
      requires s2 == InfoOf(Some(key), base) && s1 == InfoOf(Some(value), base)
      requires PairLies(buf[..], base, key, value) && (!value.closed ==> !value.quoted && !value.special)
      modifies this`s1, this`s2, this`events, buf
      ensures events == old(events) + [KeyValue(States(line, col), Payload(key), PairValue(key, value))]
      ensures res == hear(events)
      ensures Outside(old(buf[..]), buf[..], key, value, base) && PairFixed(buf[..], base, key, value)
    {
      var keyFirst := *;
      FixBoth(keyFirst, base, key, value);
      PairReads(buf[..], base, key, value);
      events := events + [KeyValue(States(line, col), Text(s2), Text(s1))];
      res := hear(events);
    }

    /** The listener is shown the current line. */
    method ShowLine(q: nat, ghost w: Window, ghost u: St) returns (res: SMCResult)
      requires Sound(w, u, 0) && q == u.pos - w.base && buf[q] == '\n'
      modifies this`events, buf
      ensures events == old(events) + [RawLine(u.at, CStr(u.line))] && res == hear(events)
      ensures buf[..] == old(buf[..])
    {
      ghost var b := buf[..];
      LineRead(b, w, u);
      buf[q] := '\0';
      assert buf[..] == b[q := '\0'];
      events := events + [RawLine(States(line, col), CStr(buf[lineBegin..]))];
      res := hear(events);
      buf[q] := '\n';
      assert buf[..] == b;
    }

    /** The pair on the line that ends. */
    method HandLinePair(ghost w: Window, ghost u: St) returns (sig: Signal)
      requires Sound(w, u, 0) && u.t0.None? && u.t2.Some? && !u.inQuote && u.pos < w.fill
      modifies this`s0, this`s1, this`s2, this`events, buf
      ensures u.t1.Some? && !sig.Reparse?
      ensures u.level == 0 ==> sig == Failed(InvalidProperty1) && events == old(events)
      ensures u.level > 0 ==>
        events == old(events) + [KeyValue(u.at, Payload(u.t2.value), PairValue(u.t2.value, u.t1.value))]
      ensures u.level > 0 ==> if hear(events) != Continue then sig == Failed(HaltError(hear(events))) else sig == Go
      ensures sig.Go? ==> s0 == s1 == s2 == EMPTY && Kept(buf[..], w, Scrap(NextLine(u)), 1)
    {
      ghost var b := buf[..];
      PairStaged(b, w, u);
      if level == 0 { return Failed(InvalidProperty1); }
      var res := HandPair(w.base, u.t2.value, u.t1.value);
      if res != Continue { return Failed(HaltError(res)); }
      PairLineKept(b, buf[..], w, u);
      ScrapStrings();
      sig := Go;
    }

    method EndOfLine(q: nat, ghost w: Window, ghost u: St) returns (sig: Signal, ghost next: St)
      requires Sound(w, u, 0) && q == u.pos - w.base && buf[q] == '\n' && u.t0.None? && !u.inQuote && u.pos < w.fill
      modifies this, buf
      ensures Answers(EndLine(u, old(events), hear), sig, next, events) && !sig.Reparse?
      ensures sig.Go? ==> Sound(w, next, 1) && next.pos == w.base + q + 1
    {
      hide Shape, Holds;
      KeptBased(buf[..], w, u, 0);
      sig, next := Go, NextLine(u);
      var res := ShowLine(q, w, u);
      if res != Continue { return Failed(HaltError(res)), next; }
      if s2.ptr != NULL {
        sig := HandLinePair(w, u);
        if sig.Failed? { return; }
        next := Scrap(next);
      } else {
        NextLineKept(buf[..], w, u);
      }
      col := 1;
      line := line + 1;
      lineBegin := q + 1;
    }

    method EatNewline(q: nat, ghost w: Window, ghost st: St) returns (sig: Signal, ghost next: St)
      requires Sound(w, st, 1) && q == st.pos - w.base && buf[q] == '\n' && st.pos < w.fill
      modifies this, buf
      ensures Answers(Newline(st, old(events), hear), sig, next, events) && !sig.Reparse?
      ensures sig.Go? ==> Sound(w, next, 1) && next.pos == w.base + q + 1
    {
      hide Shape, Holds;
      KeptBased(buf[..], w, st, 1);
      NewlineKept(buf[..], w, st);
      var ok := EndString(q, w, st);
      if !ok { return Failed(InvalidTokens), st; }
      inQuote := false;
      if ignoring && !ml { ignoring := false; }
      sig, next := EndOfLine(q, w, Rested(Restage(st).value));
    }

    /** The name of a section. */
    method HandName(ghost w: Window, ghost st: St) returns (res: SMCResult)
      requires buf.Length == BUFFER && Kept(buf[..], w, st, 1) && !st.ignoring
      requires Named(st).Some? && Named(st).value.t2.None? && Named(st).value.t1.Some?
      requires s1 == InfoOf(Named(st).value.t1, w.base)
      modifies this`s1, this`events, buf
      ensures events == old(events) + [NewSection(States(line, col), Payload(Named(st).value.t1.value))]
      ensures res == hear(events)
      ensures Kept(buf[..], w, NextSection(st), 0)
    {
      hide Kept;
      ghost var b := buf[..];
      NameStaged(b, w, st);
      ghost var name := Named(st).value.t1.value;
      if name.closed { BodyLies(b, w.base, name); }
      s1 := FixToken(s1, w.base, name);
      OpenKept(b, buf[..], w, st);
      if name.closed { CStrHere(buf[..], First(name, w.base), Resolved(name)); }
      events := events + [NewSection(States(line, col), Text(s1))];
      res := hear(events);
    }

    method OpenBrace(ghost w: Window, ghost st: St) returns (sig: Signal, ghost u: St)
      requires Sound(w, st, 1) && !st.ignoring
      modifies this, buf
      ensures Leads(OpenSection(st, old(events), hear), sig, u, '{', events) && !sig.Reparse?
      ensures sig.Go? ==> Sound(w, u, 0) && u.pos == st.pos
    {
      hide Shape, Holds, HandOver, Consume, Payload;
      KeptBased(buf[..], w, st, 1);
      sig, u := Go, st;
      if s0.ptr != NULL {
        var full := RotateStrings();
        if full { return Failed(InvalidSection1), st; }
      }
      if s2.ptr != NULL {
        return Failed(InvalidSection1), st;
      } else if s1.ptr == NULL {
        return Failed(InvalidSection2), st;
      }
      NameStaged(buf[..], w, st);
      var res := HandName(w, st);
      if res != Continue { return Failed(HaltError(res)), st; }
      s1 := EMPTY;
      level := level + 1;
      u := NextSection(st);
    }

    method HandLastPair(ghost w: Window, ghost st: St) returns (sig: Signal)
      requires buf.Length == BUFFER && Kept(buf[..], w, st, 1) && !st.ignoring
      requires Rotate(st).Some? && Rotate(st).value.t2.Some? && Rotate(st).value.t1.Some? && level == st.level
      requires s1 == InfoOf(Rotate(st).value.t1, w.base) && s2 == InfoOf(Rotate(st).value.t2, w.base)
      modifies this`s1, this`s2, this`events, buf
      ensures !sig.Reparse?
      ensures st.level == 0 ==> sig == Failed(InvalidProperty1) && events == old(events)
      ensures st.level > 0 ==> var u := Rotate(st).value;
        events == old(events) + [KeyValue(States(line, col), Payload(u.t2.value), PairValue(u.t2.value, u.t1.value))]
      ensures st.level > 0 ==> if hear(events) != Continue then sig == Failed(HaltError(hear(events))) else sig == Go
      ensures sig.Go? ==> Kept(buf[..], w, Closed(Rotate(st).value), 0)
    {
      ghost var b := buf[..];
      CloseStaged(b, w, st);
      ghost var u := Rotate(st).value;
      if level == 0 { return Failed(InvalidProperty1); }
      var res := HandPair(w.base, u.t2.value, u.t1.value);
      if res != Continue { return Failed(HaltError(res)); }
      PairIsAt(b, w, st);
      PairHandedKept(b, buf[..], w, u, u.t2.value, u.t1.value);
      sig := Go;
    }

    method LeaveSection(ghost w: Window, ghost v: St) returns (sig: Signal, ghost u: St)
      requires Sound(w, Scrap(v), 0) && v.level > 0
      modifies this
      ensures Leads(Leave(v, old(events), hear), sig, u, '}', events) && !sig.Reparse?
      ensures sig.Go? ==> Sound(w, u, 0) && u.pos == v.pos
    {
      sig, u := Go, v;
      events := events + [LeavingSection(States(line, col))];
      var res := hear(events);
      if res != Continue { return Failed(HaltError(res)), v; }
      level := level - 1;
      u := Scrap(v).(level := v.level - 1);
      LevelKept(buf[..], w, Scrap(v), v.level - 1);
    }

    method CloseBrace(ghost w: Window, ghost st: St) returns (sig: Signal, ghost u: St)
      requires Sound(w, st, 1) && !st.ignoring
      modifies this, buf
      ensures Leads(CloseSection(st, old(events), hear), sig, u, '}', events) && !sig.Reparse?
      ensures sig.Go? ==> Sound(w, u, 0) && u.pos == st.pos
    {
      hide Shape, Holds, HandOver, Leave, Consume, Payload, PairValue;
      KeptBased(buf[..], w, st, 1);
      sig, u := Go, st;
      var full := RotateStrings();
      if full { return Failed(InvalidSection3), st; }
      ghost var v := Rotate(st).value;
      if s2.ptr != NULL {
        CloseStaged(buf[..], w, st);
        sig := HandLastPair(w, st);
        if sig.Failed? { return; }
        v := Handed(v);
      } else if s1.ptr != NULL {
        return Failed(InvalidSection3), st;
      } else if level == 0 {
        return Failed(InvalidSection4), st;
      } else {
        CloseKept(buf[..], w, st);
      }
      ScrapStrings();
      sig, u := LeaveSection(w, v);
    }

    // ----- the character loop -----

    /** A character inside a quoted string or a comment. */
    method EatIgnored(q: nat, limit: nat, ghost w: Window, ghost st: St, c: char)
        returns (sig: Signal, next: nat, ghost u: St, ghost d: char)
      requires Sound(w, st, 1) && q == st.pos - w.base && limit == w.fill - w.base && q < limit && st.ignoring
      requires c != '\n'
      requires w.fill <= |w.text| && c == w.text[st.pos]
      modifies this
      ensures Leads(Step(st, c, Ahead(w.text, st.pos, w.fill), old(events), hear), sig, u, d, events)
      ensures events == old(events)
      ensures sig.Go? ==> Sound(w, u, 0) && u.pos == w.base + next && next < limit && d == w.text[u.pos]
      ensures sig.Reparse? ==> Sound(w, u, 1) && u.pos == st.pos
    {
      sig, next, u, d := Go, q, st, c;
      if inQuote {
        sig, u := EatQuoted(q, limit, w, st, c);
      } else if ml {
        sig, next, u, d := EatComment(q, limit, w, st, c);
      } else {
        PlainKept(buf[..], w, st);
      }
    }

    /** A character outside of strings and comments. */
    method EatToken(q: nat, limit: nat, ghost w: Window, ghost st: St, c: char) returns (sig: Signal, ghost u: St)
      requires Sound(w, st, 1) && q == st.pos - w.base && limit == w.fill - w.base && q < limit && !st.ignoring
      requires c != '\n'
      requires w.fill <= |w.text| && c == w.text[st.pos]
      modifies this, buf
      ensures Leads(Step(st, c, Ahead(w.text, st.pos, w.fill), old(events), hear), sig, u, c, events)
      ensures sig.Go? ==> Sound(w, u, 0) && u.pos == st.pos
      ensures sig.Reparse? ==> Sound(w, u, 1) && u.pos == st.pos && events == old(events)
    {
      if IsWhitespace(c) {
        sig, u := EatBlank(q, w, st, c);
      } else if c == ';' {
        sig, u := StartComment(q, false, w, st, c);
      } else if c == '/' {
        sig, u := EatSlash(q, limit, w, st);
      } else if c == '{' {
        sig, u := OpenBrace(w, st);
      } else if c == '}' {
        sig, u := CloseBrace(w, st);
      } else if c == '\"' {
        sig, u := StartQuote(q, w, st);
      } else {
        sig := Go;
        u := EatPlain(q, w, st, c);
      }
    }

    /** On to the next character of the line. */
    method Advance(ghost w: Window, ghost u: St, ghost d: char)
      requires Sound(w, u, 0) && u.pos < w.fill <= |w.text| && d == w.text[u.pos]
      modifies this`col
      ensures Sound(w, Consume(u, d), 1)
    {
      ConsumeKept(buf[..], w, u, d);
      col := col + 1;
    }

    /** One turn of the character loop. */
    method EatCharacter(q: nat, limit: nat, ghost w: Window, ghost st: St)
        returns (sig: Signal, next: nat, ghost st': St)
      requires Sound(w, st, 1) && q == st.pos - w.base && limit == w.fill - w.base && q < limit
      requires w.fill <= |w.text|
      modifies this, buf
      ensures Answers(Step(st, w.text[st.pos], Ahead(w.text, st.pos, w.fill), old(events), hear), sig, st', events)
      ensures sig.Go? ==> Sound(w, st', 1) && st'.pos == w.base + next && q < next <= limit
      ensures sig.Reparse? ==> Sound(w, st', 1) && st'.pos == st.pos && events == old(events)
    {
      hide Shape, Holds, Newline, InQuote, InComment, OpenSection, CloseSection, Blank, Comment, Slash, OpenQuote,
            Plain;
      KeptBased(buf[..], w, st, 1);
      var c := buf[q];
      next := q;
      if c == '\n' {
        sig, st' := EatNewline(q, w, st);
        next := q + 1;
      } else {
        ghost var u, d := st, c;
        if ignoring {
          sig, next, u, d := EatIgnored(q, limit, w, st, c);
        } else {
          sig, u := EatToken(q, limit, w, st, c);
        }
        st' := u;
        if sig == Go {
          Advance(w, u, d);
          next := next + 1;
          st' := Consume(u, d);
        }
      }
    }

    /** Parses what has been read, from start up to limit. */
    method EatWindow(start: nat, limit: nat, ghost w: Window, ghost st: St)
        returns (sig: Signal, q: nat, ghost st': St)
      requires Sound(w, st, 1) && start == st.pos - w.base && limit == w.fill - w.base && w.fill <= |w.text|
      modifies this, buf
      ensures match RunTo(w.text, st, old(events), w.fill, hear)
        case Paused(x, ev) => !sig.Failed? && st' == x && events == ev && Sound(w, st', 1) && q == st'.pos - w.base
        case Broken(err, ev) => sig == Failed(err) && events == ev
      ensures sig.Go? ==> q == limit
      ensures sig.Reparse? ==> q < limit
    {
      KeptBased(buf[..], w, st, 1);
      sig, q, st' := Go, start, st;
      while q < limit
        invariant Sound(w, st', 1) && q == st'.pos - w.base && q <= limit
        invariant RunTo(w.text, st', events, w.fill, hear) == RunTo(w.text, st, old(events), w.fill, hear)
        invariant sig.Go?
      {
        var next;
        sig, next, st' := EatCharacter(q, limit, w, st');
        if sig != Go { break; }
        q := next;
      }
    }

    // ----- shifting and refilling the buffer -----

    method MoveDown(d: nat, n: nat)
      requires d + n <= buf.Length
      modifies buf
      ensures Moved(old(buf[..]), buf[..], d, n)
    {
      var i := 0;
      while i < n
        invariant i <= n
        invariant forall k {:trigger buf[k]} :: 0 <= k < i ==> buf[k] == old(buf[k + d])
        invariant forall k {:trigger buf[k]} :: i <= k < buf.Length ==> buf[k] == old(buf[k])
      {
        buf[i] := buf[i + d];
        i := i + 1;
      }
    }

    function LowString(): int
      reads this
    {
      if s2.ptr != NULL then s2.ptr else if s1.ptr != NULL then s1.ptr else s0.ptr
    }

    static function Reloc(d: Info, bytes: int): Info {
      d.(ptr := if d.ptr != NULL then d.ptr - bytes else NULL, end := if d.end != NULL then d.end - bytes else NULL)
    }

    method Relocate(bytes: nat, ghost base: nat, ghost st: St)
      requires Mirrors(st, base) && Based(st, base)
      modifies this`s0, this`s1, this`s2, this`lineBegin
      ensures Mirrors(st, base + bytes)
    {
      lineBegin := lineBegin - bytes;
      s0, s1, s2 := Reloc(s0, bytes), Reloc(s1, bytes), Reloc(s2, bytes);
    }

    /** Where the first character is that is still needed. */
    method FindStage(ghost w: Window, ghost st: St) returns (stage: int)
      requires Sound(w, st, 1)
      ensures stage == Lowest(st) - w.base
    {
      hide Shape, Holds, Kept;
      KeptBased(buf[..], w, st, 1);
      LowestWithin(buf[..], w, st);
      stage := LowString();
      if stage == NULL || stage > lineBegin { stage := lineBegin; }
    }

    /** The lowest point still relied on becomes the start of the buffer, and every pointer moves along. */
    method ShiftDown(limit: nat, ghost w: Window, ghost st: St) returns (bytes: nat)
      requires Sound(w, st, 1) && limit == w.fill - w.base
      modifies this, buf
      ensures w.base + bytes == Lowest(st) && Sound(w.(base := Lowest(st)), st, 1) && events == old(events)
    {
      hide Shape, Holds, Kept, Lowest, Moved;
      ghost var b := buf[..];
      KeptBased(b, w, st, 1);
      LowestWithin(b, w, st);
      bytes := FindStage(w, st);
      assert limit - bytes == w.fill - Lowest(st);
      MoveDown(bytes, limit - bytes);
      ShiftedKept(b, buf[..], w, st);
      Relocate(bytes, w.base, st);
    }

    /** The stream reader: at most room characters from what is left of the text. */
    method ReadStream(text: string, cuts: seq<nat>, k: nat, fill: nat, at: nat, room: nat, ghost w: Window,
        ghost st: St)
        returns (n: nat)
      requires fill <= |text| && at + room < buf.Length && w.fill <= |w.text| && w.text[w.fill..] == text[fill..]
      requires fill < |text| ==> Sound(w, st, 1) && at == w.fill - w.base
      modifies buf
      ensures n == ReadSize(cuts, k, room, |text| - fill) && fill + n <= |text| && w.fill + n <= |w.text| && n <= room
      ensures w.text[w.fill + n..] == text[fill + n..]
      ensures n == 0 ==> buf[..] == old(buf[..])
      ensures fill < |text| ==> Sound(w.(fill := w.fill + n), st, 1)
    {
      ghost var b := buf[..];
      n := ReadSize(cuts, k, room, |text| - fill);
      SameRest(w.text, w.fill, text, fill, n);
      var i := 0;
      while i < n
        invariant i <= n
        invariant forall j {:trigger buf[j]} :: 0 <= j < buf.Length && (j < at || at + i <= j) ==> buf[j] == b[j]
        invariant forall p {:trigger text[p]} :: fill <= p < fill + i ==> buf[p - fill + at] == text[p]
      {
        buf[at + i] := text[fill + i];
        i := i + 1;
      }
      if fill < |text| {
        forall p {:trigger w.text[p]} | w.fill <= p < w.fill + n ensures buf[p - w.base] == w.text[p] {
          assert w.text[p] == text[fill + (p - w.fill)];
        }
        FilledKept(b, buf[..], w, st, n);
      } else {
        assert buf[..] == b;
      }
    }

    /** Parses one bufferful and shifts what is left. Without a newline since the start of the buffer
        nothing is shifted, and the next read goes where this one went. */
    method EatAndShift(start: nat, limit: nat, ghost w: Window, ghost st: St)
        returns (err: Option<SMCError>, at: nat, reparse: int, ghost w': Window, ghost st': St)
      requires Sound(w, st, 1) && start == st.pos - w.base && limit == w.fill - w.base && w.fill <= |w.text|
      modifies this, buf
      ensures err.None? ==> RunTo(w.text, st, old(events), w.fill, hear) == Paused(st', events)
      ensures err.None? ==> w' == w.(base := if st'.bol > w.base then Lowest(st') else w.base)
      ensures err.None? ==> Sound(w', st', 1) && Rests(w.text, st', events, w.fill, hear)
      ensures err.None? ==> st'.pos - w'.base == (if reparse != NULL then reparse else w'.fill - w'.base)
      ensures err.None? ==> at < BUFFER && (reparse != NULL ==> st'.pos < w.fill)
      ensures err.None? && st'.bol > w.base ==> at == w'.fill - w'.base
      ensures err.None? && st'.bol <= w.base ==> at == start && limit - start != BUFFER - 1
      ensures err.Some? ==> match RunTo(w.text, st, old(events), w.fill, hear)
        case Broken(e, ev) => e == err.value && ev == events
        case Paused(x, ev) =>
          x.bol <= w.base && limit - start == BUFFER - 1 && err.value == TokenOverflow && ev == events
    {
      var sig, q;
      w' := w;
      RunToRests(w.text, st, events, w.fill, hear);
      sig, q, st' := EatWindow(start, limit, w, st);
      at, reparse := start, if sig == Reparse then q else NULL;
      if sig.Failed? { return Some(sig.err), at, reparse, w', st'; }
      err := None;
      KeptBased(buf[..], w, st', 1);
      LowestWithin(buf[..], w, st');
      if lineBegin != 0 {
        var bytes := ShiftDown(limit, w, st');
        w' := w.(base := Lowest(st'));
        if reparse != NULL { reparse := reparse - bytes; }
        at := limit - bytes;
      } else if limit - start == BUFFER - 1 {
        err := Some(TokenOverflow);
      }
    }

    /** After the last read. */
    method EndOfText(ghost w: Window, ghost st: St) returns (err: SMCError)
      requires Sound(w, st, 1)
      modifies this`events
      ensures Outcome(err, events) == Finish(st, old(events))
    {
      KeptBased(buf[..], w, st, 1);
      if level != 0 {
        err := InvalidSection5;
      } else if s0.ptr != NULL || s1.ptr != NULL {
        err := InvalidTokens;
      } else {
        err := Okay;
      }
      events := events + [ParseEnd(err != Okay, false)];
    }

    /** Between two reads. */
    ghost predicate Reading(w: Window, st: St, at: int, reparse: int)
      reads this, buf
    {
      && w.fill <= |w.text| && Sound(w, st, 1) && 0 <= at < BUFFER
      && (w.fill < |w.text| ==> at == w.fill - w.base)
      && (w.fill < |w.text| ==> st.pos - w.base == (if reparse != NULL then reparse else at))
    }

    /** What the loop comes to can be told from here. */
    ghost predicate Heads(goal: Result, cuts: seq<nat>, k: nat, w: Window, st: St)
      requires w.fill <= |w.text|
      reads this`events
    {
      goal ==
        if w.fill == |w.text| then Done(Finish(st, events))
        else Loop(w.text, cuts, k, w.base, w.fill, st, events, hear)
    }

    /** Where the parse stands after a bufferful of which ev are the callbacks before it. If nothing was
        shifted the next read goes where this one went: what has been read since st is given up. */
    ghost method Settle(goal: Result, cuts: seq<nat>, k: nat, full: Window, st: St, ev: seq<Event>, u: St,
        w': Window, at: int, reparse: int)
        returns (w2: Window, st2: St)
      requires w'.fill <= |w'.text| && Sound(w', u, 1) && 0 <= at < BUFFER && Shape(st, 1)
      requires full.base <= st.pos <= full.fill
      requires w' == full.(base := if u.bol > full.base then Lowest(u) else full.base)
      requires u.pos - w'.base == (if reparse != NULL then reparse else w'.fill - w'.base)
      requires (reparse != NULL ==> u.pos < full.fill)
      requires u.bol > full.base ==> at == w'.fill - w'.base
      requires u.bol <= full.base ==> at == st.pos - full.base && full.fill - st.pos != BUFFER - 1
      requires goal != Lost && goal == LoopOn(full.text, cuts, k, full.base, full.fill, st, ev, u, events, hear)
      ensures Reading(w2, st2, at, reparse) && Heads(goal, cuts, k, w2, st2)
      ensures w2.text[w2.fill..] == full.text[full.fill..]
    {
      hide Shape, Holds, Quiet, Lowest, Loop;
      KeptBased(buf[..], w', u, 1);
      w2, st2 := w', u;
      LoopEnds(w2.text, cuts, k, w2.base, w2.fill, st2, events, hear);
      if u.bol <= full.base && full.fill < |full.text| {
        QuietSays(st, ev, u, events, full.fill);
        w2, st2 := Window(full.text[..st.pos] + full.text[full.fill..], full.base, st.pos), Rewind(st, u);
        RewindKept(buf[..], full, st, u, ev, events);
        RestKept(full.text, st.pos, full.fill);
        LoopEnds(w2.text, cuts, k, w2.base, w2.fill, st2, events, hear);
      }
    }

    /** One read and what follows from it. */
    method ReadAndEat(text: string, cuts: seq<nat>, k: nat, fill: nat, at: nat, reparse: int, ghost w: Window,
        ghost st: St,
                      ghost goal: Result)
        returns (n: nat, err: Option<SMCError>, at': nat, reparse': int, ghost w': Window, ghost st': St)
      requires fill <= |text| && Reading(w, st, at, reparse) && w.text[w.fill..] == text[fill..]
      requires Heads(goal, cuts, k, w, st) && goal != Lost
      modifies this, buf
      ensures n == 0 ==> w' == w && st' == st && Sound(w, st, 1) && goal == Done(Finish(st, events))
      ensures n > 0 ==> fill + n <= |text|
      ensures n > 0 && err.Some? ==> goal == Done(Fail(err.value, events))
      ensures n > 0 && err.None? ==> Reading(w', st', at', reparse') && w'.text[w'.fill..] == text[fill + n..]
      ensures n > 0 && err.None? ==> Heads(goal, cuts, k + 1, w', st')
    {
      hide Step, RunTo, Loop, LoopOn, Shape, Holds, Quiet, Lowest;
      w', st', at', reparse', err := w, st, at, reparse, None;
      ghost var b, ev := buf[..], events;
      SameLength(w.text, w.fill, text, fill);
      n := ReadStream(text, cuts, k, fill, at, BUFFER - 1 - at, w, st);
      KeptBased(b, w, st, 1);
      LoopUnfolds(w.text, cuts, k, w.base, w.fill, st, ev, hear);
      if n > 0 {
        ghost var full := w.(fill := w.fill + n);
        SameLength(w.text, full.fill, text, fill + n);
        KeptShape(b, w, st);
        err, at', reparse', w', st' := EatAndShift(if reparse != NULL then reparse else at, at + n, full, st);
        if err.None? {
          w', st' := Settle(goal, cuts, k + 1, full, st, ev, st', w', at', reparse');
        } else if RunTo(full.text, st, ev, full.fill, hear).Paused? {
          var u := RunTo(full.text, st, ev, full.fill, hear).st;
          OverflowOn(full.text, cuts, k + 1, full.base, full.fill, st, ev, u, events, hear);
        }
      }
    }

    /** The whole parse of a text that is read in cuts, and then in as much as fits: what Loop says it is,
        and what the machine does on the whole text where the window serves it. */
    method ParseStream(text: string, cuts: seq<nat>) returns (err: SMCError)
      requires buf.Length == BUFFER && Mirrors(START, 0) && events == []
      requires Loop(text, cuts, 0, 0, 0, START, [ParseStart], hear) != Lost
      modifies this, buf
      ensures Done(Outcome(err, events)) == Loop(text, cuts, 0, 0, 0, START, [ParseStart], hear)
      ensures CutsOk(text, cuts, 0, 0, 0, START, [ParseStart], hear) ==> Outcome(err, events) == Parse(text, hear)
    {
      hide Step, Run, RunTo, Shape, Holds, Loop, CutsOk;
      events := events + [ParseStart];
      assert events == [ParseStart];
      var at, fill, k, reparse := 0, 0, 0, NULL;
      ghost var goal := Loop(text, cuts, 0, 0, 0, START, [ParseStart], hear);
      ghost var w, st := Window(text, 0, 0), START;
      StartKept(buf[..], text);
      LoopEnds(text, cuts, 0, 0, 0, START, events, hear);
      if CutsOk(text, cuts, 0, 0, 0, START, [ParseStart], hear) {
        CutsLoop(text, cuts, 0, 0, 0, START, [ParseStart], hear);
      }
      while true
        invariant fill <= |text| && w.fill <= |w.text| && w.text[w.fill..] == text[fill..]
        invariant Reading(w, st, at, reparse) && Heads(goal, cuts, k, w, st)
        decreases |text| - fill
      {
        var n, failed;
        n, failed, at, reparse, w, st := ReadAndEat(text, cuts, k, fill, at, reparse, w, st, goal);
        if n == 0 { break; }
        if failed.Some? {
          events := events + [ParseEnd(true, failed.value == Custom)];
          return failed.value;
        }
        fill, k := fill + n, k + 1;
      }
      err := EndOfText(w, st);
    }
  }

  lemma SameRest(v: string, i: nat, text: string, j: nat, n: nat)
    requires i <= |v| && j + n <= |text| && v[i..] == text[j..]
    ensures i + n <= |v| && v[i + n..] == text[j + n..]
    ensures forall p {:trigger v[p]} :: i <= p < i + n ==> v[p] == text[j + (p - i)]
  {
    assert |v[i..]| == |text[j..]|;
    assert v[i + n..] == v[i..][n..] && text[j + n..] == text[j..][n..];
    forall p {:trigger v[p]} | i <= p < i + n ensures v[p] == text[j + (p - i)] {
      assert v[i..][p - i] == text[j..][p - i];
    }
  }

  lemma SameLength(v: string, i: nat, text: string, j: nat)
    requires i <= |v| && j <= |text| && v[i..] == text[j..]
    ensures |v| - i == |text| - j
  {
    assert |v[i..]| == |text[j..]|;
  }

  lemma RestKept(v: string, p: nat, fill: nat)
    requires p <= fill <= |v|
    ensures (v[..p] + v[fill..])[p..] == v[fill..]
  {
  }

  lemma KeptShape(b: string, w: Window, st: St)
    requires Kept(b, w, st, 1)
    ensures Shape(st, 1)
  {
  }

  /** One turn of the loop. */
  lemma LoopUnfolds(v: string, cuts: seq<nat>, k: nat, base: nat, fill: nat, st: St, ev: seq<Event>, hear: Listener)
    requires base <= fill <= |v| && fill - base < BUFFER && st.pos <= fill
    ensures var n := ReadSize(cuts, k, BUFFER - 1 - (fill - base), |v| - fill);
      Loop(v, cuts, k, base, fill, st, ev, hear) ==
        if n == 0 then Done(Finish(st, ev))
        else
          match RunTo(v, st, ev, fill + n, hear)
          case Broken(err, ev') => Done(Fail(err, ev'))
          case Paused(u, ev') => LoopOn(v, cuts, k + 1, base, fill + n, st, ev, u, ev', hear)
  {
    hide RunTo, Quiet, Lowest;
  }

  lemma OverflowOn(v: string, cuts: seq<nat>, k: nat, base: nat, fill: nat, st: St, ev: seq<Event>, u: St,
      ev2: seq<Event>, hear: Listener)
    requires fill <= |v| && st.pos <= fill && u.bol <= base && fill - st.pos == BUFFER - 1
    ensures LoopOn(v, cuts, k, base, fill, st, ev, u, ev2, hear) == Done(Fail(TokenOverflow, ev2))
  {
  }

  lemma QuietSays(st: St, ev: seq<Event>, u: St, ev2: seq<Event>, fill: nat)
    requires Quiet(st, ev, u, ev2, fill)
    ensures u.pos == fill && ev2 == ev && st.pos <= fill && (u.t0.Some? ==> !u.t0.value.closed)
  {
  }

  lemma LoopEnds(v: string, cuts: seq<nat>, k: nat, base: nat, fill: nat, st: St, ev: seq<Event>, hear: Listener)
    requires fill <= |v|
    ensures fill == |v| && base <= fill && fill - base < BUFFER && st.pos <= fill ==>
      Loop(v, cuts, k, base, fill, st, ev, hear) == Done(Finish(st, ev))
  {
  }

  /** The buffer still holds what is left of the state when the characters since st.pos are given up. */
  lemma RewindKept(b: string, w: Window, st: St, u: St, ev: seq<Event>, ev2: seq<Event>)
    requires Shape(st, 1) && Kept(b, w, u, 1) && w.base <= st.pos && w.fill <= |w.text| && Quiet(st, ev, u, ev2, w.fill)
    ensures Kept(b, Window(w.text[..st.pos] + w.text[w.fill..], w.base, st.pos), Rewind(st, u), 1)
  {
    var w', u' := Window(w.text[..st.pos] + w.text[w.fill..], w.base, st.pos), Rewind(st, u);
    assert Shape(u, 1) && Holds(b, w, u);
    RewindShape(st, u, ev, w.fill);
    RewindHolds(b, w, w', st, u, ev);
    assert Shape(u', 1) && Holds(b, w', u');
  }

  lemma RewindShape(st: St, u: St, ev: seq<Event>, fill: nat)
    requires Shape(st, 1) && Shape(u, 1) && Quiet(st, ev, u, ev, fill)
    ensures Shape(Rewind(st, u), 1)
  {
  }

  lemma LiesPrefix(b: string, i: int, s: string, t: string)
    requires Lies(b, i, t) && s <= t
    ensures Lies(b, i, s)
  {
    forall k {:trigger s[k]} | 0 <= k < |s| ensures b[i + k] == s[k] {
      assert t[k] == s[k];
    }
  }

  lemma RewindHolds(b: string, w: Window, w': Window, st: St, u: St, ev: seq<Event>)
    requires Shape(st, 1) && Holds(b, w, u) && w.base <= st.pos && Quiet(st, ev, u, ev, w.fill)
    requires w'.base == w.base && w'.fill == st.pos <= |w'.text|
    ensures Holds(b, w', Rewind(st, u))
  {
    LiesPrefix(b, u.bol - w.base, st.line, u.line);
    if u.t0.Some? { LiesPrefix(b, u.t0.value.start - w.base, Raw(st.t0), u.t0.value.raw); }
  }
}
