/** Exactly which keys and values survive printing and parsing. */
module SmcSurvival {
  import opened SmcMachine
  import opened SmcRoundTrip

  // ----- strings are handed over in the order in which they were staged -----

  /** The oldest staged string is t. */
  predicate Oldest(st: St, t: Token) {
    if st.t2.Some? then st.t2 == Some(t) && st.t1.Some? else st.t1 == Some(t)
  }

  /** The call hands over t, as a section's name or as a key. */
  predicate Hands(c: Call, t: Token) {
    (c.Opened? && c.name == Payload(t)) || (c.Paired? && c.key == Payload(t))
  }

  /** No call has been made since ev, or the first of them hands over t. */
  ghost predicate FirstHands(ev: seq<Event>, ev2: seq<Event>, t: Token) {
    var n := |Calls(ev)|;
    n <= |Calls(ev2)| && Calls(ev2)[..n] == Calls(ev) && (n < |Calls(ev2)| ==> Hands(Calls(ev2)[n], t))
  }

  ghost predicate TurnHands(r: Turn, ev: seq<Event>, t: Token) {
    match r
    case Next(u, ev2) => FirstHands(ev, ev2, t) && (Calls(ev2) == Calls(ev) ==> Oldest(u, t))
    case Wait(_) => true
    case Stop(_, ev2) => FirstHands(ev, ev2, t)
  }

  lemma SameHands(ev: seq<Event>, t: Token)
    ensures FirstHands(ev, ev, t)
  {
  }

  lemma LineHands(ev: seq<Event>, e: Event, t: Token)
    requires e.RawLine? || e.ParseEnd?
    ensures Calls(ev + [e]) == Calls(ev) && FirstHands(ev, ev + [e], t)
  {
    CallsAdd(ev, e);
  }

  lemma NameHands(ev: seq<Event>, at: States, t: Token)
    ensures var e := NewSection(at, Payload(t)); FirstHands(ev, ev + [e], t) && Calls(ev + [e]) != Calls(ev)
  {
    CallsAdd(ev, NewSection(at, Payload(t)));
  }

  lemma PairHands(ev: seq<Event>, at: States, t: Token, value: Option<string>, tail: seq<Event>)
    requires tail == [] || (|tail| == 1 && tail[0].LeavingSection?)
    ensures var e := ev + [KeyValue(at, Payload(t), value)]; FirstHands(ev, e + tail, t) && Calls(e + tail) != Calls(ev)
  {
    var e := ev + [KeyValue(at, Payload(t), value)];
    CallsAdd(ev, KeyValue(at, Payload(t), value));
    if tail == [] {
      assert e + tail == e;
    } else {
      assert tail == [tail[0]];
      CallsAdd(e, tail[0]);
    }
  }

  lemma NewlineHands(st: St, ev: seq<Event>, t: Token)
    requires Oldest(st, t)
    ensures TurnHands(Newline(st, ev, YES), ev, t)
  {
    hide Calls, FirstHands, Payload, PairValue;
    SameHands(ev, t);
    match Restage(st)
    case None =>
    case Some(u) =>
      assert Oldest(u, t);
      var e := RawLine(st.at, CStr(st.line));
      LineHands(ev, e, t);
      if u.t2.Some? {
        var pair := KeyValue(st.at, Payload(t), PairValue(t, u.t1.value));
        PairAfter(ev, e, st.at, t, PairValue(t, u.t1.value));
        assert (ev + [e]) + [pair] == ev + [e] + [pair];
      }
  }

  lemma PairAfter(ev: seq<Event>, e: Event, at: States, t: Token, value: Option<string>)
    requires e.RawLine?
    ensures var ev2 := ev + [e] + [KeyValue(at, Payload(t), value)]; FirstHands(ev, ev2, t) && Calls(ev2) != Calls(ev)
  {
    CallsAdd(ev, e);
    CallsAdd(ev + [e], KeyValue(at, Payload(t), value));
  }

  lemma OpenHands(st: St, ev: seq<Event>, t: Token)
    requires Oldest(st, t)
    ensures TurnHands(OpenSection(st, ev, YES), ev, t)
  {
    hide Calls, FirstHands, Payload, HandOver;
    SameHands(ev, t);
    NameHands(ev, st.at, t);
  }

  lemma CloseHands(st: St, ev: seq<Event>, t: Token)
    requires Oldest(st, t)
    ensures TurnHands(CloseSection(st, ev, YES), ev, t)
  {
    hide Calls, FirstHands, Payload, PairValue;
    SameHands(ev, t);
    match Rotate(st)
    case None =>
    case Some(u) =>
      if u.t2.Some? && u.t1.Some? && u.level > 0 {
        var pair := KeyValue(u.at, Payload(t), PairValue(t, u.t1.value));
        var v := HandOver(HandOver(u, u.t2.value), u.t1.value);
        PairHands(ev, u.at, t, PairValue(t, u.t1.value), [LeavingSection(v.at)]);
        assert Leave(v, ev + [pair], YES).ev == (ev + [pair]) + [LeavingSection(v.at)];
      }
  }

  lemma RestageOldest(st: St, t: Token)
    requires Oldest(st, t)
    ensures Restage(st).Some? ==> Oldest(Restage(st).value, t)
  {
  }

  lemma ConsumeOldest(st: St, c: char, t: Token)
    requires Oldest(st, t)
    ensures Oldest(Consume(st, c), t)
  {
  }

  lemma CommentHands(st: St, c: char, next: Option<char>, ml: bool, ev: seq<Event>, t: Token)
    requires Oldest(st, t)
    ensures TurnHands(InComment(st, c, next, ev), ev, t) && TurnHands(Comment(st, c, ml, ev), ev, t)
  {
    hide Calls, FirstHands, Restage, Consume;
    SameHands(ev, t);
    ConsumeOldest(st, c, t);
    var u := st.(ignoring := true, ml := ml);
    RestageOldest(u, t);
    if Restage(u).Some? { ConsumeOldest(Restage(u).value, c, t); }
  }

  lemma QuietHands(st: St, c: char, ev: seq<Event>, t: Token)
    requires Oldest(st, t)
    ensures TurnHands(Blank(st, c, ev), ev, t) && TurnHands(Next(Consume(st, c), ev), ev, t)
  {
    hide Calls, FirstHands, Restage, Consume;
    SameHands(ev, t);
    ConsumeOldest(st, c, t);
    RestageOldest(st, t);
    if Restage(st).Some? { ConsumeOldest(Restage(st).value, c, t); }
  }

  lemma QuoteHands(st: St, c: char, next: Option<char>, ev: seq<Event>, t: Token)
    requires Oldest(st, t)
    ensures TurnHands(InQuote(st, c, next, ev), ev, t)
  {
    hide Calls, FirstHands, Restage, Consume;
    SameHands(ev, t);
    ConsumeOldest(st, c, t);
    if st.t0.Some? {
      var u := st.(inQuote := false, ignoring := false, t0 := Some(st.t0.value.(quoted := true)));
      RestageOldest(u, t);
      if Restage(u).Some? { ConsumeOldest(Restage(u).value, c, t); }
      ConsumeOldest(st.(t0 := Some(st.t0.value.(special := true))), c, t);
    }
  }

  lemma StringHands(st: St, c: char, ev: seq<Event>, t: Token)
    requires Oldest(st, t)
    ensures TurnHands(OpenQuote(st, ev), ev, t) && TurnHands(Plain(st, c, ev), ev, t)
  {
    hide Calls, FirstHands, Restage, Consume;
    SameHands(ev, t);
    ConsumeOldest(st, c, t);
    RestageOldest(st, t);
    var begun := Some(Token(st.pos, "", false, false, false));
    ConsumeOldest(st.(t0 := begun), c, t);
    if Restage(st).Some? { ConsumeOldest(Restage(st).value.(t0 := begun, inQuote := true, ignoring := true), '\"', t); }
  }

  lemma StepHands(st: St, c: char, next: Option<char>, ev: seq<Event>, t: Token)
    requires Oldest(st, t)
    ensures TurnHands(Step(st, c, next, ev, YES), ev, t)
  {
    hide Newline, CloseSection, OpenSection, InQuote, InComment, Comment, Blank, Consume, OpenQuote, Plain, TurnHands,
          Oldest;
    NewlineHands(st, ev, t);
    OpenHands(st, ev, t);
    CloseHands(st, ev, t);
    QuietHands(st, c, ev, t);
    CommentHands(st, c, next, st.ml, ev, t);
    CommentHands(st, c, next, true, ev, t);
    QuoteHands(st, c, next, ev, t);
    StringHands(st, c, ev, t);
    if c == '/' && !st.ignoring && next.None? { WaitHands(st, ev, t); }
  }

  lemma WaitHands(st: St, ev: seq<Event>, t: Token)
    ensures TurnHands(Wait(st), ev, t)
  {
  }

  /** Whatever follows, the oldest staged string is what the next call hands over. */
  lemma {:induction false} OldestFirst(text: string, st: St, ev: seq<Event>, t: Token)
    requires Oldest(st, t)
    ensures FirstHands(ev, Run(text, st, ev, YES).ev, t)
    decreases Left(text, st.pos)
  {
    hide Step, Oldest;
    if st.pos < |text| {
      var r := Step(st, text[st.pos], At(text, st.pos + 1), ev, YES);
      StepHands(st, text[st.pos], At(text, st.pos + 1), ev, t);
      assert Run(text, st, ev, YES) == After(text, r, ev, YES);
      if r.Next? {
        if Calls(r.ev) == Calls(ev) {
          OldestFirst(text, r.st, r.ev, t);
        } else {
          RunExtends(text, r.st, r.ev);
          CallsExtend(r.ev, Run(text, r.st, r.ev, YES).ev);
          FirstStays(ev, r.ev, Run(text, r.st, r.ev, YES).ev, t);
        }
      } else if r.Stop? {
        LineHands(r.ev, ParseEnd(true, r.err.Custom?), t);
      } else {
        FinishHands(r.st, ev, t);
      }
    } else {
      FinishHands(st, ev, t);
    }
  }

  lemma FinishHands(st: St, ev: seq<Event>, t: Token)
    ensures FirstHands(ev, Finish(st, ev).ev, t)
  {
    hide Calls, FirstHands;
    LineHands(ev, ParseEnd(true, false), t);
    LineHands(ev, ParseEnd(false, false), t);
  }

  lemma FirstStays(ev: seq<Event>, ev2: seq<Event>, ev3: seq<Event>, t: Token)
    requires FirstHands(ev, ev2, t) && Calls(ev2) != Calls(ev)
    requires |Calls(ev2)| <= |Calls(ev3)| && Calls(ev3)[..|Calls(ev2)|] == Calls(ev2)
    ensures FirstHands(ev, ev3, t)
  {
    hide Calls;
    var a, b, c := Calls(ev), Calls(ev2), Calls(ev3);
    assert b[..|b|] == b;
    assert c[..|a|] == c[..|b|][..|a|] && c[|a|] == c[..|b|][|a|];
  }

  // ----- exactly which pairs survive -----

  /** A pair in a section without a name. */
  function PairForest(key: string, value: string): seq<Node> {
    [Section("", [Pair(key, value)])]
  }

  function PairText(key: string, value: string): string {
    KeyPart(key, 1) + (Quote(value) + "\n")
  }

  lemma PairForestText(key: string, value: string)
    ensures PrintAll(PairForest(key, value), 0) ==
      (NameLine("", 0) + BraceLine("{", 0)) + (PairText(key, value) + BraceLine("}", 0))
  {
    var none: seq<Node> := [];
    var ps := [Pair(key, value)];
    assert PrintAll(none, 1) == "" && PrintAll(none, 0) == "" && ps[1..] == none;
    assert PrintAll(ps, 1) == PairText(key, value) + PrintAll(ps[1..], 1);
    var f := PairForest(key, value);
    assert f[1..] == none;
    assert PrintAll(f, 0) == Print(f[0], 0) + PrintAll(f[1..], 0);
  }

  lemma PairCalls(key: string, value: string)
    ensures PreOrderAll(PairForest(key, value)) == [Opened(Some("")), Paired(Some(key), Some(value)), Closed]
  {
    var none: seq<Node> := [];
    var ps := [Pair(key, value)];
    assert PreOrderAll(none) == [] && ps[1..] == none;
    assert PreOrderAll(ps) == PreOrder(ps[0]) + PreOrderAll(ps[1..]);
    var f := PairForest(key, value);
    assert f[1..] == none;
    assert PreOrderAll(f) == PreOrder(f[0]) + PreOrderAll(f[1..]);
  }

  /** Up to the pair. */
  lemma IntoPair(text: string, key: string, value: string) returns (st: St, ev: seq<Event>)
    requires text == PrintAll(PairForest(key, value), 0)
    ensures Ready(st, st.pos, 1, None, None) && Here(text, st.pos, PairText(key, value))
    ensures Calls(ev) == [Opened(Some(""))] && Run(text, st, ev, YES) == Parse(text, YES)
  {
    hide Step, Run, Calls;
    PairForestText(key, value);
    RunLawful(text);
    var flow := SameRun(text);
    var head := NameLine("", 0) + BraceLine("{", 0);
    assert Here(text, 0, head + (PairText(key, value) + BraceLine("}", 0)));
    HereSplit(text, 0, head, PairText(key, value) + BraceLine("}", 0));
    HereSplit(text, |head|, PairText(key, value), BraceLine("}", 0));
    HereSplit(text, 0, NameLine("", 0), BraceLine("{", 0));
    var a, e1, t := OverNamed(text, flow, START, [ParseStart], 0, "");
    st, ev := OverOpenLine(text, flow, a, e1, 0, t);
    NoCalls();
  }

  predicate EndsWell(s: string) { s == "" || s[|s| - 1] != '\\' }

  lemma QuoteLength(s: string)
    ensures |Quote(s)| == |Escape(s)| + 2
  {
  }

  /** A key that its quote closes. */
  lemma OverKeyPart(text: string, flow: Flow, st: St, ev: seq<Event>, level: nat, key: string)
    returns (st2: St, t: Token)
    requires Lawful(text, flow) && Ready(st, st.pos, level, None, None) && EndsWell(key)
    requires Here(text, st.pos, KeyPart(key, level))
    ensures Payload(t) == Some(CStr(key)) && t.quoted
    ensures Ready(st2, st.pos + |KeyPart(key, level)|, level, Some(t), None) && flow(st, ev, st2, ev)
    ensures t.End() < st2.pos
  {
    hide Quote, Step, Lawful;
    QuoteLength(key);
    HereSplit(text, st.pos, Tabs(level), Quote(key) + Tabs(2));
    var a := OverTabs(text, flow, st, ev, level);
    HereSplit(text, a.pos, Quote(key), Tabs(2));
    var b := OverQuoted(text, flow, a, ev, key);
    t := b.t1.value;
    PrintedPayload(t, key);
    st2 := OverTabs(text, flow, b, ev, 2);
    FlowBoth(text, flow, st, ev, a, ev, b, ev);
    FlowBoth(text, flow, st, ev, b, ev, st2, ev);
  }

  lemma {:induction false} UnescapeThen(s: string, w: string)
    ensures Unescape(Escape(s) + w) == s + Unescape(w)
  {
    hide Unescape, Glyph;
    if s == "" {
      assert Escape(s) + w == w && s + Unescape(w) == Unescape(w);
    } else {
      UnescapeThen(s[1..], w);
      var r := Escape(s[1..]) + w;
      UnescapeGlyph(s[0], r);
      assert Escape(s) + w == Glyph(s[0]) + r;
      assert [s[0]] + (s[1..] + Unescape(w)) == s + Unescape(w);
    }
  }

  /** A key that its quote does not close goes on up to the quote that opens the value. */
  ghost predicate RunsOn(t: Token, key: string) {
    t.closed && t.quoted && t.special && t.raw == "\"" + (Escape(key) + "\"\t\t")
  }

  lemma RunsOnPayload(t: Token, key: string)
    requires RunsOn(t, key)
    ensures Payload(t) != Some(key)
  {
    var tail := "\"\t\t";
    UnescapeThen(key, tail);
    assert Unescape("") == "" && Unescape("\t") == "\t" && Unescape("\t\t") == "\t\t" by {
      assert "\t"[1..] == "" && "\t\t"[1..] == "\t";
    }
    assert tail[1..] == "\t\t" && Unescape(tail) == tail;
    assert t.Body() == Escape(key) + tail;
    var w := key + tail;
    CStrPrefix(w);
    if '\0' !in key { assert '\0' !in w; }
  }

  lemma OverRunOn(text: string, flow: Flow, st: St, ev: seq<Event>, key: string, value: string)
    returns (st2: St, t: Token)
    requires Lawful(text, flow) && Ready(st, st.pos, 1, None, None) && !EndsWell(key)
    requires Here(text, st.pos, PairText(key, value))
    ensures Oldest(st2, t) && RunsOn(t, key) && flow(st, ev, st2, ev)
  {
    hide Step, Quote, Lawful;
    HereSplit(text, st.pos, KeyPart(key, 1), Quote(value) + "\n");
    HereSplit(text, st.pos, Tabs(1), Quote(key) + Tabs(2));
    var a := OverTabs(text, flow, st, ev, 1);
    HereSplit(text, a.pos, Quote(key), Tabs(2));
    var c := OverOpenString(text, flow, a, ev, key);
    FlowBoth(text, flow, st, ev, a, ev, c, ev);
    st2, t := OverGap(text, flow, c, ev, key, value);
    FlowBoth(text, flow, st, ev, c, ev, st2, ev);
  }

  /** The tabs, which the string takes in, and the quote that ends it. */
  lemma OverGap(text: string, flow: Flow, st: St, ev: seq<Event>, key: string, value: string)
    returns (st2: St, t: Token)
    requires Lawful(text, flow) && st.ignoring && st.inQuote && st.t1.None? && st.t2.None?
    requires st.t0.Some? && st.t0 == Some(Token(st.t0.value.start, Quote(key), false, true, false))
    requires Here(text, st.pos, Tabs(2)) && Here(text, st.pos + 2, Quote(value) + "\n")
    ensures Oldest(st2, t) && RunsOn(t, key) && flow(st, ev, st2, ev)
  {
    hide Step, Escape, Lawful;
    TwoTabs();
    HereSplit(text, st.pos, "\t", "\t");
    HereChar(text, st.pos, '\t');
    HereChar(text, st.pos + 1, '\t');
    assert Quote(value) + "\n" == "\"" + (Escape(value) + "\"\n");
    HereSplit(text, st.pos + 2, "\"", Escape(value) + "\"\n");
    HereChar(text, st.pos + 2, '\"');
    var d := StringChar(text, flow, st, ev, '\t');
    var f := StringChar(text, flow, d, ev, '\t');
    st2 := OverClosing(text, flow, f, ev);
    FlowBoth(text, flow, st, ev, d, ev, f, ev);
    FlowBoth(text, flow, st, ev, f, ev, st2, ev);
    t := st2.t1.value;
    assert t.raw == "\"" + (Escape(key) + "\"\t\t");
  }

  lemma TwoTabs()
    ensures Tabs(2) == "\t" + "\t"
  {
    assert Tabs(0) == "" && Tabs(1) == "\t" + Tabs(0) && Tabs(2) == "\t" + Tabs(1);
  }

  /** A key that is not printable is not what the listener gets. */
  lemma KeyLost(text: string, key: string, value: string)
    requires text == PrintAll(PairForest(key, value), 0) && !Printable(key)
    ensures Calls(Parse(text, YES).ev) != PreOrderAll(PairForest(key, value))
  {
    hide Step, Run, Calls, Escape;
    var st, ev := IntoPair(text, key, value);
    RunLawful(text);
    var flow := SameRun(text);
    var u, t;
    if EndsWell(key) {
      HereSplit(text, st.pos, KeyPart(key, 1), Quote(value) + "\n");
      u, t := OverKeyPart(text, flow, st, ev, 1, key);
      CStrPrefix(key);
    } else {
      u, t := OverRunOn(text, flow, st, ev, key, value);
      RunsOnPayload(t, key);
    }
    OldestFirst(text, u, ev, t);
    PairCalls(key, value);
  }

  /** The second call is this pair. */
  lemma WrongPair(text: string, st: St, ev: seq<Event>, key: string, value: string, k: Option<string>,
      v: Option<string>)
    requires Calls(ev) == [Opened(Some(""))] + [Paired(k, v)] && Run(text, st, ev, YES) == Parse(text, YES)
    requires k != Some(key) || v != Some(value)
    ensures Calls(Parse(text, YES).ev) != PreOrderAll(PairForest(key, value))
  {
    hide Calls, Run, Parse;
    RunExtends(text, st, ev);
    CallsExtend(ev, Parse(text, YES).ev);
    PairCalls(key, value);
    assert Calls(ev)[1] == Paired(k, v);
  }

  lemma OverUnclosedValue(text: string, flow: Flow, st: St, ev: seq<Event>, key: Token, s: string)
    returns (st2: St, ev2: seq<Event>, v: Option<string>)
    requires Lawful(text, flow) && Ready(st, st.pos, 1, Some(key), None) && !EndsWell(s) && key.End() < st.pos
    requires Here(text, st.pos, Quote(s) + "\n")
    ensures flow(st, ev, st2, ev2) && Calls(ev2) == Calls(ev) + [Paired(Payload(key), v)] && v != Some(s)
  {
    hide Quote, Step, Lawful;
    HereSplit(text, st.pos, Quote(s), "\n");
    var c := OverOpenString(text, flow, st, ev, s);
    var t := c.t0.value.(closed := true);
    UnclosedPayload(t, s);
    v := Payload(t);
    st2, ev2 := OverBrokenPair(text, flow, c, ev, key);
    FlowBoth(text, flow, st, ev, c, ev, st2, ev2);
  }

  /** A newline ends the value that its quote did not, and hands over the pair. */
  lemma OverBrokenPair(text: string, flow: Flow, st: St, ev: seq<Event>, key: Token) returns (st2: St, ev2: seq<Event>)
    requires Lawful(text, flow) && st.t0.Some? && st.t1 == Some(key) && st.t2.None? && st.level == 1
    requires st.inQuote && !st.ml && Here(text, st.pos, "\n") && key.End() < st.t0.value.start
    ensures flow(st, ev, st2, ev2)
    ensures Calls(ev2) == Calls(ev) + [Paired(Payload(key), Payload(st.t0.value.(closed := true)))]
  {
    HereChar(text, st.pos, '\n');
    var r := Newline(st, ev, YES);
    OneTurn(text, flow, st, ev, r);
    st2, ev2 := r.st, r.ev;
    var e1, value := RawLine(st.at, CStr(st.line)), st.t0.value.(closed := true);
    CallsAdd(ev, e1);
    CallsAdd(ev + [e1], KeyValue(st.at, Payload(key), PairValue(key, value)));
  }

  /** A value that is not printable, after a key that is. */
  lemma ValueLost(text: string, key: string, value: string)
    requires text == PrintAll(PairForest(key, value), 0) && Printable(key) && !Printable(value)
    ensures Calls(Parse(text, YES).ev) != PreOrderAll(PairForest(key, value))
  {
    hide Step, Run, Calls, Escape;
    var st, ev := IntoPair(text, key, value);
    RunLawful(text);
    var flow := SameRun(text);
    HereSplit(text, st.pos, KeyPart(key, 1), Quote(value) + "\n");
    var a, t := OverKeyPart(text, flow, st, ev, 1, key);
    if EndsWell(value) {
      HereSplit(text, a.pos, Quote(value), "\n");
      var b := OverQuoted(text, flow, a, ev, value);
      PrintedPayload(b.t1.value, value);
      var c, ev2 := OverPairEnd(text, flow, b, ev, 1, t, b.t1.value);
      CStrPrefix(value);
      WrongPair(text, c, ev2, key, value, Payload(t), Some(CStr(value)));
    } else {
      var c, ev2, v := OverUnclosedValue(text, flow, a, ev, t, value);
      WrongPair(text, c, ev2, key, value, Payload(t), v);
    }
  }

  lemma PairWell(key: string, value: string)
    requires Printable(key) && Printable(value)
    ensures WellAll(PairForest(key, value), 0)
  {
    hide Printable;
    var p := Pair(key, value);
    var ps := [p];
    var f := [Section("", ps)];
    assert f[1..] == [] && ps[1..] == [] && ps[0] == p && f[0] == Section("", ps);
    assert Well(p, 1);
    assert WellAll(ps, 1);
    EmptyPrintable();
    assert Well(f[0], 0);
  }

  lemma EmptyPrintable()
    ensures Printable("")
  {
  }

  /** A key and its value survive printing and parsing if and only if neither has a zero character or ends
      in a backslash. */
  lemma PairSurvives(key: string, value: string)
    ensures var f := PairForest(key, value);
      Calls(Parse(PrintAll(f, 0), YES).ev) == PreOrderAll(f) <==> Printable(key) && Printable(value)
  {
    var f := PairForest(key, value);
    if !Printable(key) {
      KeyLost(PrintAll(f, 0), key, value);
    } else if !Printable(value) {
      ValueLost(PrintAll(f, 0), key, value);
    } else {
      PairWell(key, value);
      RoundTrip(f);
    }
  }
}
