/** Printed forests of any size through the window: only the length of a line matters. */
module SmcPrinted {
  import opened SmcMachine
  import opened SmcWindow
  import opened SmcRoom
  import opened SmcRoundTrip
  import opened SmcParser

  // ----- the room a stretch of the text needs -----

  /** From st to u the parser has never needed more characters back than the window serves. */
  predicate Slid(text: string, st: St, ev: seq<Event>, u: St, ev2: seq<Event>) {
    Staged(st) ==>
      && Forward(st, u) && st.pos <= u.pos
      && (Roomy(text, u, ev2, YES, REACH) && u.pos <= Lowest(st) + REACH ==> Roomy(text, st, ev, YES, REACH))
  }

  function Slides(text: string): Flow {
    (st: St, ev: seq<Event>, u: St, ev2: seq<Event>) => Slid(text, st, ev, u, ev2)
  }

  lemma SlidBoth(text: string, a: St, e: seq<Event>, b: St, f: seq<Event>, c: St, g: seq<Event>)
    requires Slid(text, a, e, b, f) && Slid(text, b, f, c, g)
    ensures Slid(text, a, e, c, g)
  {
    hide Roomy, Lowest, Staged;
  }

  lemma SlidTurn(text: string, st: St, ev: seq<Event>)
    requires st.pos < |text|
    ensures var r := Step(st, text[st.pos], At(text, st.pos + 1), ev, YES); r.Next? ==> Slid(text, st, ev, r.st, r.ev)
  {
    hide Step, Lowest, Staged;
    if Staged(st) { StepForward(st, text[st.pos], At(text, st.pos + 1), ev, YES); }
  }

  lemma SlidNone(text: string, st: St, ev: seq<Event>)
    ensures Slid(text, st, ev, st, ev)
  {
    hide Roomy, Lowest, Staged;
  }

  lemma SlidesLawful(text: string)
    ensures Lawful(text, Slides(text))
  {
    hide Slid;
    var flow := Slides(text);
    forall st: St, ev: seq<Event> ensures flow(st, ev, st, ev) { SlidNone(text, st, ev); }
    forall a: St, e: seq<Event>, b: St, f: seq<Event>, c: St, g: seq<Event> | flow(a, e, b, f) && flow(b, f, c, g)
      ensures flow(a, e, c, g)
    {
      SlidBoth(text, a, e, b, f, c, g);
    }
    forall st: St, ev: seq<Event> {:trigger Turned(st, ev)} | st.pos < |text|
      ensures Turned(st, ev)
      ensures var r := Step(st, text[st.pos], At(text, st.pos + 1), ev, YES); r.Next? ==> flow(st, ev, r.st, r.ev)
    {
      SlidTurn(text, st, ev);
    }
  }

  // ----- forests with short lines -----

  /** A section's name and its opening brace, and a pair, take less than the window serves. */
  predicate Slim(n: Node, depth: nat)
    decreases n, 1
  {
    match n
    case Section(name, children) =>
      |NameLine(name, depth)| + |BraceLine("{", depth)| <= REACH && SlimAll(children, depth + 1)
    case Pair(key, value) => |KeyPart(key, depth)| + |Quote(value)| < REACH
    case Bare(name, children) =>
      |BareLine(name, depth)| + |BraceLine("{", depth)| <= REACH && SlimAll(children, depth + 1)
    case Loose(key, value, quoted) => |LooseKey(key, depth)| + |LooseValue(value, quoted)| <= REACH
    case Note(mark, words) => |NoteLine(mark, words, depth)| <= REACH
    case Remark(words) => |RemarkLine(words, depth)| <= REACH
    case Gap => true
  }

  predicate SlimAll(ns: seq<Node>, depth: nat)
    decreases ns, 0
  {
    ns == [] || (Slim(ns[0], depth) && SlimAll(ns[1..], depth))
  }

  /** At the start of a line, with nothing staged. */
  ghost predicate Fresh(st: St, pos: nat, level: nat) {
    Ready(st, pos, level, None, None) && st.bol == pos
  }

  lemma FreshStaged(st: St)
    requires Fresh(st, st.pos, st.level)
    ensures Staged(st) && Lowest(st) == st.pos
  {
  }

  /** A stretch that fits, from the start of a line on. */
  lemma Fitting(text: string, st: St, ev: seq<Event>, u: St, ev2: seq<Event>)
    requires Fresh(st, st.pos, st.level) && Slid(text, st, ev, u, ev2) && u.pos <= st.pos + REACH
    ensures Roomy(text, u, ev2, YES, REACH) ==> Roomy(text, st, ev, YES, REACH)
  {
    hide Roomy, Lowest, Staged;
    FreshStaged(st);
  }

  ghost predicate Serves(text: string, st: St, ev: seq<Event>, u: St, ev2: seq<Event>) {
    Roomy(text, u, ev2, YES, REACH) ==> Roomy(text, st, ev, YES, REACH)
  }

  lemma HeadServed(text: string, st: St, ev: seq<Event>, name: string, bare: bool, level: nat)
    returns (u: St, ev2: seq<Event>)
    requires Fresh(st, st.pos, level) && (if bare then Word(name) else Printable(name))
    requires |HeadLine(name, bare, level)| + |BraceLine("{", level)| <= REACH
    requires Here(text, st.pos, HeadLine(name, bare, level) + BraceLine("{", level))
    ensures Fresh(u, st.pos + |HeadLine(name, bare, level)| + |BraceLine("{", level)|, level + 1)
    ensures Serves(text, st, ev, u, ev2)
  {
    hide Roomy, Step, Lowest, Staged, Slid;
    SlidesLawful(text);
    HereSplit(text, st.pos, HeadLine(name, bare, level), BraceLine("{", level));
    var a, e1, t := OverHead(text, Slides(text), st, ev, level, name, bare);
    u, ev2 := OverOpenLine(text, Slides(text), a, e1, level, t);
    SlidBoth(text, st, ev, a, e1, u, ev2);
    Fitting(text, st, ev, u, ev2);
  }

  lemma FootServed(text: string, st: St, ev: seq<Event>, level: nat) returns (u: St, ev2: seq<Event>)
    requires Fresh(st, st.pos, level + 1) && |BraceLine("}", level)| <= REACH
    requires Here(text, st.pos, BraceLine("}", level))
    ensures Fresh(u, st.pos + |BraceLine("}", level)|, level) && Serves(text, st, ev, u, ev2)
  {
    hide Roomy, Step, Lowest, Staged, Slid;
    SlidesLawful(text);
    u, ev2 := OverCloseLine(text, Slides(text), st, ev, level);
    Fitting(text, st, ev, u, ev2);
  }

  lemma LeafServed(text: string, st: St, ev: seq<Event>, n: Node, level: nat) returns (u: St, ev2: seq<Event>)
    requires Fresh(st, st.pos, level) && !n.Section? && !n.Bare? && Well(n, level) && Slim(n, level)
    requires Here(text, st.pos, Print(n, level))
    ensures Fresh(u, st.pos + |Print(n, level)|, level) && Serves(text, st, ev, u, ev2)
  {
    hide Roomy, Step, Lowest, Staged, Slid;
    SlidesLawful(text);
    match n
    case Pair(key, value) =>
      u, ev2 := OverPair(text, Slides(text), st, ev, level, key, value);
      Fitting(text, st, ev, u, ev2);
    case Remark(words) =>
      u, ev2 := OverRemarkLine(text, Slides(text), st, ev, level, words);
      Fitting(text, st, ev, u, ev2);
    case Loose(key, value, quoted) =>
      u, ev2 := OverLoose(text, Slides(text), st, ev, level, key, value, quoted);
      Fitting(text, st, ev, u, ev2);
    case Note(mark, words) =>
      u, ev2 := OverNoteLine(text, Slides(text), st, ev, level, mark, words);
      Fitting(text, st, ev, u, ev2);
    case Gap =>
      u, ev2 := OverNewline(text, Slides(text), st, ev, level, None);
      Fitting(text, st, ev, u, ev2);
  }

  lemma SectionServed(text: string, st: St, ev: seq<Event>, name: string, bare: bool, children: seq<Node>, level: nat)
    returns (u: St, ev2: seq<Event>)
    requires Fresh(st, st.pos, level) && (if bare then Word(name) else Printable(name)) && WellAll(children, level + 1)
    requires |HeadLine(name, bare, level)| + |BraceLine("{", level)| <= REACH && SlimAll(children, level + 1)
    requires var inner := PrintAll(children, level + 1) + BraceLine("}", level);
      Here(text, st.pos, HeadLine(name, bare, level) + (BraceLine("{", level) + inner))
    ensures var inner := PrintAll(children, level + 1) + BraceLine("}", level);
      Fresh(u, st.pos + |HeadLine(name, bare, level) + (BraceLine("{", level) + inner)|, level)
    ensures Serves(text, st, ev, u, ev2)
    decreases children, 2
  {
    hide Roomy, Fresh;
    var head := HeadLine(name, bare, level) + BraceLine("{", level);
    var inner, foot := PrintAll(children, level + 1), BraceLine("}", level);
    assert HeadLine(name, bare, level) + (BraceLine("{", level) + (inner + foot)) == head + (inner + foot);
    HereSplit(text, st.pos, head, inner + foot);
    var a, e1 := HeadServed(text, st, ev, name, bare, level);
    FreshPos(a, st.pos + |head|, level + 1);
    HereSplit(text, a.pos, inner, foot);
    var b, e2 := NodesServed(text, a, e1, children, level + 1);
    FreshPos(b, a.pos + |inner|, level + 1);
    assert |foot| <= |BraceLine("{", level)|;
    u, ev2 := FootServed(text, b, e2, level);
  }

  lemma NodeServed(text: string, st: St, ev: seq<Event>, n: Node, level: nat) returns (u: St, ev2: seq<Event>)
    requires Fresh(st, st.pos, level) && Well(n, level) && Slim(n, level) && Here(text, st.pos, Print(n, level))
    ensures Fresh(u, st.pos + |Print(n, level)|, level) && Serves(text, st, ev, u, ev2)
    decreases n, 3
  {
    hide Roomy, Fresh;
    match n
    case Section(name, children) => u, ev2 := SectionServed(text, st, ev, name, false, children, level);
    case Bare(name, children) => u, ev2 := SectionServed(text, st, ev, name, true, children, level);
    case _ => u, ev2 := LeafServed(text, st, ev, n, level);
  }

  lemma FreshPos(st: St, pos: nat, level: nat)
    requires Fresh(st, pos, level)
    ensures st.pos == pos && st.level == level
  {
  }

  lemma NodesServed(text: string, st: St, ev: seq<Event>, ns: seq<Node>, level: nat) returns (u: St, ev2: seq<Event>)
    requires Fresh(st, st.pos, level) && WellAll(ns, level) && SlimAll(ns, level)
    requires Here(text, st.pos, PrintAll(ns, level))
    ensures Fresh(u, st.pos + |PrintAll(ns, level)|, level) && Serves(text, st, ev, u, ev2)
    decreases ns, 0
  {
    hide Roomy, Fresh;
    u, ev2 := st, ev;
    if ns != [] {
      HereSplit(text, st.pos, Print(ns[0], level), PrintAll(ns[1..], level));
      var a, e1 := NodeServed(text, st, ev, ns[0], level);
      FreshPos(a, st.pos + |Print(ns[0], level)|, level);
      u, ev2 := NodesServed(text, a, e1, ns[1..], level);
    }
  }

  lemma EndRoomy(text: string, st: St, ev: seq<Event>)
    requires Fresh(st, |text|, st.level)
    ensures Roomy(text, st, ev, YES, REACH)
  {
  }

  /** The window serves a printed forest of any size whose lines are short enough. */
  lemma PrintedServed(forest: seq<Node>)
    requires WellAll(forest, 0) && SlimAll(forest, 0)
    ensures CutsOk(PrintAll(forest, 0), [], 0, 0, 0, START, [ParseStart], YES)
  {
    hide Roomy, CutsOk;
    var text := PrintAll(forest, 0);
    assert Here(text, 0, text);
    var u, ev2 := NodesServed(text, START, [ParseStart], forest, 0);
    FreshPos(u, |text|, 0);
    EndRoomy(text, u, ev2);
    RoomyOk(text, YES);
  }

  /** So it is read back through the buffer, however many bufferfuls it takes. */
  method ReadPrinted(forest: seq<Node>) returns (err: SMCError, events: seq<Event>)
    requires WellAll(forest, 0) && SlimAll(forest, 0)
    ensures err == Okay && Calls(events) == PreOrderAll(forest)
  {
    hide CutsOk, Parse, WellAll, SlimAll, Calls;
    PrintedServed(forest);
    RoundTrip(forest);
    SmcLoop.CutsLoop(PrintAll(forest, 0), [], 0, 0, 0, START, [ParseStart], YES);
    var parser := new Parser(YES);
    err := parser.ParseStream(PrintAll(forest, 0), []);
    events := parser.events;
  }
}
