/** The order in which the SMC parser calls its listener, for every text and every listener. */
module SmcDiscipline {
  import opened SmcMachine

  /** Sections open after these callbacks. */
  function Depth(ev: seq<Event>): int {
    if ev == [] then 0
    else
      Depth(ev[..|ev| - 1]) +
        match ev[|ev| - 1]
        case NewSection(_, _) => 1
        case LeavingSection(_) => -1
        case _ => 0
  }

  /** ParseStart first and only first; pairs and section ends only inside a section. */
  predicate Orderly(ev: seq<Event>) {
    if |ev| <= 1 then ev == [ParseStart]
    else
      && Orderly(ev[..|ev| - 1])
      && match ev[|ev| - 1]
         case RawLine(_, _) => true
         case NewSection(_, _) => true
         case KeyValue(_, _, _) => Depth(ev[..|ev| - 1]) >= 1
         case LeavingSection(_) => Depth(ev[..|ev| - 1]) >= 1
         case ParseStart => false
         case ParseEnd(_, _) => false
  }

  /** The listener answered Continue to every callback after ParseStart. */
  predicate Agreed(ev: seq<Event>, hear: Listener) {
    |ev| <= 1 || (hear(ev) == Continue && Agreed(ev[..|ev| - 1], hear))
  }

  ghost predicate Good(st: St, ev: seq<Event>, hear: Listener) {
    && Orderly(ev) && Agreed(ev, hear) && Depth(ev) == st.level
    && (st.t2.Some? ==> st.t1.Some?)
  }

  /** The callbacks made when the parse stops early, and what the error says of the last answer. */
  ghost predicate Halted(err: SMCError, ev: seq<Event>, hear: Listener) {
    && Orderly(ev)
    && (if err.Okay? || err.Custom? then
          |ev| > 1 && Agreed(ev[..|ev| - 1], hear) && hear(ev) == (if err.Okay? then Halt else HaltFail)
        else Agreed(ev, hear))
  }

  ghost predicate GoodTurn(r: Turn, ev: seq<Event>, hear: Listener) {
    match r
    case Next(st', ev') => Good(st', ev', hear)
    case Wait(st') => Good(st', ev, hear)
    case Stop(err, ev') => Halted(err, ev', hear)
  }

  lemma CallAdds(ev: seq<Event>, e: Event, hear: Listener)
    requires Orderly(ev) && Agreed(ev, hear)
    requires e.RawLine? || e.NewSection? || ((e.KeyValue? || e.LeavingSection?) && Depth(ev) >= 1)
    ensures Orderly(ev + [e])
    ensures Depth(ev + [e]) == Depth(ev) + (if e.NewSection? then 1 else if e.LeavingSection? then -1 else 0)
    ensures hear(ev + [e]) == Continue ==> Agreed(ev + [e], hear)
    ensures hear(ev + [e]) != Continue ==> Halted(HaltError(hear(ev + [e])), ev + [e], hear)
  {
    assert (ev + [e])[..|ev + [e]| - 1] == ev;
  }

  lemma EndLineGood(st: St, ev: seq<Event>, hear: Listener)
    requires Good(st, ev, hear)
    ensures GoodTurn(EndLine(st, ev, hear), ev, hear)
  {
    var e1 := RawLine(st.at, CStr(st.line));
    CallAdds(ev, e1, hear);
    if hear(ev + [e1]) == Continue && st.t2.Some? && st.level > 0 {
      CallAdds(ev + [e1], KeyValue(st.at, Payload(st.t2.value), PairValue(st.t2.value, st.t1.value)), hear);
    }
  }

  lemma NewlineGood(st: St, ev: seq<Event>, hear: Listener)
    requires Good(st, ev, hear)
    ensures GoodTurn(Newline(st, ev, hear), ev, hear)
  {
    match Restage(st)
    case None =>
    case Some(u) => EndLineGood(u.(inQuote := false, ignoring := u.ignoring && u.ml), ev, hear);
  }

  lemma OpenGood(st: St, ev: seq<Event>, hear: Listener)
    requires Good(st, ev, hear)
    ensures GoodTurn(OpenSection(st, ev, hear), ev, hear)
  {
    match (if st.t0.Some? then Rotate(st) else Some(st))
    case None =>
    case Some(u) =>
      if u.t2.None? && u.t1.Some? {
        CallAdds(ev, NewSection(u.at, Payload(u.t1.value)), hear);
      }
  }

  lemma CloseGood(st: St, ev: seq<Event>, hear: Listener)
    requires Good(st, ev, hear)
    ensures GoodTurn(CloseSection(st, ev, hear), ev, hear)
  {
    match Rotate(st)
    case None =>
    case Some(u) =>
      if u.level > 0 {
        if u.t2.Some? && u.t1.Some? {
          var e := KeyValue(u.at, Payload(u.t2.value), PairValue(u.t2.value, u.t1.value));
          CallAdds(ev, e, hear);
          if hear(ev + [e]) == Continue {
            hide Leave;
            LeaveGood(HandOver(HandOver(u, u.t2.value), u.t1.value), ev + [e], hear);
          }
        } else if u.t1.None? {
          hide Leave;
          LeaveGood(u, ev, hear);
        }
      }
  }

  lemma LeaveGood(st: St, ev: seq<Event>, hear: Listener)
    requires Good(st, ev, hear) && st.level > 0
    ensures GoodTurn(Leave(st, ev, hear), ev, hear)
  {
    CallAdds(ev, LeavingSection(st.at), hear);
  }

  lemma InQuoteGood(st: St, c: char, next: Option<char>, ev: seq<Event>, hear: Listener)
    requires Good(st, ev, hear)
    ensures GoodTurn(InQuote(st, c, next, ev), ev, hear)
  {
    hide Orderly, Agreed;
  }

  lemma InCommentGood(st: St, c: char, next: Option<char>, ev: seq<Event>, hear: Listener)
    requires Good(st, ev, hear)
    ensures GoodTurn(InComment(st, c, next, ev), ev, hear)
  {
  }

  lemma BlankGood(st: St, c: char, ev: seq<Event>, hear: Listener)
    requires Good(st, ev, hear)
    ensures GoodTurn(Blank(st, c, ev), ev, hear)
  {
  }

  lemma CommentGood(st: St, c: char, ml: bool, ev: seq<Event>, hear: Listener)
    requires Good(st, ev, hear)
    ensures GoodTurn(Comment(st, c, ml, ev), ev, hear)
  {
  }

  lemma StringGood(st: St, c: char, ev: seq<Event>, hear: Listener)
    requires Good(st, ev, hear)
    ensures GoodTurn(OpenQuote(st, ev), ev, hear)
    ensures GoodTurn(Plain(st, c, ev), ev, hear)
    ensures GoodTurn(Next(Consume(st, c), ev), ev, hear)
  {
    hide Orderly, Agreed;
  }

  lemma SlashGood(st: St, next: Option<char>, ev: seq<Event>, hear: Listener)
    requires Good(st, ev, hear)
    ensures GoodTurn(Slash(st, next, ev), ev, hear)
  {
    CommentGood(st, '/', st.ml, ev, hear);
    CommentGood(st, '/', true, ev, hear);
    StringGood(st, '/', ev, hear);
  }

  lemma StepGood(st: St, c: char, next: Option<char>, ev: seq<Event>, hear: Listener)
    requires Good(st, ev, hear)
    ensures GoodTurn(Step(st, c, next, ev, hear), ev, hear)
  {
    if c == '\n' {
      NewlineGood(st, ev, hear);
    } else if st.ignoring {
      InQuoteGood(st, c, next, ev, hear);
      InCommentGood(st, c, next, ev, hear);
      StringGood(st, c, ev, hear);
    } else if IsWhitespace(c) {
      BlankGood(st, c, ev, hear);
    } else if c == '{' {
      OpenGood(st, ev, hear);
    } else if c == '}' {
      CloseGood(st, ev, hear);
    } else {
      CommentGood(st, c, st.ml, ev, hear);
      SlashGood(st, next, ev, hear);
      StringGood(st, c, ev, hear);
    }
  }

  /** The callbacks of a finished parse: an orderly body closed by one ParseEnd. */
  ghost predicate Disciplined(o: Outcome, hear: Listener) {
    && |o.ev| >= 2 && o.ev[|o.ev| - 1].ParseEnd?
    && var body, end := o.ev[..|o.ev| - 1], o.ev[|o.ev| - 1];
    && Orderly(body) && Depth(body) >= 0
    && end.failed == o.err.Custom?
    && (if end.halted then Halted(o.err, body, hear)
        else o.err == Okay && Depth(body) == 0 && Agreed(body, hear))
  }

  lemma {:induction false} DepthOrderly(ev: seq<Event>)
    requires Orderly(ev)
    ensures Depth(ev) >= 0
  {
    if |ev| > 1 { DepthOrderly(ev[..|ev| - 1]); }
  }

  lemma FinishGood(st: St, ev: seq<Event>, hear: Listener)
    requires Good(st, ev, hear)
    ensures Disciplined(Finish(st, ev), hear)
  {
    var o := Finish(st, ev);
    assert o.ev[..|o.ev| - 1] == ev;
  }

  lemma FailGood(err: SMCError, ev: seq<Event>, hear: Listener)
    requires Halted(err, ev, hear)
    ensures Disciplined(Fail(err, ev), hear)
  {
    var o := Fail(err, ev);
    DepthOrderly(ev);
    assert o.ev[..|o.ev| - 1] == ev;
  }

  lemma {:induction false} RunGood(text: string, st: St, ev: seq<Event>, hear: Listener)
    requires Good(st, ev, hear)
    ensures Disciplined(Run(text, st, ev, hear), hear)
    decreases 2 * Left(text, st.pos)
  {
    if st.pos >= |text| {
      FinishGood(st, ev, hear);
    } else {
      StepGood(st, text[st.pos], At(text, st.pos + 1), ev, hear);
      AfterGood(text, Step(st, text[st.pos], At(text, st.pos + 1), ev, hear), ev, hear);
    }
  }

  lemma {:induction false} AfterGood(text: string, r: Turn, ev: seq<Event>, hear: Listener)
    requires GoodTurn(r, ev, hear)
    ensures Disciplined(After(text, r, ev, hear), hear)
    decreases if r.Next? then 2 * Left(text, r.st.pos) + 1 else 0
  {
    match r
    case Next(st', ev') => RunGood(text, st', ev', hear);
    case Wait(st') => FinishGood(st', ev, hear);
    case Stop(err, ev') => FailGood(err, ev', hear);
  }

  /** For every text and every listener: ParseStart comes first, ParseEnd once and last, the depth is
      never negative, pairs occur only inside a section, and a parse that is not halted ends with all
      sections closed; a halted one stops at the first answer that is not Continue, or at an error. */
  lemma ParseDisciplined(text: string, hear: Listener)
    ensures Disciplined(Parse(text, hear), hear)
  {
    assert Depth([ParseStart]) == 0;
    RunGood(text, START, [ParseStart], hear);
  }
}
