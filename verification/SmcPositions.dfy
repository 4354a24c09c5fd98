/** The line and column that every callback is given. */
module SmcPositions {
  import opened SmcMachine

  /** The line breaks before p, and where the line of p begins. */
  function Breaks(text: string, p: nat): nat
    requires p <= |text|
  {
    if p == 0 then 0 else Breaks(text, p - 1) + (if text[p - 1] == '\n' then 1 else 0)
  }

  function LineStart(text: string, p: nat): (k: nat)
    requires p <= |text|
    ensures k <= p
  {
    if p == 0 then 0 else if text[p - 1] == '\n' then p else LineStart(text, p - 1)
  }

  /** Lines count from one; columns count from zero on the first line and from one on the others. */
  function Where(text: string, p: nat): States
    requires p <= |text|
  {
    States(1 + Breaks(text, p), p - LineStart(text, p) + (if Breaks(text, p) == 0 then 0 else 1))
  }

  predicate Placed(text: string, st: St) {
    st.pos <= |text| && st.at == Where(text, st.pos) && st.bol == LineStart(text, st.pos)
  }

  /** One character on. */
  ghost predicate Moves(st: St, r: Turn, c: char, next: Option<char>) {
    match r
    case Next(u, _) =>
      || (c == '\n' && u.pos == st.pos + 1 && u.bol == u.pos && u.at == States(st.at.line + 1, 1))
      || (c != '\n' && u.pos == st.pos + 1 && u.bol == st.bol && u.at == st.at.(col := st.at.col + 1))
      || (c == '*' && next == Some('/') && u.pos == st.pos + 2 && u.bol == st.bol
          && u.at == st.at.(col := st.at.col + 2))
    case Wait(u) => u.pos == st.pos && u.bol == st.bol && u.at == st.at
    case Stop(_, _) => true
  }

  /** The callbacks of a turn are given where it began. */
  ghost predicate Told(ev: seq<Event>, ev2: seq<Event>, at: States) {
    && |ev| <= |ev2| && ev2[..|ev|] == ev
    && forall i {:trigger ev2[i]} :: |ev| <= i < |ev2| ==> EventAt(ev2[i], at)
  }

  predicate EventAt(e: Event, at: States) {
    match e
    case ParseStart => true
    case RawLine(a, _) => a == at
    case NewSection(a, _) => a == at
    case KeyValue(a, _, _) => a == at
    case LeavingSection(a) => a == at
    case ParseEnd(_, _) => true
  }

  ghost predicate Turns(st: St, r: Turn, c: char, next: Option<char>, ev: seq<Event>) {
    && Moves(st, r, c, next)
    && match r
       case Next(_, ev2) => Told(ev, ev2, st.at)
       case Wait(_) => true
       case Stop(_, ev2) => Told(ev, ev2, st.at)
  }

  lemma NewlineTurns(st: St, next: Option<char>, ev: seq<Event>, hear: Listener)
    ensures Turns(st, Newline(st, ev, hear), '\n', next, ev)
  {
    hide CStr, Payload, PairValue;
  }

  lemma OpenTurns(st: St, next: Option<char>, ev: seq<Event>, hear: Listener)
    ensures Turns(st, OpenSection(st, ev, hear), '{', next, ev)
  {
    hide CStr, Payload, PairValue;
  }

  lemma LeaveTurns(st: St, next: Option<char>, ev: seq<Event>, hear: Listener)
    requires st.level > 0
    ensures Turns(st, Leave(st, ev, hear), '}', next, ev)
  {
  }

  lemma CloseTurns(st: St, next: Option<char>, ev: seq<Event>, hear: Listener)
    ensures Turns(st, CloseSection(st, ev, hear), '}', next, ev)
  {
    hide CStr, Payload, PairValue, Leave;
    if Rotate(st).Some? && Rotate(st).value.level > 0 {
      var u := Rotate(st).value;
      LeaveTurns(u, next, ev, hear);
      if u.t1.Some? && u.t2.Some? {
        var ev1 := ev + [KeyValue(u.at, Payload(u.t2.value), PairValue(u.t2.value, u.t1.value))];
        LeaveTurns(HandOver(HandOver(u, u.t2.value), u.t1.value), next, ev1, hear);
      }
    }
  }

  lemma ConsumeTurns(st: St, c: char, next: Option<char>, ev: seq<Event>)
    requires c != '\n'
    ensures Turns(st, Next(Consume(st, c), ev), c, next, ev) && Turns(st, Wait(st), c, next, ev)
  {
  }

  lemma InQuoteTurns(st: St, c: char, next: Option<char>, ev: seq<Event>)
    requires c != '\n'
    ensures Turns(st, InQuote(st, c, next, ev), c, next, ev)
  {
  }

  lemma InCommentTurns(st: St, c: char, next: Option<char>, ev: seq<Event>)
    requires c != '\n'
    ensures Turns(st, InComment(st, c, next, ev), c, next, ev)
  {
  }

  lemma CommentTurns(st: St, c: char, next: Option<char>, ml: bool, ev: seq<Event>)
    requires c != '\n'
    ensures Turns(st, Comment(st, c, ml, ev), c, next, ev)
  {
  }

  lemma BlankTurns(st: St, c: char, next: Option<char>, ev: seq<Event>)
    requires c != '\n'
    ensures Turns(st, Blank(st, c, ev), c, next, ev)
  {
  }

  lemma PlainTurns(st: St, c: char, next: Option<char>, ev: seq<Event>)
    requires c != '\n'
    ensures Turns(st, Plain(st, c, ev), c, next, ev)
  {
  }

  lemma QuoteTurns(st: St, next: Option<char>, ev: seq<Event>)
    ensures Turns(st, OpenQuote(st, ev), '\"', next, ev)
  {
  }

  /** A turn moves on by one character, or past the end of a comment by two, or to the next line, and the
      callbacks it makes are given the place of the character at which it is made. */
  lemma StepTurns(st: St, c: char, next: Option<char>, ev: seq<Event>, hear: Listener)
    ensures Turns(st, Step(st, c, next, ev, hear), c, next, ev)
  {
    hide Newline, OpenSection, CloseSection, InQuote, InComment, Comment, Blank, Plain, OpenQuote, Turns, Consume;
    if c == '\n' {
      NewlineTurns(st, next, ev, hear);
    } else {
      ConsumeTurns(st, c, next, ev);
      InQuoteTurns(st, c, next, ev);
      InCommentTurns(st, c, next, ev);
      CommentTurns(st, c, next, st.ml, ev);
      CommentTurns(st, c, next, true, ev);
      BlankTurns(st, c, next, ev);
      PlainTurns(st, c, next, ev);
      QuoteTurns(st, next, ev);
      OpenTurns(st, next, ev, hear);
      CloseTurns(st, next, ev, hear);
    }
  }

  lemma PlacedNext(text: string, st: St, r: Turn)
    requires Placed(text, st) && st.pos < |text| && Moves(st, r, text[st.pos], At(text, st.pos + 1))
    ensures r.Next? ==> Placed(text, r.st)
    ensures r.Wait? ==> Placed(text, r.st)
  {
    hide Where;
    WhereNext(text, st.pos);
    if st.pos + 1 < |text| { WhereNext(text, st.pos + 1); }
  }

  lemma WhereNext(text: string, p: nat)
    requires p < |text|
    ensures Where(text, p + 1) ==
      if text[p] == '\n' then States(Where(text, p).line + 1, 1) else Where(text, p).(col := Where(text, p).col + 1)
    ensures LineStart(text, p + 1) == if text[p] == '\n' then p + 1 else LineStart(text, p)
  {
  }

  /** Some character of the text, or its end, has this place. */
  ghost predicate InText(text: string, e: Event) {
    exists p: nat {:trigger Where(text, p)} :: p <= |text| && EventAt(e, Where(text, p))
  }

  /** Every callback of a parse is given the line and column of a character of the text. */
  lemma {:induction false} RunTold(text: string, st: St, ev: seq<Event>, hear: Listener)
    requires Placed(text, st) && forall e :: e in ev ==> InText(text, e)
    ensures forall e :: e in Run(text, st, ev, hear).ev ==> InText(text, e)
    decreases 2 * Left(text, st.pos)
  {
    hide Step, Turns, Moves, InText;
    if st.pos < |text| {
      var r := Step(st, text[st.pos], At(text, st.pos + 1), ev, hear);
      StepTurns(st, text[st.pos], At(text, st.pos + 1), ev, hear);
      assert Run(text, st, ev, hear) == After(text, r, ev, hear);
      TurnTold(text, st, r, ev);
      match r
      case Next(u, ev2) => RunTold(text, u, ev2, hear);
      case Wait(u) => EndTold(text, u, ev);
      case Stop(err, ev2) => FailTold(text, err, ev2);
    } else {
      EndTold(text, st, ev);
    }
  }

  lemma TurnTold(text: string, st: St, r: Turn, ev: seq<Event>)
    requires Placed(text, st) && st.pos < |text| && Turns(st, r, text[st.pos], At(text, st.pos + 1), ev)
    requires forall e :: e in ev ==> InText(text, e)
    ensures r.Next? ==> Placed(text, r.st) && forall e :: e in r.ev ==> InText(text, e)
    ensures r.Stop? ==> forall e :: e in r.ev ==> InText(text, e)
  {
    hide InText, Moves;
    PlacedNext(text, st, r);
    if !r.Wait? {
      forall e | e in r.ev ensures InText(text, e) {
        var i :| 0 <= i < |r.ev| && r.ev[i] == e;
        if i < |ev| { assert r.ev[..|ev|][i] == e; } else { AtHere(text, st, e); }
      }
    }
  }

  lemma AtHere(text: string, st: St, e: Event)
    requires Placed(text, st) && EventAt(e, st.at)
    ensures InText(text, e)
  {
    assert EventAt(e, Where(text, st.pos));
  }

  lemma EndTold(text: string, st: St, ev: seq<Event>)
    requires forall e :: e in ev ==> InText(text, e)
    ensures forall e :: e in Finish(st, ev).ev ==> InText(text, e)
  {
    AnyEnd(text, false, false);
    AnyEnd(text, true, false);
  }

  lemma FailTold(text: string, err: SMCError, ev: seq<Event>)
    requires forall e :: e in ev ==> InText(text, e)
    ensures forall e :: e in Fail(err, ev).ev ==> InText(text, e)
  {
    AnyEnd(text, true, err.Custom?);
  }

  lemma AnyEnd(text: string, halted: bool, failed: bool)
    ensures InText(text, ParseEnd(halted, failed)) && InText(text, ParseStart)
  {
    assert EventAt(ParseEnd(halted, failed), Where(text, 0)) && EventAt(ParseStart, Where(text, 0));
  }

  /** So it is for the whole parse. */
  lemma ParseTold(text: string, hear: Listener)
    ensures forall e :: e in Parse(text, hear).ev ==> InText(text, e)
  {
    hide Run, InText;
    AnyEnd(text, false, false);
    RunTold(text, START, [ParseStart], hear);
  }
}
