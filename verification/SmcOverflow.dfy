/** Where the reading loop of ParseStream_SMC and the machine agree although the window does not serve the
    text, and where they cannot: a bufferful without the end of a line. */
module SmcOverflow {
  import opened SmcMachine
  import opened SmcWindow
  import opened SmcLoop

  // ----- the machine never overflows -----

  lemma StepNever(st: St, c: char, next: Option<char>, ev: seq<Event>, hear: Listener)
    ensures var r := Step(st, c, next, ev, hear); r.Stop? ==> r.err != TokenOverflow
  {
  }

  lemma {:induction false} RunNever(text: string, st: St, ev: seq<Event>, hear: Listener)
    ensures Run(text, st, ev, hear).err != TokenOverflow
    decreases 2 * Left(text, st.pos)
  {
    hide Step;
    if st.pos < |text| {
      var r := Step(st, text[st.pos], At(text, st.pos + 1), ev, hear);
      StepNever(st, text[st.pos], At(text, st.pos + 1), ev, hear);
      assert Run(text, st, ev, hear) == After(text, r, ev, hear);
      if r.Next? { RunNever(text, r.st, r.ev, hear); }
    }
  }

  // ----- only the end of a line starts a line -----

  predicate SameLine(st: St, r: Turn) {
    match r
    case Next(u, _) => u.bol == st.bol
    case Wait(u) => u.bol == st.bol
    case Stop(_, _) => true
  }

  lemma OpenSame(st: St, ev: seq<Event>, hear: Listener)
    ensures SameLine(st, OpenSection(st, ev, hear))
  {
  }

  lemma CloseSame(st: St, ev: seq<Event>, hear: Listener)
    ensures SameLine(st, CloseSection(st, ev, hear))
  {
  }

  lemma IgnoredSame(st: St, c: char, next: Option<char>, ev: seq<Event>)
    ensures SameLine(st, InQuote(st, c, next, ev)) && SameLine(st, InComment(st, c, next, ev))
  {
  }

  lemma CommentSame(st: St, c: char, ml: bool, ev: seq<Event>)
    ensures SameLine(st, Comment(st, c, ml, ev))
  {
  }

  lemma BlankSame(st: St, c: char, ev: seq<Event>)
    ensures SameLine(st, Blank(st, c, ev))
  {
  }

  lemma StagedSame(st: St, c: char, next: Option<char>, ev: seq<Event>)
    ensures SameLine(st, Slash(st, next, ev)) && SameLine(st, OpenQuote(st, ev)) && SameLine(st, Plain(st, c, ev))
  {
    hide Comment;
    CommentSame(st, '/', st.ml, ev);
    CommentSame(st, '/', true, ev);
  }

  lemma StepSame(st: St, c: char, next: Option<char>, ev: seq<Event>, hear: Listener)
    requires c != '\n'
    ensures SameLine(st, Step(st, c, next, ev, hear))
  {
    hide OpenSection, CloseSection, InQuote, InComment, Blank, Comment, Slash, OpenQuote, Plain;
    OpenSame(st, ev, hear);
    CloseSame(st, ev, hear);
    IgnoredSame(st, c, next, ev);
    CommentSame(st, c, st.ml, ev);
    BlankSame(st, c, ev);
    StagedSame(st, c, next, ev);
  }

  lemma {:induction false} NoLineStarts(text: string, st: St, ev: seq<Event>, fill: nat, hear: Listener)
    requires fill <= |text| && forall i :: st.pos <= i < fill ==> text[i] != '\n'
    ensures var r := RunTo(text, st, ev, fill, hear); r.Paused? ==> r.st.bol == st.bol
    decreases if st.pos < fill then fill - st.pos else 0
  {
    hide Step;
    if st.pos < fill {
      var r := Step(st, text[st.pos], Ahead(text, st.pos, fill), ev, hear);
      StepSame(st, text[st.pos], Ahead(text, st.pos, fill), ev, hear);
      assert RunTo(text, st, ev, fill, hear) == AfterTo(text, r, ev, fill, hear);
      if r.Next? { NoLineStarts(text, r.st, r.ev, fill, hear); }
    }
  }

  // ----- the whole buffer without the end of a line -----

  /** The parser has everything it was given, and the next read fills the buffer with characters of which
      none ends a line. */
  predicate FullNext(v: string, cuts: seq<nat>, k: nat, base: nat, st: St) {
    && st.pos == base && st.bol <= base && base + (BUFFER - 1) <= |v|
    && ReadSize(cuts, k, BUFFER - 1, |v| - base) == BUFFER - 1
    && forall i :: base <= i < base + (BUFFER - 1) ==> v[i] != '\n'
  }

  /** There the loop does what the machine does if and only if an error or the listener ends the parse
      within those characters; otherwise it gives the error that the machine never gives. */
  lemma FullExact(v: string, cuts: seq<nat>, k: nat, base: nat, st: St, ev: seq<Event>, hear: Listener)
    requires FullNext(v, cuts, k, base, st)
    ensures var r := RunTo(v, st, ev, base + (BUFFER - 1), hear);
      && (Loop(v, cuts, k, base, base, st, ev, hear) == Done(Run(v, st, ev, hear)) <==> r.Broken?)
      && (r.Paused? ==> Loop(v, cuts, k, base, base, st, ev, hear) == Done(Fail(TokenOverflow, r.ev)))
  {
    hide RunTo, Run, Quiet, Lowest;
    NoLineStarts(v, st, ev, base + (BUFFER - 1), hear);
    RunToRuns(v, st, ev, base + (BUFFER - 1), hear);
    RunNever(v, st, ev, hear);
  }

  /** So it is for a text that begins with 4095 characters on one line, read at once. */
  lemma FirstLineExact(text: string, hear: Listener)
    requires BUFFER - 1 <= |text| && forall i :: 0 <= i < BUFFER - 1 ==> text[i] != '\n'
    ensures Loop(text, [], 0, 0, 0, START, [ParseStart], hear) == Done(Parse(text, hear)) <==>
      RunTo(text, START, [ParseStart], BUFFER - 1, hear).Broken?
  {
    hide RunTo, Run, Loop;
    FullExact(text, [], 0, 0, START, [ParseStart], hear);
  }

  // ----- agreement by chance -----

  /** A comment of 2000 characters on a line, and one of 5000 without the end of its line. */
  function OpenLine(): string { (";" + Repeated('a', 1999) + "\n") + (";" + Repeated('b', 4999)) }

  lemma OpenLineAt(v: string)
    requires v == OpenLine()
    ensures |v| == 7001 && v[0] == ';' && v[2000] == '\n' && v[2001] == ';'
    ensures forall i :: 0 < i < 2000 ==> v[i] == 'a'
    ensures forall i :: 2001 < i < 7001 ==> v[i] == 'b'
  {
    var a, b := ";" + Repeated('a', 1999) + "\n", ";" + Repeated('b', 4999);
    assert |a| == 2001 && |b| == 5000 && v == a + b;
  }

  /** What both come to: the first line has been shown, the second never is. */
  function Shown(ev: seq<Event>): Outcome { Outcome(Okay, ev + [ParseEnd(false, false)]) }

  lemma OpenLineParsed(v: string)
    requires v == OpenLine()
    ensures Parse(v, YES) == Shown([ParseStart, RawLine(States(1, 2000), CStr(v[..2000]))])
  {
    hide RunTo, Run;
    OpenLineAt(v);
    var a, ev := FirstLine(v, 7001);
    var b := IntoLine(v, a, ev, 7001, 4999);
    PausedHere(v, b, ev, 7001);
    RunToRuns(v, START, [ParseStart], 7001, YES);
    FinishRuns(v, b, ev, YES);
  }

  lemma OpenLineLoop(v: string, a: St, ev: seq<Event>)
    requires v == OpenLine() && Ignoring(a) && a.pos == 4095 && a.bol == 2001 && a.level == 0
    ensures Loop(v, [], 1, 2001, 4095, a, ev, YES) == Done(Shown(ev))
    ensures !CutsOk(v, [], 1, 2001, 4095, a, ev, YES)
  {
    hide RunTo;
    OpenLineAt(v);
    OverComment(v, a, ev, 6096, 2001);
    var b := Passed(a, v[4095..6096]);
    PausedHere(v, b, ev, 6096);
    assert ReadSize([], 1, BUFFER - 1 - 2094, 7001 - 4095) == 2001;
    var w, c := v[..4095] + v[6096..], Rewind(a, b);
    assert Quiet(a, ev, b, ev, 6096);
    assert Loop(v, [], 1, 2001, 4095, a, ev, YES) == Loop(w, [], 2, 2001, 4095, c, ev, YES);
    assert |w| == 5000 && forall i :: 4095 <= i < 5000 ==> w[i] == 'b';
    OverComment(w, c, ev, 5000, 905);
    PausedHere(w, Passed(c, w[4095..5000]), ev, 5000);
    assert ReadSize([], 2, BUFFER - 1 - 2094, 905) == 905;
  }

  /** The second read of this text is overwritten by the third, so the window does not serve it; but
      nothing shows what was lost, and the loop ends as the machine does. */
  lemma AgreesUnserved()
    ensures !CutsOk(OpenLine(), [], 0, 0, 0, START, [ParseStart], YES)
    ensures Loop(OpenLine(), [], 0, 0, 0, START, [ParseStart], YES) == Done(Parse(OpenLine(), YES))
  {
    hide RunTo, Run;
    var v := OpenLine();
    OpenLineAt(v);
    OpenLineParsed(v);
    var a, ev := FirstLine(v, 4095);
    var b := IntoLine(v, a, ev, 4095, 2093);
    PausedHere(v, b, ev, 4095);
    assert ReadSize([], 0, BUFFER - 1, 7001) == 4095;
    OpenLineLoop(v, b, ev);
  }
}
