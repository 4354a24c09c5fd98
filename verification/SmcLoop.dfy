/** The reading loop of ParseStream_SMC as a function, the case included in which a read goes where the last
    one went: a bufferful without the start of a line is not shifted away, and unless it fills the whole
    buffer the next read overwrites it. */
module SmcLoop {
  import opened SmcMachine
  import opened SmcWindow

  /** How the loop ends. Lost is when it overwrites characters that a staged string or a callback depends
      on, or that are still to be parsed: what the callbacks then see is not told. */
  datatype Result = Done(outcome: Outcome) | Lost

  function Raw(t: Option<Token>): string { if t.Some? then t.value.raw else "" }

  predicate SameToken(a: Option<Token>, b: Option<Token>) {
    a.Some? == b.Some? && (a.Some? ==> !a.value.closed && !b.value.closed && a.value.start == b.value.start)
  }

  /** Since st nothing has happened but that characters were passed over: no callback, and no string has
      begun or ended. */
  predicate Quiet(st: St, ev: seq<Event>, u: St, ev2: seq<Event>, fill: nat) {
    && u.pos == fill && st.pos <= fill && ev2 == ev && u.bol == st.bol && u.t1 == st.t1 && u.t2 == st.t2
    && SameToken(st.t0, u.t0) && Raw(st.t0) <= Raw(u.t0)
    && u.cut == st.cut && st.line <= u.line && (st.cut ==> u.line == st.line)
  }

  /** The characters passed over since st are overwritten: the line and the string being read lose them. */
  function Rewind(st: St, u: St): St {
    u.(pos := st.pos, line := st.line, t0 := if u.t0.Some? then Some(u.t0.value.(raw := Raw(st.t0))) else None)
  }

  /** The loop from its k-th read on. v is the text as the buffer has it: where a read overwrites the last
      one, what was overwritten is taken out of v. */
  function Loop(v: string, cuts: seq<nat>, k: nat, base: nat, fill: nat, st: St, ev: seq<Event>, hear: Listener): Result
    requires fill <= |v|
    decreases |v| - fill, 0
  {
    if !(base <= fill && fill - base < BUFFER && st.pos <= fill) then Lost
    else
      var n := ReadSize(cuts, k, BUFFER - 1 - (fill - base), |v| - fill);
      if n == 0 then Done(Finish(st, ev))
      else
        match RunTo(v, st, ev, fill + n, hear)
        case Broken(err, ev') => Done(Fail(err, ev'))
        case Paused(u, ev') => LoopOn(v, cuts, k + 1, base, fill + n, st, ev, u, ev', hear)
  }

  /** The loop after a bufferful that took the parse from st to u. */
  function LoopOn(v: string, cuts: seq<nat>, k: nat, base: nat, fill: nat, st: St, ev: seq<Event>, u: St,
      ev2: seq<Event>, hear: Listener): Result
    requires fill <= |v| && st.pos <= fill
    decreases |v| - fill, 1
  {
    if u.bol > base then Loop(v, cuts, k, Lowest(u), fill, u, ev2, hear)
    else if fill - st.pos == BUFFER - 1 then Done(Fail(TokenOverflow, ev2))
    else if fill == |v| then Done(Finish(u, ev2))
    else if Quiet(st, ev, u, ev2, fill) then
      Loop(v[..st.pos] + v[fill..], cuts, k, base, st.pos, Rewind(st, u), ev, hear)
    else Lost
  }

  // ----- where the window serves the text -----

  lemma FinishRuns(v: string, st: St, ev: seq<Event>, hear: Listener)
    requires Rests(v, st, ev, |v|, hear)
    ensures Run(v, st, ev, hear) == Finish(st, ev)
  {
    hide Step;
    if st.pos < |v| {
      StepLook(st, v[st.pos], None, ev, hear);
      assert Run(v, st, ev, hear) == After(v, Step(st, v[st.pos], At(v, st.pos + 1), ev, hear), ev, hear);
    }
  }

  /** There the loop does what the machine does on the whole text. */
  lemma {:induction false} CutsLoop(v: string, cuts: seq<nat>, k: nat, base: nat, fill: nat, st: St,
      ev: seq<Event>, hear: Listener)
    requires fill <= |v| && CutsOk(v, cuts, k, base, fill, st, ev, hear)
    requires st.bol <= st.pos <= fill && Rests(v, st, ev, fill, hear)
    ensures Loop(v, cuts, k, base, fill, st, ev, hear) == Done(Run(v, st, ev, hear))
    decreases |v| - fill
  {
    hide Step, RunTo, Run, Quiet, Lowest;
    var n := ReadSize(cuts, k, BUFFER - 1 - (fill - base), |v| - fill);
    if n == 0 {
      FinishRuns(v, st, ev, hear);
    } else {
      RunToRuns(v, st, ev, fill + n, hear);
      RunToRests(v, st, ev, fill + n, hear);
      RunToBounds(v, st, ev, fill + n, hear);
      match RunTo(v, st, ev, fill + n, hear)
      case Broken(err, ev') =>
      case Paused(u, ev') =>
        if u.bol > base {
          CutsLoop(v, cuts, k + 1, Lowest(u), fill + n, u, ev', hear);
        } else {
          FinishRuns(v, u, ev', hear);
        }
    }
  }

  // ----- and where it does not -----

  function Repeated(c: char, n: nat): string { seq(n, _ => c) }

  /** A comment of 2000 characters and one of 4095, each on a line. */
  function LongLines(): string {
    (";" + Repeated('a', 1999) + "\n") + (";" + Repeated('b', 4094)) + "\n"
  }

  const YES: Listener := ev => Continue

  /** After n characters of a comment. */
  function Passed(st: St, s: string): St {
    st.(pos := st.pos + |s|, line := st.line + s, at := st.at.(col := st.at.col + |s|))
  }

  predicate Ignoring(st: St) {
    st.ignoring && !st.inQuote && !st.ml && !st.cut && st.t0.None? && st.t1.None? && st.t2.None?
  }

  lemma {:induction false} OverComment(v: string, st: St, ev: seq<Event>, fill: nat, n: nat)
    requires fill <= |v| && st.pos + n <= fill && Ignoring(st) && forall i :: st.pos <= i < st.pos + n ==> v[i] != '\n'
    ensures RunTo(v, st, ev, fill, YES) == RunTo(v, Passed(st, v[st.pos..st.pos + n]), ev, fill, YES)
    decreases n
  {
    if n == 0 {
      assert st.line + "" == st.line;
    } else {
      var c := v[st.pos];
      var u := Consume(st, c);
      assert Step(st, c, Ahead(v, st.pos, fill), ev, YES) == Next(u, ev);
      assert RunTo(v, st, ev, fill, YES) == AfterTo(v, Next(u, ev), ev, fill, YES);
      OverComment(v, u, ev, fill, n - 1);
      var s, rest := v[st.pos..st.pos + n], v[st.pos + 1..st.pos + n];
      assert s == [c] + rest;
      assert (st.line + [c]) + rest == st.line + s;
      assert Passed(u, rest) == Passed(st, s);
    }
  }

  /** The end of the line of a comment: the listener sees the line. */
  function LineEnded(st: St): St {
    st.(pos := st.pos + 1, bol := st.pos + 1, line := "", ignoring := false, at := States(st.at.line + 1, 1))
  }

  lemma OverBreak(v: string, st: St, ev: seq<Event>, fill: nat)
    requires st.pos < fill <= |v| && Ignoring(st) && v[st.pos] == '\n'
    ensures RunTo(v, st, ev, fill, YES) == RunTo(v, LineEnded(st), ev + [RawLine(st.at, CStr(st.line))], fill, YES)
  {
    var u, e := LineEnded(st), ev + [RawLine(st.at, CStr(st.line))];
    assert Step(st, '\n', Ahead(v, st.pos, fill), ev, YES) == Next(u, e);
    assert RunTo(v, st, ev, fill, YES) == AfterTo(v, Next(u, e), ev, fill, YES);
  }

  predicate Idle(st: St) {
    !st.ignoring && !st.inQuote && !st.ml && !st.cut && st.t0.None? && st.t1.None? && st.t2.None?
  }

  lemma OverSemicolon(v: string, st: St, ev: seq<Event>, fill: nat)
    requires st.pos < fill <= |v| && Idle(st) && v[st.pos] == ';'
    ensures RunTo(v, st, ev, fill, YES) == RunTo(v, Passed(st, ";").(ignoring := true), ev, fill, YES)
  {
    var u := Passed(st, ";").(ignoring := true);
    assert Step(st, ';', Ahead(v, st.pos, fill), ev, YES) == Next(u, ev);
    assert RunTo(v, st, ev, fill, YES) == AfterTo(v, Next(u, ev), ev, fill, YES);
  }

  lemma {:induction false} CStrAll(s: string)
    requires forall i :: 0 <= i < |s| ==> s[i] != '\0'
    ensures CStr(s) == s
  {
    if s != "" { CStrAll(s[1..]); }
  }

  /** What is at each position of the text. */
  lemma LongLinesAt(v: string)
    requires v == LongLines()
    ensures |v| == 6097 && v[0] == ';' && v[2000] == '\n' && v[2001] == ';' && v[6096] == '\n'
    ensures forall i :: 0 < i < 2000 ==> v[i] == 'a'
    ensures forall i :: 2001 < i < 6096 ==> v[i] == 'b'
  {
    var a, b := ";" + Repeated('a', 1999) + "\n", ";" + Repeated('b', 4094);
    assert |a| == 2001 && |b| == 4095 && v == a + b + "\n";
    forall i | 2001 <= i < 6096 ensures v[i] == b[i - 2001] {
    }
  }

  /** From the start of a comment line to a point within it. */
  lemma IntoLine(v: string, st: St, ev: seq<Event>, fill: nat, n: nat) returns (u: St)
    requires fill <= |v| && Idle(st) && st.pos + 1 + n <= fill && v[st.pos] == ';' && st.bol == st.pos && st.line == ""
    requires forall i :: st.pos < i < st.pos + 1 + n ==> v[i] != '\n'
    ensures RunTo(v, st, ev, fill, YES) == RunTo(v, u, ev, fill, YES) && Ignoring(u)
    ensures u.pos == st.pos + 1 + n && u.bol == st.bol && u.line == v[st.pos..st.pos + 1 + n] && u.level == st.level
    ensures u.at == st.at.(col := st.at.col + 1 + n)
  {
    hide RunTo;
    OverSemicolon(v, st, ev, fill);
    var a := Passed(st, ";").(ignoring := true);
    OverComment(v, a, ev, fill, n);
    u := Passed(a, v[a.pos..a.pos + n]);
    assert v[st.pos..st.pos + 1 + n] == ";" + v[a.pos..a.pos + n];
  }

  /** The whole first line. */
  lemma FirstLine(v: string, fill: nat) returns (u: St, ev: seq<Event>)
    requires 2001 <= fill <= |v| && v[0] == ';' && v[2000] == '\n' && forall i :: 0 < i < 2000 ==> v[i] == 'a'
    ensures RunTo(v, START, [ParseStart], fill, YES) == RunTo(v, u, ev, fill, YES)
    ensures Idle(u) && u.pos == 2001 && u.bol == 2001 && u.line == "" && u.level == 0
    ensures ev == [ParseStart, RawLine(States(1, 2000), CStr(v[..2000]))]
  {
    hide RunTo;
    var a := IntoLine(v, START, [ParseStart], fill, 1999);
    OverBreak(v, a, [ParseStart], fill);
    u, ev := LineEnded(a), [ParseStart, RawLine(a.at, CStr(a.line))];
    assert [ParseStart] + [RawLine(a.at, CStr(a.line))] == ev;
  }

  lemma PausedHere(v: string, st: St, ev: seq<Event>, fill: nat)
    requires st.pos == fill <= |v|
    ensures RunTo(v, st, ev, fill, YES) == Paused(st, ev)
  {
  }

  lemma BLine(v: string, n: nat)
    requires v == LongLines() && n <= 4095
    ensures CStr(v[2001..2001 + n]) == v[2001..2001 + n]
  {
    LongLinesAt(v);
    CStrAll(v[2001..2001 + n]);
  }

  /** The machine shows the listener the second line as it is. */
  lemma LongLinesParsed(v: string)
    requires v == LongLines()
    ensures var o := Parse(v, YES); |o.ev| == 4 && o.ev[2].RawLine? && |o.ev[2].text| == 4095
  {
    hide RunTo, Run;
    LongLinesAt(v);
    var a, ev := FirstLine(v, 6097);
    var b := IntoLine(v, a, ev, 6097, 4094);
    OverBreak(v, b, ev, 6097);
    BLine(v, 4095);
    var c, ev2 := LineEnded(b), ev + [RawLine(b.at, CStr(b.line))];
    PausedHere(v, c, ev2, 6097);
    RunToRuns(v, START, [ParseStart], 6097, YES);
    FinishRuns(v, c, ev2, YES);
  }

  /** The two reads after the first. The second of them overwrites what the first has read. */
  lemma LoopOverwrites(v: string, a: St, ev: seq<Event>)
    requires v == LongLines() && Ignoring(a) && a.pos == 4095 && a.bol == 2001 && a.line == v[2001..4095]
    requires a.level == 0
    ensures match Loop(v, [], 1, 2001, 4095, a, ev, YES)
      case Done(o) => o.err == Okay && |o.ev| == |ev| + 2 && o.ev[|ev|].RawLine? && |o.ev[|ev|].text| == 2094
      case Lost => false
  {
    hide RunTo;
    LongLinesAt(v);
    OverComment(v, a, ev, 6096, 2001);
    var b := Passed(a, v[4095..6096]);
    PausedHere(v, b, ev, 6096);
    assert ReadSize([], 1, BUFFER - 1 - 2094, 6097 - 4095) == 2001;
    var w, c := v[..4095] + v[6096..], Rewind(a, b);
    assert Quiet(a, ev, b, ev, 6096);
    assert Loop(v, [], 1, 2001, 4095, a, ev, YES) == Loop(w, [], 2, 2001, 4095, c, ev, YES);
    assert |w| == 4096 && w[4095] == '\n';
    OverBreak(w, c, ev, 4096);
    var d, ev2 := LineEnded(c), ev + [RawLine(c.at, CStr(c.line))];
    PausedHere(w, d, ev2, 4096);
    assert ReadSize([], 2, BUFFER - 1 - 2094, 1) == 1;
    assert Loop(w, [], 2, 2001, 4095, c, ev, YES) == Loop(w, [], 3, 4096, 4096, d, ev2, YES);
    BLine(v, 2094);
  }

  /** Of two comments on lines of 2000 and 4095 characters the listener is shown 2094 characters of the
      second, and there is no error: neither what the machine does nor the overflow that a line too long
      for the buffer is meant to give. */
  lemma LongLinesLose()
    ensures match Loop(LongLines(), [], 0, 0, 0, START, [ParseStart], YES)
      case Done(o) => o.err == Okay && |o.ev| == 4 && o.ev[2].RawLine? && |o.ev[2].text| == 2094
      case Lost => false
    ensures var o := Parse(LongLines(), YES); |o.ev| == 4 && o.ev[2].RawLine? && |o.ev[2].text| == 4095
    ensures !CutsOk(LongLines(), [], 0, 0, 0, START, [ParseStart], YES)
  {
    hide RunTo, Parse, CutsOk;
    var v := LongLines();
    LongLinesAt(v);
    LongLinesParsed(v);
    var a, ev := FirstLine(v, 4095);
    var b := IntoLine(v, a, ev, 4095, 2093);
    PausedHere(v, b, ev, 4095);
    assert ReadSize([], 0, BUFFER - 1, 6097) == 4095;
    LoopOverwrites(v, b, ev);
    assert Loop(v, [], 0, 0, 0, START, [ParseStart], YES) == Loop(v, [], 1, 2001, 4095, b, ev, YES);
    if CutsOk(v, [], 0, 0, 0, START, [ParseStart], YES) {
      CutsLoop(v, [], 0, 0, 0, START, [ParseStart], YES);
      ParseIs(v);
    }
  }

  lemma ParseIs(v: string)
    ensures Parse(v, YES) == Run(v, START, [ParseStart], YES)
  {
  }
}
