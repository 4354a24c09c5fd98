/** The window of the SMC parser: running the machine up to what has been read, the cuttings of a text
    for which the window loses nothing, and how staged strings lie in the buffer. */
module SmcWindow {
  import opened SmcMachine

  const BUFFER: nat := 4096

  // ----- running up to the end of what has been read -----

  datatype Pause = Paused(st: St, ev: seq<Event>) | Broken(err: SMCError, ev: seq<Event>)

  /** The character after p, if it has been read. */
  function Ahead(text: string, p: nat, fill: nat): Option<char>
    requires fill <= |text|
  {
    if p + 1 < fill then Some(text[p + 1]) else None
  }

  function RunTo(text: string, st: St, ev: seq<Event>, fill: nat, hear: Listener): Pause
    requires fill <= |text|
    decreases 2 * (if st.pos < fill then fill - st.pos else 0)
  {
    if st.pos >= fill then Paused(st, ev)
    else AfterTo(text, Step(st, text[st.pos], Ahead(text, st.pos, fill), ev, hear), ev, fill, hear)
  }

  function AfterTo(text: string, r: Turn, ev: seq<Event>, fill: nat, hear: Listener): Pause
    requires fill <= |text|
    decreases if r.Next? then 2 * (if r.st.pos < fill then fill - r.st.pos else 0) + 1 else 0
  {
    match r
    case Next(st', ev') => RunTo(text, st', ev', fill, hear)
    case Wait(st') => Paused(st', ev)
    case Stop(err, ev') => Broken(err, ev')
  }

  lemma QuoteLook(st: St, c: char, x: Option<char>, ev: seq<Event>)
    ensures var r := InQuote(st, c, None, ev);
      && (!r.Wait? ==> InQuote(st, c, x, ev) == r)
      && (r.Wait? ==> r.st.pos == st.pos && r.st.ignoring == st.ignoring && r.st.inQuote == st.inQuote)
      && (r.Wait? ==> c == '\\' && InQuote(r.st, c, x, ev) == InQuote(st, c, x, ev))
  {
  }

  /** Waiting for the next character loses nothing: with it, the turn is the one that would have been
      made; and a turn that did not wait does not depend on it. */
  lemma StepLook(st: St, c: char, x: Option<char>, ev: seq<Event>, hear: Listener)
    ensures var r := Step(st, c, None, ev, hear);
      && (!r.Wait? ==> Step(st, c, x, ev, hear) == r)
      && (r.Wait? ==> r.st.pos == st.pos && Step(r.st, c, x, ev, hear) == Step(st, c, x, ev, hear))
  {
    QuoteLook(st, c, x, ev);
  }

  /** Running up to a cut and then on is running through. */
  lemma {:induction false} RunToRuns(text: string, st: St, ev: seq<Event>, fill: nat, hear: Listener)
    requires fill <= |text|
    ensures match RunTo(text, st, ev, fill, hear)
      case Paused(st', ev') => Run(text, st, ev, hear) == Run(text, st', ev', hear)
      case Broken(err, ev') => Run(text, st, ev, hear) == Fail(err, ev')
    decreases 2 * (if st.pos < fill then fill - st.pos else 0)
  {
    hide Step;
    if st.pos < fill {
      var c := text[st.pos];
      var r := Step(st, c, Ahead(text, st.pos, fill), ev, hear);
      if st.pos + 1 >= fill {
        StepLook(st, c, At(text, st.pos + 1), ev, hear);
      }
      SteppedWaits(st, c, Ahead(text, st.pos, fill), ev, hear);
      AfterToRuns(text, st, r, ev, fill, hear);
    }
  }

  lemma {:induction false} AfterToRuns(text: string, st: St, r: Turn, ev: seq<Event>, fill: nat, hear: Listener)
    requires fill <= |text| && st.pos < fill && (r.Next? ==> st.pos < r.st.pos)
    requires !r.Wait? ==> r == Step(st, text[st.pos], At(text, st.pos + 1), ev, hear)
    requires r.Wait? ==> r.st.pos == st.pos
    requires r.Wait? ==>
      Step(r.st, text[st.pos], At(text, st.pos + 1), ev, hear) == Step(st, text[st.pos], At(text, st.pos + 1), ev, hear)
    ensures match AfterTo(text, r, ev, fill, hear)
      case Paused(st', ev') => Run(text, st, ev, hear) == Run(text, st', ev', hear)
      case Broken(err, ev') => Run(text, st, ev, hear) == Fail(err, ev')
    decreases if r.Next? then 2 * (if r.st.pos < fill then fill - r.st.pos else 0) + 1 else 0
  {
    hide Step;
    var s := Step(st, text[st.pos], At(text, st.pos + 1), ev, hear);
    assert Run(text, st, ev, hear) == After(text, s, ev, hear);
    match r
    case Next(st', ev') => RunToRuns(text, st', ev', fill, hear);
    case Wait(st') => assert Run(text, st', ev, hear) == After(text, s, ev, hear);
    case Stop(err, ev') =>
  }

  /** Everything read has been parsed, but for one character that needs the next one. */
  predicate Rests(text: string, st: St, ev: seq<Event>, fill: nat, hear: Listener)
    requires fill <= |text|
  {
    st.pos >= fill || (st.pos + 1 == fill && Step(st, text[st.pos], None, ev, hear) == Wait(st))
  }

  lemma {:induction false} RunToRests(text: string, st: St, ev: seq<Event>, fill: nat, hear: Listener)
    requires fill <= |text|
    ensures match RunTo(text, st, ev, fill, hear)
      case Paused(st', ev') => Rests(text, st', ev', fill, hear)
      case Broken(_, _) => true
    decreases if st.pos < fill then fill - st.pos else 0
  {
    if st.pos < fill {
      var c := text[st.pos];
      StepLook(st, c, None, ev, hear);
      match Step(st, c, Ahead(text, st.pos, fill), ev, hear)
      case Next(st', ev') => RunToRests(text, st', ev', fill, hear);
      case Wait(st') => SteppedWaits(st, c, Ahead(text, st.pos, fill), ev, hear);
      case Stop(_, _) =>
    }
  }

  /** Only a character with nothing behind it waits. */
  lemma SteppedWaits(st: St, c: char, x: Option<char>, ev: seq<Event>, hear: Listener)
    ensures Step(st, c, x, ev, hear).Wait? ==> x.None?
  {
  }

  // ----- the reader -----

  function Min(a: nat, b: nat): nat { if a < b then a else b }

  /** What the k-th read returns: its cut, or as much as there is when there are no more cuts. */
  function ReadSize(cuts: seq<nat>, k: nat, room: nat, left: nat): nat {
    var most := Min(room, left);
    if k < |cuts| then Min(cuts[k], most) else most
  }

  /** The first character that the parser still needs. */
  function Lowest(st: St): nat {
    var low := match st.t2 case Some(t) => t.start case None =>
      match st.t1 case Some(t) => t.start case None =>
        match st.t0 case Some(t) => t.start case None => st.bol;
    Min(low, st.bol)
  }

  /** From a window that starts at base and has been filled up to fill: every read but the last leaves
      the current line's start past the start of the window, and there is room to read on. */
  predicate CutsOk(text: string, cuts: seq<nat>, k: nat, base: nat, fill: nat, st: St, ev: seq<Event>, hear: Listener)
    requires fill <= |text|
    decreases |text| - fill
  {
    base <= fill && fill - base < BUFFER &&
    var n := ReadSize(cuts, k, BUFFER - 1 - (fill - base), |text| - fill);
    if n == 0 then fill == |text|
    else
      match RunTo(text, st, ev, fill + n, hear)
      case Broken(_, _) => true
      case Paused(st', ev') =>
        if st'.bol > base then CutsOk(text, cuts, k + 1, Lowest(st'), fill + n, st', ev', hear)
        else fill + n == |text| && fill + n < st.pos + BUFFER - 1
  }

  predicate Bounded(st: St, r: Turn, look: nat) {
    && (r.Next? ==> r.st.bol <= r.st.pos <= st.pos + look)
    && (r.Wait? ==> r.st.bol <= r.st.pos == st.pos)
  }

  lemma NewlineBounds(st: St, ev: seq<Event>, hear: Listener)
    ensures Bounded(st, Newline(st, ev, hear), 1)
  {
  }

  lemma OpenBounds(st: St, ev: seq<Event>, hear: Listener)
    requires st.bol <= st.pos
    ensures Bounded(st, OpenSection(st, ev, hear), 1)
  {
  }

  lemma CloseBounds(st: St, ev: seq<Event>, hear: Listener)
    requires st.bol <= st.pos
    ensures Bounded(st, CloseSection(st, ev, hear), 1)
  {
  }

  lemma IgnoredBounds(st: St, c: char, x: Option<char>, ev: seq<Event>)
    requires st.bol <= st.pos
    ensures Bounded(st, InQuote(st, c, x, ev), 1)
    ensures Bounded(st, InComment(st, c, x, ev), if x.Some? then 2 else 1)
  {
  }

  lemma CommentBounds(st: St, c: char, ml: bool, x: Option<char>, ev: seq<Event>)
    requires st.bol <= st.pos
    ensures Bounded(st, Comment(st, c, ml, ev), 1)
    ensures Bounded(st, Slash(st, x, ev), 1)
  {
  }

  lemma TokenBounds(st: St, c: char, ev: seq<Event>)
    requires st.bol <= st.pos
    ensures Bounded(st, Blank(st, c, ev), 1)
    ensures Bounded(st, OpenQuote(st, ev), 1)
    ensures Bounded(st, Plain(st, c, ev), 1)
  {
  }

  lemma StepBounds(st: St, c: char, x: Option<char>, ev: seq<Event>, hear: Listener)
    requires st.bol <= st.pos
    ensures Bounded(st, Step(st, c, x, ev, hear), if x.Some? then 2 else 1)
  {
    hide Newline, OpenSection, CloseSection, InQuote, InComment, Comment, Slash, Blank, OpenQuote, Plain;
    CommentBounds(st, c, st.ml, x, ev);
    TokenBounds(st, c, ev);
    NewlineBounds(st, ev, hear);
    OpenBounds(st, ev, hear);
    CloseBounds(st, ev, hear);
    IgnoredBounds(st, c, x, ev);
  }

  lemma {:induction false} RunToBounds(text: string, st: St, ev: seq<Event>, fill: nat, hear: Listener)
    requires fill <= |text| && st.bol <= st.pos <= fill
    ensures match RunTo(text, st, ev, fill, hear)
      case Paused(st', _) => st'.bol <= st'.pos <= fill
      case Broken(_, _) => true
    decreases fill - st.pos
  {
    if st.pos < fill {
      StepBounds(st, text[st.pos], Ahead(text, st.pos, fill), ev, hear);
      match Step(st, text[st.pos], Ahead(text, st.pos, fill), ev, hear)
      case Next(st', ev') => RunToBounds(text, st', ev', fill, hear);
      case Wait(_) =>
      case Stop(_, _) =>
    }
  }

  /** A text that fits the buffer and is read at once. */
  lemma ShortTextOk(text: string, hear: Listener)
    requires |text| < BUFFER - 1
    ensures CutsOk(text, [], 0, 0, 0, START, [ParseStart], hear)
  {
    RunToBounds(text, START, [ParseStart], |text|, hear);
    if |text| > 0 {
      match RunTo(text, START, [ParseStart], |text|, hear)
      case Broken(_, _) =>
      case Paused(st', ev') =>
        assert CutsOk(text, [], 1, Lowest(st'), |text|, st', ev', hear);
    }
  }
}
