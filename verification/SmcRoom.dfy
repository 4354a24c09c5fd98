/** How far back the SMC parser has to look: what the window needs of a text, as a property of the machine
    on the whole text that does not depend on how the text is read. */
module SmcRoom {
  import opened SmcMachine
  import opened SmcWindow

  // ----- the first character still needed never goes back -----

  /** The staged strings lie before the position, the oldest first; one being read is on the line. */
  predicate Staged(st: St) {
    && st.bol <= st.pos
    && (st.t0.Some? ==> st.bol <= st.t0.value.start <= st.pos)
    && (st.t1.Some? ==> st.t1.value.start <= st.pos)
    && (st.t2.Some? ==> st.t1.Some? && st.t2.value.start <= st.t1.value.start)
    && (st.t0.Some? && st.t1.Some? ==> st.t1.value.start <= st.t0.value.start)
  }

  /** A turn leaves them so, and what was not needed is not needed again. */
  predicate Forward(st: St, u: St) {
    Staged(u) && Lowest(st) <= Lowest(u)
  }

  lemma ConsumeForward(st: St, c: char)
    requires Staged(st)
    ensures Forward(st, Consume(st, c))
  {
  }

  lemma RestageForward(st: St)
    requires Staged(st)
    ensures Restage(st).Some? ==> Forward(st, Restage(st).value) && Restage(st).value.t0.None?
    ensures Restage(st).Some? ==> Restage(st).value.bol == st.bol && Restage(st).value.pos == st.pos
    ensures Rotate(st).Some? ==> Forward(st, Rotate(st).value)
  {
  }

  lemma NewlineForward(st: St, ev: seq<Event>, hear: Listener)
    requires Staged(st)
    ensures Newline(st, ev, hear).Next? ==> Forward(st, Newline(st, ev, hear).st)
  {
    hide Restage;
    RestageForward(st);
  }

  lemma QuoteForward(st: St, c: char, next: Option<char>, ev: seq<Event>)
    requires Staged(st)
    ensures InQuote(st, c, next, ev).Next? ==> Forward(st, InQuote(st, c, next, ev).st)
  {
    hide Restage, Consume, Lowest;
    if st.t0.Some? {
      var t := st.t0.value;
      var u := st.(inQuote := false, ignoring := false, t0 := Some(t.(quoted := true)));
      SameLowest(st, u);
      RestageForward(u);
      if Restage(u).Some? { ConsumeForward(Restage(u).value, c); }
      var v := st.(t0 := Some(t.(special := true)));
      SameLowest(st, v);
      ConsumeForward(v, c);
    }
    ConsumeForward(st, c);
  }

  lemma AheadLowest(st: St, u: St)
    requires u.bol == st.bol && u.pos >= st.pos && u.t0 == st.t0 && u.t1 == st.t1 && u.t2 == st.t2
    ensures Lowest(u) == Lowest(st) && (Staged(st) ==> Staged(u))
  {
  }

  predicate SameStart(a: Option<Token>, b: Option<Token>) {
    a.Some? == b.Some? && (a.Some? ==> a.value.start == b.value.start)
  }

  lemma SameLowest(st: St, u: St)
    requires u.bol == st.bol && u.pos == st.pos && SameStart(st.t0, u.t0) && SameStart(st.t1, u.t1)
    requires SameStart(st.t2, u.t2)
    ensures Lowest(u) == Lowest(st) && (Staged(st) ==> Staged(u))
  {
  }

  lemma CommentForward(st: St, c: char, ml: bool, ev: seq<Event>)
    requires Staged(st)
    ensures Comment(st, c, ml, ev).Next? ==> Forward(st, Comment(st, c, ml, ev).st)
  {
    hide Restage, Consume, Lowest, Staged;
    var u := st.(ignoring := true, ml := ml);
    SameLowest(st, u);
    RestageForward(u);
    if Restage(u).Some? { ConsumeForward(Restage(u).value, c); }
  }

  lemma InCommentForward(st: St, c: char, next: Option<char>, ev: seq<Event>)
    requires Staged(st)
    ensures InComment(st, c, next, ev).Next? ==> Forward(st, InComment(st, c, next, ev).st)
  {
    hide Consume, Lowest;
    ConsumeForward(st, c);
    var u := Show(st, "*/").(ml := false, ignoring := false, pos := st.pos + 2, at := st.at.(col := st.at.col + 2));
    AheadLowest(st, u);
  }

  lemma BlankForward(st: St, c: char, ev: seq<Event>)
    requires Staged(st)
    ensures Blank(st, c, ev).Next? ==> Forward(st, Blank(st, c, ev).st)
  {
    hide Restage, Consume;
    ConsumeForward(st, c);
    RestageForward(st);
    if Restage(st).Some? { ConsumeForward(Restage(st).value, c); }
  }

  lemma StringForward(st: St, c: char, ev: seq<Event>)
    requires Staged(st)
    ensures OpenQuote(st, ev).Next? ==> Forward(st, OpenQuote(st, ev).st)
    ensures Plain(st, c, ev).Next? ==> Forward(st, Plain(st, c, ev).st)
  {
  }

  lemma OpenForward(st: St, ev: seq<Event>, hear: Listener)
    requires Staged(st)
    ensures OpenSection(st, ev, hear).Next? ==> Forward(st, OpenSection(st, ev, hear).st)
  {
  }

  lemma CloseForward(st: St, ev: seq<Event>, hear: Listener)
    requires Staged(st)
    ensures CloseSection(st, ev, hear).Next? ==> Forward(st, CloseSection(st, ev, hear).st)
  {
  }

  lemma StepForward(st: St, c: char, next: Option<char>, ev: seq<Event>, hear: Listener)
    requires Staged(st)
    ensures var r := Step(st, c, next, ev, hear); r.Next? ==> Forward(st, r.st)
  {
    hide Newline, CloseSection, OpenSection, InQuote, InComment, Comment, Blank, Consume, OpenQuote, Plain, Lowest,
          Staged;
    NewlineForward(st, ev, hear);
    QuoteForward(st, c, next, ev);
    CommentForward(st, c, st.ml, ev);
    CommentForward(st, c, true, ev);
    InCommentForward(st, c, next, ev);
    BlankForward(st, c, ev);
    StringForward(st, c, ev);
    ConsumeForward(st, c);
    OpenForward(st, ev, hear);
    CloseForward(st, ev, hear);
  }

  lemma LowestIs(st: St)
    requires Staged(st)
    ensures Lowest(st) <= st.bol <= st.pos
  {
  }

  // ----- never more than d characters back -----

  /** From here on the parser is never more than d characters past the first one it still needs. */
  predicate Roomy(text: string, st: St, ev: seq<Event>, hear: Listener, d: nat)
    decreases Left(text, st.pos)
  {
    && st.pos <= Lowest(st) + d
    && (st.pos < |text| ==>
          var r := Step(st, text[st.pos], At(text, st.pos + 1), ev, hear);
          r.Next? ==> Roomy(text, r.st, r.ev, hear, d))
  }

  lemma WaitLowest(st: St, c: char, next: Option<char>, ev: seq<Event>, hear: Listener)
    ensures var r := Step(st, c, next, ev, hear);
      r.Wait? ==> Lowest(r.st) == Lowest(st) && (Staged(st) ==> Staged(r.st))
  {
    hide Lowest, Staged;
    WaitIs(st, c, next, ev, hear);
    var r := Step(st, c, next, ev, hear);
    if r.Wait? { SameLowest(st, r.st); }
  }

  /** A turn that waits at most marks the string being read. */
  lemma WaitIs(st: St, c: char, next: Option<char>, ev: seq<Event>, hear: Listener)
    ensures var r := Step(st, c, next, ev, hear);
      r.Wait? ==> r.st == st || (st.t0.Some? && r.st == st.(t0 := Some(st.t0.value.(special := true))))
  {
    hide Restage, Rotate, Consume, HandOver;
  }

  /** It is so wherever the text is cut. */
  lemma {:induction false} RoomyTo(text: string, st: St, ev: seq<Event>, fill: nat, hear: Listener, d: nat)
    requires fill <= |text| && Roomy(text, st, ev, hear, d) && Staged(st)
    ensures match RunTo(text, st, ev, fill, hear)
      case Paused(st', ev') => Roomy(text, st', ev', hear, d) && Staged(st')
      case Broken(_, _) => true
    decreases if st.pos < fill then fill - st.pos else 0
  {
    hide Step, Lowest, Staged;
    if st.pos < fill {
      var c, x := text[st.pos], At(text, st.pos + 1);
      StepLook(st, c, x, ev, hear);
      StepForward(st, c, x, ev, hear);
      WaitLowest(st, c, None, ev, hear);
      match Step(st, c, Ahead(text, st.pos, fill), ev, hear)
      case Next(st', ev') => RoomyTo(text, st', ev', fill, hear, d);
      case Wait(st') => SteppedWaits(st, c, Ahead(text, st.pos, fill), ev, hear);
      case Stop(_, _) =>
    }
  }

  /** The most that a window read in full can always serve. */
  const REACH: nat := BUFFER - 3

  /** A parser that never needs more than 4093 characters back loses nothing to the window, if every read
      fills the buffer. */
  lemma {:induction false} RoomyServed(text: string, k: nat, fill: nat, st: St, ev: seq<Event>, hear: Listener)
    requires fill <= |text| && Staged(st) && Roomy(text, st, ev, hear, REACH) && Rests(text, st, ev, fill, hear)
    requires Lowest(st) <= st.pos <= fill
    ensures CutsOk(text, [], k, Lowest(st), fill, st, ev, hear)
    decreases |text| - fill
  {
    hide Roomy, Step, Staged, RunTo;
    var base := Lowest(st);
    RoomyHere(text, st, ev, hear, REACH);
    RestsNear(text, st, ev, fill, hear);
    var n := ReadSize([], k, BUFFER - 1 - (fill - base), |text| - fill);
    if n > 0 {
      LowestIs(st);
      RoomyTo(text, st, ev, fill + n, hear, REACH);
      RunToBounds(text, st, ev, fill + n, hear);
      RunToRests(text, st, ev, fill + n, hear);
      match RunTo(text, st, ev, fill + n, hear)
      case Broken(_, _) =>
      case Paused(st', ev') =>
        RoomyHere(text, st', ev', hear, REACH);
        RestsNear(text, st', ev', fill + n, hear);
        LowestIs(st');
        if st'.bol > base { RoomyServed(text, k + 1, fill + n, st', ev', hear); }
    }
  }

  lemma RoomyHere(text: string, st: St, ev: seq<Event>, hear: Listener, d: nat)
    requires Roomy(text, st, ev, hear, d)
    ensures st.pos <= Lowest(st) + d
  {
  }

  lemma RestsNear(text: string, st: St, ev: seq<Event>, fill: nat, hear: Listener)
    requires fill <= |text| && Rests(text, st, ev, fill, hear)
    ensures fill <= st.pos + 1
  {
  }

  /** So for a whole text of any length. */
  lemma RoomyOk(text: string, hear: Listener)
    requires Roomy(text, START, [ParseStart], hear, REACH)
    ensures CutsOk(text, [], 0, 0, 0, START, [ParseStart], hear)
  {
    RoomyServed(text, 0, 0, START, [ParseStart], hear);
  }

  // ----- and conversely -----

  /** Up to a cut the parser has been at most d past base. */
  lemma {:induction false} NearTo(text: string, st: St, ev: seq<Event>, fill: nat, hear: Listener, base: nat, d: nat)
    requires fill <= |text| && Staged(st) && base <= Lowest(st) && fill <= base + d && st.pos <= fill
    requires match RunTo(text, st, ev, fill, hear)
      case Paused(st', ev') => Roomy(text, st', ev', hear, d)
      case Broken(_, _) => true
    ensures Roomy(text, st, ev, hear, d)
    decreases fill - st.pos
  {
    hide Step, Lowest, Staged;
    LowestIs(st);
    if st.pos < fill {
      var c, x := text[st.pos], At(text, st.pos + 1);
      var r := Step(st, c, Ahead(text, st.pos, fill), ev, hear);
      StepLook(st, c, x, ev, hear);
      StepForward(st, c, x, ev, hear);
      StepBounds(st, c, Ahead(text, st.pos, fill), ev, hear);
      SteppedWaits(st, c, Ahead(text, st.pos, fill), ev, hear);
      assert RunTo(text, st, ev, fill, hear) == AfterTo(text, r, ev, fill, hear);
      match r
      case Next(st', ev') =>
        assert RunTo(text, st, ev, fill, hear) == RunTo(text, st', ev', fill, hear);
        NearTo(text, st', ev', fill, hear, base, d);
      case Wait(st') =>
        WaitLowest(st, c, None, ev, hear);
        RoomyWait(text, st, st', ev, hear, d);
      case Stop(_, _) =>
    }
  }

  lemma RoomyWait(text: string, st: St, u: St, ev: seq<Event>, hear: Listener, d: nat)
    requires Roomy(text, u, ev, hear, d) && u.pos == st.pos < |text| && Lowest(u) == Lowest(st)
    requires Step(u, text[st.pos], At(text, st.pos + 1), ev, hear) ==
          Step(st, text[st.pos], At(text, st.pos + 1), ev, hear)
    ensures Roomy(text, st, ev, hear, d)
  {
    hide Step, Lowest;
  }

  /** Where the parser is at the end of what has been read. */
  lemma RoomyEnd(text: string, st: St, ev: seq<Event>, hear: Listener, d: nat)
    requires Rests(text, st, ev, |text|, hear) && st.pos <= Lowest(st) + d
    ensures Roomy(text, st, ev, hear, d)
  {
    hide Lowest;
  }

  lemma {:induction false} ServedRoomy(text: string, cuts: seq<nat>, k: nat, base: nat, fill: nat, st: St,
      ev: seq<Event>, hear: Listener)
    requires fill <= |text| && Staged(st) && base <= Lowest(st) && st.pos <= fill && Rests(text, st, ev, fill, hear)
    requires CutsOk(text, cuts, k, base, fill, st, ev, hear)
    ensures Roomy(text, st, ev, hear, BUFFER - 1)
    decreases |text| - fill
  {
    hide Roomy, Step, Staged, RunTo, Lowest;
    LowestIs(st);
    var n := ReadSize(cuts, k, BUFFER - 1 - (fill - base), |text| - fill);
    if n == 0 {
      RoomyEnd(text, st, ev, hear, BUFFER - 1);
    } else {
      StagedTo(text, st, ev, fill + n, hear);
      RunToBounds(text, st, ev, fill + n, hear);
      RunToRests(text, st, ev, fill + n, hear);
      match RunTo(text, st, ev, fill + n, hear) {
        case Broken(_, _) =>
        case Paused(st', ev') =>
          LowestIs(st');
          if st'.bol > base {
            ServedRoomy(text, cuts, k + 1, Lowest(st'), fill + n, st', ev', hear);
          } else {
            RoomyEnd(text, st', ev', hear, BUFFER - 1);
          }
      }
      NearTo(text, st, ev, fill + n, hear, base, BUFFER - 1);
    }
  }

  lemma {:induction false} StagedTo(text: string, st: St, ev: seq<Event>, fill: nat, hear: Listener)
    requires fill <= |text| && Staged(st)
    ensures match RunTo(text, st, ev, fill, hear)
      case Paused(st', ev') => Staged(st') && Lowest(st) <= Lowest(st')
      case Broken(_, _) => true
    decreases if st.pos < fill then fill - st.pos else 0
  {
    hide Step, Lowest, Staged;
    if st.pos < fill {
      var c, x := text[st.pos], At(text, st.pos + 1);
      StepForward(st, c, Ahead(text, st.pos, fill), ev, hear);
      WaitLowest(st, c, Ahead(text, st.pos, fill), ev, hear);
      match Step(st, c, Ahead(text, st.pos, fill), ev, hear)
      case Next(st', ev') => StagedTo(text, st', ev', fill, hear);
      case Wait(_) =>
      case Stop(_, _) =>
    }
  }

  /** If the window serves a text, in whatever cuts, the parser never needs more than 4095 characters back. */
  lemma RoomyNeeded(text: string, cuts: seq<nat>, hear: Listener)
    requires CutsOk(text, cuts, 0, 0, 0, START, [ParseStart], hear)
    ensures Roomy(text, START, [ParseStart], hear, BUFFER - 1)
  {
    ServedRoomy(text, cuts, 0, 0, 0, START, [ParseStart], hear);
  }
}
