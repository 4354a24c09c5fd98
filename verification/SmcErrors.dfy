/** Which error ends a parse, and when: by how many strings have been read and not handed over. */
module SmcErrors {
  import opened SmcMachine

  /** The strings read since the last callback that took them, the one being read included. */
  function Strings(st: St): nat {
    (if st.t0.Some? then 1 else 0) + (if st.t1.Some? then 1 else 0) + (if st.t2.Some? then 1 else 0)
  }

  predicate InTurn(st: St) { st.t2.Some? ==> st.t1.Some? }

  /** The listener has been called, and has not asked to go on. */
  ghost predicate Halted(r: Turn, hear: Listener) {
    r.Stop? && hear(r.ev) != Continue && r.err == (if hear(r.ev).HaltFail? then Custom else Okay)
  }

  /** An opening brace takes one string. */
  lemma OpenErrors(st: St, next: Option<char>, ev: seq<Event>, hear: Listener)
    requires InTurn(st) && !st.ignoring
    ensures var r := Step(st, '{', next, ev, hear);
      && (Strings(st) == 0 ==> r == Stop(InvalidSection2, ev))
      && (Strings(st) >= 2 ==> r == Stop(InvalidSection1, ev))
      && (Strings(st) == 1 ==> Halted(r, hear) || (r.Next? && r.st.level == st.level + 1 && Strings(r.st) == 0))
  {
  }

  /** A closing brace takes nothing, or a pair whose value is still being read, inside a section: not one whose
      value a quote has ended. */
  lemma CloseErrors(st: St, next: Option<char>, ev: seq<Event>, hear: Listener)
    requires InTurn(st) && !st.ignoring
    ensures var r, pair := Step(st, '}', next, ev, hear), Strings(st) == 2 && st.t0.Some?;
      && (Strings(st) != 0 && !pair ==> r == Stop(InvalidSection3, ev))
      && (Strings(st) == 0 && st.level == 0 ==> r == Stop(InvalidSection4, ev))
      && (pair && st.level == 0 ==> r == Stop(InvalidProperty1, ev))
      && (st.level > 0 && (Strings(st) == 0 || pair) ==>
            Halted(r, hear) || (r.Next? && r.st.level == st.level - 1 && Strings(r.st) == 0))
  {
  }

  lemma Restaged(st: St)
    requires InTurn(st)
    ensures match Restage(st)
      case None => Strings(st) == 3
      case Some(u) =>
        && Strings(st) < 3 && Strings(u) == Strings(st) && u.t0.None? && InTurn(u)
        && u == st.(t0 := u.t0, t1 := u.t1, t2 := u.t2)
  {
  }

  lemma LineEnds(st: St, ev: seq<Event>, hear: Listener)
    requires InTurn(st) && st.t0.None?
    ensures var r, shown := EndLine(st, ev, hear), ev + [RawLine(st.at, CStr(st.line))];
      && (hear(shown) != Continue ==> Halted(r, hear) && r.ev == shown)
      && (Strings(st) == 2 && st.level == 0 && hear(shown) == Continue ==> r == Stop(InvalidProperty1, shown))
      && (Strings(st) == 2 && st.level > 0 && hear(shown) == Continue ==>
            Halted(r, hear) || (r.Next? && r.st.level == st.level && Strings(r.st) == 0))
      && (Strings(st) <= 1 && hear(shown) == Continue ==>
            r.Next? && r.ev == shown && r.st.level == st.level && Strings(r.st) == Strings(st))
  {
    hide CStr, Payload, PairValue;
  }

  /** The end of a line takes a pair, or leaves what has been read; it is shown first. */
  lemma LineErrors(st: St, next: Option<char>, ev: seq<Event>, hear: Listener)
    requires InTurn(st)
    ensures var r, shown := Step(st, '\n', next, ev, hear), ev + [RawLine(st.at, CStr(st.line))];
      && (Strings(st) == 3 ==> r == Stop(InvalidTokens, ev))
      && (Strings(st) < 3 && hear(shown) != Continue ==> Halted(r, hear) && r.ev == shown)
      && (Strings(st) == 2 && st.level == 0 && hear(shown) == Continue ==> r == Stop(InvalidProperty1, shown))
      && (Strings(st) == 2 && st.level > 0 && hear(shown) == Continue ==>
            Halted(r, hear) || (r.Next? && r.st.level == st.level && Strings(r.st) == 0))
      && (Strings(st) <= 1 && hear(shown) == Continue ==>
            r.Next? && r.ev == shown && r.st.level == st.level && Strings(r.st) == Strings(st))
  {
    hide Restage, EndLine, CStr, Halted;
    Restaged(st);
    if Restage(st).Some? {
      var u := Restage(st).value;
      LineEnds(u.(inQuote := false, ignoring := u.ignoring && u.ml), ev, hear);
    }
  }

  /** A quote or a comment ends the string being read: there is room for two. */
  lemma ThirdString(st: St, next: Option<char>, ev: seq<Event>, hear: Listener)
    requires InTurn(st) && !st.ignoring
    ensures Strings(st) == 3 ==>
      && Step(st, '\"', next, ev, hear) == Stop(InvalidTokens, ev)
      && Step(st, ';', next, ev, hear) == Stop(InvalidTokens, ev)
      && (next == Some('/') || next == Some('*') ==> Step(st, '/', next, ev, hear) == Stop(InvalidTokens, ev))
    ensures Strings(st) < 3 ==>
      && Step(st, '\"', next, ev, hear).Next? && Step(st, ';', next, ev, hear).Next?
      && !Step(st, '/', next, ev, hear).Stop?
  {
    hide InQuote, InComment, Blank, Newline, OpenSection, CloseSection, Plain;
  }

  /** A blank ends a string without quotes if it is the first; after one without quotes it is an error. */
  lemma BlankErrors(st: St, c: char, next: Option<char>, ev: seq<Event>, hear: Listener)
    requires InTurn(st) && !st.ignoring
    requires c == ' ' || c == '\t' || c == '\r' || c == (11 as char) || c == (12 as char)
    ensures var r := Step(st, c, next, ev, hear);
      && (r.Stop? <==> st.t0.Some? && st.t1.Some? && !st.t1.value.quoted)
      && (r.Stop? ==> r == Stop(InvalidTokens, ev))
      && (r.Next? && st.t0.Some? && st.t1.None? ==> r.st.t0.None? && r.st.t1 == Some(st.t0.value.(closed := true)))
      && (r.Next? && st.t0.Some? && st.t1.Some? ==> r.st.t0.Some? && r.st.t1 == st.t1)
  {
  }

  /** The end of the text: inside a section, with a string left, or well. */
  lemma EndErrors(st: St, ev: seq<Event>)
    ensures st.level > 0 ==> Finish(st, ev).err == InvalidSection5
    ensures st.level == 0 && (st.t0.Some? || st.t1.Some?) ==> Finish(st, ev).err == InvalidTokens
    ensures st.level == 0 && Strings(st) == 0 ==> Finish(st, ev) == Outcome(Okay, ev + [ParseEnd(false, false)])
    ensures !Finish(st, ev).err.Okay? ==> Finish(st, ev).ev == ev + [ParseEnd(true, false)]
  {
  }

  /** Any other character begins a string, or is one more of the string being read. */
  lemma OtherCharacter(st: St, c: char, next: Option<char>, ev: seq<Event>, hear: Listener)
    requires !st.ignoring && c !in " \t\r\n;/{}\"" && c != (11 as char) && c != (12 as char)
    ensures var r := Step(st, c, next, ev, hear);
      && r.Next? && r.ev == ev && r.st.t0.Some? && r.st.t1 == st.t1 && r.st.t2 == st.t2 && !r.st.ignoring
      && r.st.t0.value ==
           if st.t0.Some? then st.t0.value.(raw := st.t0.value.raw + [c]) else Token(st.pos, [c], false, false, false)
  {
    var special := " \t\r\n;/{}\"";
    assert special[0] == ' ' && special[1] == '\t' && special[2] == '\r' && special[3] == '\n' && special[4] == ';';
    assert special[5] == '/' && special[6] == '{' && special[7] == '}' && special[8] == '\"';
    assert "" + [c] == [c];
  }
}
