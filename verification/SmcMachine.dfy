/** The SMC parser of sourcemod/core/TextParsers.cpp as a machine over a whole text, with its staged
    strings as values. The windowed parser in SmcParser refines it. */
module SmcMachine {
  datatype Option<+T> = None | Some(value: T)

  datatype SMCResult = Continue | Halt | HaltFail

  datatype SMCError =
    | Okay | Custom | InvalidSection1 | InvalidSection2 | InvalidSection3 | InvalidSection4
    | InvalidSection5 | InvalidTokens | TokenOverflow | InvalidProperty1

  /** The line and column a callback is given. */
  datatype States = States(line: nat, col: nat)

  /** The listener's callbacks. A string whose end was not set when it was handed over is None: the
      callback then sees whatever the buffer holds up to the next zero byte. */
  datatype Event =
    | ParseStart
    | RawLine(at: States, text: string)
    | NewSection(at: States, name: Option<string>)
    | KeyValue(at: States, key: Option<string>, value: Option<string>)
    | LeavingSection(at: States)
    | ParseEnd(halted: bool, failed: bool)

  /** The listener: its answer to the last of the callbacks made so far. */
  type Listener = seq<Event> -> SMCResult

  /** A staged string: where it starts and its characters so far, the opening quote included. */
  datatype Token = Token(start: nat, raw: string, quoted: bool, special: bool, closed: bool) {
    function End(): nat { start + |raw| }

    function Body(): string { if quoted && raw != "" then raw[1..] else raw }
  }

  /** The parser between two characters. line is what a callback would see of the current line: when
      a string on it has been handed over (cut), the line ends where that string does. */
  datatype St = St(
    pos: nat, bol: nat, line: string, cut: bool,
    t0: Option<Token>, t1: Option<Token>, t2: Option<Token>,
    level: nat, inQuote: bool, ignoring: bool, ml: bool, at: States)

  const START := St(0, 0, "", false, None, None, None, 0, false, false, false, States(1, 0))

  /** What one character leads to: the next state, a wait for more input, or the end. */
  datatype Turn =
    | Next(st: St, ev: seq<Event>)
    | Wait(st: St)
    | Stop(err: SMCError, ev: seq<Event>)

  predicate IsWhitespace(c: char) {
    c == '\n' || c == (11 as char) || c == '\r' || c == '\t' || c == (12 as char) || c == ' '
  }

  function CStr(s: string): string {
    if s == "" || s[0] == '\0' then "" else [s[0]] + CStr(s[1..])
  }

  /** The escape sequences FixupString resolves; an unknown one keeps its backslash. */
  function Unescape(b: string): string {
    if b == "" then ""
    else if b[0] == '\\' && |b| > 1 then
      if b[1] == 'n' then ['\n'] + Unescape(b[2..])
      else if b[1] == 't' then ['\t'] + Unescape(b[2..])
      else if b[1] == 'r' then ['\r'] + Unescape(b[2..])
      else if b[1] == '\\' || b[1] == '\"' then [b[1]] + Unescape(b[2..])
      else ['\\'] + Unescape(b[1..])
    else [b[0]] + Unescape(b[1..])
  }

  function Resolved(t: Token): string {
    if t.special && |t.Body()| >= 2 then Unescape(t.Body()) else t.Body()
  }

  /** The string a callback sees for a staged string. */
  function Payload(t: Token): Option<string> {
    if t.closed then Some(CStr(Resolved(t))) else None
  }

  /** The value of a pair. An unquoted value that starts where the key ends has its first character
      overwritten by the key's terminator. */
  function PairValue(key: Token, value: Token): Option<string> {
    if value.closed && !value.quoted && key.closed && value.start == key.End() then Some("") else Payload(value)
  }

  /** Handing over a string of the current line cuts what the line shows. */
  function HandOver(st: St, t: Token): (r: St)
    ensures r == st.(line := r.line, cut := r.cut)
  {
    var skip := if t.quoted then 1 else 0;
    if t.closed && !st.cut && st.bol <= t.start && t.start - st.bol + skip <= |st.line| then
      st.(line := st.line[..t.start - st.bol + skip] + CStr(Resolved(t)), cut := true)
    else st
  }

  /** rotate: None when there is already a third string. */
  function Rotate(st: St): (r: Option<St>)
    ensures r.Some? ==> r.value.pos == st.pos
  {
    if st.t2.Some? then None
    else if st.t0.Some? then Some(st.(t2 := st.t1, t1 := st.t0, t0 := None))
    else Some(st)
  }

  /** End the string being read here, and rotate it out if there is one. */
  function Restage(st: St): (r: Option<St>)
    ensures r.Some? ==> r.value.pos == st.pos
  {
    match st.t0
    case None => Some(st)
    case Some(t) => Rotate(st.(t0 := Some(t.(closed := true))))
  }

  function Scrap(st: St): St {
    st.(t0 := None, t1 := None, t2 := None)
  }

  function Show(st: St, c: string): St {
    st.(line := if st.cut then st.line else st.line + c)
  }

  /** The end of a turn: one more character of the line and of the string being read. */
  function Consume(st: St, c: char): St {
    var t0 := match st.t0 case None => None case Some(t) => Some(t.(raw := t.raw + [c]));
    Show(st, [c]).(pos := st.pos + 1, t0 := t0, at := st.at.(col := st.at.col + 1))
  }

  function HaltError(r: SMCResult): SMCError {
    if r.HaltFail? then Custom else Okay
  }

  /** A newline, once the string being read has been staged: the line is shown, and a key and value
      are handed over. */
  function EndLine(st: St, ev: seq<Event>, hear: Listener): (r: Turn)
    ensures r.Next? ==> st.pos < r.st.pos
  {
    var ev1 := ev + [RawLine(st.at, CStr(st.line))];
    var next := st.(pos := st.pos + 1, bol := st.pos + 1, line := "", cut := false, at := States(st.at.line + 1, 1));
    if hear(ev1) != Continue then Stop(HaltError(hear(ev1)), ev1)
    else if st.t2.None? || st.t1.None? then Next(next, ev1)
    else if st.level == 0 then Stop(InvalidProperty1, ev1)
    else
      var ev2 := ev1 + [KeyValue(st.at, Payload(st.t2.value), PairValue(st.t2.value, st.t1.value))];
      if hear(ev2) != Continue then Stop(HaltError(hear(ev2)), ev2)
      else Next(Scrap(next), ev2)
  }

  function Newline(st: St, ev: seq<Event>, hear: Listener): (r: Turn)
    ensures r.Next? ==> st.pos < r.st.pos
  {
    match Restage(st)
    case None => Stop(InvalidTokens, ev)
    case Some(u) => EndLine(u.(inQuote := false, ignoring := u.ignoring && u.ml), ev, hear)
  }

  /** Inside a quoted string. */
  function InQuote(st: St, c: char, next: Option<char>, ev: seq<Event>): (r: Turn)
    ensures r.Next? ==> st.pos < r.st.pos
  {
    if st.t0.None? then Next(Consume(st, c), ev)
    else
      var t := st.t0.value;
      if c == '\"' && !(t.raw != "" && t.raw[|t.raw| - 1] == '\\') then
        match Restage(st.(inQuote := false, ignoring := false, t0 := Some(t.(quoted := true))))
        case None => Stop(InvalidTokens, ev)
        case Some(u) => Next(Consume(u, c), ev)
      else if c == '\\' then
        var u := st.(t0 := Some(t.(special := true)));
        if next.None? then Wait(u) else Next(Consume(u, c), ev)
      else Next(Consume(st, c), ev)
  }

  /** Inside a comment that may span lines. */
  function InComment(st: St, c: char, next: Option<char>, ev: seq<Event>): (r: Turn)
    ensures r.Next? ==> st.pos < r.st.pos
  {
    if c == '*' && next.None? then Wait(st)
    else if c == '*' && next.value == '/' then
      var u := Show(st, "*/").(ml := false, ignoring := false, pos := st.pos + 2, at := st.at.(col := st.at.col + 2));
      Next(u, ev)
    else Next(Consume(st, c), ev)
  }

  function Comment(st: St, c: char, ml: bool, ev: seq<Event>): (r: Turn)
    ensures r.Next? ==> st.pos < r.st.pos
  {
    match Restage(st.(ignoring := true, ml := ml))
    case None => Stop(InvalidTokens, ev)
    case Some(u) => Next(Consume(u, c), ev)
  }

  function OpenSection(st: St, ev: seq<Event>, hear: Listener): (r: Turn)
    ensures r.Next? ==> st.pos < r.st.pos
  {
    match (if st.t0.Some? then Rotate(st) else Some(st))
    case None => Stop(InvalidSection1, ev)
    case Some(u) =>
      if u.t2.Some? then Stop(InvalidSection1, ev)
      else if u.t1.None? then Stop(InvalidSection2, ev)
      else
        var ev1 := ev + [NewSection(u.at, Payload(u.t1.value))];
        if hear(ev1) != Continue then Stop(HaltError(hear(ev1)), ev1)
        else Next(Consume(HandOver(u, u.t1.value).(t1 := None, level := u.level + 1), '{'), ev1)
  }

  function Leave(st: St, ev: seq<Event>, hear: Listener): (r: Turn)
    requires st.level > 0
    ensures r.Next? ==> st.pos < r.st.pos
  {
    var ev1 := ev + [LeavingSection(st.at)];
    if hear(ev1) != Continue then Stop(HaltError(hear(ev1)), ev1)
    else Next(Consume(Scrap(st).(level := st.level - 1), '}'), ev1)
  }

  function CloseSection(st: St, ev: seq<Event>, hear: Listener): (r: Turn)
    ensures r.Next? ==> st.pos < r.st.pos
  {
    match Rotate(st)
    case None => Stop(InvalidSection3, ev)
    case Some(u) =>
      if u.t2.Some? && u.t1.Some? then
        if u.level == 0 then Stop(InvalidProperty1, ev)
        else
          var ev1 := ev + [KeyValue(u.at, Payload(u.t2.value), PairValue(u.t2.value, u.t1.value))];
          if hear(ev1) != Continue then Stop(HaltError(hear(ev1)), ev1)
          else Leave(HandOver(HandOver(u, u.t2.value), u.t1.value), ev1, hear)
      else if u.t1.Some? then Stop(InvalidSection3, ev)
      else if u.level == 0 then Stop(InvalidSection4, ev)
      else Leave(u, ev, hear)
  }

  function Blank(st: St, c: char, ev: seq<Event>): (r: Turn)
    ensures r.Next? ==> st.pos < r.st.pos
  {
    if st.t0.None? then Next(Consume(st, c), ev)
    else if st.t1.None? then
      match Restage(st)
      case None => Next(Consume(st, c), ev)
      case Some(u) => Next(Consume(u, c), ev)
    else if !st.t1.value.quoted then Stop(InvalidTokens, ev)
    else Next(Consume(st, c), ev)
  }

  function OpenQuote(st: St, ev: seq<Event>): (r: Turn)
    ensures r.Next? ==> st.pos < r.st.pos
  {
    match Restage(st)
    case None => Stop(InvalidTokens, ev)
    case Some(u) =>
      Next(Consume(u.(t0 := Some(Token(st.pos, "", false, false, false)), inQuote := true, ignoring := true), '\"'), ev)
  }

  function Plain(st: St, c: char, ev: seq<Event>): (r: Turn)
    ensures r.Next? ==> st.pos < r.st.pos
  {
    if st.t0.Some? then Next(Consume(st, c), ev)
    else Next(Consume(st.(t0 := Some(Token(st.pos, "", false, false, false))), c), ev)
  }

  function Slash(st: St, next: Option<char>, ev: seq<Event>): (r: Turn)
    ensures r.Next? ==> st.pos < r.st.pos
  {
    if next.None? then Wait(st)
    else if next.value == '/' then Comment(st, '/', st.ml, ev)
    else if next.value == '*' then Comment(st, '/', true, ev)
    else Next(Consume(st, '/'), ev)
  }

  /** One turn of the character loop; next is the following character, if it has been read. */
  function Step(st: St, c: char, next: Option<char>, ev: seq<Event>, hear: Listener): (r: Turn)
    ensures r.Next? ==> st.pos < r.st.pos
  {
    if c == '\n' then Newline(st, ev, hear)
    else if st.ignoring then
      if st.inQuote then InQuote(st, c, next, ev)
      else if st.ml then InComment(st, c, next, ev)
      else Next(Consume(st, c), ev)
    else if IsWhitespace(c) then Blank(st, c, ev)
    else if c == ';' then Comment(st, c, st.ml, ev)
    else if c == '/' then Slash(st, next, ev)
    else if c == '{' then OpenSection(st, ev, hear)
    else if c == '}' then CloseSection(st, ev, hear)
    else if c == '\"' then OpenQuote(st, ev)
    else Plain(st, c, ev)
  }

  datatype Outcome = Outcome(err: SMCError, ev: seq<Event>)

  /** The end of the text. */
  function Finish(st: St, ev: seq<Event>): Outcome {
    if st.level != 0 then Fail(InvalidSection5, ev)
    else if st.t0.Some? || st.t1.Some? then Fail(InvalidTokens, ev)
    else Outcome(Okay, ev + [ParseEnd(false, false)])
  }

  function Fail(err: SMCError, ev: seq<Event>): Outcome {
    Outcome(err, ev + [ParseEnd(true, err.Custom?)])
  }

  function At(text: string, p: nat): Option<char> {
    if p < |text| then Some(text[p]) else None
  }

  function Left(text: string, pos: nat): nat {
    if pos < |text| then |text| - pos else 0
  }

  function Run(text: string, st: St, ev: seq<Event>, hear: Listener): Outcome
    decreases 2 * Left(text, st.pos)
  {
    if st.pos >= |text| then Finish(st, ev)
    else After(text, Step(st, text[st.pos], At(text, st.pos + 1), ev, hear), ev, hear)
  }

  /** The rest of the run after a turn. */
  function After(text: string, r: Turn, ev: seq<Event>, hear: Listener): Outcome
    decreases if r.Next? then 2 * Left(text, r.st.pos) + 1 else 0
  {
    match r
    case Next(st', ev') => Run(text, st', ev', hear)
    case Wait(st') => Finish(st', ev)
    case Stop(err, ev') => Fail(err, ev')
  }

  /** The whole parse. */
  function Parse(text: string, hear: Listener): Outcome {
    Run(text, START, [ParseStart], hear)
  }
}
