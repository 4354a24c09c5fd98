/** Printing a forest of sections and pairs in the layout of AdminCache::DumpCache, quoted and
    escaped, and parsing it back; also with names, keys and values that are not quoted, and with comments. */
module SmcRoundTrip {
  import opened SmcMachine

  datatype Node =
    | Section(name: string, children: seq<Node>)
    | Pair(key: string, value: string)
    | Bare(name: string, children: seq<Node>)
    | Loose(key: string, value: string, quoted: bool)
    | Remark(words: string)
    | Note(mark: string, words: string)
    | Gap

  // ----- printing -----

  function Glyph(c: char): string {
    if c == '\\' then "\\\\" else if c == '\"' then "\\\"" else if c == '\n' then "\\n" else [c]
  }

  function Escape(s: string): string {
    if s == "" then "" else Glyph(s[0]) + Escape(s[1..])
  }

  function Quote(s: string): string {
    "\"" + Escape(s) + "\""
  }

  function Tabs(n: nat): string {
    if n == 0 then "" else "\t" + Tabs(n - 1)
  }

  function NameLine(name: string, depth: nat): string {
    Tabs(depth) + (Quote(name) + "\n")
  }

  function BraceLine(brace: string, depth: nat): string {
    Tabs(depth) + (brace + "\n")
  }

  function KeyPart(key: string, depth: nat): string {
    Tabs(depth) + (Quote(key) + Tabs(2))
  }

  /** Names and keys may stand without quotes. */
  function BareLine(name: string, depth: nat): string {
    Tabs(depth) + (name + "\n")
  }

  function HeadLine(name: string, bare: bool, depth: nat): string {
    if bare then BareLine(name, depth) else NameLine(name, depth)
  }

  function LooseKey(key: string, depth: nat): string {
    Tabs(depth) + (key + Tabs(2))
  }

  function LooseValue(value: string, quoted: bool): string {
    (if quoted then Quote(value) else value) + "\n"
  }

  function NoteLine(mark: string, words: string, depth: nat): string {
    Tabs(depth) + ((mark + words) + "\n")
  }

  function RemarkLine(words: string, depth: nat): string {
    Tabs(depth) + (("/*" + (words + "*/")) + "\n")
  }

  function Print(n: Node, depth: nat): string
    decreases n, 1
  {
    match n
    case Section(name, children) =>
      NameLine(name, depth) + (BraceLine("{", depth) + (PrintAll(children, depth + 1) + BraceLine("}", depth)))
    case Pair(key, value) => KeyPart(key, depth) + (Quote(value) + "\n")
    case Bare(name, children) =>
      BareLine(name, depth) + (BraceLine("{", depth) + (PrintAll(children, depth + 1) + BraceLine("}", depth)))
    case Loose(key, value, quoted) => LooseKey(key, depth) + LooseValue(value, quoted)
    case Remark(words) => RemarkLine(words, depth)
    case Note(mark, words) => NoteLine(mark, words, depth)
    case Gap => "\n"
  }

  function PrintAll(ns: seq<Node>, depth: nat): string
    decreases ns, 0
  {
    if ns == [] then "" else Print(ns[0], depth) + PrintAll(ns[1..], depth)
  }

  // ----- what the listener should hear -----

  datatype Call = Opened(name: Option<string>) | Paired(key: Option<string>, value: Option<string>) | Closed

  function PreOrder(n: Node): seq<Call>
    decreases n, 1
  {
    match n
    case Section(name, children) => [Opened(Some(name))] + PreOrderAll(children) + [Closed]
    case Pair(key, value) => [Paired(Some(key), Some(value))]
    case Bare(name, children) => [Opened(Some(name))] + PreOrderAll(children) + [Closed]
    case Loose(key, value, _) => [Paired(Some(key), Some(value))]
    case Remark(_) => []
    case Note(_, _) => []
    case Gap => []
  }

  function PreOrderAll(ns: seq<Node>): seq<Call>
    decreases ns, 0
  {
    if ns == [] then [] else PreOrder(ns[0]) + PreOrderAll(ns[1..])
  }

  /** The callbacks about sections and pairs, without positions. */
  function Calls(ev: seq<Event>): seq<Call> {
    if ev == [] then []
    else
      Calls(ev[..|ev| - 1]) +
        match ev[|ev| - 1]
        case NewSection(_, name) => [Opened(name)]
        case KeyValue(_, key, value) => [Paired(key, value)]
        case LeavingSection(_) => [Closed]
        case _ => []
  }

  lemma CallsAdd(ev: seq<Event>, e: Event)
    ensures Calls(ev + [e]) == Calls(ev) +
      match e
      case NewSection(_, name) => [Opened(name)]
      case KeyValue(_, key, value) => [Paired(key, value)]
      case LeavingSection(_) => [Closed]
      case _ => []
  {
    assert (ev + [e])[..|ev + [e]| - 1] == ev;
  }

  // ----- the strings that survive -----

  /** No zero character, and no backslash at the end. */
  predicate Printable(s: string) {
    '\0' !in s && (s == "" || s[|s| - 1] != '\\')
  }

  /** A comment's words do not close the comment; they may run over many lines. */
  predicate Wordy(s: string) {
    && (s != "" ==> s[0] != '/')
    && (forall i :: 0 <= i < |s| - 1 && s[i] == '*' ==> s[i + 1] != '/')
  }

  predicate AllPlain(s: string) {
    forall k {:trigger s[k]} :: 0 <= k < |s| ==>
      !IsWhitespace(s[k]) && s[k] != ';' && s[k] != '/' && s[k] != '{' && s[k] != '}' && s[k] != '\"' && s[k] != '\0'
  }

  /** A word can stand without quotes. */
  predicate Word(s: string) {
    s != "" && AllPlain(s)
  }

  /** Strings are printable, words without quotes are words, and pairs stand inside sections. */
  predicate Well(n: Node, depth: nat)
    decreases n, 1
  {
    match n
    case Section(name, children) => Printable(name) && WellAll(children, depth + 1)
    case Pair(key, value) => depth > 0 && Printable(key) && Printable(value)
    case Bare(name, children) => Word(name) && WellAll(children, depth + 1)
    case Loose(key, value, quoted) => depth > 0 && Word(key) && (if quoted then Printable(value) else Word(value))
    case Remark(words) => Wordy(words)
    case Note(mark, words) => (mark == ";" || mark == "//") && '\n' !in words
    case Gap => true
  }

  predicate WellAll(ns: seq<Node>, depth: nat)
    decreases ns, 0
  {
    ns == [] || (Well(ns[0], depth) && WellAll(ns[1..], depth))
  }

  lemma UnescapeGlyph(c: char, w: string)
    ensures Unescape(Glyph(c) + w) == [c] + Unescape(w)
  {
    assert (Glyph(c) + w)[|Glyph(c)|..] == w;
  }

  /** What a backslash and the character after it come to; an unknown one keeps its backslash, and so does one at
      the end. */
  lemma UnescapePair(c: char, w: string)
    ensures Unescape(['\\', 'n'] + w) == ['\n'] + Unescape(w)
    ensures Unescape(['\\', 't'] + w) == ['\t'] + Unescape(w)
    ensures Unescape(['\\', 'r'] + w) == ['\r'] + Unescape(w)
    ensures c == '\\' || c == '\"' ==> Unescape(['\\', c] + w) == [c] + Unescape(w)
    ensures c !in "ntr\\\"" ==> Unescape(['\\', c] + w) == ['\\'] + Unescape([c] + w)
    ensures Unescape("\\") == "\\"
  {
    assert (['\\', 'n'] + w)[2..] == w && (['\\', 't'] + w)[2..] == w && (['\\', 'r'] + w)[2..] == w;
    var b := ['\\', c] + w;
    assert b[2..] == w && b[1..] == [c] + w;
    if c !in "ntr\\\"" {
      var known := "ntr\\\"";
      assert known[0] == 'n' && known[1] == 't' && known[2] == 'r' && known[3] == '\\' && known[4] == '\"';
    }
  }

  lemma {:induction false} UnescapeEscape(s: string)
    ensures Unescape(Escape(s)) == s
  {
    if s != "" {
      UnescapeEscape(s[1..]);
      UnescapeGlyph(s[0], Escape(s[1..]));
    }
  }

  lemma {:induction false} CStrAll(s: string)
    requires '\0' !in s
    ensures CStr(s) == s
  {
    if s != "" { CStrAll(s[1..]); }
  }

  lemma {:induction false} EscapePlain(s: string)
    ensures '\\' !in Escape(s) ==> Escape(s) == s
    ensures '\\' in Escape(s) ==> |Escape(s)| >= 2
  {
    if s != "" {
      EscapePlain(s[1..]);
      assert Glyph(s[0]) == [s[0]] || '\\' in Escape(s);
    }
  }

  lemma {:induction false} EscapeLast(s: string)
    ensures |Escape(s)| >= |s|
    ensures s != "" ==> (Escape(s)[|Escape(s)| - 1] == '\\' <==> s[|s| - 1] == '\\')
  {
    if |s| > 1 {
      EscapeLast(s[1..]);
      var g, r := Glyph(s[0]), Escape(s[1..]);
      assert (g + r)[|g + r| - 1] == r[|r| - 1];
    } else if |s| == 1 {
      assert Escape(s) == Glyph(s[0]);
    }
  }

  // ----- the machine on printed text -----

  const YES: Listener := ev => Continue

  /** A relation between where a parse stands and where it comes to. The lemmas about printed text use
      that it is reflexive and transitive and holds of every turn that asks nothing of the listener. */
  type Flow = (St, seq<Event>, St, seq<Event>) -> bool

  predicate Turned(st: St, ev: seq<Event>) { true }

  ghost predicate Lawful(text: string, flow: Flow) {
    && (forall st: St, ev: seq<Event> {:trigger flow(st, ev, st, ev)} :: flow(st, ev, st, ev))
    && (forall a: St, e: seq<Event>, b: St, f: seq<Event>, c: St, g: seq<Event>
          {:trigger flow(a, e, b, f), flow(b, f, c, g)} ::
          flow(a, e, b, f) && flow(b, f, c, g) ==> flow(a, e, c, g))
    && (forall st: St, ev: seq<Event> {:trigger Turned(st, ev)} :: Turned(st, ev) && st.pos < |text| ==>
          var r := Step(st, text[st.pos], At(text, st.pos + 1), ev, YES);
          r.Next? ==> flow(st, ev, r.st, r.ev))
  }

  /** What the rest of the parse comes to stays the same. */
  function SameRun(text: string): Flow {
    (st: St, ev: seq<Event>, st2: St, ev2: seq<Event>) => Run(text, st, ev, YES) == Run(text, st2, ev2, YES)
  }

  lemma RunLawful(text: string)
    ensures Lawful(text, SameRun(text))
  {
    forall st: St, ev: seq<Event> {:trigger Turned(st, ev)} | st.pos < |text|
      ensures Turned(st, ev)
      ensures var r := Step(st, text[st.pos], At(text, st.pos + 1), ev, YES);
        r.Next? ==> SameRun(text)(st, ev, r.st, r.ev)
    {
      TurnRuns(text, st, ev, Step(st, text[st.pos], At(text, st.pos + 1), ev, YES));
    }
  }

  lemma TurnRuns(text: string, st: St, ev: seq<Event>, r: Turn)
    requires st.pos < |text| && r == Step(st, text[st.pos], At(text, st.pos + 1), ev, YES)
    ensures r.Next? ==> Run(text, st, ev, YES) == Run(text, r.st, r.ev, YES)
  {
    assert Run(text, st, ev, YES) == After(text, r, ev, YES);
  }

  lemma FlowBoth(text: string, flow: Flow, a: St, e: seq<Event>, b: St, f: seq<Event>, c: St, g: seq<Event>)
    requires Lawful(text, flow) && flow(a, e, b, f) && flow(b, f, c, g)
    ensures flow(a, e, c, g)
  {
  }

  ghost predicate Here(text: string, p: nat, piece: string) {
    p + |piece| <= |text| && text[p..p + |piece|] == piece
  }

  lemma HereSplit(text: string, p: nat, a: string, b: string)
    requires Here(text, p, a + b)
    ensures Here(text, p, a) && Here(text, p + |a|, b)
  {
    var t := text[p..p + |a + b|];
    assert t[..|a|] == a && t[|a|..] == b;
  }

  lemma HereChar(text: string, p: nat, c: char)
    requires Here(text, p, [c])
    ensures p < |text| && text[p] == c
  {
    assert text[p..p + 1][0] == c;
  }

  lemma OneTurn(text: string, flow: Flow, st: St, ev: seq<Event>, r: Turn)
    requires Lawful(text, flow)
    requires st.pos < |text| && r == Step(st, text[st.pos], At(text, st.pos + 1), ev, YES) && r.Next?
    ensures flow(st, ev, r.st, r.ev)
  {
    assert Turned(st, ev);
  }

  /** The parts of the state that printing does not steer: what the line shows, and the column. */
  ghost predicate Moved(st: St, st2: St, n: nat) {
    st2 == st.(pos := st.pos + n, line := st2.line, at := st2.at)
  }

  lemma {:induction false} OverTabs(text: string, flow: Flow, st: St, ev: seq<Event>, n: nat) returns (st2: St)
    requires Lawful(text, flow)
    requires !st.ignoring && st.t0.None? && Here(text, st.pos, Tabs(n))
    ensures Moved(st, st2, |Tabs(n)|) && flow(st, ev, st2, ev)
    decreases n
  {
    st2 := st;
    if n > 0 {
      HereSplit(text, st.pos, "\t", Tabs(n - 1));
      HereChar(text, st.pos, '\t');
      OneTurn(text, flow, st, ev, Next(Consume(st, '\t'), ev));
      st2 := OverTabs(text, flow, Consume(st, '\t'), ev, n - 1);
    }
  }

  /** A character inside quotes that neither ends the string nor the text. */
  lemma StringChar(text: string, flow: Flow, st: St, ev: seq<Event>, c: char) returns (st2: St)
    requires Lawful(text, flow)
    requires st.ignoring && st.inQuote && st.t0.Some? && st.t0.value.raw != ""
    requires st.pos + 1 < |text| && text[st.pos] == c && c != '\n'
    requires c == '\"' ==> st.t0.value.raw[|st.t0.value.raw| - 1] == '\\'
    ensures var t := st.t0.value;
      && st2.t0 == Some(t.(raw := t.raw + [c], special := t.special || c == '\\'))
      && Moved(st.(t0 := st2.t0), st2, 1) && flow(st, ev, st2, ev)
  {
    var r := InQuote(st, c, At(text, st.pos + 1), ev);
    OneTurn(text, flow, st, ev, r);
    st2 := r.st;
  }

  function Grown(t: Token, b: string): Token {
    t.(raw := t.raw + b, special := t.special || '\\' in b)
  }

  lemma OverGlyph(text: string, flow: Flow, st: St, ev: seq<Event>, c: char) returns (st2: St)
    requires Lawful(text, flow)
    requires st.ignoring && st.inQuote && st.t0.Some? && st.t0.value.raw != ""
    requires Here(text, st.pos, Glyph(c)) && st.pos + |Glyph(c)| < |text|
    ensures st2.t0 == Some(Grown(st.t0.value, Glyph(c)))
    ensures Moved(st.(t0 := st2.t0), st2, |Glyph(c)|) && flow(st, ev, st2, ev)
  {
    var g := Glyph(c);
    assert text[st.pos] == text[st.pos..st.pos + |g|][0] == g[0];
    st2 := StringChar(text, flow, st, ev, g[0]);
    if |g| == 2 {
      assert text[st.pos + 1] == text[st.pos..st.pos + |g|][1] == g[1];
      var mid := st2;
      st2 := StringChar(text, flow, mid, ev, g[1]);
      assert (st.t0.value.raw + [g[0]]) + [g[1]] == st.t0.value.raw + g;
    } else {
      assert [g[0]] == g;
    }
  }

  lemma GrownTwice(t: Token, a: string, b: string)
    ensures Grown(Grown(t, a), b) == Grown(t, a + b)
  {
    assert t.raw + (a + b) == (t.raw + a) + b;
  }

  lemma {:induction false} StringBody(text: string, flow: Flow, st: St, ev: seq<Event>, s: string) returns (st2: St)
    requires Lawful(text, flow)
    requires st.ignoring && st.inQuote && st.t0.Some? && st.t0.value.raw != ""
    requires Here(text, st.pos, Escape(s)) && st.pos + |Escape(s)| < |text|
    ensures st2.t0 == Some(Grown(st.t0.value, Escape(s)))
    ensures Moved(st.(t0 := st2.t0), st2, |Escape(s)|) && flow(st, ev, st2, ev)
    decreases |s|
  {
    st2 := st;
    if s == "" {
      assert st.t0.value.raw + "" == st.t0.value.raw;
    } else {
      HereSplit(text, st.pos, Glyph(s[0]), Escape(s[1..]));
      var mid := OverGlyph(text, flow, st, ev, s[0]);
      st2 := StringBody(text, flow, mid, ev, s[1..]);
      GrownTwice(st.t0.value, Glyph(s[0]), Escape(s[1..]));
    }
  }

  lemma OverOpening(text: string, flow: Flow, st: St, ev: seq<Event>) returns (st2: St)
    requires Lawful(text, flow)
    requires !st.ignoring && st.t0.None? && st.pos < |text| && text[st.pos] == '\"'
    ensures st2.t0 == Some(Token(st.pos, "\"", false, false, false)) && flow(st, ev, st2, ev)
    ensures Moved(st.(t0 := st2.t0, inQuote := true, ignoring := true), st2, 1)
  {
    var r := OpenQuote(st, ev);
    OneTurn(text, flow, st, ev, r);
    st2 := r.st;
    assert "" + ['\"'] == "\"";
  }

  lemma OverClosing(text: string, flow: Flow, st: St, ev: seq<Event>) returns (st2: St)
    requires Lawful(text, flow)
    requires st.ignoring && st.inQuote && st.t0.Some? && st.t2.None? && st.pos < |text| && text[st.pos] == '\"'
    requires var raw := st.t0.value.raw; raw != "" && raw[|raw| - 1] != '\\'
    ensures flow(st, ev, st2, ev)
    ensures var t := st.t0.value.(quoted := true, closed := true);
      Moved(st.(t0 := None, t1 := Some(t), t2 := st.t1, inQuote := false, ignoring := false), st2, 1)
  {
    var r := InQuote(st, '\"', At(text, st.pos + 1), ev);
    OneTurn(text, flow, st, ev, r);
    st2 := r.st;
  }

  /** The token a printed string is read back as. */
  ghost predicate Printed(t: Token, s: string) {
    t == Token(t.start, "\"" + Escape(s), true, '\\' in Escape(s), true)
  }

  /** The opening quote and what follows it. */
  lemma OverBody(text: string, flow: Flow, st: St, ev: seq<Event>, s: string) returns (st2: St)
    requires Lawful(text, flow)
    requires !st.ignoring && !st.inQuote && st.t0.None? && Here(text, st.pos, "\"" + Escape(s))
    requires st.pos + 1 + |Escape(s)| < |text|
    ensures st2.t0 == Some(Token(st.pos, "\"" + Escape(s), false, '\\' in Escape(s), false))
    ensures Moved(st.(t0 := st2.t0, inQuote := true, ignoring := true), st2, 1 + |Escape(s)|)
    ensures flow(st, ev, st2, ev)
  {
    HereSplit(text, st.pos, "\"", Escape(s));
    HereChar(text, st.pos, '\"');
    var a := OverOpening(text, flow, st, ev);
    st2 := StringBody(text, flow, a, ev, s);
  }

  /** A printed string that does not end in a backslash is read back. */
  lemma OverQuoted(text: string, flow: Flow, st: St, ev: seq<Event>, s: string) returns (st2: St)
    requires Lawful(text, flow)
    requires !st.ignoring && !st.inQuote && st.t0.None? && st.t2.None? && (s == "" || s[|s| - 1] != '\\')
    requires Here(text, st.pos, Quote(s))
    ensures st2.t1.Some? && Printed(st2.t1.value, s) && st2.t1.value.start == st.pos
    ensures Moved(st.(t1 := st2.t1, t2 := st.t1), st2, |Quote(s)|) && flow(st, ev, st2, ev)
  {
    hide Step, Lawful;
    HereSplit(text, st.pos, "\"" + Escape(s), "\"");
    HereChar(text, st.pos + 1 + |Escape(s)|, '\"');
    var b := OverBody(text, flow, st, ev, s);
    EscapeLast(s);
    st2 := OverClosing(text, flow, b, ev);
    FlowBoth(text, flow, st, ev, b, ev, st2, ev);
  }

  /** It hands over the string, up to its first zero character. */
  lemma PrintedPayload(t: Token, s: string)
    requires Printed(t, s)
    ensures Payload(t) == Some(CStr(s))
    ensures '\0' !in s ==> Payload(t) == Some(s)
  {
    assert t.Body() == Escape(s);
    EscapePlain(s);
    UnescapeEscape(s);
    if '\0' !in s { CStrAll(s); }
  }

  /** Between tokens: nothing is being read, and these strings are staged. */
  ghost predicate Ready(st: St, pos: nat, level: nat, t1: Option<Token>, t2: Option<Token>) {
    st == st.(pos := pos, level := level, t0 := None, t1 := t1, t2 := t2, inQuote := false, ignoring := false,
          ml := false)
  }

  lemma OverNewline(text: string, flow: Flow, st: St, ev: seq<Event>, level: nat, t1: Option<Token>)
    returns (st2: St, ev2: seq<Event>)
    requires Lawful(text, flow) && Ready(st, st.pos, level, t1, None) && Here(text, st.pos, "\n")
    ensures Ready(st2, st.pos + 1, level, t1, None) && flow(st, ev, st2, ev2) && Calls(ev2) == Calls(ev)
    ensures st2.bol == st2.pos
  {
    HereChar(text, st.pos, '\n');
    var r := Newline(st, ev, YES);
    OneTurn(text, flow, st, ev, r);
    st2, ev2 := r.st, r.ev;
    CallsAdd(ev, RawLine(st.at, CStr(st.line)));
  }

  lemma OverPairEnd(text: string, flow: Flow, st: St, ev: seq<Event>, level: nat, key: Token, value: Token)
    returns (st2: St, ev2: seq<Event>)
    requires Lawful(text, flow) && Ready(st, st.pos, level, Some(value), Some(key)) && Here(text, st.pos, "\n")
    requires level > 0 && value.quoted
    ensures Ready(st2, st.pos + 1, level, None, None) && flow(st, ev, st2, ev2) && st2.bol == st2.pos
    ensures Calls(ev2) == Calls(ev) + [Paired(Payload(key), Payload(value))]
  {
    HereChar(text, st.pos, '\n');
    var r := Newline(st, ev, YES);
    OneTurn(text, flow, st, ev, r);
    st2, ev2 := r.st, r.ev;
    var e1 := RawLine(st.at, CStr(st.line));
    CallsAdd(ev, e1);
    CallsAdd(ev + [e1], KeyValue(st.at, Payload(key), PairValue(key, value)));
  }

  lemma OverOpen(text: string, flow: Flow, st: St, ev: seq<Event>, level: nat, t1: Token)
    returns (st2: St, ev2: seq<Event>)
    requires Lawful(text, flow) && Ready(st, st.pos, level, Some(t1), None) && Here(text, st.pos, "{")
    ensures Ready(st2, st.pos + 1, level + 1, None, None) && flow(st, ev, st2, ev2)
    ensures Calls(ev2) == Calls(ev) + [Opened(Payload(t1))]
  {
    HereChar(text, st.pos, '{');
    var r := OpenSection(st, ev, YES);
    OneTurn(text, flow, st, ev, r);
    st2, ev2 := r.st, r.ev;
    CallsAdd(ev, NewSection(st.at, Payload(t1)));
  }

  lemma OverClose(text: string, flow: Flow, st: St, ev: seq<Event>, level: nat)
    returns (st2: St, ev2: seq<Event>)
    requires Lawful(text, flow) && Ready(st, st.pos, level + 1, None, None) && Here(text, st.pos, "}")
    ensures Ready(st2, st.pos + 1, level, None, None) && flow(st, ev, st2, ev2)
    ensures Calls(ev2) == Calls(ev) + [Closed]
  {
    HereChar(text, st.pos, '}');
    var r := CloseSection(st, ev, YES);
    OneTurn(text, flow, st, ev, r);
    st2, ev2 := r.st, r.ev;
    CallsAdd(ev, LeavingSection(st.at));
  }

  ghost predicate Commenting(st: St, pos: nat, level: nat) {
    st == st.(pos := pos, level := level, t0 := None, t1 := None, t2 := None, inQuote := false, ignoring := true,
          ml := true)
  }

  /** One character of a comment; the end of a line is shown to the listener, and the comment goes on. */
  lemma OverWord(text: string, flow: Flow, st: St, ev: seq<Event>, level: nat) returns (st2: St, ev2: seq<Event>)
    requires Lawful(text, flow) && Commenting(st, st.pos, level) && st.pos + 1 < |text|
    requires text[st.pos] == '*' ==> text[st.pos + 1] != '/'
    ensures Commenting(st2, st.pos + 1, level) && flow(st, ev, st2, ev2) && Calls(ev2) == Calls(ev)
  {
    var r := Step(st, text[st.pos], At(text, st.pos + 1), ev, YES);
    OneTurn(text, flow, st, ev, r);
    st2, ev2 := r.st, r.ev;
    CallsAdd(ev, RawLine(st.at, CStr(st.line)));
  }

  lemma {:induction false} OverWords(text: string, flow: Flow, st: St, ev: seq<Event>, level: nat, words: string)
    returns (st2: St, ev2: seq<Event>)
    requires Lawful(text, flow) && Commenting(st, st.pos, level) && Here(text, st.pos, words + "*/")
    requires forall i :: 0 <= i < |words| - 1 && words[i] == '*' ==> words[i + 1] != '/'
    ensures Ready(st2, st.pos + |words| + 2, level, None, None) && flow(st, ev, st2, ev2) && Calls(ev2) == Calls(ev)
    decreases |words|
  {
    var all := words + "*/";
    assert text[st.pos] == text[st.pos..st.pos + |all|][0] == all[0];
    assert text[st.pos + 1] == text[st.pos..st.pos + |all|][1] == all[1];
    if words == "" {
      var r := InComment(st, '*', Some('/'), ev);
      OneTurn(text, flow, st, ev, r);
      st2, ev2 := r.st, ev;
    } else {
      hide Lawful, Calls;
      var a, e1 := OverWord(text, flow, st, ev, level);
      assert all[1..] == words[1..] + "*/";
      assert text[st.pos + 1..st.pos + |all|] == text[st.pos..st.pos + |all|][1..];
      st2, ev2 := OverWords(text, flow, a, e1, level, words[1..]);
      FlowBoth(text, flow, st, ev, a, e1, st2, ev2);
    }
  }

  /** A comment leads from between tokens to between tokens, whatever lines it has. */
  lemma OverRemark(text: string, flow: Flow, st: St, ev: seq<Event>, level: nat, words: string)
    returns (st2: St, ev2: seq<Event>)
    requires Lawful(text, flow) && Ready(st, st.pos, level, None, None) && Wordy(words)
    requires Here(text, st.pos, "/*" + (words + "*/"))
    ensures Ready(st2, st.pos + |words| + 4, level, None, None) && flow(st, ev, st2, ev2) && Calls(ev2) == Calls(ev)
  {
    HereSplit(text, st.pos, "/*", words + "*/");
    assert text[st.pos] == text[st.pos..st.pos + 2][0] && text[st.pos + 1] == text[st.pos..st.pos + 2][1];
    var all := words + "*/";
    assert text[st.pos + 2] == text[st.pos + 2..st.pos + 2 + |all|][0] == all[0];
    var r := Comment(st, '/', true, ev);
    OneTurn(text, flow, st, ev, r);
    var r2 := InComment(r.st, '*', At(text, r.st.pos + 1), ev);
    OneTurn(text, flow, r.st, ev, r2);
    st2, ev2 := OverWords(text, flow, r2.st, ev, level, words);
    FlowBoth(text, flow, st, ev, r.st, ev, r2.st, ev);
    FlowBoth(text, flow, st, ev, r2.st, ev, st2, ev2);
  }

  lemma OverNameLine(text: string, flow: Flow, st: St, ev: seq<Event>, level: nat, name: string)
    returns (st2: St, ev2: seq<Event>, t: Token)
    requires Lawful(text, flow) && Ready(st, st.pos, level, None, None) && (name == "" || name[|name| - 1] != '\\')
    requires Here(text, st.pos, NameLine(name, level))
    ensures Printed(t, name)
    ensures Ready(st2, st.pos + |NameLine(name, level)|, level, Some(t), None) && st2.bol == st2.pos
    ensures flow(st, ev, st2, ev2) && Calls(ev2) == Calls(ev)
  {
    hide Lawful, Step, Calls;
    HereSplit(text, st.pos, Tabs(level), Quote(name) + "\n");
    var a := OverTabs(text, flow, st, ev, level);
    HereSplit(text, a.pos, Quote(name), "\n");
    var b := OverQuoted(text, flow, a, ev, name);
    t := b.t1.value;
    st2, ev2 := OverNewline(text, flow, b, ev, level, b.t1);
    FlowBoth(text, flow, st, ev, a, ev, b, ev);
    FlowBoth(text, flow, st, ev, b, ev, st2, ev2);
  }

  lemma OverNamed(text: string, flow: Flow, st: St, ev: seq<Event>, level: nat, name: string)
    returns (st2: St, ev2: seq<Event>, t: Token)
    requires Lawful(text, flow) && Ready(st, st.pos, level, None, None) && Printable(name)
    requires Here(text, st.pos, NameLine(name, level))
    ensures Payload(t) == Some(name)
    ensures Ready(st2, st.pos + |NameLine(name, level)|, level, Some(t), None) && st2.bol == st2.pos
    ensures flow(st, ev, st2, ev2) && Calls(ev2) == Calls(ev)
  {
    st2, ev2, t := OverNameLine(text, flow, st, ev, level, name);
    PrintedPayload(t, name);
  }

  lemma OverOpenLine(text: string, flow: Flow, st: St, ev: seq<Event>, level: nat, t: Token)
    returns (st2: St, ev2: seq<Event>)
    requires Lawful(text, flow) && Ready(st, st.pos, level, Some(t), None)
    requires Here(text, st.pos, BraceLine("{", level))
    ensures Ready(st2, st.pos + |BraceLine("{", level)|, level + 1, None, None) && st2.bol == st2.pos
    ensures flow(st, ev, st2, ev2) && Calls(ev2) == Calls(ev) + [Opened(Payload(t))]
  {
    hide Lawful, Step, Calls;
    HereSplit(text, st.pos, Tabs(level), "{" + "\n");
    var a := OverTabs(text, flow, st, ev, level);
    HereSplit(text, a.pos, "{", "\n");
    var b, ev1 := OverOpen(text, flow, a, ev, level, t);
    st2, ev2 := OverNewline(text, flow, b, ev1, level + 1, None);
    FlowBoth(text, flow, st, ev, a, ev, b, ev1);
    FlowBoth(text, flow, st, ev, b, ev1, st2, ev2);
  }

  lemma OverCloseLine(text: string, flow: Flow, st: St, ev: seq<Event>, level: nat)
    returns (st2: St, ev2: seq<Event>)
    requires Lawful(text, flow) && Ready(st, st.pos, level + 1, None, None)
    requires Here(text, st.pos, BraceLine("}", level))
    ensures Ready(st2, st.pos + |BraceLine("}", level)|, level, None, None) && st2.bol == st2.pos
    ensures flow(st, ev, st2, ev2) && Calls(ev2) == Calls(ev) + [Closed]
  {
    hide Lawful, Step, Calls;
    HereSplit(text, st.pos, Tabs(level), "}" + "\n");
    var a := OverTabs(text, flow, st, ev, level);
    HereSplit(text, a.pos, "}", "\n");
    var b, ev1 := OverClose(text, flow, a, ev, level);
    st2, ev2 := OverNewline(text, flow, b, ev1, level, None);
    FlowBoth(text, flow, st, ev, a, ev, b, ev1);
    FlowBoth(text, flow, st, ev, b, ev1, st2, ev2);
  }

  lemma OverKey(text: string, flow: Flow, st: St, ev: seq<Event>, level: nat, key: string)
    returns (st2: St, t: Token)
    requires Lawful(text, flow) && Ready(st, st.pos, level, None, None) && Printable(key)
    requires Here(text, st.pos, KeyPart(key, level))
    ensures Printed(t, key)
    ensures Ready(st2, st.pos + |KeyPart(key, level)|, level, Some(t), None) && flow(st, ev, st2, ev)
  {
    hide Lawful, Step;
    HereSplit(text, st.pos, Tabs(level), Quote(key) + Tabs(2));
    var a := OverTabs(text, flow, st, ev, level);
    HereSplit(text, a.pos, Quote(key), Tabs(2));
    var b := OverQuoted(text, flow, a, ev, key);
    t := b.t1.value;
    st2 := OverTabs(text, flow, b, ev, 2);
    FlowBoth(text, flow, st, ev, a, ev, b, ev);
    FlowBoth(text, flow, st, ev, b, ev, st2, ev);
  }

  lemma OverPair(text: string, flow: Flow, st: St, ev: seq<Event>, level: nat, key: string, value: string)
    returns (st2: St, ev2: seq<Event>)
    requires Lawful(text, flow) && Ready(st, st.pos, level, None, None) && level > 0
    requires Printable(key) && Printable(value) && Here(text, st.pos, KeyPart(key, level) + (Quote(value) + "\n"))
    ensures Ready(st2, st.pos + |KeyPart(key, level) + (Quote(value) + "\n")|, level, None, None) && st2.bol == st2.pos
    ensures flow(st, ev, st2, ev2) && Calls(ev2) == Calls(ev) + [Paired(Some(key), Some(value))]
  {
    hide Lawful, Step, Calls;
    HereSplit(text, st.pos, KeyPart(key, level), Quote(value) + "\n");
    var a, t := OverKey(text, flow, st, ev, level, key);
    HereSplit(text, a.pos, Quote(value), "\n");
    var b := OverQuoted(text, flow, a, ev, value);
    PrintedPayload(t, key);
    PrintedPayload(b.t1.value, value);
    st2, ev2 := OverPairEnd(text, flow, b, ev, level, t, b.t1.value);
    FlowBoth(text, flow, st, ev, a, ev, b, ev);
    FlowBoth(text, flow, st, ev, b, ev, st2, ev2);
  }

  lemma OverRemarkLine(text: string, flow: Flow, st: St, ev: seq<Event>, level: nat, words: string)
    returns (st2: St, ev2: seq<Event>)
    requires Lawful(text, flow) && Ready(st, st.pos, level, None, None) && Wordy(words)
    requires Here(text, st.pos, RemarkLine(words, level))
    ensures Ready(st2, st.pos + |RemarkLine(words, level)|, level, None, None) && st2.bol == st2.pos
    ensures flow(st, ev, st2, ev2) && Calls(ev2) == Calls(ev)
  {
    hide Lawful, Step, Calls;
    HereSplit(text, st.pos, Tabs(level), ("/*" + (words + "*/")) + "\n");
    var a := OverTabs(text, flow, st, ev, level);
    HereSplit(text, a.pos, "/*" + (words + "*/"), "\n");
    var b, e1 := OverRemark(text, flow, a, ev, level, words);
    st2, ev2 := OverNewline(text, flow, b, e1, level, None);
    FlowBoth(text, flow, st, ev, a, ev, b, e1);
    FlowBoth(text, flow, st, ev, b, e1, st2, ev2);
  }

  // ----- words without quotes -----

  lemma {:induction false} OverMore(text: string, flow: Flow, st: St, ev: seq<Event>, s: string) returns (st2: St)
    requires Lawful(text, flow) && !st.ignoring && st.t0.Some? && AllPlain(s) && Here(text, st.pos, s)
    ensures st2.t0 == Some(st.t0.value.(raw := st.t0.value.raw + s))
    ensures Moved(st.(t0 := st2.t0), st2, |s|) && flow(st, ev, st2, ev)
    decreases |s|
  {
    st2 := st;
    if s == "" {
      assert st.t0.value.raw + "" == st.t0.value.raw;
    } else {
      assert [s[0]] + s[1..] == s;
      HereSplit(text, st.pos, [s[0]], s[1..]);
      HereChar(text, st.pos, s[0]);
        OneTurn(text, flow, st, ev, Next(Consume(st, s[0]), ev));
      st2 := OverMore(text, flow, Consume(st, s[0]), ev, s[1..]);
      assert (st.t0.value.raw + [s[0]]) + s[1..] == st.t0.value.raw + s;
    }
  }

  lemma OverWordText(text: string, flow: Flow, st: St, ev: seq<Event>, s: string) returns (st2: St)
    requires Lawful(text, flow) && !st.ignoring && st.t0.None? && Word(s) && Here(text, st.pos, s)
    ensures st2.t0 == Some(Token(st.pos, s, false, false, false))
    ensures Moved(st.(t0 := st2.t0), st2, |s|) && flow(st, ev, st2, ev)
  {
    assert [s[0]] + s[1..] == s;
    HereSplit(text, st.pos, [s[0]], s[1..]);
    HereChar(text, st.pos, s[0]);
    var r := Plain(st, s[0], ev);
    OneTurn(text, flow, st, ev, r);
    st2 := OverMore(text, flow, r.st, ev, s[1..]);
    assert ("" + [s[0]]) + s[1..] == s;
    FlowBoth(text, flow, st, ev, r.st, ev, st2, ev);
  }

  /** The token a word is read as. */
  ghost predicate Worded(t: Token, s: string, start: nat) { t == Token(start, s, false, false, true) }

  lemma WordedPayload(t: Token, s: string, start: nat)
    requires Worded(t, s, start) && Word(s)
    ensures Payload(t) == Some(s)
  {
    CStrAll(s);
  }

  /** The tab behind a word ends it. */
  lemma OverLooseKey(text: string, flow: Flow, st: St, ev: seq<Event>, level: nat, key: string)
    returns (st2: St, t: Token)
    requires Lawful(text, flow) && Ready(st, st.pos, level, None, None) && Word(key)
    requires Here(text, st.pos, LooseKey(key, level))
    ensures Payload(t) == Some(key) && t.closed && t.End() < st2.pos
    ensures Ready(st2, st.pos + |LooseKey(key, level)|, level, Some(t), None) && flow(st, ev, st2, ev)
  {
    hide Step, Lawful, Payload, Here, Word;
    HereSplit(text, st.pos, Tabs(level), key + Tabs(2));
    var a := OverTabs(text, flow, st, ev, level);
    HereSplit(text, a.pos, key, Tabs(2));
    st2, t := OverWordTabs(text, flow, a, ev, key);
    FlowBoth(text, flow, st, ev, a, ev, st2, ev);
  }

  lemma OverWordTabs(text: string, flow: Flow, st: St, ev: seq<Event>, key: string) returns (st2: St, t: Token)
    requires Lawful(text, flow) && !st.ignoring && st.t0.None? && st.t1.None? && st.t2.None? && Word(key)
    requires Here(text, st.pos, key) && Here(text, st.pos + |key|, Tabs(2))
    ensures Payload(t) == Some(key) && t.closed && t.End() < st2.pos
    ensures Moved(st.(t1 := Some(t)), st2, |key| + |Tabs(2)|) && flow(st, ev, st2, ev)
  {
    hide Step, Lawful, Payload;
    var b := OverWordText(text, flow, st, ev, key);
    assert Tabs(2) == "\t" + Tabs(1);
    HereSplit(text, b.pos, "\t", Tabs(1));
    HereChar(text, b.pos, '\t');
    var c;
    c, t := WordEnds(text, flow, b, ev);
    WordedPayload(t, key, st.pos);
    st2 := OverTabs(text, flow, c, ev, 1);
    FlowBoth(text, flow, st, ev, b, ev, c, ev);
    FlowBoth(text, flow, st, ev, c, ev, st2, ev);
  }

  lemma WordEnds(text: string, flow: Flow, st: St, ev: seq<Event>) returns (st2: St, t: Token)
    requires Lawful(text, flow) && !st.ignoring && st.t0.Some? && st.t1.None? && st.t2.None?
    requires st.pos < |text| && text[st.pos] == '\t'
    ensures t == st.t0.value.(closed := true)
    ensures Moved(st.(t0 := None, t1 := Some(t)), st2, 1) && flow(st, ev, st2, ev)
  {
    var r := Blank(st, '\t', ev);
    OneTurn(text, flow, st, ev, r);
    st2, t := r.st, r.st.t1.value;
  }

  /** A line that ends in a word: the word is the name of a section, or the value of a key. */
  lemma OverWordLine(text: string, flow: Flow, st: St, ev: seq<Event>, level: nat, key: Option<Token>)
    returns (st2: St, ev2: seq<Event>, t: Token)
    requires Lawful(text, flow) && st.t0.Some? && Here(text, st.pos, "\n") && (key.Some? ==> level > 0)
    requires Ready(st.(t0 := None), st.pos, level, key, None) && !st.t0.value.quoted
    requires key.Some? ==> key.value.End() < st.t0.value.start
    ensures t == st.t0.value.(closed := true) && flow(st, ev, st2, ev2) && st2.bol == st2.pos
    ensures Ready(st2, st.pos + 1, level, if key.Some? then None else Some(t), None)
    ensures Calls(ev2) == Calls(ev) + if key.Some? then [Paired(Payload(key.value), Payload(t))] else []
  {
    hide Payload;
    HereChar(text, st.pos, '\n');
    var r := Newline(st, ev, YES);
    OneTurn(text, flow, st, ev, r);
    st2, ev2, t := r.st, r.ev, st.t0.value.(closed := true);
    var e1 := RawLine(st.at, CStr(st.line));
    CallsAdd(ev, e1);
    if key.Some? {
      CallsAdd(ev + [e1], KeyValue(st.at, Payload(key.value), PairValue(key.value, t)));
    }
  }

  lemma OverBareLine(text: string, flow: Flow, st: St, ev: seq<Event>, level: nat, name: string)
    returns (st2: St, ev2: seq<Event>, t: Token)
    requires Lawful(text, flow) && Ready(st, st.pos, level, None, None) && Word(name)
    requires Here(text, st.pos, BareLine(name, level))
    ensures Payload(t) == Some(name)
    ensures Ready(st2, st.pos + |BareLine(name, level)|, level, Some(t), None) && st2.bol == st2.pos
    ensures flow(st, ev, st2, ev2) && Calls(ev2) == Calls(ev)
  {
    hide Lawful, Step, Calls, Payload;
    HereSplit(text, st.pos, Tabs(level), name + "\n");
    var a := OverTabs(text, flow, st, ev, level);
    HereSplit(text, a.pos, name, "\n");
    var b := OverWordText(text, flow, a, ev, name);
    st2, ev2, t := OverWordLine(text, flow, b, ev, level, None);
    WordedPayload(t, name, a.pos);
    FlowBoth(text, flow, st, ev, a, ev, b, ev);
    FlowBoth(text, flow, st, ev, b, ev, st2, ev2);
  }

  lemma OverBareValue(text: string, flow: Flow, st: St, ev: seq<Event>, level: nat, key: Token, value: string)
    returns (st2: St, ev2: seq<Event>)
    requires Lawful(text, flow) && Ready(st, st.pos, level, Some(key), None) && level > 0 && key.End() < st.pos
    requires Word(value) && Here(text, st.pos, value + "\n")
    ensures Ready(st2, st.pos + |value| + 1, level, None, None) && st2.bol == st2.pos
    ensures flow(st, ev, st2, ev2) && Calls(ev2) == Calls(ev) + [Paired(Payload(key), Some(value))]
  {
    hide Lawful, Step, Calls, Payload, Here, Word;
    HereSplit(text, st.pos, value, "\n");
    var b := OverWordText(text, flow, st, ev, value);
    var v: Token;
    st2, ev2, v := OverWordLine(text, flow, b, ev, level, Some(key));
    WordedPayload(v, value, st.pos);
    FlowBoth(text, flow, st, ev, b, ev, st2, ev2);
  }

  lemma OverQuotedValue(text: string, flow: Flow, st: St, ev: seq<Event>, level: nat, key: Token, value: string)
    returns (st2: St, ev2: seq<Event>)
    requires Lawful(text, flow) && Ready(st, st.pos, level, Some(key), None) && level > 0
    requires Printable(value) && Here(text, st.pos, Quote(value) + "\n")
    ensures Ready(st2, st.pos + |Quote(value)| + 1, level, None, None) && st2.bol == st2.pos
    ensures flow(st, ev, st2, ev2) && Calls(ev2) == Calls(ev) + [Paired(Payload(key), Some(value))]
  {
    hide Lawful, Step, Calls, Payload, Here, Quote;
    HereSplit(text, st.pos, Quote(value), "\n");
    var b := OverQuoted(text, flow, st, ev, value);
    PrintedPayload(b.t1.value, value);
    st2, ev2 := OverPairEnd(text, flow, b, ev, level, key, b.t1.value);
    FlowBoth(text, flow, st, ev, b, ev, st2, ev2);
  }

  /** The value of a key, with or without quotes, to the end of its line. */
  lemma OverLooseValue(text: string, flow: Flow, st: St, ev: seq<Event>, level: nat, key: Token, value: string,
      quoted: bool)
    returns (st2: St, ev2: seq<Event>)
    requires Lawful(text, flow) && Ready(st, st.pos, level, Some(key), None) && level > 0 && key.End() < st.pos
    requires (if quoted then Printable(value) else Word(value)) && Here(text, st.pos, LooseValue(value, quoted))
    ensures Ready(st2, st.pos + |LooseValue(value, quoted)|, level, None, None) && st2.bol == st2.pos
    ensures flow(st, ev, st2, ev2) && Calls(ev2) == Calls(ev) + [Paired(Payload(key), Some(value))]
  {
    hide Lawful, Calls, Payload, Here, Quote, Word, Printable;
    if quoted { st2, ev2 := OverQuotedValue(text, flow, st, ev, level, key, value); }
    else { st2, ev2 := OverBareValue(text, flow, st, ev, level, key, value); }
  }

  lemma OverLoose(text: string, flow: Flow, st: St, ev: seq<Event>, level: nat, key: string, value: string,
      quoted: bool)
    returns (st2: St, ev2: seq<Event>)
    requires Lawful(text, flow) && Ready(st, st.pos, level, None, None) && level > 0
    requires Word(key) && (if quoted then Printable(value) else Word(value))
    requires Here(text, st.pos, LooseKey(key, level) + LooseValue(value, quoted))
    ensures Ready(st2, st.pos + |LooseKey(key, level) + LooseValue(value, quoted)|, level, None, None)
    ensures st2.bol == st2.pos
    ensures flow(st, ev, st2, ev2) && Calls(ev2) == Calls(ev) + [Paired(Some(key), Some(value))]
  {
    hide Lawful, Step, Calls, Payload, Here, LooseKey, LooseValue;
    HereSplit(text, st.pos, LooseKey(key, level), LooseValue(value, quoted));
    var a, t := OverLooseKey(text, flow, st, ev, level, key);
    st2, ev2 := OverLooseValue(text, flow, a, ev, level, t, value, quoted);
    FlowBoth(text, flow, st, ev, a, ev, st2, ev2);
  }

  // ----- comments to the end of the line -----

  ghost predicate Noting(st: St, pos: nat, level: nat) {
    st == st.(pos := pos, level := level, t0 := None, t1 := None, t2 := None, inQuote := false, ignoring := true,
          ml := false)
  }

  lemma {:induction false} OverNoteWords(text: string, flow: Flow, st: St, ev: seq<Event>, level: nat, words: string)
    returns (st2: St)
    requires Lawful(text, flow) && Noting(st, st.pos, level) && Here(text, st.pos, words) && '\n' !in words
    ensures Noting(st2, st.pos + |words|, level) && flow(st, ev, st2, ev)
    decreases |words|
  {
    st2 := st;
    if words != "" {
      assert [words[0]] + words[1..] == words;
      HereSplit(text, st.pos, [words[0]], words[1..]);
      HereChar(text, st.pos, words[0]);
      OneTurn(text, flow, st, ev, Next(Consume(st, words[0]), ev));
      st2 := OverNoteWords(text, flow, Consume(st, words[0]), ev, level, words[1..]);
    }
  }

  lemma OverMark(text: string, flow: Flow, st: St, ev: seq<Event>, level: nat, mark: string) returns (st2: St)
    requires Lawful(text, flow) && Ready(st, st.pos, level, None, None) && (mark == ";" || mark == "//")
    requires Here(text, st.pos, mark)
    ensures Noting(st2, st.pos + |mark|, level) && flow(st, ev, st2, ev)
  {
    assert text[st.pos] == text[st.pos..st.pos + |mark|][0];
    var r := Comment(st, mark[0], false, ev);
    if mark == "//" { assert text[st.pos + 1] == text[st.pos..st.pos + |mark|][1]; }
    OneTurn(text, flow, st, ev, r);
    st2 := r.st;
    if mark == "//" {
      OneTurn(text, flow, st2, ev, Next(Consume(st2, '/'), ev));
      FlowBoth(text, flow, st, ev, st2, ev, Consume(st2, '/'), ev);
      st2 := Consume(st2, '/');
    }
  }

  lemma OverNoteEnd(text: string, flow: Flow, st: St, ev: seq<Event>, level: nat) returns (st2: St, ev2: seq<Event>)
    requires Lawful(text, flow) && Noting(st, st.pos, level) && Here(text, st.pos, "\n")
    ensures Ready(st2, st.pos + 1, level, None, None) && flow(st, ev, st2, ev2) && Calls(ev2) == Calls(ev)
    ensures st2.bol == st2.pos
  {
    HereChar(text, st.pos, '\n');
    var r := Newline(st, ev, YES);
    OneTurn(text, flow, st, ev, r);
    st2, ev2 := r.st, r.ev;
    CallsAdd(ev, RawLine(st.at, CStr(st.line)));
  }

  /** A comment with a semicolon or two slashes goes to the end of its line. */
  lemma OverNoteLine(text: string, flow: Flow, st: St, ev: seq<Event>, level: nat, mark: string, words: string)
    returns (st2: St, ev2: seq<Event>)
    requires Lawful(text, flow) && Ready(st, st.pos, level, None, None)
    requires (mark == ";" || mark == "//") && '\n' !in words && Here(text, st.pos, NoteLine(mark, words, level))
    ensures Ready(st2, st.pos + |NoteLine(mark, words, level)|, level, None, None) && st2.bol == st2.pos
    ensures flow(st, ev, st2, ev2) && Calls(ev2) == Calls(ev)
  {
    hide Lawful, Step, Calls;
    HereSplit(text, st.pos, Tabs(level), (mark + words) + "\n");
    var a := OverTabs(text, flow, st, ev, level);
    HereSplit(text, a.pos, mark + words, "\n");
    HereSplit(text, a.pos, mark, words);
    var b := OverMark(text, flow, a, ev, level, mark);
    var c := OverNoteWords(text, flow, b, ev, level, words);
    st2, ev2 := OverNoteEnd(text, flow, c, ev, level);
    FlowBoth(text, flow, st, ev, a, ev, b, ev);
    FlowBoth(text, flow, st, ev, b, ev, c, ev);
    FlowBoth(text, flow, st, ev, c, ev, st2, ev2);
  }

  // ----- whole forests -----

  /** The line with a section's name. */
  lemma OverHead(text: string, flow: Flow, st: St, ev: seq<Event>, level: nat, name: string, bare: bool)
    returns (st2: St, ev2: seq<Event>, t: Token)
    requires Lawful(text, flow) && Ready(st, st.pos, level, None, None)
    requires (if bare then Word(name) else Printable(name)) && Here(text, st.pos, HeadLine(name, bare, level))
    ensures Payload(t) == Some(name)
    ensures Ready(st2, st.pos + |HeadLine(name, bare, level)|, level, Some(t), None) && st2.bol == st2.pos
    ensures flow(st, ev, st2, ev2) && Calls(ev2) == Calls(ev)
  {
    hide Lawful, Step, Calls, Payload;
    if bare { st2, ev2, t := OverBareLine(text, flow, st, ev, level, name); }
    else { st2, ev2, t := OverNamed(text, flow, st, ev, level, name); }
  }

  lemma Assoc(a: seq<Call>, b: seq<Call>, c: seq<Call>)
    ensures (a + b) + c == a + (b + c)
  {
  }

  lemma OverSection(text: string, flow: Flow, st: St, ev: seq<Event>, name: string, bare: bool,
      children: seq<Node>, level: nat)
    returns (st2: St, ev2: seq<Event>)
    requires Lawful(text, flow) && Ready(st, st.pos, level, None, None)
    requires (if bare then Word(name) else Printable(name)) && WellAll(children, level + 1)
    requires var inner := PrintAll(children, level + 1) + BraceLine("}", level);
      Here(text, st.pos, HeadLine(name, bare, level) + (BraceLine("{", level) + inner))
    ensures var inner := PrintAll(children, level + 1) + BraceLine("}", level);
      var all := HeadLine(name, bare, level) + (BraceLine("{", level) + inner);
      Ready(st2, st.pos + |all|, level, None, None)
    ensures flow(st, ev, st2, ev2)
    ensures Calls(ev2) == ((Calls(ev) + [Opened(Some(name))]) + PreOrderAll(children)) + [Closed]
    decreases children, 2
  {
    hide Lawful, Calls, PrintAll, BraceLine, HeadLine;
    var inner, foot := PrintAll(children, level + 1), BraceLine("}", level);
    HereSplit(text, st.pos, HeadLine(name, bare, level), BraceLine("{", level) + (inner + foot));
    var a, e1, t := OverHead(text, flow, st, ev, level, name, bare);
    HereSplit(text, a.pos, BraceLine("{", level), inner + foot);
    var b, e2 := OverOpenLine(text, flow, a, e1, level, t);
    st2, ev2 := OverInside(text, flow, b, e2, children, level);
    FlowBoth(text, flow, st, ev, a, e1, b, e2);
    FlowBoth(text, flow, st, ev, b, e2, st2, ev2);
  }

  lemma OverInside(text: string, flow: Flow, st: St, ev: seq<Event>, children: seq<Node>, level: nat)
    returns (st2: St, ev2: seq<Event>)
    requires Lawful(text, flow) && Ready(st, st.pos, level + 1, None, None)
    requires WellAll(children, level + 1) && Here(text, st.pos, PrintAll(children, level + 1) + BraceLine("}", level))
    ensures Ready(st2, st.pos + |PrintAll(children, level + 1)| + |BraceLine("}", level)|, level, None, None)
    ensures flow(st, ev, st2, ev2)
    ensures Calls(ev2) == (Calls(ev) + PreOrderAll(children)) + [Closed]
    decreases children, 1
  {
    hide Lawful, Calls, PrintAll, BraceLine;
    HereSplit(text, st.pos, PrintAll(children, level + 1), BraceLine("}", level));
    var c, e3 := OverNodes(text, flow, st, ev, children, level + 1);
    st2, ev2 := OverCloseLine(text, flow, c, e3, level);
    FlowBoth(text, flow, st, ev, c, e3, st2, ev2);
  }

  lemma OverNode(text: string, flow: Flow, st: St, ev: seq<Event>, n: Node, level: nat)
    returns (st2: St, ev2: seq<Event>)
    requires Lawful(text, flow) && Ready(st, st.pos, level, None, None)
    requires Well(n, level) && Here(text, st.pos, Print(n, level))
    ensures Ready(st2, st.pos + |Print(n, level)|, level, None, None) && flow(st, ev, st2, ev2)
    ensures Calls(ev2) == Calls(ev) + PreOrder(n)
    decreases n, 3
  {
    hide Calls, Lawful;
    match n
    case Section(name, children) =>
      st2, ev2 := OverSection(text, flow, st, ev, name, false, children, level);
      Assoc(Calls(ev), [Opened(Some(name))], PreOrderAll(children));
      Assoc(Calls(ev), [Opened(Some(name))] + PreOrderAll(children), [Closed]);
    case Bare(name, children) =>
      st2, ev2 := OverSection(text, flow, st, ev, name, true, children, level);
      Assoc(Calls(ev), [Opened(Some(name))], PreOrderAll(children));
      Assoc(Calls(ev), [Opened(Some(name))] + PreOrderAll(children), [Closed]);
    case Loose(key, value, quoted) => st2, ev2 := OverLoose(text, flow, st, ev, level, key, value, quoted);
    case Note(mark, words) => st2, ev2 := OverNoteLine(text, flow, st, ev, level, mark, words);
    case Pair(key, value) => st2, ev2 := OverPair(text, flow, st, ev, level, key, value);
    case Remark(words) => st2, ev2 := OverRemarkLine(text, flow, st, ev, level, words);
    case Gap => st2, ev2 := OverNewline(text, flow, st, ev, level, None);
  }

  lemma OverNodes(text: string, flow: Flow, st: St, ev: seq<Event>, ns: seq<Node>, level: nat)
    returns (st2: St, ev2: seq<Event>)
    requires Lawful(text, flow) && Ready(st, st.pos, level, None, None)
    requires WellAll(ns, level) && Here(text, st.pos, PrintAll(ns, level))
    ensures Ready(st2, st.pos + |PrintAll(ns, level)|, level, None, None) && flow(st, ev, st2, ev2)
    ensures Calls(ev2) == Calls(ev) + PreOrderAll(ns)
    decreases ns, 0
  {
    hide Calls, Print, PreOrder;
    st2, ev2 := st, ev;
    if ns != [] {
      hide Lawful;
      HereSplit(text, st.pos, Print(ns[0], level), PrintAll(ns[1..], level));
      var a, e1 := OverNode(text, flow, st, ev, ns[0], level);
      st2, ev2 := OverNodes(text, flow, a, e1, ns[1..], level);
      FlowBoth(text, flow, st, ev, a, e1, st2, ev2);
      Assoc(Calls(ev), PreOrder(ns[0]), PreOrderAll(ns[1..]));
    }
  }

  /** Printing a forest and parsing it gives its pre-order calls, and no error. */
  lemma RoundTrip(forest: seq<Node>)
    requires WellAll(forest, 0)
    ensures var o := Parse(PrintAll(forest, 0), YES);
      o.err == Okay && Calls(o.ev) == PreOrderAll(forest)
  {
    hide Calls, Run, PrintAll, Lawful, Finish;
    var text := PrintAll(forest, 0);
    RunLawful(text);
    assert Here(text, 0, text);
    NoCalls();
    var st, ev := OverNodes(text, SameRun(text), START, [ParseStart], forest, 0);
    AllRead(text, st, ev);
    assert [] + PreOrderAll(forest) == PreOrderAll(forest);
  }

  lemma NoCalls()
    ensures Calls([ParseStart]) == []
  {
    assert [ParseStart] == [] + [ParseStart];
  }

  lemma AllRead(text: string, st: St, ev: seq<Event>)
    requires Ready(st, |text|, 0, None, None)
    ensures var o := Run(text, st, ev, YES); o.err == Okay && Calls(o.ev) == Calls(ev)
  {
    CallsAdd(ev, ParseEnd(false, false));
  }

  // ----- exactly which names survive -----

  ghost predicate Extends(ev: seq<Event>, ev2: seq<Event>) {
    |ev| <= |ev2| && ev2[..|ev|] == ev
  }

  ghost predicate TurnExtends(r: Turn, ev: seq<Event>) {
    match r
    case Next(_, ev2) => Extends(ev, ev2)
    case Wait(_) => true
    case Stop(_, ev2) => Extends(ev, ev2)
  }

  lemma LeaveExtends(st: St, ev: seq<Event>)
    requires st.level > 0
    ensures TurnExtends(Leave(st, ev, YES), ev)
  {
  }

  lemma CloseExtends(st: St, ev: seq<Event>)
    ensures TurnExtends(CloseSection(st, ev, YES), ev)
  {
    match Rotate(st)
    case None =>
    case Some(u) =>
      if u.level > 0 && u.t2.Some? && u.t1.Some? {
        LeaveExtends(HandOver(HandOver(u, u.t2.value), u.t1.value),
          ev + [KeyValue(u.at, Payload(u.t2.value), PairValue(u.t2.value, u.t1.value))]);
      }
  }

  lemma NewlineExtends(st: St, ev: seq<Event>)
    ensures TurnExtends(Newline(st, ev, YES), ev)
  {
  }

  lemma QuietExtends(st: St, c: char, next: Option<char>, ml: bool, ev: seq<Event>)
    ensures TurnExtends(InQuote(st, c, next, ev), ev) && TurnExtends(InComment(st, c, next, ev), ev)
    ensures TurnExtends(Comment(st, c, ml, ev), ev) && TurnExtends(Blank(st, c, ev), ev)
  {
  }

  lemma StepExtends(st: St, c: char, next: Option<char>, ev: seq<Event>)
    ensures TurnExtends(Step(st, c, next, ev, YES), ev)
  {
    hide Newline, CloseSection, InQuote, InComment, Comment, Blank, Consume;
    if c == '\n' {
      NewlineExtends(st, ev);
    } else if c == '}' && !st.ignoring {
      CloseExtends(st, ev);
    } else if c != '{' || st.ignoring {
      QuietExtends(st, c, next, st.ml, ev);
      QuietExtends(st, c, next, true, ev);
    }
  }

  lemma {:induction false} RunExtends(text: string, st: St, ev: seq<Event>)
    ensures Extends(ev, Run(text, st, ev, YES).ev)
    decreases 2 * Left(text, st.pos)
  {
    if st.pos < |text| {
      StepExtends(st, text[st.pos], At(text, st.pos + 1), ev);
      AfterExtends(text, Step(st, text[st.pos], At(text, st.pos + 1), ev, YES), ev);
    }
  }

  lemma {:induction false} AfterExtends(text: string, r: Turn, ev: seq<Event>)
    requires TurnExtends(r, ev)
    ensures Extends(ev, After(text, r, ev, YES).ev)
    decreases if r.Next? then 2 * Left(text, r.st.pos) + 1 else 0
  {
    if r.Next? { RunExtends(text, r.st, r.ev); }
  }

  lemma {:induction false} CallsExtend(ev: seq<Event>, ev2: seq<Event>)
    requires Extends(ev, ev2)
    ensures |Calls(ev)| <= |Calls(ev2)| && Calls(ev2)[..|Calls(ev)|] == Calls(ev)
    decreases |ev2|
  {
    if |ev2| > |ev| {
      var init := ev2[..|ev2| - 1];
      assert init[..|ev|] == ev;
      CallsExtend(ev, init);
      assert init + [ev2[|ev2| - 1]] == ev2;
    } else {
      assert ev2 == ev;
    }
  }

  /** A string that ends in a backslash is not closed by its quote. */
  lemma OverOpenString(text: string, flow: Flow, st: St, ev: seq<Event>, s: string) returns (st2: St)
    requires Lawful(text, flow) && !st.ignoring && !st.inQuote && st.t0.None? && s != "" && s[|s| - 1] == '\\'
    requires Here(text, st.pos, Quote(s)) && st.pos + |Quote(s)| < |text|
    ensures st2.t0 == Some(Token(st.pos, Quote(s), false, true, false))
    ensures Moved(st.(t0 := st2.t0, inQuote := true, ignoring := true), st2, |Quote(s)|) && flow(st, ev, st2, ev)
  {
    hide Escape, Step, Lawful;
    HereSplit(text, st.pos, "\"" + Escape(s), "\"");
    HereChar(text, st.pos + 1 + |Escape(s)|, '\"');
    var b := OverBody(text, flow, st, ev, s);
    EscapeLast(s);
    assert Escape(s)[|Escape(s)| - 1] in Escape(s);
    st2 := StringChar(text, flow, b, ev, '\"');
    FlowBoth(text, flow, st, ev, b, ev, st2, ev);
  }

  /** The newline ends it, unquoted. */
  lemma OverUnclosed(text: string, flow: Flow, st: St, ev: seq<Event>, s: string)
    returns (st2: St, ev2: seq<Event>, t: Token)
    requires Lawful(text, flow) && Ready(st, st.pos, 0, None, None) && s != "" && s[|s| - 1] == '\\'
    requires Here(text, st.pos, Quote(s) + "\n")
    ensures Ready(st2, st.pos + |Quote(s) + "\n"|, 0, Some(t), None)
    ensures flow(st, ev, st2, ev2) && Calls(ev2) == Calls(ev)
    ensures t.closed && !t.quoted && t.special && t.raw == Quote(s)
  {
    hide Quote, Step;
    HereSplit(text, st.pos, Quote(s), "\n");
    var c := OverOpenString(text, flow, st, ev, s);
    st2, ev2, t := OverBrokenLine(text, flow, c, ev);
  }

  /** A newline ends a string that its quote did not. */
  lemma OverBrokenLine(text: string, flow: Flow, st: St, ev: seq<Event>)
    returns (st2: St, ev2: seq<Event>, t: Token)
    requires Lawful(text, flow) && st.t0.Some? && st.t1.None? && st.t2.None? && st.level == 0
    requires st.inQuote && !st.ml && Here(text, st.pos, "\n")
    ensures Ready(st2, st.pos + 1, 0, Some(t), None)
    ensures flow(st, ev, st2, ev2) && Calls(ev2) == Calls(ev)
    ensures t == st.t0.value.(closed := true)
  {
    HereChar(text, st.pos, '\n');
    var r := Newline(st, ev, YES);
    OneTurn(text, flow, st, ev, r);
    st2, ev2, t := r.st, r.ev, r.st.t1.value;
    CallsAdd(ev, RawLine(st.at, CStr(st.line)));
  }

  lemma {:induction false} UnescapeQuoted(s: string)
    ensures Unescape(Escape(s) + "\"") == s + "\""
  {
    if s != "" {
      UnescapeQuoted(s[1..]);
      var w := Escape(s[1..]) + "\"";
      UnescapeGlyph(s[0], w);
      assert Escape(s) + "\"" == Glyph(s[0]) + w;
    }
  }

  lemma {:induction false} CStrPrefix(s: string)
    ensures |CStr(s)| <= |s| && CStr(s) == s[..|CStr(s)|] && '\0' !in CStr(s)
    ensures '\0' !in s ==> CStr(s) == s
  {
    if s != "" { CStrPrefix(s[1..]); }
  }

  /** An unclosed string hands over something else. */
  lemma UnclosedPayload(t: Token, s: string)
    requires t.closed && !t.quoted && t.special && t.raw == Quote(s)
    ensures Payload(t) != Some(s)
  {
    var w := "\"" + (s + "\"");
    UnescapeQuoted(s);
    assert t.Body() == "\"" + (Escape(s) + "\"");
    assert t.Body()[1..] == Escape(s) + "\"";
    assert Unescape(t.Body()) == w;
    CStrPrefix(w);
    if '\0' !in s {
      assert '\0' !in w;
    }
  }

  /** The first call of a parse that names the section differently. */
  lemma MisnamedFrom(text: string, st: St, ev: seq<Event>, t: Token, s: string)
    requires Ready(st, st.pos, 0, Some(t), None) && Payload(t) != Some(s) && Calls(ev) == []
    requires Here(text, st.pos, BraceLine("{", 0) + BraceLine("}", 0)) && Run(text, st, ev, YES) == Parse(text, YES)
    ensures Calls(Parse(text, YES).ev) != PreOrderAll([Section(s, [])])
  {
    RunLawful(text);
    var flow := SameRun(text);
    HereSplit(text, st.pos, BraceLine("{", 0), BraceLine("}", 0));
    var b, ev2 := OverOpenLine(text, flow, st, ev, 0, t);
    RunExtends(text, b, ev2);
    CallsExtend(ev2, Parse(text, YES).ev);
    assert Calls(ev2)[0] == Opened(Payload(t));
  }

  /** A section's name survives printing and parsing if and only if it has no zero character and does
      not end in a backslash. */
  lemma NameSurvives(s: string)
    ensures var f := [Section(s, [])];
      Calls(Parse(PrintAll(f, 0), YES).ev) == PreOrderAll(f) <==> Printable(s)
  {
    var f := [Section(s, [])];
    if Printable(s) {
      assert WellAll(f[1..], 0) && WellAll([], 1);
      RoundTrip(f);
    } else {
      Misnamed(PrintAll(f, 0), s);
    }
  }

  lemma Misnamed(text: string, s: string)
    requires !Printable(s) && text == PrintAll([Section(s, [])], 0)
    ensures Calls(Parse(text, YES).ev) != PreOrderAll([Section(s, [])])
  {
    var tail := BraceLine("{", 0) + BraceLine("}", 0);
    assert text == NameLine(s, 0) + tail by { SectionText(s); }
    assert Here(text, 0, NameLine(s, 0) + tail);
    HereSplit(text, 0, NameLine(s, 0), tail);
    assert NameLine(s, 0) == Quote(s) + "\n";
    RunLawful(text);
    var flow := SameRun(text);
    assert Calls([ParseStart]) == [];
    CStrPrefix(s);
    if s != "" && s[|s| - 1] == '\\' {
      var a, ev, t := OverUnclosed(text, flow, START, [ParseStart], s);
      UnclosedPayload(t, s);
      MisnamedFrom(text, a, ev, t, s);
    } else {
      var a, ev, t := OverNameLine(text, flow, START, [ParseStart], 0, s);
      PrintedPayload(t, s);
      MisnamedFrom(text, a, ev, t, s);
    }
  }

  lemma SectionText(s: string)
    ensures PrintAll([Section(s, [])], 0) == NameLine(s, 0) + (BraceLine("{", 0) + BraceLine("}", 0))
  {
    var none: seq<Node> := [];
    assert PrintAll(none, 1) == "";
    assert PrintAll([Section(s, [])], 0) == Print(Section(s, []), 0) + PrintAll(none, 0);
  }
}
