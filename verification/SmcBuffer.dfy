/** How the parser's state lies in its buffer: the shape of a reachable state, where the staged strings
    and the current line are to be found, and what each step of the machine does to that. */
module SmcBuffer {
  import opened SmcMachine
  import opened SmcWindow

  // ----- the shape of a state -----

  /** A finished staged string; d is 1 between two characters and 0 within a turn. */
  predicate Finished(st: St, t: Token, d: nat) {
    t.closed && t.raw != "" && t.End() + d <= st.pos && (t.End() < st.bol || st.bol <= t.start)
  }

  predicate Open(st: St, t: Token, d: nat) {
    !t.closed && d <= |t.raw| && t.End() == st.pos && st.bol <= t.start
  }

  /** The staged strings: the oldest is last, and they do not overlap. */
  predicate Strings(st: St, d: nat) {
    && (st.t0.Some? ==> Open(st, st.t0.value, d))
    && (st.t1.Some? ==> Finished(st, st.t1.value, d))
    && (st.t2.Some? ==> st.t1.Some? && Finished(st, st.t2.value, d) && st.t2.value.End() <= st.t1.value.start)
    && (st.t0.Some? && st.t1.Some? ==> st.t1.value.End() <= st.t0.value.start)
  }

  predicate Flags(st: St) {
    && (st.inQuote ==> st.ignoring && st.t0.Some? && !st.ml)
    && (st.ignoring && !st.inQuote ==> st.t0.None?)
    && (st.ml ==> st.ignoring)
    && (st.t0.Some? ==> !st.t0.value.quoted && (st.t0.value.special ==> st.inQuote))
  }

  predicate Beyond(st: St, t: Option<Token>) {
    t.Some? ==> st.bol + |st.line| < t.value.start
  }

  /** What is shown of the line; strings staged after a cut lie beyond it. */
  predicate Line(st: St, d: nat) {
    && st.bol <= st.pos
    && (!st.cut ==> |st.line| == st.pos - st.bol)
    && (st.cut ==> |st.line| + d <= st.pos - st.bol)
    && (st.cut ==> Beyond(st, st.t0) && Beyond(st, st.t1) && Beyond(st, st.t2))
  }

  predicate Shape(st: St, d: nat) {
    Strings(st, d) && Flags(st) && Line(st, d)
  }

  // ----- the contents of the buffer -----

  datatype Window = Window(text: string, base: nat, fill: nat)

  predicate Lies(b: string, i: int, s: string) {
    0 <= i && i + |s| <= |b| && forall k {:trigger s[k]} :: 0 <= k < |s| ==> b[i + k] == s[k]
  }

  predicate Unread(b: string, w: Window, pos: nat) {
    && w.fill <= |w.text|
    && w.base <= pos <= w.fill < w.base + |b|
    && forall p {:trigger w.text[p]} :: pos <= p < w.fill ==> b[p - w.base] == w.text[p]
  }

  predicate Held(b: string, base: nat, t: Option<Token>) {
    t.Some? ==> Lies(b, t.value.start - base, t.value.raw)
  }

  predicate Shown(b: string, base: nat, st: St) {
    && Lies(b, st.bol - base, st.line)
    && (st.cut ==> st.bol - base + |st.line| < |b| && b[st.bol - base + |st.line|] == '\0')
  }

  predicate Holds(b: string, w: Window, st: St) {
    && Unread(b, w, st.pos)
    && Held(b, w.base, st.t0) && Held(b, w.base, st.t1) && Held(b, w.base, st.t2)
    && Shown(b, w.base, st)
  }

  lemma LiesMore(b: string, i: int, s: string, c: char)
    requires Lies(b, i, s) && i + |s| < |b| && b[i + |s|] == c
    ensures Lies(b, i, s + [c])
  {
  }

  /** Only lo..hi may have changed. */
  predicate Same(b: string, b': string, lo: int, hi: int) {
    |b'| == |b| && forall i {:trigger b'[i]} :: 0 <= i < |b| && !(lo <= i <= hi) ==> b'[i] == b[i]
  }

  lemma LiesKept(b: string, b': string, lo: int, hi: int, i: int, s: string)
    requires Lies(b, i, s) && Same(b, b', lo, hi) && (i + |s| <= lo || hi < i)
    ensures Lies(b', i, s)
  {
  }

  lemma {:induction false} CStrPrefix(s: string)
    ensures |CStr(s)| <= |s| && CStr(s) == s[..|CStr(s)|]
    ensures |CStr(s)| < |s| ==> s[|CStr(s)|] == '\0'
    ensures forall k {:trigger s[k]} :: 0 <= k < |CStr(s)| ==> s[k] != '\0'
  {
    if s != "" && s[0] != '\0' {
      CStrPrefix(s[1..]);
      forall k | 0 <= k < |CStr(s)| ensures s[k] != '\0' {
        if k > 0 { assert s[k] == s[1..][k - 1]; }
      }
      assert CStr(s)[1..] == CStr(s[1..]);
    }
  }

  lemma {:induction false} CStrUntil(s: string, n: nat)
    requires n < |s| && s[n] == '\0' && forall k {:trigger s[k]} :: 0 <= k < n ==> s[k] != '\0'
    ensures CStr(s) == s[..n]
  {
    if n > 0 {
      assert s[0] != '\0';
      assert forall k {:trigger s[1..][k]} :: 0 <= k < n - 1 ==> s[1..][k] == s[k + 1];
      CStrUntil(s[1..], n - 1);
      assert s[..n] == [s[0]] + s[1..][..n - 1];
    }
  }

  /** A string followed by a zero reads as that string, cut at its own first zero. */
  lemma CStrHere(b: string, i: int, s: string)
    requires Lies(b, i, s) && i + |s| < |b| && b[i + |s|] == '\0'
    ensures Lies(b, i, CStr(s)) && |CStr(s)| <= |s|
    ensures b[i + |CStr(s)|] == '\0' && CStr(b[i..]) == CStr(s)
  {
    var n := |CStr(s)|;
    CStrPrefix(s);
    assert forall k {:trigger b[i..][k]} :: 0 <= k < n ==> b[i..][k] == s[k];
    assert b[i..][n] == '\0';
    CStrUntil(b[i..], n);
    assert b[i..][..n] == s[..n];
  }

  /** The state has the right shape and is what the buffer holds. */
  predicate Kept(b: string, w: Window, st: St, d: nat) {
    Shape(st, d) && Holds(b, w, st)
  }

  lemma KeptIs(b: string, w: Window, st: St, d: nat)
    ensures Kept(b, w, st, d) <==> Shape(st, d) && Holds(b, w, st)
  {
  }

  /** The staged strings start within the window. */
  predicate Based(st: St, base: nat) {
    && (st.t0.Some? ==> st.t0.value.End() == st.pos && base <= st.t0.value.start)
    && (st.t1.Some? ==> base <= st.t1.value.start)
    && (st.t2.Some? ==> base <= st.t2.value.start)
  }

  lemma KeptBased(b: string, w: Window, st: St, d: nat)
    requires Kept(b, w, st, d)
    ensures Based(st, w.base) && Flags(st) && w.base <= st.pos <= w.fill <= |w.text| && w.fill - w.base < |b|
    ensures st.pos < w.fill ==> b[st.pos - w.base] == w.text[st.pos]
    ensures st.pos + 1 < w.fill ==> b[st.pos + 1 - w.base] == w.text[st.pos + 1]
  {
    assert Holds(b, w, st) && Shape(st, d);
  }

  // ----- one character -----

  lemma ConsumeShape(u: St, c: char)
    requires Shape(u, 0)
    ensures Shape(Consume(u, c), 1)
  {
  }

  lemma ConsumeHeld(b: string, w: Window, u: St, c: char)
    requires Strings(u, 0) && Line(u, 0) && Holds(b, w, u) && u.pos < w.fill && c == w.text[u.pos]
    ensures Holds(b, w, Consume(u, c))
  {
    var v := Consume(u, c);
    var q := u.pos - w.base;
    assert b[q] == c;
    if u.t0.Some? { LiesMore(b, u.t0.value.start - w.base, u.t0.value.raw, c); }
    if !u.cut { LiesMore(b, u.bol - w.base, u.line, c); }
    assert Shown(b, w.base, v);
  }

  lemma ConsumeKept(b: string, w: Window, u: St, c: char)
    requires Kept(b, w, u, 0) && u.pos < w.fill && c == w.text[u.pos]
    ensures Kept(b, w, Consume(u, c), 1)
  {
    assert Shape(u, 0) && Holds(b, w, u);
    ConsumeShape(u, c);
    ConsumeHeld(b, w, u, c);
  }

  lemma RestageShape(st: St)
    requires Strings(st, 1) && Line(st, 1)
    ensures match Restage(st)
      case None => true
      case Some(u) => Strings(u, 0) && Line(u, 0)
  {
  }

  lemma Restaged(b: string, w: Window, st: St)
    requires Strings(st, 1) && Line(st, 1) && Holds(b, w, st)
    ensures match Restage(st)
      case None => true
      case Some(u) => Strings(u, 0) && Line(u, 0) && Holds(b, w, u)
  {
    RestageShape(st);
  }

  /** A string begins at the current character. */
  function Begin(u: St): St {
    u.(t0 := Some(Token(u.pos, "", false, false, false)))
  }

  lemma PlainKept(b: string, w: Window, st: St)
    requires Kept(b, w, st, 1)
    ensures Kept(b, w, st, 0)
    ensures st.t0.None? && !st.ignoring ==> Kept(b, w, Begin(st), 0)
  {
    assert Shape(st, 1) && Holds(b, w, st);
    if st.t0.None? && !st.ignoring { assert Shape(Begin(st), 0) && Holds(b, w, Begin(st)); }
  }

  lemma BlankKept(b: string, w: Window, st: St)
    requires Kept(b, w, st, 1) && !st.ignoring
    ensures st.t1.None? ==> Restage(st).Some? && Kept(b, w, Restage(st).value, 0)
  {
    assert Shape(st, 1) && Holds(b, w, st);
    Restaged(b, w, st);
  }

  lemma OpenQuoteKept(b: string, w: Window, st: St)
    requires Kept(b, w, st, 1) && !st.ignoring
    ensures Restage(st).Some? ==> Kept(b, w, Begin(Restage(st).value).(inQuote := true, ignoring := true), 0)
  {
    hide Kept;
    KeptIs(b, w, st, 1);
    Restaged(b, w, st);
    if Restage(st).Some? {
      var u := Begin(Restage(st).value).(inQuote := true, ignoring := true);
      KeptIs(b, w, u, 0);
    }
  }

  lemma CommentKept(b: string, w: Window, st: St, ml: bool)
    requires Kept(b, w, st, 1) && !st.ignoring
    ensures var r := Restage(st.(ignoring := true, ml := ml)); r.Some? ==> Kept(b, w, r.value, 0)
  {
    assert Shape(st, 1) && Holds(b, w, st);
    var v := st.(ignoring := true, ml := ml);
    Restaged(b, w, v);
    if Restage(v).Some? {
      assert Shape(Restage(v).value, 0);
    }
  }

  lemma CloseQuoteKept(b: string, w: Window, st: St)
    requires Kept(b, w, st, 1) && st.inQuote
    ensures var r := Restage(st.(inQuote := false, ignoring := false, t0 := Some(st.t0.value.(quoted := true))));
      r.Some? ==> Kept(b, w, r.value, 0)
  {
    assert Shape(st, 1) && Holds(b, w, st);
    var v := st.(inQuote := false, ignoring := false, t0 := Some(st.t0.value.(quoted := true)));
    Restaged(b, w, v);
    if Restage(v).Some? {
      assert Shape(Restage(v).value, 0);
    }
  }

  /** The character before the current one, inside a quoted string. */
  lemma QuotedKept(b: string, w: Window, st: St)
    requires Kept(b, w, st, 1) && st.inQuote
    ensures st.t0.Some? && st.t0.value.raw != "" && w.base < st.pos
    ensures b[st.pos - 1 - w.base] == st.t0.value.raw[|st.t0.value.raw| - 1]
    ensures Kept(b, w, st, 0)
    ensures forall d :: d <= 1 ==> Kept(b, w, st.(t0 := Some(st.t0.value.(special := true))), d)
  {
    assert Shape(st, 1) && Holds(b, w, st);
    var u := st.(t0 := Some(st.t0.value.(special := true)));
    assert Shape(u, 1) && Holds(b, w, u);
  }

  // ----- handing strings over -----

  function Skip(t: Token): nat { if t.quoted then 1 else 0 }

  /** What FixupString makes of the characters of a string. */
  function Fix(body: string, special: bool): string {
    if special && |body| >= 2 then Unescape(body) else body
  }

  lemma {:induction false} UnescapeShorter(b: string)
    ensures |Unescape(b)| <= |b|
    ensures b != "" && b[0] == '\0' ==> Unescape(b) != "" && Unescape(b)[0] == '\0'
    decreases |b|
  {
    if b != "" {
      UnescapeShorter(b[1..]);
      if |b| > 1 { UnescapeShorter(b[2..]); }
    }
  }

  /** A zero-terminated string at i. */
  predicate Ended(b: string, i: int, s: string) {
    Lies(b, i, s) && i + |s| < |b| && b[i + |s|] == '\0'
  }

  /** The string between p and e has been fixed up in place. */
  predicate Fixed(b: string, b': string, p: int, e: int, special: bool) {
    && 0 <= p <= e < |b| == |b'|
    && Same(b, b', p, e) && b'[e] == '\0'
    && Ended(b', p, Fix(b[p..e], special))
  }

  lemma EndedKept(b: string, b': string, lo: int, hi: int, i: int, s: string)
    requires Ended(b, i, s) && Same(b, b', lo, hi) && (i + |s| < lo || hi < i || (i + |s| == lo && b'[lo] == '\0'))
    ensures Ended(b', i, s)
  {
    LiesKept(b, b', lo, hi, i, s);
  }

  lemma SliceKept(b: string, b': string, lo: int, hi: int, p: int, e: int)
    requires 0 <= p <= e <= |b| && Same(b, b', lo, hi) && (e <= lo || hi < p)
    ensures b'[p..e] == b[p..e]
  {
  }

  /** A fixed-up string that began with a zero still does. */
  lemma FixedZero(b: string, b': string, p: int, e: int, special: bool)
    requires Fixed(b, b', p, e, special) && p < e && b[p] == '\0'
    ensures b'[p] == '\0'
  {
    UnescapeShorter(b[p..e]);
    assert b[p..e][0] == '\0';
    assert Fix(b[p..e], special)[0] == '\0';
  }

  /** Two strings fixed up one after the other; the second may begin where the first ends. */
  lemma TwoFixed(b: string, b1: string, b2: string, kp: int, ke: int, ks: bool, vp: int, ve: int, vs: bool)
    requires ke <= vp && (ke == vp ==> vp < ve)
    requires Fixed(b, b1, kp, ke, ks) && Fixed(b1, b2, vp, ve, vs)
    ensures Ended(b2, kp, Fix(b[kp..ke], ks))
    ensures ke == vp ==> b2[vp] == '\0'
    ensures ke < vp ==> Ended(b2, vp, Fix(b[vp..ve], vs))
  {
    UnescapeShorter(b[kp..ke]);
    if ke == vp {
      FixedZero(b1, b2, vp, ve, vs);
    } else {
      SliceKept(b, b1, kp, ke, vp, ve);
    }
    EndedKept(b1, b2, vp, ve, kp, Fix(b[kp..ke], ks));
  }

  /** The same two strings, fixed up in the other order. */
  lemma TwoFixedBack(b: string, b1: string, b2: string, kp: int, ke: int, ks: bool, vp: int, ve: int, vs: bool)
    requires ke <= vp && (ke == vp ==> vp < ve)
    requires Fixed(b, b1, vp, ve, vs) && Fixed(b1, b2, kp, ke, ks)
    ensures Ended(b2, kp, Fix(b[kp..ke], ks))
    ensures ke == vp ==> b2[vp] == '\0'
    ensures ke < vp ==> Ended(b2, vp, Fix(b[vp..ve], vs))
  {
    SliceKept(b, b1, vp, ve, kp, ke);
    if ke < vp {
      EndedKept(b1, b2, kp, ke, vp, Fix(b[vp..ve], vs));
    }
  }

  function First(t: Token, base: nat): int { t.start - base + Skip(t) }

  function Last(t: Token, base: nat): int { t.End() - base }

  predicate Adjacent(key: Token, value: Token) {
    !value.quoted && value.start == key.End()
  }

  /** FixupString on the string of a token; one without an end is left alone. */
  predicate FixedUp(b: string, b': string, base: nat, t: Token) {
    if t.closed then Fixed(b, b', First(t, base), Last(t, base), t.special) else b' == b
  }

  predicate Within(i: int, t: Token, base: nat) {
    t.closed && First(t, base) <= i <= Last(t, base)
  }

  predicate Outside(b: string, b': string, key: Token, value: Token, base: nat) {
    && |b'| == |b|
    && forall i {:trigger b'[i]} :: (0 <= i < |b| && !Within(i, key, base) && !Within(i, value, base)) ==> b'[i] == b[i]
  }

  /** After both strings of a pair have been fixed up, in either order. */
  predicate PairFixed(b': string, base: nat, key: Token, value: Token) {
    && Ended(b', First(key, base), Resolved(key))
    && (value.closed && !Adjacent(key, value) ==> Ended(b', First(value, base), Resolved(value)))
    && (value.closed && Adjacent(key, value) ==> Ended(b', First(value, base), ""))
  }

  lemma BodyLies(b: string, base: nat, t: Token)
    requires Lies(b, t.start - base, t.raw) && t.raw != ""
    ensures 0 <= First(t, base) <= Last(t, base) <= |b| && b[First(t, base)..Last(t, base)] == t.Body()
  {
    assert forall k {:trigger t.raw[k]} :: 0 <= k < |t.raw| ==> b[t.start - base + k] == t.raw[k];
    assert b[First(t, base)..Last(t, base)] == t.raw[Skip(t)..];
  }

  predicate PairLies(b: string, base: nat, key: Token, value: Token) {
    && key.closed && key.raw != "" && value.raw != "" && key.End() <= value.start
    && Lies(b, key.start - base, key.raw) && Lies(b, value.start - base, value.raw)
    && Last(value, base) < |b|
  }

  predicate Either(b: string, b1: string, b2: string, base: nat, x: Token, y: Token) {
    FixedUp(b, b1, base, x) && FixedUp(b1, b2, base, y)
  }

  lemma KeyFirst(b: string, b1: string, b2: string, base: nat, key: Token, value: Token)
    requires PairLies(b, base, key, value) && value.closed && Either(b, b1, b2, base, key, value)
    requires b[First(key, base)..Last(key, base)] == key.Body()
    requires b[First(value, base)..Last(value, base)] == value.Body()
    ensures PairFixed(b2, base, key, value)
  {
    TwoFixed(b, b1, b2, First(key, base), Last(key, base), key.special,
      First(value, base), Last(value, base), value.special);
  }

  lemma ValueFirst(b: string, b1: string, b2: string, base: nat, key: Token, value: Token)
    requires PairLies(b, base, key, value) && value.closed && Either(b, b1, b2, base, value, key)
    requires b[First(key, base)..Last(key, base)] == key.Body()
    requires b[First(value, base)..Last(value, base)] == value.Body()
    ensures PairFixed(b2, base, key, value)
  {
    TwoFixedBack(b, b1, b2, First(key, base), Last(key, base), key.special,
      First(value, base), Last(value, base), value.special);
  }

  lemma OpenValue(b: string, b': string, base: nat, key: Token, value: Token)
    requires PairLies(b, base, key, value) && !value.closed && FixedUp(b, b', base, key)
    requires b[First(key, base)..Last(key, base)] == key.Body()
    ensures PairFixed(b', base, key, value)
  {
  }

  /** The order in which the two arguments of the callback are evaluated does not matter. */
  lemma PairIsFixed(b: string, b1: string, b2: string, base: nat, key: Token, value: Token, keyFirst: bool)
    requires PairLies(b, base, key, value)
    requires if keyFirst then Either(b, b1, b2, base, key, value) else Either(b, b1, b2, base, value, key)
    ensures PairFixed(b2, base, key, value)
  {
    BodyLies(b, base, key);
    if value.closed {
      BodyLies(b, base, value);
      if keyFirst { KeyFirst(b, b1, b2, base, key, value); } else { ValueFirst(b, b1, b2, base, key, value); }
    } else {
      OpenValue(b, b2, base, key, value);
    }
  }

  lemma PairLeaves(b: string, b1: string, b2: string, base: nat, key: Token, value: Token, keyFirst: bool)
    requires PairLies(b, base, key, value)
    requires if keyFirst then Either(b, b1, b2, base, key, value) else Either(b, b1, b2, base, value, key)
    ensures Outside(b, b2, key, value, base)
  {
    assert forall i {:trigger b2[i]} :: 0 <= i < |b| ==> b1[i] == b1[i];
  }

  /** What the callback sees of a pair. */
  lemma PairReads(b': string, base: nat, key: Token, value: Token)
    requires key.closed && PairFixed(b', base, key, value)
    ensures Some(CStr(b'[First(key, base)..])) == Payload(key)
    ensures value.closed ==>
          0 <= First(value, base) <= |b'| && Some(CStr(b'[First(value, base)..])) == PairValue(key, value)
  {
    CStrHere(b', First(key, base), Resolved(key));
    if value.closed {
      CStrHere(b', First(value, base), if Adjacent(key, value) then "" else Resolved(value));
    }
  }

  // ----- the line after a string on it has been handed over -----

  predicate Agree(b: string, b': string, lo: int, hi: int) {
    |b'| == |b| && forall i {:trigger b'[i]} :: (0 <= i < |b| && lo <= i < hi) ==> b'[i] == b[i]
  }

  lemma HandOverShown(b: string, b': string, base: nat, u: St, t: Token)
    requires Shown(b, base, u) && Line(u, 0) && Finished(u, t, 0) && (u.cut ==> Beyond(u, Some(t)))
    requires Ended(b', First(t, base), Resolved(t))
    requires Agree(b, b', u.bol - base, if t.start < u.bol then |b| else First(t, base))
    ensures Shown(b', base, HandOver(u, t))
  {
    hide CStr, Resolved;
    var v := HandOver(u, t);
    if t.start < u.bol || u.cut {
      assert Lies(b', u.bol - base, u.line);
    } else {
      CStrHere(b', First(t, base), Resolved(t));
      var n := t.start - u.bol + Skip(t);
      var x := CStr(Resolved(t));
      assert v.line == u.line[..n] + x;
      assert Lies(b', u.bol - base, u.line[..n]);
      LiesJoin(b', u.bol - base, u.line[..n], x);
    }
  }

  lemma LiesJoin(b: string, i: int, x: string, y: string)
    requires Lies(b, i, x) && Lies(b, i + |x|, y)
    ensures Lies(b, i, x + y)
  {
    forall k | 0 <= k < |x + y| ensures b[i + k] == (x + y)[k] {
      if k >= |x| { assert b[i + |x| + (k - |x|)] == y[k - |x|]; }
    }
  }

  // ----- the state after strings have been handed over -----

  lemma HandLine(u: St, t: Token)
    requires Line(u, 0) && Finished(u, t, 0) && (u.cut ==> Beyond(u, Some(t)))
    ensures var v := HandOver(u, t);
      && v == u.(line := v.line, cut := v.cut)
      && Line(Scrap(v), 0)
  {
    UnescapeShorter(t.Body());
    CStrPrefix(Resolved(t));
  }

  lemma ShownAlone(b: string, base: nat, st: St)
    requires Shown(b, base, st)
    ensures Shown(b, base, st.(t1 := None))
  {
  }

  /** After the name of a section. */
  lemma NameHanded(b: string, b': string, w: Window, u: St, name: Token)
    requires Unread(b, w, u.pos) && Shown(b, w.base, u) && Line(u, 0)
    requires Finished(u, name, 1) && (u.cut ==> Beyond(u, Some(name))) && u.t0.None? && u.t2.None?
    requires Lies(b, name.start - w.base, name.raw) && FixedUp(b, b', w.base, name)
    ensures Ended(b', First(name, w.base), Resolved(name))
    ensures var v := HandOver(u, name).(t1 := None); Line(v, 0) && Holds(b', w, v)
  {
    hide CStr, Shown, HandOver;
    BodyLies(b, w.base, name);
    HandLine(u, name);
    HandOverShown(b, b', w.base, u, name);
    ShownAlone(b', w.base, HandOver(u, name));
  }

  lemma PairHandedLine(u: St, key: Token, value: Token)
    requires Line(u, 0) && Finished(u, key, 0) && (u.cut ==> Beyond(u, Some(key)) && Beyond(u, Some(value)))
    requires value.closed ==> Finished(u, value, 0)
    ensures Line(Scrap(HandOver(HandOver(u, key), value)), 0)
  {
    HandLine(u, key);
    if value.closed && !HandOver(u, key).cut { HandLine(u, value); }
  }

  lemma PairShown(b: string, b': string, base: nat, u: St, key: Token, value: Token)
    requires Shown(b, base, u) && Line(u, 0) && Finished(u, key, 0)
    requires u.cut ==> Beyond(u, Some(key)) && Beyond(u, Some(value))
    requires value.closed ==> Finished(u, value, 0)
    requires key.End() <= value.start && value.raw != ""
    requires Outside(b, b', key, value, base) && PairFixed(b', base, key, value)
    ensures Shown(b', base, HandOver(HandOver(u, key), value))
  {
    var v := HandOver(u, key);
    HandLine(u, key);
    if key.start >= u.bol || u.cut {
      HandOverShown(b, b', base, u, key);
    } else if value.closed && value.start >= u.bol {
      HandOverShown(b, b', base, u, value);
    } else {
      assert Agree(b, b', u.bol - base, |b|);
    }
  }

  // ----- the end of a comment -----

  lemma CommentEndKept(b: string, w: Window, st: St)
    requires Kept(b, w, st, 1) && st.ignoring && !st.inQuote && st.pos + 1 < w.fill <= |w.text| && w.text[st.pos] == '*'
    ensures st.t0.None?
    ensures Kept(b, w, Consume(st.(ml := false, ignoring := false), '*'), 0)
  {
    assert Shape(st, 1) && Holds(b, w, st);
    var v := st.(ml := false, ignoring := false);
    assert Shape(v, 0) && Holds(b, w, v);
    ConsumeKept(b, w, v, '*');
    PlainKept(b, w, Consume(v, '*'));
  }

  // ----- the end of a line -----

  function Rested(u: St): St { u.(inQuote := false, ignoring := u.ignoring && u.ml) }

  lemma NewlineKept(b: string, w: Window, st: St)
    requires Kept(b, w, st, 1)
    ensures Restage(st).Some? ==> Kept(b, w, Rested(Restage(st).value), 0) && Restage(st).value.t0.None?
  {
    assert Shape(st, 1) && Holds(b, w, st);
    Restaged(b, w, st);
    if Restage(st).Some? {
      assert Shape(Rested(Restage(st).value), 0);
    }
  }

  /** With a zero in place of the newline, the buffer shows the line. */
  lemma LineRead(b: string, w: Window, u: St)
    requires Kept(b, w, u, 0)
    ensures 0 <= u.bol - w.base && u.pos - w.base < |b|
    ensures CStr(b[u.pos - w.base := '\0'][u.bol - w.base..]) == CStr(u.line)
  {
    assert Shape(u, 0) && Holds(b, w, u);
    CStrHere(b[u.pos - w.base := '\0'], u.bol - w.base, u.line);
  }

  function NextLine(u: St): St {
    u.(pos := u.pos + 1, bol := u.pos + 1, line := "", cut := false, at := States(u.at.line + 1, 1))
  }

  lemma NextLineKept(b: string, w: Window, u: St)
    requires Kept(b, w, u, 0) && u.t0.None? && u.pos < w.fill && !u.inQuote
    ensures Kept(b, w, NextLine(u), 1)
  {
    assert Shape(u, 0) && Holds(b, w, u);
    assert Shape(NextLine(u), 1) && Holds(b, w, NextLine(u));
  }

  lemma PairLineKept(b: string, b': string, w: Window, u: St)
    requires Kept(b, w, u, 0) && u.t0.None? && u.t1.Some? && u.t2.Some? && u.pos < w.fill && !u.inQuote
    requires Outside(b, b', u.t2.value, u.t1.value, w.base)
    ensures Kept(b', w, Scrap(NextLine(u)), 1)
  {
    assert Shape(u, 0) && Holds(b, w, u);
    assert Shape(Scrap(NextLine(u)), 1) && Holds(b', w, Scrap(NextLine(u)));
  }

  lemma PairStaged(b: string, w: Window, u: St)
    requires Kept(b, w, u, 0) && u.t2.Some?
    ensures u.t1.Some? && u.t1.value.closed && PairLies(b, w.base, u.t2.value, u.t1.value)
  {
    assert Shape(u, 0) && Holds(b, w, u);
  }

  // ----- braces -----

  /** The state in which the name of a section is handed over. */
  function Named(st: St): Option<St> {
    if st.t0.Some? then Rotate(st) else Some(st)
  }

  /** Within a section of the name staged in st. */
  function NextSection(st: St): St
    requires Named(st).Some? && Named(st).value.t1.Some?
  {
    var u := Named(st).value;
    HandOver(u, u.t1.value).(t1 := None, level := u.level + 1)
  }

  lemma NameStaged(b: string, w: Window, st: St)
    requires Kept(b, w, st, 1) && Named(st).Some? && Named(st).value.t2.None? && Named(st).value.t1.Some?
    ensures var u := Named(st).value; var name := u.t1.value;
      && u.t0.None? && Based(u, w.base) && Lies(b, name.start - w.base, name.raw) && Last(name, w.base) < |b|
      && (name.closed ==> u == st && name.raw != "")
      && (!name.closed ==> !name.quoted && (!st.ignoring ==> !name.special))
  {
    assert Shape(st, 1) && Holds(b, w, st);
  }

  lemma OpenKept(b: string, b': string, w: Window, st: St)
    requires Kept(b, w, st, 1) && !st.ignoring
    requires Named(st).Some? && Named(st).value.t2.None? && Named(st).value.t1.Some?
    requires FixedUp(b, b', w.base, Named(st).value.t1.value)
    ensures Kept(b', w, NextSection(st), 0)
    ensures var name := Named(st).value.t1.value;
      name.closed ==> Ended(b', First(name, w.base), Resolved(name))
  {
    NameStaged(b, w, st);
    if Named(st).value.t1.value.closed { ClosedNameKept(b, b', w, st); } else { OpenNameKept(b, w, st); }
  }

  /** A closed name, in a state that has nothing else staged. */
  predicate NameAt(b: string, w: Window, u: St, name: Token) {
    && Unread(b, w, u.pos) && Shown(b, w.base, u) && Line(u, 0) && !u.inQuote && !u.ignoring && !u.ml
    && Finished(u, name, 1) && (u.cut ==> Beyond(u, Some(name))) && u.t0.None? && u.t2.None?
    && Lies(b, name.start - w.base, name.raw)
  }

  lemma NameIsAt(b: string, w: Window, st: St)
    requires Kept(b, w, st, 1) && !st.ignoring && st.t0.None? && st.t2.None? && st.t1.Some?
    ensures NameAt(b, w, st, st.t1.value)
  {
    assert Shape(st, 1) && Holds(b, w, st);
  }

  lemma NameAtKept(b: string, b': string, w: Window, u: St, name: Token)
    requires NameAt(b, w, u, name) && FixedUp(b, b', w.base, name)
    ensures Kept(b', w, HandOver(u, name).(t1 := None), 0)
    ensures Ended(b', First(name, w.base), Resolved(name))
  {
    NameHanded(b, b', w, u, name);
    HandLine(u, name);
    var v := HandOver(u, name).(t1 := None);
    assert Flags(v) && Strings(v, 0);
    assert Shape(v, 0);
  }

  lemma ClosedNameKept(b: string, b': string, w: Window, st: St)
    requires Kept(b, w, st, 1) && !st.ignoring && st.t0.None? && st.t2.None? && st.t1.Some?
    requires FixedUp(b, b', w.base, st.t1.value) && st.t1.value.closed
    ensures Kept(b', w, HandOver(st, st.t1.value).(t1 := None, level := st.level + 1), 0)
    ensures Ended(b', First(st.t1.value, w.base), Resolved(st.t1.value))
  {
    NameIsAt(b, w, st);
    NameAtKept(b, b', w, st, st.t1.value);
    LevelKept(b', w, HandOver(st, st.t1.value).(t1 := None), st.level + 1);
  }

  /** A name that ran into the brace has no end, and is handed over as it is. */
  lemma OpenNameKept(b: string, w: Window, st: St)
    requires Kept(b, w, st, 1) && !st.ignoring && Named(st).Some?
    requires Named(st).value.t2.None? && Named(st).value.t1.Some? && !Named(st).value.t1.value.closed
    ensures Kept(b, w, NextSection(st), 0)
  {
    assert Shape(st, 1) && Holds(b, w, st);
    assert Shape(NextSection(st), 0) && Holds(b, w, NextSection(st));
  }

  lemma CloseStaged(b: string, w: Window, st: St)
    requires Kept(b, w, st, 1) && !st.ignoring && Rotate(st).Some? && Rotate(st).value.t2.Some?
    ensures var u := Rotate(st).value;
      && u.t0.None? && u.t1.Some? && Based(u, w.base) && PairLies(b, w.base, u.t2.value, u.t1.value)
      && (!u.t1.value.closed ==> !u.t1.value.quoted && !u.t1.value.special)
  {
    assert Shape(st, 1) && Holds(b, w, st);
  }

  predicate PairAt(b: string, w: Window, u: St, key: Token, value: Token) {
    && u.t0.None? && Line(u, 0) && Unread(b, w, u.pos) && Shown(b, w.base, u) && !u.inQuote && !u.ignoring && !u.ml
    && Finished(u, key, 1) && (value.closed ==> Finished(u, value, 1))
    && (u.cut ==> Beyond(u, Some(key)) && Beyond(u, Some(value)))
    && key.End() <= value.start && value.raw != ""
  }

  lemma PairIsAt(b: string, w: Window, st: St)
    requires Kept(b, w, st, 1) && !st.ignoring && Rotate(st).Some? && Rotate(st).value.t2.Some?
    requires Rotate(st).value.t1.Some?
    ensures var u := Rotate(st).value; PairAt(b, w, u, u.t2.value, u.t1.value)
  {
    assert Shape(st, 1) && Holds(b, w, st);
  }

  /** After both strings of a pair have been handed over. */
  function Handed(u: St): St
    requires u.t2.Some? && u.t1.Some?
  {
    HandOver(HandOver(u, u.t2.value), u.t1.value)
  }

  function Closed(u: St): St
    requires u.t2.Some? && u.t1.Some?
  {
    Scrap(Handed(u))
  }

  lemma LevelKept(b: string, w: Window, u: St, n: nat)
    requires Kept(b, w, u, 0)
    ensures Kept(b, w, u.(level := n), 0)
  {
    assert Shape(u, 0) && Holds(b, w, u);
    assert Shape(u.(level := n), 0) && Holds(b, w, u.(level := n));
  }

  lemma PairHandedShown(b: string, b': string, w: Window, u: St, key: Token, value: Token)
    requires PairAt(b, w, u, key, value)
    requires Outside(b, b', key, value, w.base) && PairFixed(b', w.base, key, value)
    ensures Shown(b', w.base, HandOver(HandOver(u, key), value))
    ensures Line(Scrap(HandOver(HandOver(u, key), value)), 0)
  {
    PairHandedLine(u, key, value);
    PairShown(b, b', w.base, u, key, value);
  }

  /** After the last pair of a section, on the line of its closing brace. */
  lemma PairHandedKept(b: string, b': string, w: Window, u: St, key: Token, value: Token)
    requires PairAt(b, w, u, key, value)
    requires Outside(b, b', key, value, w.base) && PairFixed(b', w.base, key, value)
    ensures Kept(b', w, Scrap(HandOver(HandOver(u, key), value)), 0)
  {
    PairHandedShown(b, b', w, u, key, value);
    var v := Scrap(HandOver(HandOver(u, key), value));
    assert Unread(b', w, u.pos);
    assert Shape(v, 0) && Holds(b', w, v);
  }

  lemma CloseKept(b: string, w: Window, st: St)
    requires Kept(b, w, st, 1) && !st.ignoring && Rotate(st).Some? && Rotate(st).value.t2.None?
    ensures Kept(b, w, Scrap(Rotate(st).value), 0)
  {
    assert Shape(st, 1) && Holds(b, w, st);
    var v := Scrap(Rotate(st).value);
    assert Shape(v, 0) && Holds(b, w, v);
  }

  // ----- reading on -----

  /** More of the text has been read behind what was there. */
  lemma FilledKept(b: string, b': string, w: Window, st: St, n: nat)
    requires Kept(b, w, st, 1) && w.fill + n <= |w.text| && w.fill + n < w.base + |b|
    requires |b'| == |b|
    requires forall i {:trigger b'[i]} :: 0 <= i < w.fill - w.base ==> b'[i] == b[i]
    requires forall p {:trigger w.text[p]} :: w.fill <= p < w.fill + n ==> b'[p - w.base] == w.text[p]
    ensures Kept(b', w.(fill := w.fill + n), st, 1)
  {
    assert Shape(st, 1) && Holds(b, w, st);
    assert Holds(b', w.(fill := w.fill + n), st);
  }

  /** The first n characters are those from d on. */
  predicate Moved(b: string, b': string, d: nat, n: nat) {
    |b'| == |b| && n + d <= |b| && forall i {:trigger b'[i]} :: 0 <= i < n ==> b'[i] == b[i + d]
  }

  lemma LiesMoved(b: string, b': string, d: nat, n: nat, i: int, s: string)
    requires Moved(b, b', d, n) && Lies(b, i, s) && d <= i && i + |s| <= n + d
    ensures Lies(b', i - d, s)
  {
    forall k {:trigger s[k]} | 0 <= k < |s| ensures b'[i - d + k] == s[k] {
      var m := i - d + k;
      assert b'[m] == b[m + d];
    }
  }

  lemma UnreadMoved(b: string, b': string, w: Window, d: nat, pos: nat)
    requires Unread(b, w, pos) && w.base + d <= pos && Moved(b, b', d, w.fill - w.base - d)
    ensures Unread(b', w.(base := w.base + d), pos)
  {
    forall p {:trigger w.text[p]} | pos <= p < w.fill ensures b'[p - (w.base + d)] == w.text[p] {
      var m := p - (w.base + d);
      assert b'[m] == b[m + d];
    }
  }

  lemma HeldMoved(b: string, b': string, w: Window, d: nat, t: Option<Token>)
    requires Held(b, w.base, t) && w.base + d <= w.fill && Moved(b, b', d, w.fill - w.base - d)
    requires t.Some? ==> w.base + d <= t.value.start && t.value.End() <= w.fill
    ensures Held(b', w.base + d, t)
  {
    if t.Some? { LiesMoved(b, b', d, w.fill - w.base - d, t.value.start - w.base, t.value.raw); }
  }

  lemma ShownMoved(b: string, b': string, w: Window, d: nat, st: St)
    requires Shown(b, w.base, st) && w.base + d <= st.bol && st.pos <= w.fill
    requires st.bol + |st.line| <= st.pos && (st.cut ==> st.bol + |st.line| < st.pos)
    requires Moved(b, b', d, w.fill - w.base - d)
    ensures Shown(b', w.base + d, st)
  {
    LiesMoved(b, b', d, w.fill - w.base - d, st.bol - w.base, st.line);
  }

  /** The window has been shifted to begin at the first character still needed: every staged string
      denotes the same characters as before. */
  lemma ShiftedKept(b: string, b': string, w: Window, st: St)
    requires Kept(b, w, st, 1) && w.base <= Lowest(st) <= w.fill
    requires Moved(b, b', Lowest(st) - w.base, w.fill - Lowest(st))
    ensures Kept(b', w.(base := Lowest(st)), st, 1)
  {
    hide Kept, Shape, Lies, Unread;
    LowestWithin(b, w, st);
    KeptIs(b, w, st, 1);
    KeptBased(b, w, st, 1);
    var d := Lowest(st) - w.base;
    UnreadMoved(b, b', w, d, st.pos);
    HeldMoved(b, b', w, d, st.t0);
    HeldMoved(b, b', w, d, st.t1);
    HeldMoved(b, b', w, d, st.t2);
    ShownMoved(b, b', w, d, st);
    MovedKept(b, w, b', w.(base := w.base + d), st);
  }

  lemma MovedKept(b: string, w: Window, b': string, w': Window, st: St)
    requires Kept(b, w, st, 1) && Unread(b', w', st.pos)
    requires Held(b', w'.base, st.t0) && Held(b', w'.base, st.t1) && Held(b', w'.base, st.t2)
    requires Shown(b', w'.base, st)
    ensures Kept(b', w', st, 1)
  {
    assert Shape(st, 1) && Holds(b', w', st);
  }

  lemma LowestWithin(b: string, w: Window, st: St)
    requires Kept(b, w, st, 1)
    ensures w.base <= Lowest(st) <= st.bol <= st.pos
    ensures st.t0.Some? ==> Lowest(st) <= st.t0.value.start
    ensures st.t1.Some? ==> Lowest(st) <= st.t1.value.start
    ensures st.t2.Some? ==> Lowest(st) <= st.t2.value.start
    ensures st.t0.Some? ==> st.t0.value.End() <= st.pos
    ensures st.t1.Some? ==> st.t1.value.End() <= st.pos
    ensures st.t2.Some? ==> st.t2.value.End() <= st.pos
    ensures st.bol + |st.line| <= st.pos && (st.cut ==> st.bol + |st.line| < st.pos)
  {
    assert Shape(st, 1) && Holds(b, w, st);
  }

  /** Nothing has been read yet. */
  lemma FreshKept(b: string, w: Window, st: St)
    requires |b| == BUFFER && w.base == w.fill == st.pos == st.bol <= |w.text| && st.line == "" && !st.cut
    requires st.t0.None? && st.t1.None? && st.t2.None? && !st.inQuote && !st.ignoring && !st.ml
    ensures Kept(b, w, st, 1)
  {
    assert Shape(st, 1);
    assert Unread(b, w, st.pos) && Shown(b, w.base, st);
  }

  lemma StartKept(b: string, text: string)
    requires |b| == BUFFER
    ensures Kept(b, Window(text, 0, 0), START, 1)
  {
    FreshKept(b, Window(text, 0, 0), START);
  }
}
