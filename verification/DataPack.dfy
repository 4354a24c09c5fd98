/** Data packs (sourcemod/core/CDataPack.cpp): a growing byte buffer to which cells, floats, strings and
    memory blocks are written with their sizes in front, and read back. */
module DataPack {
  newtype byte = x: int | 0 <= x < 256
  newtype word = x: int | 0 <= x < 0x1_0000_0000

  datatype Option<+T> = None | Some(value: T)

  const SIZE_T: nat := 4
  const INITIAL_SIZE: nat := 512

  datatype Kind = CellKind | FloatKind | StringKind | MemoryKind

  /** What can be packed; a float is its four bytes, a string its characters before the terminator. */
  datatype Item =
    | Cell(value: word)
    | Float(bits: word)
    | Str(chars: seq<byte>)
    | Memory(bytes: seq<byte>)
  {
    predicate Fits() {
      match this
      case Cell(_) => true
      case Float(_) => true
      case Str(s) => |s| < 0x1_0000_0000 && forall i :: 0 <= i < |s| ==> s[i] != 0
      case Memory(b) => |b| < 0x1_0000_0000
    }

    function Kind(): Kind {
      match this
      case Cell(_) => CellKind
      case Float(_) => FloatKind
      case Str(_) => StringKind
      case Memory(_) => MemoryKind
    }
  }

  // ----- bytes -----

  /** A 32-bit value, lowest byte first. */
  function Bytes(n: word): (r: seq<byte>)
    ensures |r| == 4
  {
    var x := n as int;
    [(x % 256) as byte, (x / 256 % 256) as byte, (x / 65536 % 256) as byte, (x / 16777216) as byte]
  }

  function Word(d: seq<byte>, p: nat): word
    requires p + 4 <= |d|
  {
    (d[p] as int + 256 * d[p + 1] as int + 65536 * d[p + 2] as int + 16777216 * d[p + 3] as int) as word
  }

  lemma WordBytes(n: word)
    ensures Word(Bytes(n), 0) == n
  {
    var x := n as int;
    assert x / 65536 == x / 256 / 256 && x / 16777216 == x / 65536 / 256;
  }

  function Size(n: nat): seq<byte>
    requires n < 0x1_0000_0000
  {
    Bytes(n as word)
  }

  function Encode(t: Item): seq<byte>
    requires t.Fits()
  {
    match t
    case Cell(v) => Size(4) + Bytes(v)
    case Float(v) => Size(4) + Bytes(v)
    case Str(s) => Size(|s|) + s + [0]
    case Memory(b) => Size(|b|) + b
  }

  function EncodeAll(l: seq<Item>): seq<byte>
    requires forall t :: t in l ==> t.Fits()
  {
    if l == [] then [] else EncodeAll(l[..|l| - 1]) + Encode(l[|l| - 1])
  }

  // ----- reading -----

  /** A read: what it returns, and where it leaves the position. A failed cell or float read is zero, a
      failed string or memory read nothing. d is what has been written, size is m_size, which alone the
      code looks at; what a read makes of bytes that were never written is left open by Safe. */
  datatype Got = Got(item: Option<Item>, pos: nat)

  predicate Readable(size: nat, pos: nat, n: nat) { n + pos <= size }

  function ReadWord(d: seq<byte>, size: nat, pos: nat): (word, nat) {
    if !Readable(size, pos, SIZE_T + 4) || pos + SIZE_T + 4 > |d| then (0, pos)
    else if Word(d, pos) != 4 then (0, pos)
    else (Word(d, pos + 4), pos + 8)
  }

  /** The bytes before the first zero. */
  function Chars(d: seq<byte>): (r: seq<byte>)
    ensures |r| <= |d|
  {
    if d == [] || d[0] == 0 then [] else [d[0]] + Chars(d[1..])
  }

  function ReadChars(d: seq<byte>, size: nat, pos: nat): (Option<seq<byte>>, nat) {
    if !Readable(size, pos, SIZE_T) || pos + SIZE_T > |d| then (None, pos)
    else
      var n, p := Word(d, pos) as nat, pos + 4;
      if |Chars(d[p..])| != n || !Readable(size, p, n + 1) then (None, p) else (Some(d[p..p + n]), p + n + 1)
  }

  function ReadBytes(d: seq<byte>, size: nat, pos: nat): (Option<seq<byte>>, nat) {
    if !Readable(size, pos, SIZE_T) || pos + SIZE_T > |d| then (None, pos)
    else
      var n, p := Word(d, pos) as nat, pos + 4;
      if !Readable(size, p, n) || p + n > |d| then (None, p) else (Some(d[p..p + n]), p + n)
  }

  function Read(d: seq<byte>, size: nat, pos: nat, k: Kind): Got {
    match k
    case CellKind => var (v, p) := ReadWord(d, size, pos); Got(Some(Cell(v)), p)
    case FloatKind => var (v, p) := ReadWord(d, size, pos); Got(Some(Float(v)), p)
    case StringKind => var (s, p) := ReadChars(d, size, pos); Got(if s.Some? then Some(Str(s.value)) else None, p)
    case MemoryKind => var (b, p) := ReadBytes(d, size, pos); Got(if b.Some? then Some(Memory(b.value)) else None, p)
  }

  /** The items of these kinds, one after the other, while each can be read. */
  function ReadAll(d: seq<byte>, size: nat, pos: nat, kinds: seq<Kind>): (seq<Item>, nat)
    decreases |kinds|
  {
    if kinds == [] then ([], pos)
    else
      var g := Read(d, size, pos, kinds[0]);
      if g.item.None? then ([], g.pos)
      else
        var (rest, p) := ReadAll(d, size, g.pos, kinds[1..]);
        ([g.item.value] + rest, p)
  }

  // ----- the round trip -----

  lemma WordAt(a: seq<byte>, n: word, b: seq<byte>)
    ensures var d := a + Bytes(n) + b; |a| + 4 <= |d| && Word(d, |a|) == n
  {
    var d := a + Bytes(n) + b;
    WordBytes(n);
    assert d[|a|] == Bytes(n)[0] && d[|a| + 1] == Bytes(n)[1] && d[|a| + 2] == Bytes(n)[2] && d[|a| + 3] == Bytes(n)[3];
  }

  lemma {:induction false} CharsStop(s: seq<byte>, b: seq<byte>)
    requires forall i :: 0 <= i < |s| ==> s[i] != 0
    ensures Chars(s + [0] + b) == s
  {
    if s != [] {
      assert (s + [0] + b)[1..] == s[1..] + [0] + b;
      CharsStop(s[1..], b);
    }
  }

  lemma CharsUntil(d: seq<byte>, n: nat)
    requires n < |d| && d[n] == 0 && forall k :: 0 <= k < n ==> d[k] != 0
    ensures Chars(d) == d[..n]
  {
    hide Chars;
    assert d == d[..n] + [0] + d[n + 1..];
    CharsStop(d[..n], d[n + 1..]);
  }

  lemma ReadWordBack(a: seq<byte>, v: word, b: seq<byte>)
    ensures ReadWord(a + (Size(4) + Bytes(v)) + b, |a + (Size(4) + Bytes(v)) + b|, |a|) == (v, |a| + 8)
  {
    var d := a + (Size(4) + Bytes(v)) + b;
    assert d == a + Bytes(4) + (Bytes(v) + b);
    WordAt(a, 4, Bytes(v) + b);
    assert d == (a + Bytes(4)) + Bytes(v) + b;
    WordAt(a + Bytes(4), v, b);
  }

  lemma ReadCharsBack(a: seq<byte>, s: seq<byte>, b: seq<byte>)
    requires Str(s).Fits()
    ensures ReadChars(a + Encode(Str(s)) + b, |a + Encode(Str(s)) + b|, |a|) == (Some(s), |a| + |Encode(Str(s))|)
  {
    var d := a + Encode(Str(s)) + b;
    assert d == a + Size(|s|) + (s + [0] + b);
    WordAt(a, |s| as word, s + [0] + b);
    assert d[|a| + 4..] == s + [0] + b;
    CharsStop(s, b);
    assert d[|a| + 4..|a| + 4 + |s|] == s;
  }

  lemma ReadBytesBack(a: seq<byte>, m: seq<byte>, b: seq<byte>)
    requires Memory(m).Fits()
    ensures ReadBytes(a + Encode(Memory(m)) + b, |a + Encode(Memory(m)) + b|, |a|) ==
          (Some(m), |a| + |Encode(Memory(m))|)
  {
    var d := a + Encode(Memory(m)) + b;
    assert d == a + Size(|m|) + (m + b);
    WordAt(a, |m| as word, m + b);
    assert d[|a| + 4..|a| + 4 + |m|] == m;
  }

  /** What was packed behind a is read back from there, whatever follows it. */
  lemma ReadBack(a: seq<byte>, t: Item, b: seq<byte>)
    requires t.Fits()
    ensures Read(a + Encode(t) + b, |a + Encode(t) + b|, |a|, t.Kind()) == Got(Some(t), |a| + |Encode(t)|)
  {
    hide ReadWord, ReadChars, ReadBytes;
    match t
    case Cell(v) => ReadWordBack(a, v, b);
    case Float(v) => ReadWordBack(a, v, b);
    case Str(s) => ReadCharsBack(a, s, b);
    case Memory(m) => ReadBytesBack(a, m, b);
  }

  lemma {:induction false} EncodeFirst(l: seq<Item>)
    requires l != [] && forall t :: t in l ==> t.Fits()
    ensures (forall t :: t in l[1..] ==> t.Fits()) && EncodeAll(l) == Encode(l[0]) + EncodeAll(l[1..])
    decreases |l|
  {
    hide Encode, Item.Fits;
    var n, tail := |l| - 1, l[1..];
    if n == 0 {
      assert l[..0] == [] && tail == [];
    } else {
      var init := l[..n];
      EncodeFirst(init);
      assert init[0] == l[0] && init[1..] == tail[..n - 1] && tail[n - 1] == l[n];
      Regroup(Encode(l[0]), EncodeAll(tail[..n - 1]), Encode(l[n]));
    }
  }

  lemma Regroup(x: seq<byte>, y: seq<byte>, z: seq<byte>)
    ensures (x + y) + z == x + (y + z)
  {
  }

  function Kinds(l: seq<Item>): seq<Kind> {
    if l == [] then [] else [l[0].Kind()] + Kinds(l[1..])
  }

  lemma {:induction false} RoundTripFrom(d: seq<byte>, a: seq<byte>, l: seq<Item>)
    requires (forall t :: t in l ==> t.Fits()) && d == a + EncodeAll(l)
    ensures ReadAll(d, |d|, |a|, Kinds(l)) == (l, |d|)
    decreases |l|
  {
    hide Encode, Read, ReadAll, EncodeAll, Item.Fits;
    if l == [] {
      NoneEncoded();
      NoneRead(d, |d|, |a|);
    } else {
      EncodeFirst(l);
      var e, rest := Encode(l[0]), EncodeAll(l[1..]);
      Regroup(a, e, rest);
      ReadBack(a, l[0], rest);
      RoundTripFrom(d, a + e, l[1..]);
      ReadOne(d, |d|, |a|, l[0].Kind(), Kinds(l[1..]), l[0], |a + e|);
      assert [l[0]] + l[1..] == l;
    }
  }

  lemma NoneRead(d: seq<byte>, size: nat, pos: nat)
    ensures ReadAll(d, size, pos, []) == ([], pos)
  {
  }

  lemma ReadOne(d: seq<byte>, size: nat, pos: nat, k: Kind, kinds: seq<Kind>, t: Item, p: nat)
    requires Read(d, size, pos, k) == Got(Some(t), p)
    ensures var (rest, q) := ReadAll(d, size, p, kinds); ReadAll(d, size, pos, [k] + kinds) == ([t] + rest, q)
  {
    hide Read;
    assert ([k] + kinds)[1..] == kinds;
  }

  lemma NoneEncoded()
    ensures EncodeAll([]) == []
  {
  }

  /** Reading the same kinds from the start of a pack gives the same list, and ends where it ends. */
  lemma RoundTrip(a: seq<byte>, l: seq<Item>)
    requires forall t :: t in l ==> t.Fits()
    ensures ReadAll(a + EncodeAll(l), |a + EncodeAll(l)|, |a|, Kinds(l)) == (l, |a + EncodeAll(l)|)
  {
    hide ReadAll, EncodeAll, Kinds;
    RoundTripFrom(a + EncodeAll(l), a, l);
  }

  // ----- packing anywhere -----

  /** A pack: the bytes written so far, the position, and m_size. */
  datatype Pack = Pack(written: seq<byte>, cur: nat, size: nat)

  /** Writing b at the position; m_size grows by its length, wherever the position is. */
  function Put(p: Pack, b: seq<byte>): Pack
    requires p.cur <= |p.written|
  {
    var end := p.cur + |b|;
    Pack(p.written[..p.cur] + b + (if end < |p.written| then p.written[end..] else []), end, p.size + |b|)
  }

  /** A read of this kind looks at nothing but what has been written: strlen finds a zero there. */
  predicate Safe(p: Pack, k: Kind) {
    match k
    case CellKind => Readable(p.size, p.cur, SIZE_T + 4) ==> p.cur + SIZE_T + 4 <= |p.written|
    case FloatKind => Readable(p.size, p.cur, SIZE_T + 4) ==> p.cur + SIZE_T + 4 <= |p.written|
    case StringKind =>
      Readable(p.size, p.cur, SIZE_T) ==>
            exists z {:trigger p.written[z]} :: p.cur + SIZE_T <= z < |p.written| && p.written[z] == 0
    case MemoryKind =>
      Readable(p.size, p.cur, SIZE_T) ==>
        && p.cur + SIZE_T <= |p.written|
        && var n := Word(p.written, p.cur) as nat;
           Readable(p.size, p.cur + SIZE_T, n) ==> p.cur + SIZE_T + n <= |p.written|
  }

  /** In a tight pack every read is safe but that of a string with no zero behind it. */
  lemma TightSafe(p: Pack, k: Kind)
    requires Tight(p)
    ensures k != StringKind ==> Safe(p, k)
    ensures k == StringKind && p.cur + SIZE_T < |p.written| && p.written[|p.written| - 1] == 0 ==> Safe(p, k)
  {
  }

  /** Reading back the kind that was packed is safe. */
  lemma PackedSafe(a: seq<byte>, t: Item, b: seq<byte>)
    requires t.Fits()
    ensures Safe(Pack(a + Encode(t) + b, |a|, |a + Encode(t) + b|), t.Kind())
  {
    var d := a + Encode(t) + b;
    TightSafe(Pack(d, |a|, |d|), t.Kind());
    if t.Str? {
      assert Encode(t)[|Encode(t)| - 1] == 0;
      assert d[|a| + |Encode(t)| - 1] == 0;
    }
  }

  /** m_size is what has been written, so that nothing else is ever read. */
  predicate Tight(p: Pack) { p.size == |p.written| && p.cur <= |p.written| }

  /** Packing keeps that exactly when it appends; after a Reset it does not. */
  lemma PutTight(p: Pack, b: seq<byte>)
    requires Tight(p) && b != []
    ensures Tight(Put(p, b)) <==> p.cur == p.size
    ensures p.cur == p.size ==> Put(p, b).written == p.written + b && Put(p, b).cur == Put(p, b).size
  {
  }

  /** Every read of a cell or of a block, at any position up to the end of what was written, is safe. */
  ghost predicate ReadsSafe(p: Pack) {
    forall c: nat :: c <= |p.written| ==> SafeAt(p, c)
  }

  predicate SafeAt(p: Pack, c: nat) { Safe(p.(cur := c), CellKind) && Safe(p.(cur := c), MemoryKind) }

  /** So it is if and only if m_size does not run ahead of what was written. */
  lemma ReadsExact(p: Pack)
    requires p.size == 0 || SIZE_T <= |p.written|
    ensures ReadsSafe(p) <==> p.size <= |p.written|
  {
    if p.size > |p.written| {
      UnsafeBehind(p, |p.written| - 3);
    } else {
      forall c: nat | c <= |p.written|
        ensures SafeAt(p, c)
      {
      }
    }
  }

  /** Where m_size runs ahead, a block is looked for behind what was written. */
  lemma UnsafeBehind(p: Pack, c: nat)
    requires |p.written| < p.size && c + 3 == |p.written|
    ensures !ReadsSafe(p)
  {
    assert !Safe(p.(cur := c), MemoryKind);
    assert !SafeAt(p, c);
  }

  /** What a caller does to a pack: writes at the position, or moves the position, by Reset, SetPosition or
      a read, to somewhere in what was written. */
  datatype PackOp = Write(bytes: seq<byte>) | Move(pos: nat)

  function Packed(ops: seq<PackOp>): (p: Pack)
    ensures p.cur <= |p.written| <= p.size
  {
    if ops == [] then Pack([], 0, 0)
    else
      var p := Packed(ops[..|ops| - 1]);
      match ops[|ops| - 1]
      case Write(b) => Put(p, b)
      case Move(c) => if c <= |p.written| then p.(cur := c) else p
  }

  /** Every write is made at the end. */
  predicate AtTheEnd(ops: seq<PackOp>) {
    ops == [] || (
      && AtTheEnd(ops[..|ops| - 1])
      && (ops[|ops| - 1].Write? ==> Packed(ops[..|ops| - 1]).cur == Packed(ops[..|ops| - 1]).size))
  }

  /** An item is at least its size. */
  predicate Sized(ops: seq<PackOp>) { forall o :: o in ops && o.Write? ==> |o.bytes| >= SIZE_T }

  lemma {:induction false} RunTight(ops: seq<PackOp>)
    requires Sized(ops)
    ensures AtTheEnd(ops) <==> Packed(ops).size == |Packed(ops).written|
    ensures Packed(ops).size == 0 || |Packed(ops).written| >= SIZE_T
  {
    if ops != [] {
      var n := |ops| - 1;
      assert ops[n] in ops && forall o :: o in ops[..n] ==> o in ops;
      RunTight(ops[..n]);
    }
  }

  /** A caller may read cells and blocks anywhere if and only if every write was made where m_size then
      stood. */
  lemma RunSafe(ops: seq<PackOp>)
    requires Sized(ops)
    ensures ReadsSafe(Packed(ops)) <==> AtTheEnd(ops)
  {
    hide ReadsSafe, Packed, AtTheEnd;
    RunTight(ops);
    ReadsExact(Packed(ops));
    assert |Packed(ops).written| <= Packed(ops).size;
  }

  /** A cell is packed, Reset, and a cell packed over it: m_size counts both, and the next read of a cell
      looks at eight bytes behind what was written. */
  lemma RepackUnsafe(v: word, w: word)
    ensures var p := Packed([Write(Encode(Cell(v))), Move(0), Write(Encode(Cell(w)))]);
      p.cur == 8 && p.size == 16 && |p.written| == 8 && !Safe(p, CellKind)
  {
    var a, b, c := Write(Encode(Cell(v))), Move(0), Write(Encode(Cell(w)));
    assert [a, b, c][..2] == [a, b] && [a, b][..1] == [a] && [a][..0] == [];
    assert Packed([]) == Pack([], 0, 0);
    var p1 := Packed([a]);
    assert p1 == Put(Pack([], 0, 0), a.bytes) && |p1.written| == 8;
    assert Packed([a, b]) == p1.(cur := 0);
    assert Packed([a, b, c]) == Put(p1.(cur := 0), c.bytes);
  }

  // ----- the class -----

  class CDataPack {
    var base: array<byte>
    var cur: nat
    var size: nat
    // How much of the buffer has been written, from its start on.
    ghost var extent: nat

    ghost predicate Valid()
      reads this
    {
      cur <= extent <= base.Length && base.Length >= INITIAL_SIZE
    }

    ghost function View(): Pack
      requires Valid()
      reads this, base
    {
      Pack(base[..extent], cur, size)
    }

    constructor ()
      ensures Valid() && fresh(base) && View() == Pack([], 0, 0)
    {
      base := new byte[INITIAL_SIZE];
      cur, size, extent := 0, 0, 0;
    }

    /** CheckSize: the capacity is doubled until there is room; what was written stays. */
    method CheckSize(n: nat)
      requires Valid()
      modifies this`base
      ensures Valid() && View() == old(View()) && cur + n <= base.Length
      ensures base == old(base) || fresh(base)
    {
      while cur + n > base.Length
        invariant Valid() && View() == old(View()) && (base == old(base) || fresh(base))
        decreases cur + n - base.Length
      {
        var bigger := new byte[base.Length * 2];
        var i := 0;
        while i < base.Length
          invariant i <= base.Length && fresh(bigger) && bigger.Length == base.Length * 2
          invariant forall k {:trigger bigger[k]} :: 0 <= k < i ==> bigger[k] == base[k]
          invariant Valid() && View() == old(View())
        {
          bigger[i] := base[i];
          i := i + 1;
        }
        assert bigger[..extent] == base[..extent];
        base := bigger;
      }
    }

    /** Writes b at the position, for which CheckSize has made room. */
    method Write(b: seq<byte>)
      requires Valid() && cur + |b| <= base.Length
      modifies this`cur, this`size, this`extent, base
      ensures Valid() && View() == Put(old(View()), b)
    {
      ghost var was := View();
      var i: nat := 0;
      while i < |b|
        invariant i <= |b| && cur == old(cur) && size == old(size) && extent == old(extent)
        invariant forall k {:trigger base[k]} :: 0 <= k < base.Length && !(cur <= k < cur + i) ==>
              base[k] == old(base[k])
        invariant forall k {:trigger b[k]} :: 0 <= k < i ==> base[cur + k] == b[k]
      {
        base[cur + i] := b[i];
        i := i + 1;
      }
      cur := cur + |b|;
      size := size + |b|;
      if cur > extent { extent := cur; }
      assert base[..extent] == Put(was, b).written;
    }

    /** PackCell, and PackFloat with the bits of the float. */
    method PackWord(v: word)
      requires Valid()
      modifies this, base
      ensures Valid() && View() == Put(old(View()), Size(4) + Bytes(v)) && (base == old(base) || fresh(base))
    {
      CheckSize(SIZE_T + 4);
      PutTwice(View(), Size(4), Bytes(v));
      Write(Size(4));
      Write(Bytes(v));
    }

    method PackString(s: seq<byte>)
      requires Valid() && Str(s).Fits()
      modifies this, base
      ensures Valid() && View() == Put(old(View()), Encode(Str(s))) && (base == old(base) || fresh(base))
    {
      CheckSize(SIZE_T + |s| + 1);
      PutTwice(View(), Size(|s|), s + [0]);
      assert Size(|s|) + (s + [0]) == Encode(Str(s));
      Write(Size(|s|));
      Write(s + [0]);
    }

    /** CreateMemory, with the block that its caller then writes at the address it got. */
    method PackMemory(b: seq<byte>) returns (pos: nat)
      requires Valid() && Memory(b).Fits()
      modifies this, base
      ensures Valid() && View() == Put(old(View()), Encode(Memory(b))) && pos == old(cur)
      ensures base == old(base) || fresh(base)
    {
      CheckSize(SIZE_T + |b|);
      pos := cur;
      PutTwice(View(), Size(|b|), b);
      Write(Size(|b|));
      Write(b);
    }

    /** A list of items, at the end of the pack. */
    method PackAll(l: seq<Item>)
      requires Valid() && Tight(View()) && cur == size && forall t :: t in l ==> t.Fits()
      modifies this, base
      ensures Valid() && Tight(View()) && cur == size && View().written == old(View()).written + EncodeAll(l)
    {
      hide Encode, Item.Fits, EncodeAll, Put, Tight;
      ghost var was := View().written;
      var i := 0;
      NoneEncoded();
      assert was + EncodeAll(l[..0]) == was;
      while i < |l|
        invariant i <= |l| && Valid() && Tight(View()) && cur == size && (base == old(base) || fresh(base))
        invariant View().written == was + EncodeAll(l[..i])
      {
        assert l[i] in l;
        EncodeNext(l, i);
        EncodeSome(l[i]);
        PutTight(View(), Encode(l[i]));
        Regroup(was, EncodeAll(l[..i]), Encode(l[i]));
        PackItem(l[i]);
        i := i + 1;
      }
      assert l[..i] == l;
    }

    method PackItem(t: Item)
      requires Valid() && t.Fits()
      modifies this, base
      ensures Valid() && View() == Put(old(View()), Encode(t)) && (base == old(base) || fresh(base))
    {
      match t
      case Cell(v) => PackWord(v);
      case Float(v) => PackWord(v);
      case Str(s) => PackString(s);
      case Memory(b) => var _ := PackMemory(b);
    }

    method Reset()
      requires Valid()
      modifies this`cur
      ensures Valid() && View() == old(View()).(cur := 0)
    {
      cur := 0;
    }

    method IsReadable(n: nat) returns (ok: bool)
      requires Valid()
      ensures ok == Readable(size, cur, n)
    {
      return !(n + cur > size);
    }

    method ReadSize() returns (n: word)
      requires Valid() && cur + 4 <= extent
      ensures n == Word(View().written, cur)
    {
      var p := base;
      n := (p[cur] as int + 256 * p[cur + 1] as int + 65536 * p[cur + 2] as int + 16777216 * p[cur + 3] as int) as word;
    }

    /** ReadCell, and ReadFloat for the bits of a float. */
    method ReadCell() returns (v: word)
      requires Valid() && Safe(View(), CellKind)
      modifies this`cur
      ensures Valid() && (v, cur) == ReadWord(old(View()).written, size, old(cur)) && View() == old(View()).(cur := cur)
    {
      var ok := IsReadable(SIZE_T + 4);
      if !ok { return 0; }
      var n := ReadSize();
      if n != 4 { return 0; }
      cur := cur + 4;
      v := ReadSize();
      cur := cur + 4;
    }

    /** strlen at the position: it reads up to a zero byte, which has to be there. */
    method StrLen() returns (n: nat)
      requires Valid() && exists k :: cur <= k < extent && base[k] == 0
      ensures cur + n < extent && n == |Chars(View().written[cur..])|
      ensures base[cur..cur + n] == Chars(View().written[cur..])
    {
      hide Chars;
      n := 0;
      ghost var d := View().written[cur..];
      ghost var z :| cur <= z < extent && base[z] == 0;
      while base[cur + n] != 0
        invariant cur + n <= z && forall k :: 0 <= k < n ==> d[k] != 0
        decreases z - cur - n
      {
        assert d[n] == base[cur + n];
        n := n + 1;
      }
      assert base[cur..cur + n] == d[..n];
      CharsUntil(d, n);
    }

    method ReadString() returns (s: Option<seq<byte>>)
      requires Valid() && Safe(View(), StringKind)
      modifies this`cur
      ensures Valid() && (s, cur) == ReadChars(old(View()).written, size, old(cur))
      ensures View() == old(View()).(cur := cur)
    {
      hide Chars, Word, ReadChars, Safe;
      ghost var d := View().written;
      var ok := IsReadable(SIZE_T);
      if !ok {
        NoString(d, size, cur);
        return None;
      }
      ghost var z := SafeZero(View());
      assert d[z] == base[z];
      var n := ReadSize();
      ReadCharsIs(d, size, cur);
      cur := cur + 4;
      var len := StrLen();
      ok := IsReadable(n as nat + 1);
      if len != n as nat || !ok { return None; }
      s := Some(base[cur..cur + n as nat]);
      SliceSame(base[..], extent, cur, n as nat);
      cur := cur + n as nat + 1;
    }

    method ReadMemory() returns (b: Option<seq<byte>>)
      requires Valid() && Safe(View(), MemoryKind)
      modifies this`cur
      ensures Valid() && (b, cur) == ReadBytes(old(View()).written, size, old(cur))
      ensures View() == old(View()).(cur := cur)
    {
      var ok := IsReadable(SIZE_T);
      if !ok { return None; }
      var n := ReadSize();
      cur := cur + 4;
      ok := IsReadable(n as nat);
      if !ok { return None; }
      b := Some(base[cur..cur + n as nat]);
      SliceSame(base[..], extent, cur, n as nat);
      cur := cur + n as nat;
    }

    method ReadItem(k: Kind) returns (t: Option<Item>)
      requires Valid() && Safe(View(), k)
      modifies this`cur
      ensures Valid() && Got(t, cur) == Read(old(View()).written, size, old(cur), k)
      ensures View() == old(View()).(cur := cur)
    {
      hide ReadWord, ReadChars, ReadBytes;
      match k
      case CellKind =>
        var v := ReadCell();
        t := Some(Cell(v));
      case FloatKind =>
        assert Safe(View(), CellKind);
        var v := ReadCell();
        t := Some(Float(v));
      case StringKind =>
        var s := ReadString();
        t := if s.Some? then Some(Str(s.value)) else None;
      case MemoryKind =>
        var b := ReadMemory();
        t := if b.Some? then Some(Memory(b.value)) else None;
    }

    /** Reads a packed list of which only the kinds are known: no read fails or leaves what was written. */
    method ReadList(kinds: seq<Kind>, ghost l: seq<Item>) returns (r: seq<Item>)
      requires Valid() && cur == 0 && (forall t :: t in l ==> t.Fits()) && kinds == Kinds(l)
      requires View().written == EncodeAll(l) && size == |EncodeAll(l)|
      modifies this`cur
      ensures Valid() && r == l && cur == size && View().written == EncodeAll(l)
    {
      hide Encode, Item.Fits, Read, Safe;
      KindsOf(l);
      r := [];
      var i := 0;
      while i < |kinds|
        invariant i <= |kinds| && Valid() && View().written == EncodeAll(l)
        invariant r == l[..i] && (forall t :: t in l[..i] ==> t.Fits()) && cur == |EncodeAll(l[..i])|
      {
        ghost var a, b := EncodeAll(l[..i]), EncodeAll(l[i + 1..]);
        EncodeAround(l, i);
        PackedSafe(a, l[i], b);
        ReadBack(a, l[i], b);
        var t := ReadItem(kinds[i]);
        assert l[..i + 1][..i] == l[..i];
        r := r + [t.value];
        i := i + 1;
      }
      assert l[..i] == l;
    }
  }

  /** What a fresh pack is given comes back from it. */
  method PackAndRead(l: seq<Item>) returns (r: seq<Item>)
    requires forall t :: t in l ==> t.Fits()
    ensures r == l
  {
    hide Encode, Item.Fits, EncodeAll;
    var pack := new CDataPack();
    pack.PackAll(l);
    assert pack.View().written == EncodeAll(l);
    pack.Reset();
    r := pack.ReadList(Kinds(l), l);
  }

  lemma {:induction false} KindsOf(l: seq<Item>)
    ensures |Kinds(l)| == |l| && forall i {:trigger Kinds(l)[i]} :: 0 <= i < |l| ==> Kinds(l)[i] == l[i].Kind()
  {
    if l != [] { KindsOf(l[1..]); }
  }

  lemma {:induction false} EncodeAround(l: seq<Item>, i: nat)
    requires i < |l| && forall t :: t in l ==> t.Fits()
    ensures EncodeAll(l) == EncodeAll(l[..i]) + Encode(l[i]) + EncodeAll(l[i + 1..])
    decreases |l|
  {
    hide Encode, Item.Fits;
    var n := |l| - 1;
    if i == n {
      assert l[i + 1..] == [];
    } else {
      var init, tail := l[..n], l[i + 1..];
      EncodeAround(init, i);
      assert init[..i] == l[..i] && init[i] == l[i] && tail[..|tail| - 1] == init[i + 1..] && tail[|tail| - 1] == l[n];
      Regroup(EncodeAll(l[..i]) + Encode(l[i]), EncodeAll(init[i + 1..]), Encode(l[n]));
    }
  }

  lemma SafeZero(p: Pack) returns (z: nat)
    requires Safe(p, StringKind) && Readable(p.size, p.cur, SIZE_T)
    ensures p.cur + SIZE_T <= z < |p.written| && p.written[z] == 0
  {
    z :| p.cur + SIZE_T <= z < |p.written| && p.written[z] == 0;
  }

  lemma NoString(d: seq<byte>, size: nat, pos: nat)
    requires !Readable(size, pos, SIZE_T)
    ensures ReadChars(d, size, pos) == (None, pos)
  {
  }

  /** What the two checks of a string read decide. */
  lemma ReadCharsIs(d: seq<byte>, size: nat, pos: nat)
    requires Readable(size, pos, SIZE_T) && pos + SIZE_T <= |d|
    ensures var n, p := Word(d, pos) as nat, pos + SIZE_T;
      && |Chars(d[p..])| <= |d| - p
      && ReadChars(d, size, pos) ==
           if |Chars(d[p..])| == n && Readable(size, p, n + 1) then (Some(d[p..p + n]), p + n + 1) else (None, p)
  {
    hide Word;
  }

  lemma EncodeNext(l: seq<Item>, i: nat)
    requires i < |l| && forall t :: t in l ==> t.Fits()
    ensures EncodeAll(l[..i + 1]) == EncodeAll(l[..i]) + Encode(l[i])
  {
    assert l[..i + 1][..i] == l[..i];
  }

  lemma EncodeSome(t: Item)
    requires t.Fits()
    ensures Encode(t) != []
  {
  }

  lemma SliceSame(s: seq<byte>, e: nat, p: nat, n: nat)
    requires p + n <= e <= |s|
    ensures s[p..p + n] == s[..e][p..p + n]
  {
  }

  lemma PutTwice(p: Pack, a: seq<byte>, b: seq<byte>)
    requires p.cur <= |p.written|
    ensures p.cur + |a| <= |Put(p, a).written| && Put(Put(p, a), b) == Put(p, a + b)
  {
  }
}
