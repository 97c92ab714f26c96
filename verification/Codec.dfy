/** The typed codecs on top of the buffer, and scripts that mix them. */
module Codec {
  import opened Arithmetic
  import opened Wrappers
  import opened Flat
  import opened Bits
  import opened Words
  import opened Varint
  import opened ByteBuffer

  // ---------------------------------------------------------------------------------------
  // Fixed-width integers

  /** Write an n-byte word: swap when the buffer's order is not the host's, then copy the
      word's memory.  One-byte words are never swapped. */
  method WriteFix(b: ByteArray, host: Endian, v: nat, n: nat)
    requires b.Valid() && 0 < n && v < Pow2(8 * n)
    modifies b.Repr
    ensures b.Valid() && fresh(b.Repr - old(b.Repr)) && b.endian == old(b.endian)
    ensures b.Before() == old(b.Before()) + InMemory(b.endian, v, n)
    ensures old(b.Before()) <= b.Before() && Spells(b.endian, b.Before()[|old(b.Before())|..], v)
  {
    hide Spells;
    ghost var before := b.Before();
    var val := v;
    if n > 1 && b.endian != host {
      val := Bswap(v, n);
    }
    SwapGivesOrder(host, b.endian, v, n);
    if n == 1 {
      OneByte(host, b.endian, v);
    }
    b.Write(InMemory(host, val, n));
    SpellsExact(b.endian, InMemory(b.endian, v, n), v);
    assert b.Before()[|before|..] == InMemory(b.endian, v, n);
  }

  lemma OneByte(host: Endian, order: Endian, v: nat)
    requires v < 256
    ensures InMemory(host, v, 1) == InMemory(order, v, 1) == [v]
  {
    assert ToLE(v, 1) == [v] + ToLE(0, 0);
    assert Reversed([v]) == [v];
  }

  /** Read an n-byte word back. */
  method ReadFix(b: ByteArray, host: Endian, n: nat) returns (r: Outcome<nat>)
    requires b.Valid() && 0 < n
    modifies b`offset, b`cur
    ensures b.Valid()
    ensures r.OutOfRange? <==> |old(b.Ahead())| < n
    ensures !r.NullBlock?
    ensures r.OutOfRange? ==> b.Ahead() == old(b.Ahead())
    ensures r.Ok? ==> r.value < Pow2(8 * n)
    ensures r.Ok? ==> old(b.Ahead()) == InMemory(b.endian, r.value, n) + b.Ahead()
    ensures r.Ok? ==> n <= |old(b.Ahead())| && Spells(b.endian, old(b.Ahead())[..n], r.value)
  {
    hide Spells;
    b.NullAtCapacity();
    var raw := b.Read(n);
    if raw.OutOfRange? {
      return OutOfRange;
    }
    var word := FromMemory(host, raw.value);
    var v := if n == 1 || b.endian == host then word else Bswap(word, n);
    WordOf(host, b.endian, raw.value, n);
    SpellsExact(b.endian, raw.value, v);
    return Ok(v);
  }

  /** Any n bytes are some word in memory, and reading recovers it. */
  lemma WordOf(host: Endian, order: Endian, s: seq<Byte>, n: nat)
    requires |s| == n && 0 < n
    ensures var v := if n == 1 || order == host then FromMemory(host, s) else Bswap(FromMemory(host, s), n);
      v < Pow2(8 * n) && s == InMemory(order, v, n)
  {
    LEOnto(s);
    LEOnto(Reversed(s));
    ReversedTwice(s);
    if n == 1 {
      assert Reversed(s) == s;
    }
    BswapInvolution(FromMemory(host, s), n);
  }

  /** An n-byte word is determined by its memory. */
  lemma MemoryDetermines(order: Endian, v: nat, u: nat, n: nat)
    requires v < Pow2(8 * n) && u < Pow2(8 * n) && InMemory(order, v, n) == InMemory(order, u, n)
    ensures v == u
  {
    LERoundTrip(v, n);
    LERoundTrip(u, n);
    ReversedTwice(ToLE(v, n));
    ReversedTwice(ToLE(u, n));
  }

  // ---------------------------------------------------------------------------------------
  // Variable-length integers

  method WriteVar(b: ByteArray, v: nat, w: nat, room: nat)
    requires b.Valid() && v < Pow2(w) && w <= 7 * room && 0 < room
    modifies b.Repr
    ensures b.Valid() && fresh(b.Repr - old(b.Repr)) && b.endian == old(b.endian)
    ensures b.Before() == old(b.Before()) + Groups(v)
  {
    var s := WriteGroups(v, w, room);
    b.Write(s);
  }

  /** The result of scanning c more bytes before `rest`. */
  function Later(p: Parsed, c: nat): Parsed {
    match p
    case Parsed(v, n) => Parsed(v, n + c)
    case Short => Short
  }

  /** Read seven-bit groups until one has its high bit clear or w bits are full. */
  method ReadVar(b: ByteArray, w: nat) returns (r: Outcome<nat>)
    requires b.Valid() && 0 < w
    modifies b`offset, b`cur
    ensures b.Valid() && !r.NullBlock?
    ensures match ScanGroups(old(b.Ahead()), 0, 0, w)
      case Parsed(v, used) => r == Ok(v) && used <= |old(b.Ahead())| && b.Ahead() == old(b.Ahead())[used..]
      case Short => r == OutOfRange && b.Ahead() == []
  {
    hide *;
    var res, i := 0, 0;
    ghost var all, c := b.Ahead(), 0;
    LaterNone(ScanGroups(all, 0, 0, w));
    while i < w
      invariant b.Valid() && 0 <= res && 0 <= i && 0 <= c <= |all| && b.Ahead() == all[c..]
      invariant ScanGroups(all, 0, 0, w) == Later(ScanGroups(b.Ahead(), i, res, w), c)
      decreases w - i
    {
      ScanTurn(b.Ahead(), i, res, w, c);
      var byte := ReadByte(b);
      if byte.OutOfRange? {
        return OutOfRange;
      }
      c := c + 1;
      if byte.value < 128 {
        return Ok(Or(res, Shl(byte.value, i, w)));
      }
      LowBits(byte.value);
      res := Or(res, Shl(And(byte.value, 0x7f), i, w));
      i := i + 7;
    }
    ScanTurn(b.Ahead(), i, res, w, c);
    return Ok(res);
  }

  lemma LaterNone(p: Parsed)
    ensures Later(p, 0) == p
  {
  }

  /** One turn of the reader's loop, c bytes into the input. */
  lemma ScanTurn(s: seq<Byte>, shift: nat, res: nat, w: nat, c: nat)
    ensures Later(ScanGroups(s, shift, res, w), c) ==
      if shift >= w then Parsed(res, c)
      else if s == [] then Short
      else if s[0] < 128 then Parsed(Or(res, Shl(s[0], shift, w)), c + 1)
      else Later(ScanGroups(s[1..], shift + 7, Or(res, Shl(s[0] % 128, shift, w)), w), c + 1)
  {
    hide ScanGroups, Or, Shl;
    ScanUnfold(s, shift, res, w);
  }

  lemma ScanUnfold(s: seq<Byte>, shift: nat, res: nat, w: nat)
    ensures ScanGroups(s, shift, res, w) ==
      if shift >= w then Parsed(res, 0)
      else if s == [] then Short
      else if s[0] < 128 then Parsed(Or(res, Shl(s[0], shift, w)), 1)
      else Later(ScanGroups(s[1..], shift + 7, Or(res, Shl(s[0] % 128, shift, w)), w), 1)
  {
  }

  /** readFixUInt8 */
  method ReadByte(b: ByteArray) returns (r: Outcome<Byte>)
    requires b.Valid()
    modifies b`offset, b`cur
    ensures b.Valid() && !r.NullBlock?
    ensures r.OutOfRange? <==> old(b.Ahead()) == []
    ensures r.OutOfRange? ==> b.Ahead() == []
    ensures r.Ok? ==> old(b.Ahead()) == [r.value] + b.Ahead()
  {
    b.NullAtCapacity();
    var raw := b.Read(1);
    if raw.OutOfRange? {
      return OutOfRange;
    }
    assert raw.value == [raw.value[0]];
    return Ok(raw.value[0]);
  }

  // ---------------------------------------------------------------------------------------
  // Length-prefixed strings

  /** writeStringFix16/32/64: the length, cut to n bytes, then the characters. */
  method WriteText(b: ByteArray, host: Endian, s: seq<Byte>, n: nat)
    requires b.Valid() && 0 < n
    modifies b.Repr
    ensures b.Valid() && fresh(b.Repr - old(b.Repr)) && b.endian == old(b.endian)
    ensures b.Before() == old(b.Before()) + TextBytes(b.endian, s, n)
  {
    WriteFix(b, host, |s| % Pow2(8 * n), n);
    b.Write(s);
  }

  function TextBytes(order: Endian, s: seq<Byte>, n: nat): seq<Byte> {
    InMemory(order, |s| % Pow2(8 * n), n) + s
  }

  /** What a string with an n-byte length prefix reads as. */
  function TextAt(order: Endian, bytes: seq<Byte>, n: nat): Outcome<seq<Byte>> {
    if |bytes| < n then OutOfRange
    else
      var len := FromMemory(order, bytes[..n]);
      if |bytes| - n < len then OutOfRange else Ok(bytes[n..n + len])
  }

  /** readStringFix16/32/64 */
  method ReadText(b: ByteArray, host: Endian, n: nat) returns (r: Outcome<seq<Byte>>)
    requires b.Valid() && 0 < n
    modifies b`offset, b`cur
    ensures b.Valid()
    ensures r == TextAt(b.endian, old(b.Ahead()), n)
    ensures |old(b.Ahead())| < n ==> r == OutOfRange && b.Ahead() == old(b.Ahead())
    ensures n <= |old(b.Ahead())| ==>
      forall len :: Spells(b.endian, old(b.Ahead())[..n], len) ==>
        if |old(b.Ahead())| < n + len then r == OutOfRange && b.Ahead() == old(b.Ahead())[n..]
        else r == Ok(old(b.Ahead())[n..n + len]) && b.Ahead() == old(b.Ahead())[n + len..]
    ensures r.Ok? ==> n + |r.value| <= |old(b.Ahead())| && b.Ahead() == old(b.Ahead())[n + |r.value|..]
  {
    hide *;
    ghost var ahead := b.Ahead();
    var len := ReadFix(b, host, n);
    if len.OutOfRange? {
      TextShort(b.endian, ahead, n);
      return OutOfRange;
    }
    SpelledOnce(b.endian, ahead[..n], len.value);
    ghost var body := b.Ahead();
    TextBody(b.endian, ahead, n, len.value, body);
    HeadAndBody(InMemory(b.endian, len.value, n), body, len.value);
    if len.value == 0 {
      return Ok([]);
    }
    r := b.Read(len.value);
    assert r.Ok? ==> body[..len.value] == r.value && body[len.value..] == b.Ahead();
  }

  lemma SpelledOnce(order: Endian, s: seq<Byte>, v: nat)
    requires Spells(order, s, v)
    ensures forall u :: Spells(order, s, u) ==> u == v
  {
    forall u | Spells(order, s, u) ensures u == v {
      SpellsExact(order, s, u);
      SpellsExact(order, s, v);
      MemoryDetermines(order, v, u, |s|);
    }
  }

  lemma TextShort(order: Endian, ahead: seq<Byte>, n: nat)
    requires |ahead| < n
    ensures TextAt(order, ahead, n) == OutOfRange
  {
  }

  lemma TextBody(order: Endian, ahead: seq<Byte>, n: nat, len: nat, body: seq<Byte>)
    requires len < Pow2(8 * n) && ahead == InMemory(order, len, n) + body
    ensures |InMemory(order, len, n)| == n
    ensures TextAt(order, ahead, n) == if len > |body| then OutOfRange else Ok(body[..len])
    ensures len <= |body| ==> body[len..] == ahead[n + len..]
  {
    MemoryRead(order, len, n);
    hide InMemory, FromMemory, Pow2;
    HeadAndBody(InMemory(order, len, n), body, len);
  }

  lemma HeadAndBody(head: seq<Byte>, body: seq<Byte>, len: nat)
    ensures (head + body)[..|head|] == head
    ensures len <= |body| ==> (head + body)[|head|..|head| + len] == body[..len]
    ensures len <= |body| ==> (head + body)[|head| + len..] == body[len..]
  {
  }

  lemma MemoryRead(order: Endian, v: nat, n: nat)
    requires v < Pow2(8 * n)
    ensures FromMemory(order, InMemory(order, v, n)) == v
  {
    LERoundTrip(v, n);
    ReversedTwice(ToLE(v, n));
  }

  /** What a string written with an n-byte prefix reads back as, for every string: the part its
      cut length announces - so the string itself exactly when its length fits the prefix. */
  lemma TextExact(order: Endian, s: seq<Byte>, n: nat, rest: seq<Byte>)
    ensures |s| % Pow2(8 * n) <= |s|
    ensures TextAt(order, TextBytes(order, s, n) + rest, n) == Ok(s[..|s| % Pow2(8 * n)])
    ensures TextAt(order, TextBytes(order, s, n) + rest, n) == Ok(s) <==> |s| < Pow2(8 * n)
  {
    var cut := |s| % Pow2(8 * n);
    ModAtMost(|s|, Pow2(8 * n));
    hide TextAt, InMemory;
    var bytes := TextBytes(order, s, n) + rest;
    assert bytes == InMemory(order, cut, n) + (s + rest);
    TextBody(order, bytes, n, cut, s + rest);
    assert (s + rest)[..cut] == s[..cut];
    assert cut == |s| ==> s[..cut] == s;
  }

  lemma ModAtMost(x: nat, m: nat)
    requires 0 < m
    ensures x % m <= x && (x % m == x <==> x < m)
  {
    if x < m {
      ModUnique(x, m, 0, x);
    }
  }

  /** writeStringVarint: the length as an unsigned varint, then the characters. */
  method WriteTextVar(b: ByteArray, s: seq<Byte>)
    requires b.Valid() && |s| < Pow2(64)
    modifies b.Repr
    ensures b.Valid() && fresh(b.Repr - old(b.Repr)) && b.endian == old(b.endian)
    ensures b.Before() == old(b.Before()) + Groups(|s|) + s
  {
    WriteVar(b, |s|, 64, 10);
    b.Write(s);
  }

  /** What a varint-prefixed string reads as: the length comes back through ZigZag. */
  function TextVarAt(bytes: seq<Byte>): Outcome<seq<Byte>> {
    ScanInWord(bytes, 0, 0, 64);
    match ScanGroups(bytes, 0, 0, 64)
    case Short => OutOfRange
    case Parsed(v, used) =>
      var len := ZigZagWord(v, 64);
      if len > |bytes| - used then OutOfRange else Ok(bytes[used..used + len])
  }

  /** readStringVarint */
  method ReadTextVar(b: ByteArray) returns (r: Outcome<seq<Byte>>)
    requires b.Valid()
    modifies b`offset, b`cur
    ensures b.Valid() && r == TextVarAt(old(b.Ahead()))
    ensures match ScanGroups(old(b.Ahead()), 0, 0, 64)
      case Short => r == OutOfRange && b.Ahead() == []
      case Parsed(_, used) =>
        var at := used + if r.Ok? then |r.value| else 0;
        at <= |old(b.Ahead())| && b.Ahead() == old(b.Ahead())[at..]
  {
    hide *;
    ghost var ahead := b.Ahead();
    ScanInWord(ahead, 0, 0, 64);
    var v := ReadVar(b, 64);
    ghost var body := b.Ahead();
    TextVarBody(ahead, v, body);
    if v.OutOfRange? {
      return OutOfRange;
    }
    var len := ZigZagWord(v.value, 64);
    if len == 0 {
      return Ok([]);
    }
    r := b.Read(len);
    assert r.Ok? ==> body[..len] == r.value && body[len..] == b.Ahead();
    assert r.Ok? ==> body[len..] == ahead[|ahead| - |body| + len..];
  }

  /** On any bytes, in full: what follows the groups is as long as the number they spell says,
      halved if it is even and complemented if it is odd. */
  lemma TextVarIs(bytes: seq<Byte>, v: nat, used: nat)
    requires ScanGroups(bytes, 0, 0, 64) == Parsed(v, used)
    ensures v < 0x1_0000_0000_0000_0000 && used <= |bytes|
    ensures var len := if v % 2 == 0 then v / 2 else 0xffff_ffff_ffff_ffff - v / 2;
      TextVarAt(bytes) == if |bytes| < used + len then OutOfRange else Ok(bytes[used..used + len])
  {
    hide ScanGroups, ZigZagWord, Pow2;
    ScanInWord(bytes, 0, 0, 64);
    LongWord();
    ZigZagDecodeArithmetic(v, 64);
  }

  lemma LongWord()
    ensures Pow2(64) == 0x1_0000_0000_0000_0000
  {
    assert Pow2(4) == 16;
    hide Pow2;
    Pow2Sum(4, 4);
    Pow2Sum(8, 8);
    Pow2Sum(16, 16);
    Pow2Sum(32, 32);
  }

  lemma TextVarBody(ahead: seq<Byte>, v: Outcome<nat>, body: seq<Byte>)
    requires !v.NullBlock? && (v.OutOfRange? ==> ScanGroups(ahead, 0, 0, 64) == Short)
    requires v.Ok? ==> |body| <= |ahead| && body == ahead[|ahead| - |body|..]
    requires v.Ok? ==> ScanGroups(ahead, 0, 0, 64) == Parsed(v.value, |ahead| - |body|)
    ensures v.Ok? ==> v.value < Pow2(64)
    ensures TextVarAt(ahead) ==
      if v.OutOfRange? then OutOfRange
      else
        var len := ZigZagWord(v.value, 64);
        if len > |body| then OutOfRange else Ok(body[..len])
  {
    hide ScanGroups, ZigZagWord, Pow2;
    ScanInWord(ahead, 0, 0, 64);
    if v.Ok? {
      var used, len := |ahead| - |body|, ZigZagWord(v.value, 64);
      assert len <= |body| ==> body[..len] == ahead[used..used + len];
    }
  }

  /** The varint-prefixed string round trip, exactly: writing the length unsigned and reading it
      back through ZigZag returns the string if and only if it is empty. */
  lemma VarintStringExact(s: seq<Byte>, rest: seq<Byte>)
    requires |s| < Pow2(64)
    ensures TextVarAt(Groups(|s|) + s + rest) == Ok(s) <==> s == []
  {
    hide *;
    var len := ZigZagWord(|s|, 64);
    Regrouped(Groups(|s|), s, rest);
    VarInverse(|s|, s + rest, 64);
    LengthThroughZigZag(|s|);
    TextVarBody(Groups(|s|) + (s + rest), Ok(|s|), s + rest);
    if len <= |s + rest| {
      CutExact(s, rest, len);
    }
  }

  lemma Regrouped(a: seq<Byte>, b: seq<Byte>, c: seq<Byte>)
    ensures a + b + c == a + (b + c)
    ensures |a + (b + c)| == |a| + |b + c| && (a + (b + c))[|a|..] == b + c
  {
  }

  lemma CutExact(s: seq<Byte>, rest: seq<Byte>, len: nat)
    requires len <= |s + rest|
    ensures (s + rest)[..len] == s <==> len == |s|
  {
  }

  lemma LengthThroughZigZag(len: nat)
    requires len < Pow2(64)
    ensures ZigZagWord(len, 64) == len <==> len == 0
  {
    hide *;
    ZigZagDecodeArithmetic(len, 64);
    var q := PowerOfFour(32);
    HalfComplement(Pow2(64), q, len, ZigZagWord(len, 64));
  }

  lemma HalfComplement(p: nat, q: nat, len: nat, word: nat)
    requires p == 3 * q + 1 && len < p && word == if len % 2 == 0 then len / 2 else p - 1 - len / 2
    ensures word == len <==> len == 0
  {
    var h := len / 2;
    assert len == 2 * h + len % 2;
  }

  /** Powers of four are one more than a multiple of three. */
  lemma {:induction false} PowerOfFour(k: nat) returns (q: nat)
    ensures Pow2(2 * k) == 3 * q + 1
  {
    if k == 0 {
      q := 0;
    } else {
      var p := PowerOfFour(k - 1);
      TwoMore(2 * (k - 1));
      q := 4 * p + 1;
    }
  }

  lemma TwoMore(n: nat)
    ensures Pow2(n + 2) == 4 * Pow2(n)
  {
    assert Pow2(n + 2) == 2 * Pow2(n + 1);
  }

  // ---------------------------------------------------------------------------------------
  // Scripts

  /** The kinds of write the buffer offers: fixed integers of n bytes, varints, ZigZag varints,
      float and double (varints of their bit patterns), length-prefixed strings, and the switch
      of byte order. */
  datatype Kind =
    | FixU(n: nat) | FixS(n: nat)
    | VarU(w: nat) | VarS(w: nat)
    | FloatBits(w: nat)
    | Text(n: nat)
    | Order(e: Endian)

  datatype Value = Number(n: int) | Bytes(s: seq<Byte>) | Nothing
  datatype Item = Item(kind: Kind, value: Value)

  predicate KindOk(kind: Kind) {
    match kind
    case FixU(n) => n in {1, 2, 4, 8}
    case FixS(n) => n in {1, 2, 4, 8}
    case VarU(w) => w in {32, 64}
    case VarS(w) => w in {32, 64}
    case FloatBits(w) => w in {32, 64}
    case Text(n) => n in {2, 4, 8}
    case Order(_) => true
  }

  /** The value is one of the kind's type; strings are within the range of their length
      prefix. */
  predicate ItemOk(i: Item) {
    && KindOk(i.kind)
    && match i.kind
       case FixU(n) => i.value.Number? && 0 <= i.value.n < Pow2(8 * n)
       case FixS(n) => i.value.Number? && FitsSigned(i.value.n, 8 * n)
       case VarU(w) => i.value.Number? && 0 <= i.value.n < Pow2(w)
       case VarS(w) => i.value.Number? && FitsSigned(i.value.n, w)
       case FloatBits(w) => i.value.Number? && 0 <= i.value.n < Pow2(w)
       case Text(n) => i.value.Bytes? && |i.value.s| < Pow2(8 * n)
       case Order(_) => i.value.Nothing?
  }

  /** The byte order after an item. */
  function OrderAfter(kind: Kind, order: Endian): Endian {
    if kind.Order? then kind.e else order
  }

  /** The bytes an item puts on the wire. */
  function Wire(i: Item, order: Endian): seq<Byte>
    requires ItemOk(i)
  {
    match i.kind
    case FixU(n) => InMemory(order, i.value.n, n)
    case FixS(n) => InMemory(order, Unsigned(i.value.n, 8 * n), n)
    case VarU(w) => Groups(i.value.n)
    case VarS(w) => ZigZagArithmetic(i.value.n, w); Groups(EncodeZigZag(i.value.n, w))
    case FloatBits(w) => Groups(i.value.n)
    case Text(n) => TextBytes(order, i.value.s, n)
    case Order(_) => []
  }

  /** The wire form, by what its bytes spell: fixed integers in the byte order, negative ones
      modulo 2^(8n); varints in seven-bit groups, negative ones folded onto the odd numbers;
      strings behind their length. */
  lemma WireMeans(i: Item, order: Endian)
    requires ItemOk(i)
    ensures var wire, v := Wire(i, order), i.value;
      match i.kind
      case FixU(n) => |wire| == n && Spells(order, wire, v.n)
      case FixS(n) => |wire| == n && Spells(order, wire, if v.n >= 0 then v.n else Pow2(8 * n) + v.n)
      case VarU(_) => SpellsGroups(wire, v.n)
      case VarS(_) => SpellsGroups(wire, if v.n >= 0 then 2 * v.n else -2 * v.n - 1)
      case FloatBits(_) => SpellsGroups(wire, v.n)
      case Text(n) => |wire| == n + |v.s| && Spells(order, wire[..n], |v.s|) && wire[n..] == v.s
      case Order(_) => wire == []
  {
    hide Spells, SpellsGroups, Groups, InMemory, EncodeZigZag, Pow2;
    match i.kind
    case FixU(n) => SpellsExact(order, Wire(i, order), i.value.n);
    case FixS(n) => SpellsExact(order, Wire(i, order), Unsigned(i.value.n, 8 * n));
    case VarU(_) => GroupsExact(Wire(i, order), i.value.n);
    case VarS(w) =>
      ZigZagArithmetic(i.value.n, w);
      GroupsExact(Wire(i, order), EncodeZigZag(i.value.n, w));
    case FloatBits(_) => GroupsExact(Wire(i, order), i.value.n);
    case Text(n) =>
      ModAtMost(|i.value.s|, Pow2(8 * n));
      SpellsExact(order, InMemory(order, |i.value.s|, n), |i.value.s|);
      assert Wire(i, order)[..n] == InMemory(order, |i.value.s|, n);
    case Order(_) =>
  }

  function Room(w: nat): nat { if w == 32 then 5 else 10 }

  method WriteItem(b: ByteArray, host: Endian, i: Item)
    requires b.Valid() && ItemOk(i)
    modifies b.Repr
    ensures b.Valid() && fresh(b.Repr - old(b.Repr)) && b.endian == OrderAfter(i.kind, old(b.endian))
    ensures b.Before() == old(b.Before()) + Wire(i, old(b.endian))
  {
    match i.kind {
      case FixU(n) => WriteFix(b, host, i.value.n, n);
      case FixS(n) => WriteFix(b, host, Unsigned(i.value.n, 8 * n), n);
      case VarU(w) => WriteVar(b, i.value.n, w, Room(w));
      case VarS(w) =>
        ZigZagArithmetic(i.value.n, w);
        WriteVar(b, EncodeZigZag(i.value.n, w), w, Room(w));
      case FloatBits(w) => WriteVar(b, i.value.n, w, Room(w));
      case Text(n) => WriteText(b, host, i.value.s, n);
      case Order(e) => b.SetEndian(e);
    }
  }

  /** Reading an item of a kind.  If the bytes ahead start with the wire form of an item of
      that kind, the value comes back and the cursor is just past it. */
  method ReadItem(b: ByteArray, host: Endian, kind: Kind, ghost i: Item, ghost rest: seq<Byte>)
    returns (r: Outcome<Value>)
    requires b.Valid() && KindOk(kind)
    requires ItemOk(i) && i.kind == kind && b.Ahead() == Wire(i, b.endian) + rest
    modifies b`offset, b`cur, b`endian
    ensures b.Valid() && b.endian == OrderAfter(kind, old(b.endian))
    ensures r == Ok(i.value) && b.Ahead() == rest
  {
    hide InMemory, Groups, ScanGroups, Unsigned, Signed, Pow2;
    match kind {
      case FixU(_) => r := ReadFixItem(b, host, kind, i, rest);
      case FixS(_) => r := ReadFixItem(b, host, kind, i, rest);
      case VarU(_) => r := ReadVarItem(b, kind, i, rest);
      case VarS(_) => r := ReadVarItem(b, kind, i, rest);
      case FloatBits(_) => r := ReadVarItem(b, kind, i, rest);
      case Text(n) =>
        var t := ReadText(b, host, n);
        TextInverse(b.endian, i.value.s, n, rest);
        return Ok(Bytes(t.value));
      case Order(e) =>
        b.SetEndian(e);
        return Ok(Nothing);
    }
  }

  method ReadFixItem(b: ByteArray, host: Endian, kind: Kind, ghost i: Item, ghost rest: seq<Byte>)
    returns (r: Outcome<Value>)
    requires b.Valid() && KindOk(kind) && (kind.FixU? || kind.FixS?)
    requires ItemOk(i) && i.kind == kind && b.Ahead() == Wire(i, b.endian) + rest
    modifies b`offset, b`cur
    ensures b.Valid() && b.endian == old(b.endian)
    ensures r == Ok(i.value) && b.Ahead() == rest
  {
    hide InMemory, Groups, ScanGroups, Unsigned, Signed;
    var v := ReadFix(b, host, kind.n);
    match kind {
      case FixU(n) =>
        FixInverse(b.endian, i.value.n, v.value, n, rest, b.Ahead());
        return Ok(Number(v.value));
      case FixS(n) =>
        FixInverse(b.endian, Unsigned(i.value.n, 8 * n), v.value, n, rest, b.Ahead());
        SignedRoundTrip(i.value.n, v.value, 8 * n);
        return Ok(Number(Signed(v.value, 8 * n)));
    }
  }

  method ReadVarItem(b: ByteArray, kind: Kind, ghost i: Item, ghost rest: seq<Byte>)
    returns (r: Outcome<Value>)
    requires b.Valid() && KindOk(kind) && (kind.VarU? || kind.VarS? || kind.FloatBits?)
    requires ItemOk(i) && i.kind == kind && b.Ahead() == Wire(i, b.endian) + rest
    modifies b`offset, b`cur
    ensures b.Valid() && b.endian == old(b.endian)
    ensures r == Ok(i.value) && b.Ahead() == rest
  {
    hide InMemory, Groups, ScanGroups, Unsigned, Signed, EncodeZigZag, DecodeZigZag, Pow2;
    if kind.VarS? {
      DecodeEncode(i.value.n, kind.w);
      VarInverse(EncodeZigZag(i.value.n, kind.w), rest, kind.w);
    } else {
      VarInverse(i.value.n, rest, kind.w);
    }
    var v := ReadVar(b, kind.w);
    return Ok(Number(if kind.VarS? then DecodeZigZag(v.value, kind.w) else v.value));
  }

  lemma FixInverse(order: Endian, v: nat, u: nat, n: nat, rest: seq<Byte>, left: seq<Byte>)
    requires v < Pow2(8 * n) && u < Pow2(8 * n)
    requires InMemory(order, v, n) + rest == InMemory(order, u, n) + left
    ensures u == v && left == rest
  {
    var all := InMemory(order, v, n) + rest;
    assert InMemory(order, v, n) == all[..n] == InMemory(order, u, n);
    assert rest == all[n..] == left;
    MemoryDetermines(order, v, u, n);
  }

  lemma VarInverse(v: nat, rest: seq<Byte>, w: nat)
    requires 0 < w && v < Pow2(w)
    ensures ScanGroups(Groups(v) + rest, 0, 0, w) == Parsed(v, |Groups(v)|)
    ensures (Groups(v) + rest)[|Groups(v)|..] == rest
  {
    assert v * Pow2(0) == v;
    ScanInvertsGroups(v, rest, 0, 0, w);
  }

  /** The string that comes back is the one written. */
  lemma TextInverse(order: Endian, s: seq<Byte>, n: nat, rest: seq<Byte>)
    requires |s| < Pow2(8 * n)
    ensures var bytes := TextBytes(order, s, n) + rest;
      TextAt(order, bytes, n) == Ok(s) && |bytes| == n + |s| + |rest| && bytes[n + |s|..] == rest
  {
    TextExact(order, s, n, rest);
  }

  ghost predicate ItemsOk(items: seq<Item>) { forall i :: i in items ==> ItemOk(i) }

  /** The wire form of a script. */
  function WireAll(items: seq<Item>, order: Endian): seq<Byte>
    requires ItemsOk(items)
  {
    if items == [] then []
    else Wire(items[0], order) + WireAll(items[1..], OrderAfter(items[0].kind, order))
  }

  function OrderAfterAll(items: seq<Item>, order: Endian): Endian {
    if items == [] then order else OrderAfterAll(items[1..], OrderAfter(items[0].kind, order))
  }

  lemma {:induction false} WireAppend(items: seq<Item>, i: Item, order: Endian)
    requires ItemsOk(items) && ItemOk(i)
    ensures ItemsOk(items + [i])
    ensures WireAll(items + [i], order) == WireAll(items, order) + Wire(i, OrderAfterAll(items, order))
    ensures OrderAfterAll(items + [i], order) == OrderAfter(i.kind, OrderAfterAll(items, order))
  {
    hide Wire, ItemOk, OrderAfter;
    if items == [] {
      assert items + [i] == [i] && [i][1..] == [];
      assert WireAll([i], order) == Wire(i, order) + [];
    } else {
      var next := OrderAfter(items[0].kind, order);
      WireAppend(items[1..], i, next);
      assert (items + [i])[0] == items[0] && (items + [i])[1..] == items[1..] + [i];
      var head, tail := Wire(items[0], order), WireAll(items[1..], next);
      var last := Wire(i, OrderAfterAll(items, order));
      assert head + (tail + last) == (head + tail) + last;
    }
  }

  /** The wire form from item k on. */
  lemma WireTail(items: seq<Item>, k: nat, order: Endian)
    requires k < |items| && ItemsOk(items[k..])
    ensures ItemOk(items[k]) && ItemsOk(items[k + 1..])
    ensures WireAll(items[k..], order)
         == Wire(items[k], order) + WireAll(items[k + 1..], OrderAfter(items[k].kind, order))
  {
    assert items[k..][0] == items[k] && items[k..][1..] == items[k + 1..];
    assert forall i :: i in items[k + 1..] ==> i in items[k..];
  }

  lemma OneOk(items: seq<Item>, k: nat)
    requires ItemsOk(items) && k < |items|
    ensures ItemOk(items[k])
  {
  }

  method WriteAll(b: ByteArray, host: Endian, items: seq<Item>)
    requires b.Valid() && ItemsOk(items)
    modifies b.Repr
    ensures b.Valid() && fresh(b.Repr - old(b.Repr))
    ensures b.endian == OrderAfterAll(items, old(b.endian))
    ensures b.Before() == old(b.Before()) + WireAll(items, old(b.endian))
  {
    hide *;
    var k := 0;
    assert items[..0] == [];
    NoMore(items[..0], 0, b.endian);
    ghost var order, before := b.endian, b.Before();
    while k < |items|
      invariant 0 <= k <= |items| && b.Valid() && fresh(b.Repr - old(b.Repr))
      invariant ItemsOk(items[..k]) && b.endian == OrderAfterAll(items[..k], order)
      invariant b.Before() == before + WireAll(items[..k], order)
    {
      OneOk(items, k);
      WireAppend(items[..k], items[k], order);
      assert items[..k + 1] == items[..k] + [items[k]];
      WriteItem(b, host, items[k]);
      k := k + 1;
    }
    assert items[..k] == items;
  }

  method ReadAll(b: ByteArray, host: Endian, kinds: seq<Kind>, ghost items: seq<Item>, ghost rest: seq<Byte>)
    returns (values: seq<Value>)
    requires b.Valid() && ItemsOk(items) && |kinds| == |items|
    requires forall k :: 0 <= k < |kinds| ==> kinds[k] == items[k].kind
    requires b.Ahead() == WireAll(items, b.endian) + rest
    modifies b`offset, b`cur, b`endian
    ensures b.Valid() && b.Ahead() == rest && |values| == |items|
    ensures forall k :: 0 <= k < |items| ==> values[k] == items[k].value
  {
    hide Wire, WireAll, ItemOk, ItemsOk;
    values := [];
    var k := 0;
    assert items[0..] == items;
    while k < |kinds|
      invariant 0 <= k <= |kinds| && |values| == k && b.Valid()
      invariant forall j :: 0 <= j < k ==> values[j] == items[j].value
      invariant ItemsOk(items[k..]) && b.Ahead() == WireAll(items[k..], b.endian) + rest
    {
      WireTail(items, k, b.endian);
      ghost var tail := WireAll(items[k + 1..], OrderAfter(kinds[k], b.endian)) + rest;
      assert b.Ahead() == Wire(items[k], b.endian) + tail;
      var v := ReadItem(b, host, kinds[k], items[k], tail);
      values := values + [v.value];
      k := k + 1;
    }
    NoMore(items, k, b.endian);
  }

  lemma NoMore(items: seq<Item>, k: nat, order: Endian)
    requires k == |items|
    ensures ItemsOk(items[k..]) && WireAll(items[k..], order) == []
    ensures OrderAfterAll(items[k..], order) == order
  {
  }

  /** Back to the start: everything before the cursor is ahead of it again. */
  method Rewind(b: ByteArray) returns (r: Outcome<()>)
    requires b.Valid()
    modifies b`offset, b`size, b`cur
    ensures b.Valid() && b.offset == 0 && b.size == old(b.size) && r.Ok?
    ensures b.Ahead() == old(b.Before()) + old(b.Ahead())
  {
    b.LinkedFacts();
    MulOrder(1, |b.nodes|, b.blockSize);
    r := b.SetOffset(0);
    assert b.Contents()[0..b.size] == old(b.Contents())[..old(b.offset)] + old(b.Contents())[old(b.offset)..b.size];
  }

  /** Script round trip: for every block size and either host, write any mixed script into a
      fresh buffer, move the cursor back to the start, and read it with the matching reads: the
      same values come back and the cursor is where writing ended. */
  method ScriptRoundTrip(baseSize: nat, host: Endian, order: Endian, items: seq<Item>, kinds: seq<Kind>)
    returns (values: seq<Value>, written: nat, end: nat)
    requires 0 < baseSize && ItemsOk(items) && |kinds| == |items|
    requires forall k :: 0 <= k < |kinds| ==> kinds[k] == items[k].kind
    ensures |values| == |items| && forall k :: 0 <= k < |items| ==> values[k] == items[k].value
    ensures written == end == |WireAll(items, order)|
  {
    hide *;
    var b := new ByteArray(baseSize);
    b.SetEndian(order);
    WriteAll(b, host, items);
    written := b.offset;
    ghost var wire := WireAll(items, order);
    ghost var tail := b.Ahead();
    var moved := Rewind(b);
    b.SetEndian(order);
    values := ReadAll(b, host, kinds, items, tail);
    end := b.offset;
  }
}
