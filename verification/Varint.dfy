/** ZigZag and base-128 variable-length integers. */
module Varint {
  import opened Arithmetic
  import opened Flat
  import opened Bits
  import opened Words

  // ---------------------------------------------------------------------------------------
  // ZigZag, in the source's own bit operations

  /** An arithmetic shift right by w - 1: all ones for a negative word, else zero. */
  function SignFill(u: nat, w: nat): nat
    requires 0 < w
  {
    if u >= Pow2(w - 1) then Pow2(w) - 1 else 0
  }

  /** (n << 1) ^ (n >> (w - 1)) */
  function EncodeZigZag(n: int, w: nat): (u: nat)
    requires 0 < w && FitsSigned(n, w)
  {
    Xor(Shl(Unsigned(n, w), 1, w), SignFill(Unsigned(n, w), w))
  }

  /** Two's-complement negation of a word. */
  function Negate(u: nat, w: nat): nat
    requires u < Pow2(w)
  {
    (Pow2(w) - u) % Pow2(w)
  }

  /** (u >> 1) ^ -(u & 1), as the unsigned word before the conversion to signed. */
  function ZigZagWord(u: nat, w: nat): nat
    requires 0 < w && u < Pow2(w)
  {
    Xor(u / 2, Negate(u % 2, w))
  }

  /** The bit formula is n to 2n and negative n to -2n - 1. */
  lemma ZigZagArithmetic(n: int, w: nat)
    requires 0 < w && FitsSigned(n, w)
    ensures EncodeZigZag(n, w) == if n >= 0 then 2 * n else -2 * n - 1
    ensures EncodeZigZag(n, w) < Pow2(w)
  {
    hide *;
    ZigZagForm(n, w);
    XorBelow(n, Pow2(w), w);
  }

  lemma XorBelow(n: int, p: nat, w: nat)
    requires p == Pow2(w)
    ensures 0 <= n ==> Xor(2 * n, 0) == 2 * n
    ensures n < 0 && 0 <= p + 2 * n ==> Xor(p + 2 * n, p - 1) == -2 * n - 1
  {
    hide Xor, Pow2;
    if n >= 0 {
      XorZero(2 * n);
    } else if 0 <= p + 2 * n {
      XorOnes(p + 2 * n, w);
    }
  }

  lemma ZigZagForm(n: int, w: nat)
    requires 0 < w && FitsSigned(n, w)
    ensures n >= 0 ==> 2 * n < Pow2(w) && EncodeZigZag(n, w) == Xor(2 * n, 0)
    ensures n < 0 ==> 0 <= Pow2(w) + 2 * n < Pow2(w) && EncodeZigZag(n, w) == Xor(Pow2(w) + 2 * n, Pow2(w) - 1)
  {
    DoubledWord(Unsigned(n, w), w);
    hide Xor, Shl;
  }

  lemma DoubledWord(u: nat, w: nat)
    requires 0 < w && u < Pow2(w)
    ensures Shl(u, 1, w) == if u < Pow2(w - 1) then u * 2 else u * 2 - Pow2(w)
  {
    assert Pow2(1) == 2;
    if u < Pow2(w - 1) {
      ModUnique(u * 2, Pow2(w), 0, u * 2);
    } else {
      ModUnique(u * 2, Pow2(w), 1, u * 2 - Pow2(w));
    }
  }

  /** The decoding formula, arithmetically: even words halve, odd ones complement the half. */
  lemma ZigZagDecodeArithmetic(u: nat, w: nat)
    requires 0 < w && u < Pow2(w)
    ensures ZigZagWord(u, w) == if u % 2 == 0 then u / 2 else Pow2(w) - 1 - u / 2
    ensures ZigZagWord(u, w) < Pow2(w)
  {
    hide Negate, Xor, Pow2;
    NegateBit(w);
    if u % 2 == 0 {
      XorZero(u / 2);
    } else {
      XorOnes(u / 2, w);
    }
  }

  lemma NegateBit(w: nat)
    requires 0 < w
    ensures 1 < Pow2(w) && Negate(0, w) == 0 && Negate(1, w) == Pow2(w) - 1
  {
    ModUnique(Pow2(w), Pow2(w), 1, 0);
    ModUnique(Pow2(w) - 1, Pow2(w), 0, Pow2(w) - 1);
  }

  function DecodeZigZag(u: nat, w: nat): (n: int)
    requires 0 < w && u < Pow2(w)
  {
    ZigZagDecodeArithmetic(u, w);
    Signed(ZigZagWord(u, w), w)
  }

  /** Decoding, arithmetically: even words are the numbers from zero up, odd ones those below. */
  lemma DecodeArithmetic(u: nat, w: nat)
    requires 0 < w && u < Pow2(w)
    ensures DecodeZigZag(u, w) == if u % 2 == 0 then u / 2 else -1 - u / 2
  {
    ZigZagDecodeArithmetic(u, w);
    assert Pow2(w) == 2 * Pow2(w - 1);
    hide ZigZagWord, Pow2;
  }

  lemma Halves(n: int)
    ensures n >= 0 ==> (2 * n) / 2 == n && (2 * n) % 2 == 0
    ensures n < 0 ==> (-2 * n - 1) / 2 == -n - 1 && (-2 * n - 1) % 2 == 1
  {
  }

  /** Decoding undoes encoding ... */
  lemma DecodeEncode(n: int, w: nat)
    requires 0 < w && FitsSigned(n, w)
    ensures EncodeZigZag(n, w) < Pow2(w) && DecodeZigZag(EncodeZigZag(n, w), w) == n
  {
    ZigZagArithmetic(n, w);
    DecodeArithmetic(EncodeZigZag(n, w), w);
    hide EncodeZigZag, DecodeZigZag, Pow2;
    Halves(n);
  }

  lemma DecodeFits(u: nat, w: nat)
    requires 0 < w && u < Pow2(w)
    ensures FitsSigned(DecodeZigZag(u, w), w)
  {
    ZigZagDecodeArithmetic(u, w);
  }

  /** ... and encoding undoes decoding, so the pair are mutually inverse bijections between
      signed and unsigned words. */
  lemma EncodeDecode(u: nat, w: nat)
    requires 0 < w && u < Pow2(w)
    ensures FitsSigned(DecodeZigZag(u, w), w) && EncodeZigZag(DecodeZigZag(u, w), w) == u
  {
    DecodeFits(u, w);
    DecodeArithmetic(u, w);
    ZigZagArithmetic(DecodeZigZag(u, w), w);
    hide EncodeZigZag, DecodeZigZag, Pow2, FitsSigned;
    Decompose(u, 2);
  }

  // ---------------------------------------------------------------------------------------
  // Varints

  /** What the writers emit: seven bits a byte, low bits first, a high bit on all but the
      last. */
  function Groups(v: nat): (s: seq<Byte>)
    ensures s != []
  {
    if v < 128 then [v] else [v % 128 + 128] + Groups(v / 128)
  }

  /** 128 to the k. */
  function Base(k: nat): (b: nat)
    ensures 0 < b
  {
    Pow2(7 * k)
  }

  lemma BaseStep(k: nat)
    requires 0 < k
    ensures Base(k) == 128 * Base(k - 1)
  {
    Pow2Sum(7, 7 * (k - 1));
    assert Pow2(3) == 8;
    assert Pow2(7) == 16 * Pow2(3);
  }

  /** The emitted length is minimal: k bytes exactly when v needs k seven-bit groups. */
  lemma {:induction false} GroupsMinimal(v: nat, k: nat)
    requires 0 < k
    ensures |Groups(v)| <= k <==> v < Base(k)
  {
    assert Base(1) == 128 by { BaseStep(1); }
    if v >= 128 {
      if k == 1 {
        assert |Groups(v)| > 1;
      } else {
        GroupsMinimal(v / 128, k - 1);
        BaseStep(k);
      }
    } else {
      Pow2Order(7, 7 * k);
    }
  }

  /** A w-bit value takes at most ceil(w / 7) bytes. */
  lemma GroupsFit(v: nat, w: nat, k: nat)
    requires v < Pow2(w) && w <= 7 * k && 0 < k
    ensures |Groups(v)| <= k
  {
    Pow2Order(w, 7 * k);
    GroupsMinimal(v, k);
  }

  /** Only the last byte of an encoding has its high bit clear. */
  lemma {:induction false} GroupsMarks(v: nat, i: nat)
    requires i < |Groups(v)|
    ensures Groups(v)[i] < 128 <==> i == |Groups(v)| - 1
  {
    if v >= 128 && i > 0 {
      GroupsMarks(v / 128, i - 1);
    }
  }

  /** The value of a byte string read as seven-bit groups, low first: an independent reading
      of the format. */
  function GroupValue(s: seq<Byte>): nat {
    if s == [] then 0 else s[0] % 128 + 128 * GroupValue(s[1..])
  }

  lemma {:induction false} GroupsMean(v: nat)
    ensures GroupValue(Groups(v)) == v
  {
    if v >= 128 {
      GroupsMean(v / 128);
      assert Groups(v)[1..] == Groups(v / 128);
    } else {
      assert Groups(v)[1..] == [];
    }
  }

  /** Every byte announces another one. */
  ghost predicate Continued(s: seq<Byte>) { forall b :: b in s ==> 128 <= b }

  lemma NoneContinued()
    ensures Continued([])
  {
  }

  lemma ContinuedMore(s: seq<Byte>)
    requires s != [] && 128 <= s[0] && Continued(s[1..])
    ensures Continued(s)
  {
    assert s == [s[0]] + s[1..];
  }

  /** The shortest bytes that spell v in seven-bit groups: all but the last announce another one,
      and the last group is not zero unless it is the only one. */
  ghost predicate SpellsGroups(s: seq<Byte>, v: nat) {
    && s != [] && Continued(s[..|s| - 1]) && s[|s| - 1] < 128
    && (1 < |s| ==> 0 < s[|s| - 1]) && GroupValue(s) == v
  }

  /** The encoding is those bytes, and no others are. */
  lemma {:induction false} GroupsExact(s: seq<Byte>, v: nat)
    ensures SpellsGroups(s, v) <==> s == Groups(v)
    decreases |s| + |Groups(v)|
  {
    hide SpellsGroups;
    if |s| > 1 && v >= 128 {
      GroupsExact(s[1..], v / 128);
      SpellsMore(s, v);
      GroupsMore(s, v);
    } else if |s| <= 1 {
      SpellsOne(s, v);
    } else {
      SpellsLong(s, v);
    }
  }

  lemma SpellsOne(s: seq<Byte>, v: nat)
    requires |s| <= 1
    ensures SpellsGroups(s, v) <==> s == Groups(v)
  {
    hide Continued;
    NoneContinued();
    if s == [] {
    } else {
      assert s[..0] == [] && s[1..] == [];
      assert GroupValue(s) == s[0] % 128;
      assert v >= 128 ==> |Groups(v)| > 1;
    }
  }

  /** More than one byte spells at least 128. */
  lemma {:induction false} SpellsLong(s: seq<Byte>, v: nat)
    requires 1 < |s| && v < 128
    ensures !SpellsGroups(s, v) && s != Groups(v)
  {
    if SpellsGroups(s, v) {
      LastCounts(s);
    }
  }

  lemma {:induction false} LastCounts(s: seq<Byte>)
    requires s != [] && 0 < s[|s| - 1] < 128
    ensures 0 < GroupValue(s) && (1 < |s| ==> 128 <= GroupValue(s))
  {
    if 1 < |s| {
      LastCounts(s[1..]);
    } else {
      assert s[1..] == [];
    }
  }

  lemma SpellsMore(s: seq<Byte>, v: nat)
    requires 1 < |s| && 128 <= v
    ensures SpellsGroups(s, v) <==> s[0] == v % 128 + 128 && SpellsGroups(s[1..], v / 128)
  {
    var t := s[1..];
    assert s[..|s| - 1] == [s[0]] + t[..|t| - 1];
    assert Continued(s[..|s| - 1]) <==> 128 <= s[0] && Continued(t[..|t| - 1]) by {
      if Continued(s[..|s| - 1]) {
        assert s[0] in s[..|s| - 1];
        var front, tail := s[..|s| - 1], t[..|t| - 1];
        assert forall b :: b in tail ==> b in front;
      }
    }
    hide Continued;
    assert GroupValue(s) == s[0] % 128 + 128 * GroupValue(t);
    if |t| == 1 {
      assert t[1..] == [] && GroupValue(t) == t[0] % 128;
    }
    hide GroupValue;
    Decompose(v, 128);
  }

  lemma GroupsMore(s: seq<Byte>, v: nat)
    requires 1 < |s| && 128 <= v
    ensures s == Groups(v) <==> s[0] == v % 128 + 128 && s[1..] == Groups(v / 128)
  {
    assert s == [s[0]] + s[1..];
  }

  /** No encoding is a prefix of another. */
  lemma GroupsPrefixFree(a: nat, b: nat)
    requires Groups(a) <= Groups(b)
    ensures a == b
  {
    GroupsMarks(a, |Groups(a)| - 1);
    GroupsMarks(b, |Groups(a)| - 1);
    GroupsMean(a);
    GroupsMean(b);
  }

  /** The writer's loop fills a fixed local buffer: 5 bytes for 32-bit values, 10 for 64-bit. */
  method WriteGroups(value: nat, w: nat, room: nat) returns (s: seq<Byte>)
    requires value < Pow2(w) && w <= 7 * room && 0 < room
    ensures s == Groups(value) && |s| <= room
  {
    hide And, Or;
    GroupsFit(value, w, room);
    var buf := new Byte[room];
    var val, i := value, 0;
    while val >= 0x80
      invariant 0 <= val && 0 <= i < room
      invariant buf[..i] + Groups(val) == Groups(value)
    {
      LowBits(val);
      ghost var before := buf[..i];
      buf[i] := Or(And(val, 0x7f), 0x80);
      i := i + 1;
      assert buf[..i] == before + [val % 128 + 128];
      assert Groups(val) == [val % 128 + 128] + Groups(val / 128);
      assert buf[..i] + Groups(val / 128) == before + Groups(val);
      val := val / 128;
      assert i + |Groups(val)| == |Groups(value)|;
    }
    LowBits(val);
    ghost var before := buf[..i];
    buf[i] := And(val, 0x7f);
    i := i + 1;
    assert buf[..i] == before + [val];
    s := buf[..i];
  }

  /** The mask and the continuation bit, arithmetically. */
  lemma LowBits(v: nat)
    ensures And(v, 0x7f) == v % 128 && Or(And(v, 0x7f), 0x80) == v % 128 + 128
  {
    BaseStep(1);
    assert Pow2(7) == 128;
    AndMask(v, 7);
    OrDisjoint(v % 128, 1, 7);
  }

  // ---------------------------------------------------------------------------------------
  // Reading

  datatype Parsed = Parsed(value: nat, used: nat) | Short

  /** The reader's loop on the bytes ahead, from bit position `shift` with `res` so far. */
  function ScanGroups(s: seq<Byte>, shift: nat, res: nat, w: nat): (p: Parsed)
    ensures p.Parsed? ==> p.used <= |s|
    decreases w - shift
  {
    if shift >= w then Parsed(res, 0)
    else if s == [] then Short
    else if s[0] < 128 then Parsed(Or(res, Shl(s[0], shift, w)), 1)
    else
      match ScanGroups(s[1..], shift + 7, Or(res, Shl(s[0] % 128, shift, w)), w)
      case Parsed(v, n) => Parsed(v, n + 1)
      case Short => Short
  }

  /** One byte of the reader's loop, with the bits it adds written as a sum. */
  lemma ScanOne(s: seq<Byte>, shift: nat, res: nat, w: nat)
    requires s != [] && shift < w && res < Pow2(shift) && (s[0] % 128) * Pow2(shift) < Pow2(w)
    ensures var sum := res + (s[0] % 128) * Pow2(shift);
      ScanGroups(s, shift, res, w) ==
        if s[0] < 128 then Parsed(sum, 1)
        else match ScanGroups(s[1..], shift + 7, sum, w)
             case Parsed(v, n) => Parsed(v, n + 1)
             case Short => Short
  {
    hide Or;
    var low := s[0] % 128;
    ModUnique(low * Pow2(shift), Pow2(w), 0, low * Pow2(shift));
    OrDisjoint(res, low, shift);
  }

  /** Reading what was written gives the value and consumes exactly its bytes. */
  lemma {:induction false} ScanInvertsGroups(v: nat, rest: seq<Byte>, shift: nat, res: nat, w: nat)
    requires shift < w && res < Pow2(shift) && v * Pow2(shift) < Pow2(w)
    ensures ScanGroups(Groups(v) + rest, shift, res, w) == Parsed(res + v * Pow2(shift), |Groups(v)|)
    decreases v
  {
    hide Pow2, ScanGroups;
    var s := Groups(v) + rest;
    var low := v % 128;
    assert s[0] % 128 == low;
    MulMono(low, v, Pow2(shift));
    ScanOne(s, shift, res, w);
    if v >= 128 {
      assert s[0] == low + 128 && s[1..] == Groups(v / 128) + rest;
      ShiftOn(v, shift, res, w);
      ScanInvertsGroups(v / 128, rest, shift + 7, res + low * Pow2(shift), w);
    }
  }

  lemma MulMono(a: nat, b: nat, p: nat)
    requires a <= b
    ensures a * p <= b * p
  {
  }

  /** One group further. */
  lemma SplitProduct(v: nat, p: nat)
    ensures v * p == (v / 128) * (128 * p) + (v % 128) * p
  {
    var q, r := v / 128, v % 128;
    assert v * p == (128 * q + r) * p;
  }

  lemma ShiftOn(v: nat, shift: nat, res: nat, w: nat)
    requires 128 <= v && res < Pow2(shift) && v * Pow2(shift) < Pow2(w)
    ensures res + (v % 128) * Pow2(shift) < Pow2(shift + 7)
    ensures (v / 128) * Pow2(shift + 7) <= v * Pow2(shift)
    ensures shift + 7 < w
    ensures res + (v % 128) * Pow2(shift) + (v / 128) * Pow2(shift + 7) == res + v * Pow2(shift)
  {
    var p := Pow2(shift);
    BaseStep(1);
    Pow2Sum(shift, 7);
    assert Pow2(shift + 7) == 128 * p;
    MulMono(v % 128, 127, p);
    SplitProduct(v, p);
    MulMono(1, v / 128, 128 * p);
    if shift + 7 >= w {
      Pow2Order(w, shift + 7);
    }
  }

  /** Shifted to the left by shift bits. */
  function Weighted(v: nat, shift: nat): nat { v * Pow2(shift) }

  /** Or-ing the shifted low bits in is adding them, and dropping what does not fit the word. */
  lemma OrShifted(res: nat, low: nat, shift: nat, w: nat)
    requires shift < w && res < Pow2(shift)
    ensures Or(res, Shl(low, shift, w)) == (res + Weighted(low, shift)) % Pow2(w)
  {
    Pow2Sum(shift, w - shift);
    hide Or, Pow2;
    ShiftedMod(res, low, Pow2(shift), Pow2(w - shift));
    OrDisjoint(res, low % Pow2(w - shift), shift);
  }

  lemma ShiftedMod(res: nat, low: nat, p: nat, q: nat)
    requires res < p && 0 < q
    ensures (low * p) % (p * q) == (low % q) * p && (res + low * p) % (p * q) == res + (low % q) * p
  {
    var a, b := low / q, low % q;
    Decompose(low, q);
    SplitAt(low, a, b, p, q);
    MulGap(b, q, p);
    assert q * p == p * q;
    ModUnique(low * p, p * q, a, b * p);
    ModUnique(res + low * p, p * q, a, res + b * p);
  }

  lemma SplitAt(low: nat, a: nat, b: nat, p: nat, q: nat)
    requires low == a * q + b
    ensures low * p == a * (p * q) + b * p
  {
    assert (a * q + b) * p == a * q * p + b * p;
    assert a * q * p == a * (p * q) by {
      MulAssociates(a, q, p);
      assert q * p == p * q;
    }
  }

  /** What the reader does on any input whatever: it stops behind the first byte with its high
      bit clear, or behind the byte that fills the word; what it returns is the number those
      bytes spell, cut to the word; and it runs out of bytes only if neither is there. */
  lemma ScanMeans(s: seq<Byte>, w: nat)
    requires 0 < w
    ensures var p := ScanGroups(s, 0, 0, w);
      if p.Parsed? then
        && 0 < p.used <= |s| && 7 * (p.used - 1) < w && Continued(s[..p.used - 1])
        && (s[p.used - 1] < 128 || w <= 7 * p.used)
        && p.value == GroupValue(s[..p.used]) % Pow2(w)
      else 7 * |s| < w && Continued(s)
  {
    hide ScanGroups, GroupValue, Continued;
    ScanMeansFrom(s, 0, 0, w);
  }

  lemma {:induction false} ScanMeansFrom(s: seq<Byte>, shift: nat, res: nat, w: nat)
    requires shift < w && res < Pow2(shift)
    ensures var p := ScanGroups(s, shift, res, w);
      if p.Parsed? then
        && 0 < p.used <= |s| && shift + 7 * (p.used - 1) < w && Continued(s[..p.used - 1])
        && (s[p.used - 1] < 128 || w <= shift + 7 * p.used)
        && p.value == (res + Weighted(GroupValue(s[..p.used]), shift)) % Pow2(w)
      else shift + 7 * |s| < w && Continued(s)
    decreases |s|
  {
    hide Or, Shl, Pow2, GroupValue, Weighted, Continued;
    NoneContinued();
    if s != [] {
      var low := s[0] % 128;
      OrShifted(res, low, shift, w);
      ValueOne(s);
      if 128 <= s[0] && shift + 7 < w {
        var sum := res + Weighted(low, shift);
        NextFits(res, low, shift, w);
        ScanMeansFrom(s[1..], shift + 7, sum, w);
        var p := ScanGroups(s[1..], shift + 7, sum, w);
        ScanFurther(s, shift, res, w);
        hide ScanGroups;
        if p.Parsed? {
          ValueMore(s, p.used, res, shift);
          assert s[..p.used][1..] == s[1..][..p.used - 1];
          ContinuedMore(s[..p.used]);
        } else {
          ContinuedMore(s);
        }
      }
    }
  }

  lemma ScanFurther(s: seq<Byte>, shift: nat, res: nat, w: nat)
    requires s != [] && shift < w && 128 <= s[0]
    ensures var p := ScanGroups(s[1..], shift + 7, Or(res, Shl(s[0] % 128, shift, w)), w);
      ScanGroups(s, shift, res, w) == if p.Parsed? then Parsed(p.value, p.used + 1) else Short
  {
    hide Or, Shl;
  }

  lemma NextFits(res: nat, low: nat, shift: nat, w: nat)
    requires res < Pow2(shift) && low < 128 && shift + 7 < w
    ensures res + Weighted(low, shift) < Pow2(shift + 7)
    ensures (res + Weighted(low, shift)) % Pow2(w) == res + Weighted(low, shift)
  {
    SevenMore(shift);
    Pow2Order(shift + 7, w);
    hide Pow2;
    MulMono(low, 127, Pow2(shift));
    hide Weighted;
    ModUnique(res + Weighted(low, shift), Pow2(w), 0, res + Weighted(low, shift));
  }

  lemma SevenMore(shift: nat)
    ensures Pow2(shift + 7) == 128 * Pow2(shift)
  {
    assert Pow2(7) == 128;
    Pow2Sum(shift, 7);
  }

  lemma ValueOne(s: seq<Byte>)
    requires s != []
    ensures GroupValue(s[..1]) == s[0] % 128
  {
    assert s[..1][1..] == [];
  }

  lemma ValueMore(s: seq<Byte>, n: nat, res: nat, shift: nat)
    requires s != [] && n < |s|
    ensures res + Weighted(GroupValue(s[..n + 1]), shift)
         == (res + Weighted(s[0] % 128, shift)) + Weighted(GroupValue(s[1..][..n]), shift + 7)
  {
    assert s[..n + 1][1..] == s[1..][..n];
    SevenMore(shift);
    hide Pow2;
    SumShifted(s[0] % 128, GroupValue(s[1..][..n]), Pow2(shift));
  }

  lemma SumShifted(low: nat, rest: nat, p: nat)
    ensures (low + 128 * rest) * p == low * p + rest * (128 * p)
  {
  }

  /** On any input at all the reader looks at no more than ceil(w / 7) bytes. */
  lemma ScanBounded(s: seq<Byte>, k: nat, w: nat)
    requires w <= 7 * k
    ensures ScanGroups(s, 0, 0, w).Parsed? ==> ScanGroups(s, 0, 0, w).used <= k
    ensures k <= |s| ==> ScanGroups(s, 0, 0, w).Parsed?
  {
    ScanEnough(s, 0, 0, w, k);
  }

  lemma {:induction false} ScanEnough(s: seq<Byte>, shift: nat, res: nat, w: nat, k: nat)
    requires w <= shift + 7 * k
    ensures k <= |s| ==> ScanGroups(s, shift, res, w).Parsed?
    ensures ScanGroups(s, shift, res, w).Parsed? ==> ScanGroups(s, shift, res, w).used <= k
    decreases k
  {
    if shift < w && s != [] && s[0] >= 128 {
      ScanEnough(s[1..], shift + 7, Or(res, Shl(s[0] % 128, shift, w)), w, k - 1);
    }
  }

  /** Whatever the bytes, the scanned value is a word: the reader's variable cannot overflow. */
  lemma {:induction false} ScanInWord(s: seq<Byte>, shift: nat, res: nat, w: nat)
    requires res < Pow2(w)
    ensures ScanGroups(s, shift, res, w).Parsed? ==> ScanGroups(s, shift, res, w).value < Pow2(w)
    decreases w - shift
  {
    hide Or, Shl;
    if shift < w && s != [] {
      ShlInWord(s[0], shift, w);
      ShlInWord(s[0] % 128, shift, w);
      OrBound(res, Shl(s[0], shift, w), w);
      OrBound(res, Shl(s[0] % 128, shift, w), w);
      if s[0] >= 128 {
        ScanInWord(s[1..], shift + 7, Or(res, Shl(s[0] % 128, shift, w)), w);
      }
    }
  }

  lemma ShlInWord(a: nat, n: nat, w: nat)
    ensures Shl(a, n, w) < Pow2(w)
  {
  }
}
