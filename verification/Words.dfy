/** Fixed-width words as bytes, byte order, and byte swapping. */
module Words {
  import opened Arithmetic
  import opened Flat
  import opened Bits

  datatype Endian = LITTLE | BIG

  /** The n low bytes of v, least significant first. */
  function ToLE(v: nat, n: nat): (s: seq<Byte>)
    ensures |s| == n
  {
    if n == 0 then [] else [v % 256] + ToLE(v / 256, n - 1)
  }

  function FromLE(s: seq<Byte>): (v: nat) {
    if s == [] then 0 else s[0] + 256 * FromLE(s[1..])
  }

  function Reversed(s: seq<Byte>): (r: seq<Byte>)
    ensures |r| == |s|
    ensures forall i :: 0 <= i < |s| ==> r[i] == s[|s| - 1 - i]
  {
    if s == [] then [] else Reversed(s[1..]) + [s[0]]
  }

  /** The byte-swap builtin of an n-byte word. */
  function Bswap(v: nat, n: nat): nat {
    FromLE(Reversed(ToLE(v, n)))
  }

  /** An n-byte word as it lies in memory. */
  function InMemory(order: Endian, v: nat, n: nat): (s: seq<Byte>)
    ensures |s| == n
  {
    if order == LITTLE then ToLE(v, n) else Reversed(ToLE(v, n))
  }

  function FromMemory(order: Endian, s: seq<Byte>): nat {
    if order == LITTLE then FromLE(s) else FromLE(Reversed(s))
  }

  lemma ReversedTwice(s: seq<Byte>)
    ensures Reversed(Reversed(s)) == s
  {
  }

  lemma {:induction false} LERoundTrip(v: nat, n: nat)
    requires v < Pow2(8 * n)
    ensures FromLE(ToLE(v, n)) == v
  {
    if n > 0 {
      Pow2Byte(n);
      LERoundTrip(v / 256, n - 1);
      assert ToLE(v, n)[1..] == ToLE(v / 256, n - 1);
    }
  }

  lemma {:induction false} LEOnto(s: seq<Byte>)
    ensures FromLE(s) < Pow2(8 * |s|)
    ensures ToLE(FromLE(s), |s|) == s
  {
    if s != [] {
      LEOnto(s[1..]);
      Pow2Byte(|s|);
      hide Pow2;
      LowByte(s[0], FromLE(s[1..]));
      assert s == [s[0]] + s[1..];
    }
  }

  lemma LowByte(b: Byte, rest: nat)
    ensures (b + 256 * rest) % 256 == b && (b + 256 * rest) / 256 == rest
  {
  }

  lemma Pow2Byte(n: nat)
    requires 0 < n
    ensures Pow2(8 * n) == 256 * Pow2(8 * (n - 1))
  {
    Pow2Sum(8, 8 * (n - 1));
    assert Pow2(8) == 256 by {
      assert Pow2(4) == 16;
      Pow2Sum(4, 4);
    }
  }

  lemma {:induction false} ToLEAt(v: nat, n: nat, i: nat)
    requires i < n
    ensures ToLE(v, n)[i] == (v / Pow2(8 * i)) % 256
  {
    if i > 0 {
      ToLEAt(v / 256, n - 1, i - 1);
      Pow2Byte(i);
      DivTwice(v, 256, Pow2(8 * (i - 1)));
    }
  }

  lemma BigPosition(v: nat, n: nat, i: nat)
    requires i < n
    ensures InMemory(BIG, v, n)[i] == (v / Pow2(8 * (n - 1 - i))) % 256
  {
    hide Pow2, ToLE;
    ToLEAt(v, n, n - 1 - i);
  }

  lemma LittlePosition(v: nat, n: nat, i: nat)
    requires i < n
    ensures InMemory(LITTLE, v, n)[i] == (v / Pow2(8 * i)) % 256
  {
    hide Pow2, ToLE;
    ToLEAt(v, n, i);
  }

  /** Which byte order is which: in a big-endian word in memory the most significant byte comes
      first, in a little-endian one the least significant. */
  lemma MemoryPositions(v: nat, n: nat)
    ensures forall i :: 0 <= i < n ==> InMemory(BIG, v, n)[i] == (v / Pow2(8 * (n - 1 - i))) % 256
    ensures forall i :: 0 <= i < n ==> InMemory(LITTLE, v, n)[i] == (v / Pow2(8 * i)) % 256
  {
    hide *;
    forall i | 0 <= i < n ensures InMemory(BIG, v, n)[i] == (v / Pow2(8 * (n - 1 - i))) % 256 {
      BigPosition(v, n, i);
    }
    forall i | 0 <= i < n ensures InMemory(LITTLE, v, n)[i] == (v / Pow2(8 * i)) % 256 {
      LittlePosition(v, n, i);
    }
  }

  /** The bytes spell the number: its digits to base 256, the most significant one first in
      big-endian order and last in little-endian order. */
  ghost predicate Spells(order: Endian, s: seq<Byte>, v: nat) {
    && v < Pow2(8 * |s|)
    && forall i :: 0 <= i < |s| ==> s[i] == (v / Pow2(8 * (if order == BIG then |s| - 1 - i else i))) % 256
  }

  /** A word's bytes in memory spell it, and no others do. */
  lemma SpellsExact(order: Endian, s: seq<Byte>, v: nat)
    ensures Spells(order, s, v) <==> v < Pow2(8 * |s|) && s == InMemory(order, v, |s|)
  {
    hide InMemory, Pow2;
    var m := InMemory(order, v, |s|);
    forall i | 0 <= i < |s|
      ensures m[i] == (v / Pow2(8 * (if order == BIG then |s| - 1 - i else i))) % 256
    {
      if order == BIG {
        BigPosition(v, |s|, i);
      } else {
        LittlePosition(v, |s|, i);
      }
    }
    if Spells(order, s, v) {
      assert forall i :: 0 <= i < |s| ==> s[i] == m[i];
    }
  }

  /** Swapping twice gives the word back, and stays in range. */
  lemma BswapInvolution(v: nat, n: nat)
    requires v < Pow2(8 * n)
    ensures Bswap(v, n) < Pow2(8 * n)
    ensures Bswap(Bswap(v, n), n) == v
    ensures ToLE(Bswap(v, n), n) == Reversed(ToLE(v, n))
  {
    LEOnto(Reversed(ToLE(v, n)));
    ReversedTwice(ToLE(v, n));
    LERoundTrip(v, n);
  }

  /** Swapping when the wanted order differs from the host's puts the word into memory in the
      wanted order on either kind of host, and the same on the way back. */
  lemma SwapGivesOrder(host: Endian, order: Endian, v: nat, n: nat)
    requires v < Pow2(8 * n)
    ensures InMemory(host, if order != host then Bswap(v, n) else v, n) == InMemory(order, v, n)
    ensures var raw := FromMemory(host, InMemory(order, v, n));
      (if order == host then raw else Bswap(raw, n)) == v
  {
    BswapInvolution(v, n);
    LERoundTrip(v, n);
    ReversedTwice(ToLE(v, n));
    LERoundTrip(Bswap(v, n), n);
  }

  // ---------------------------------------------------------------------------------------
  // Signed values

  predicate FitsSigned(n: int, w: nat)
    requires 0 < w
  {
    var half: int := Pow2(w - 1);
    -half <= n < half
  }

  /** The two's-complement word of a signed value. */
  function Unsigned(n: int, w: nat): (u: nat)
    requires 0 < w && FitsSigned(n, w)
    ensures u < Pow2(w)
  {
    if n >= 0 then n else Pow2(w) + n
  }

  function Signed(u: nat, w: nat): (n: int)
    requires 0 < w && u < Pow2(w)
    ensures FitsSigned(n, w)
  {
    if u < Pow2(w - 1) then u else u - Pow2(w)
  }

  lemma SignedRoundTrip(n: int, u: nat, w: nat)
    requires 0 < w && FitsSigned(n, w) && u < Pow2(w)
    ensures Signed(Unsigned(n, w), w) == n && Unsigned(Signed(u, w), w) == u
  {
  }

  // ---------------------------------------------------------------------------------------
  // Bitwise operators byte by byte

  function Doubled(x: nat, k: nat): nat {
    if k == 0 then x else 2 * Doubled(x, k - 1)
  }

  lemma {:induction false} OrDoubled(a: nat, b: nat, c: nat, d: nat, k: nat)
    requires a < Pow2(k) && b < Pow2(k)
    ensures Or(a + Doubled(c, k), b + Doubled(d, k)) == Or(a, b) + Doubled(Or(c, d), k)
    decreases k
  {
    if k == 0 {
      OrZero(0);
    } else {
      OrDoubled(a / 2, b / 2, c, d, k - 1);
      OrSplitStep(a, b, Doubled(c, k - 1), Doubled(d, k - 1), Doubled(Or(c, d), k - 1));
    }
  }

  lemma Doubled8(x: nat)
    ensures Doubled(x, 8) == 256 * x
  {
    assert Doubled(x, 1) == 2 * Doubled(x, 0);
    assert Doubled(x, 2) == 2 * Doubled(x, 1);
    assert Doubled(x, 3) == 2 * Doubled(x, 2);
    assert Doubled(x, 4) == 2 * Doubled(x, 3);
    assert Doubled(x, 5) == 2 * Doubled(x, 4);
    assert Doubled(x, 6) == 2 * Doubled(x, 5);
    assert Doubled(x, 7) == 2 * Doubled(x, 6);
    assert Doubled(x, 8) == 2 * Doubled(x, 7);
  }

  /** Or works byte by byte. */
  lemma OrSplit(a: Byte, b: Byte, c: nat, d: nat)
    ensures Or(a + 256 * c, b + 256 * d) == Or(a, b) + 256 * Or(c, d)
    ensures Or(a, b) < 256
  {
    assert Pow2(8) == 256 by { Pow2Byte(1); }
    Doubled8(c);
    Doubled8(d);
    Doubled8(Or(c, d));
    OrDoubled(a, b, c, d, 8);
    OrBound(a, b, 8);
  }

  lemma {:induction false} OrBound(a: nat, b: nat, k: nat)
    requires a < Pow2(k) && b < Pow2(k)
    ensures Or(a, b) < Pow2(k)
    decreases k
  {
    if k > 0 {
      OrBound(a / 2, b / 2, k - 1);
      OrStep(a, b);
    } else {
      OrZero(0);
    }
  }

  lemma OrSplitStep(a: nat, b: nat, x: nat, y: nat, z: nat)
    requires Or(a / 2 + x, b / 2 + y) == Or(a / 2, b / 2) + z
    ensures Or(a + 2 * x, b + 2 * y) == Or(a, b) + 2 * z
  {
    HalfOfSum(a, x);
    HalfOfSum(b, y);
    OrStep(a + 2 * x, b + 2 * y);
    OrStep(a, b);
  }

  lemma OrStep(a: nat, b: nat)
    ensures Or(a, b) == (if a % 2 == 1 || b % 2 == 1 then 1 else 0) + 2 * Or(a / 2, b / 2)
  {
  }

  lemma HalfOfSum(a: nat, x: nat)
    ensures (a + 2 * x) / 2 == a / 2 + x && (a + 2 * x) % 2 == a % 2
  {
  }

  lemma AndSplitStep(a: nat, b: nat, x: nat, y: nat, z: nat)
    requires And(a / 2 + x, b / 2 + y) == And(a / 2, b / 2) + z
    ensures And(a + 2 * x, b + 2 * y) == And(a, b) + 2 * z
  {
    HalfOfSum(a, x);
    HalfOfSum(b, y);
    AndStep(a + 2 * x, b + 2 * y);
    AndStep(a, b);
  }

  lemma {:induction false} AndDoubled(a: nat, b: nat, c: nat, d: nat, k: nat)
    requires a < Pow2(k) && b < Pow2(k)
    ensures And(a + Doubled(c, k), b + Doubled(d, k)) == And(a, b) + Doubled(And(c, d), k)
    decreases k
  {
    hide And;
    if k == 0 {
      AndZero();
    } else {
      AndDoubled(a / 2, b / 2, c, d, k - 1);
      AndSplitStep(a, b, Doubled(c, k - 1), Doubled(d, k - 1), Doubled(And(c, d), k - 1));
    }
  }

  lemma {:induction false} AndBound(a: nat, b: nat, k: nat)
    requires a < Pow2(k) && b < Pow2(k)
    ensures And(a, b) < Pow2(k)
    decreases k
  {
    if k > 0 {
      AndBound(a / 2, b / 2, k - 1);
      AndStep(a, b);
    }
  }

  /** And works byte by byte. */
  lemma AndSplit(a: Byte, b: Byte, c: nat, d: nat)
    ensures And(a + 256 * c, b + 256 * d) == And(a, b) + 256 * And(c, d)
    ensures And(a, b) < 256
  {
    assert Pow2(8) == 256 by { Pow2Byte(1); }
    Doubled8(c);
    Doubled8(d);
    Doubled8(And(c, d));
    AndDoubled(a, b, c, d, 8);
    AndBound(a, b, 8);
  }

  lemma PopStep(a: nat)
    ensures PopCount(a) == a % 2 + PopCount(a / 2)
  {
  }

  lemma {:induction false} PopDoubled(a: nat, c: nat, k: nat)
    requires a < Pow2(k)
    ensures PopCount(a + Doubled(c, k)) == PopCount(a) + PopCount(c)
    decreases k
  {
    if k > 0 {
      PopDoubled(a / 2, c, k - 1);
      HalfOfSum(a, Doubled(c, k - 1));
      PopStep(a + Doubled(c, k));
      PopStep(a);
    }
  }

  // ---------------------------------------------------------------------------------------
  // Byte swapping commutes with the bitwise operators

  function OrEach(s: seq<Byte>, t: seq<Byte>): (r: seq<Byte>)
    requires |s| == |t|
    ensures |r| == |s| && forall i :: 0 <= i < |s| ==> r[i] == Or(s[i], t[i])
  {
    if s == [] then [] else OrSplit(s[0], t[0], 0, 0); [Or(s[0], t[0])] + OrEach(s[1..], t[1..])
  }

  function AndEach(s: seq<Byte>, t: seq<Byte>): (r: seq<Byte>)
    requires |s| == |t|
    ensures |r| == |s| && forall i :: 0 <= i < |s| ==> r[i] == And(s[i], t[i])
  {
    if s == [] then [] else AndSplit(s[0], t[0], 0, 0); [And(s[0], t[0])] + AndEach(s[1..], t[1..])
  }

  function NotEach(s: seq<Byte>): (r: seq<Byte>)
    ensures |r| == |s| && forall i :: 0 <= i < |s| ==> r[i] == 255 - s[i]
  {
    if s == [] then [] else [255 - s[0]] + NotEach(s[1..])
  }

  lemma {:induction false} OrBytes(s: seq<Byte>, t: seq<Byte>)
    requires |s| == |t|
    ensures FromLE(OrEach(s, t)) == Or(FromLE(s), FromLE(t))
  {
    hide Or;
    if s == [] {
      OrZero(0);
    } else {
      OrBytes(s[1..], t[1..]);
      OrSplit(s[0], t[0], FromLE(s[1..]), FromLE(t[1..]));
      assert OrEach(s, t)[1..] == OrEach(s[1..], t[1..]);
    }
  }

  lemma {:induction false} AndBytes(s: seq<Byte>, t: seq<Byte>)
    requires |s| == |t|
    ensures FromLE(AndEach(s, t)) == And(FromLE(s), FromLE(t))
  {
    hide And;
    if s == [] {
      AndZero();
    } else {
      AndBytes(s[1..], t[1..]);
      AndSplit(s[0], t[0], FromLE(s[1..]), FromLE(t[1..]));
      assert AndEach(s, t)[1..] == AndEach(s[1..], t[1..]);
    }
  }

  lemma AndZero()
    ensures And(0, 0) == 0
  {
  }

  lemma {:induction false} NotBytesSum(s: seq<Byte>)
    ensures FromLE(s) + FromLE(NotEach(s)) + 1 == Pow2(8 * |s|)
  {
    if s != [] {
      hide Pow2, NotEach, FromLE;
      NotBytesSum(s[1..]);
      Pow2Byte(|s|);
      FromLEStep(s);
      FromLEStep(NotEach(s));
      assert NotEach(s)[1..] == NotEach(s[1..]);
      assert NotEach(s)[0] == 255 - s[0];
    }
  }

  lemma NotBytes(s: seq<Byte>)
    ensures FromLE(s) < Pow2(8 * |s|) && FromLE(NotEach(s)) == Not(FromLE(s), 8 * |s|)
  {
    hide Pow2, NotEach, FromLE;
    NotBytesSum(s);
  }

  lemma FromLEStep(s: seq<Byte>)
    requires s != []
    ensures FromLE(s) == s[0] + 256 * FromLE(s[1..])
  {
  }

  lemma SwapOr(v: nat, u: nat, n: nat)
    requires v < Pow2(8 * n) && u < Pow2(8 * n)
    ensures Bswap(Or(v, u), n) == Or(Bswap(v, n), Bswap(u, n))
    ensures Or(v, u) < Pow2(8 * n)
  {
    hide Or, FromLE, ToLE, Pow2;
    var s, t := ToLE(v, n), ToLE(u, n);
    LERoundTrip(v, n);
    LERoundTrip(u, n);
    OrBytes(s, t);
    LEOnto(OrEach(s, t));
    OrBytes(Reversed(s), Reversed(t));
    assert Reversed(OrEach(s, t)) == OrEach(Reversed(s), Reversed(t));
  }

  lemma SwapAnd(v: nat, u: nat, n: nat)
    requires v < Pow2(8 * n) && u < Pow2(8 * n)
    ensures Bswap(And(v, u), n) == And(Bswap(v, n), Bswap(u, n))
    ensures And(v, u) < Pow2(8 * n)
  {
    hide And, FromLE, ToLE, Pow2;
    var s, t := ToLE(v, n), ToLE(u, n);
    LERoundTrip(v, n);
    LERoundTrip(u, n);
    AndBytes(s, t);
    LEOnto(AndEach(s, t));
    AndBytes(Reversed(s), Reversed(t));
    assert Reversed(AndEach(s, t)) == AndEach(Reversed(s), Reversed(t));
  }

  lemma SwapNot(v: nat, n: nat)
    requires v < Pow2(8 * n)
    ensures Bswap(v, n) < Pow2(8 * n)
    ensures Bswap(Not(v, 8 * n), n) == Not(Bswap(v, n), 8 * n)
  {
    hide FromLE, ToLE, Pow2, NotEach, Reversed;
    var s := ToLE(v, n);
    LERoundTrip(v, n);
    NotBytes(s);
    LEOnto(NotEach(s));
    NotBytes(Reversed(s));
    assert Reversed(NotEach(s)) == NotEach(Reversed(s));
  }

  function CountEach(s: seq<Byte>): nat {
    if s == [] then 0 else PopCount(s[0]) + CountEach(s[1..])
  }

  lemma {:induction false} CountBytes(s: seq<Byte>)
    ensures PopCount(FromLE(s)) == CountEach(s)
  {
    hide PopCount;
    if s == [] {
      PopCountOnes(0);
    } else {
      CountBytes(s[1..]);
      assert Pow2(8) == 256 by { Pow2Byte(1); }
      Doubled8(FromLE(s[1..]));
      PopDoubled(s[0], FromLE(s[1..]), 8);
    }
  }

  lemma {:induction false} CountAppend(s: seq<Byte>, b: Byte)
    ensures CountEach(s + [b]) == CountEach(s) + PopCount(b)
  {
    hide PopCount;
    if s == [] {
      assert [b][1..] == [] && s + [b] == [b];
    } else {
      CountAppend(s[1..], b);
      assert (s + [b])[1..] == s[1..] + [b];
    }
  }

  lemma {:induction false} CountReversed(s: seq<Byte>)
    ensures CountEach(Reversed(s)) == CountEach(s)
  {
    hide PopCount;
    if s != [] {
      CountReversed(s[1..]);
      CountAppend(Reversed(s[1..]), s[0]);
    }
  }

  /** Byte order does not change the number of one bits. */
  lemma SwapCount(v: nat, n: nat)
    requires v < Pow2(8 * n)
    ensures PopCount(Bswap(v, n)) == PopCount(v)
  {
    hide PopCount, FromLE, ToLE, Reversed, Pow2;
    LERoundTrip(v, n);
    CountBytes(ToLE(v, n));
    CountBytes(Reversed(ToLE(v, n)));
    CountReversed(ToLE(v, n));
  }
}
