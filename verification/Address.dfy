/** IPv4 prefix arithmetic.  An address is the 32-bit word stored in the socket address, in
    network byte order whatever the host is. */
module Ipv4 {
  import opened Arithmetic
  import opened Wrappers
  import opened Flat
  import opened Bits
  import opened Words

  const WIDTH: nat := 32
  const BYTES: nat := 4

  type Word = x: nat | x < 0x1_0000_0000

  /** A result, the null pointer the source returns, or a mask it computes with a shift whose
      result C++ does not define. */
  datatype Prefixed = Address(word: Word) | Null | Undefined

  lemma WordBound()
    ensures Pow2(WIDTH) == 0x1_0000_0000
  {
    assert Pow2(4) == 16;
    hide Pow2;
    Pow2Sum(4, 4);
    Pow2Sum(8, 8);
    Pow2Sum(16, 16);
  }

  /** byteswapOnLittleEndian on 32 bits: between the stored word and the host's number. */
  function Swapped(host: Endian, v: Word): (r: Word) {
    WordBound();
    BswapInvolution(v, BYTES);
    if host == LITTLE then Bswap(v, BYTES) else v
  }

  // CreateMask<uint32_t>: (1 << (sizeof(T) * 8 - bits)) - 1.  The difference is an unsigned
  // 64-bit one, the shift and the subtraction are those of a signed 32-bit int.

  const SIZE_MODULUS: nat := 0x1_0000_0000_0000_0000
  const INT_MIN: int := -0x8000_0000

  type Int = x: int | INT_MIN <= x < 0x8000_0000

  /** 1 << n: not defined for a shift by the width or more; a one shifted into the sign bit is
      the most negative int. */
  function ShiftedOne(n: nat): Option<Int> {
    if n >= WIDTH then None
    else if n == WIDTH - 1 then Some(INT_MIN)
    else
      Pow2Order(n, WIDTH - 2);
      IntBound();
      Some(Pow2(n))
  }

  lemma IntBound()
    ensures Pow2(WIDTH - 2) == 0x4000_0000
  {
    WordBound();
    assert Pow2(WIDTH) == 4 * Pow2(WIDTH - 2);
  }

  /** x - 1: not defined for the most negative int. */
  function Decremented(x: Int): Option<Int> {
    if x == INT_MIN then None else Some(x - 1)
  }

  /** The mask, or None where the computation is not defined. */
  function CreateMask(bits: Word): Option<Word> {
    var shift := (WIDTH - bits) % SIZE_MODULUS;
    match ShiftedOne(shift)
    case None => None
    case Some(x) =>
      match Decremented(x)
      case None => None
      case Some(y) => Some(y % 0x1_0000_0000)
  }

  /** The mask is defined exactly for 2 to 32 bits - one bit overflows the int, none shifts by its
      width, and more than 32 wrap to a huge shift - and has ones in just the bits behind the
      prefix. */
  lemma MaskExact(bits: Word)
    ensures CreateMask(bits).Some? <==> 2 <= bits <= 32
    ensures 2 <= bits <= 32 ==> CreateMask(bits) == Some(Pow2(WIDTH - bits) - 1)
  {
    if bits <= 32 {
      assert (WIDTH - bits) % SIZE_MODULUS == WIDTH - bits;
    } else {
      assert (WIDTH - bits) % SIZE_MODULUS == SIZE_MODULUS + WIDTH - bits;
    }
    if 2 <= bits <= 32 {
      IntBound();
      Pow2Order(WIDTH - bits, WIDTH - 2);
    }
  }

  function GetBroadcastAddr(host: Endian, addr: Word, prefix: Word): Prefixed {
    if prefix > WIDTH then Null
    else
      match CreateMask(prefix)
      case None => Undefined
      case Some(mask) => Address(WordOr(addr, Swapped(host, mask)))
  }

  function GetNetworkAddr(host: Endian, addr: Word, prefix: Word): Prefixed {
    if prefix > WIDTH then Null
    else
      match CreateMask(prefix)
      case None => Undefined
      case Some(mask) => Address(WordAnd(addr, Swapped(host, WordNot(mask))))
  }

  function GetSubnetMask(host: Endian, prefix: Word): Prefixed {
    match CreateMask(prefix)
    case None => Undefined
    case Some(mask) => Address(WordNot(Swapped(host, mask)))
  }

  // The operators on 32-bit words.

  function WordOr(a: Word, b: Word): Word {
    WordBound();
    OrBound(a, b, WIDTH);
    Or(a, b)
  }

  function WordAnd(a: Word, b: Word): Word {
    WordBound();
    AndBound(a, b, WIDTH);
    And(a, b)
  }

  function WordNot(a: Word): Word { 0xffff_ffff - a }

  /** The number an address is, by its four bytes as they lie in memory: the first is the highest. */
  function Number(host: Endian, word: Word): Word {
    var m := InMemory(host, word, BYTES);
    Dotted(m[0], m[1], m[2], m[3])
  }

  /** The number written a.b.c.d. */
  function Dotted(a: int, b: int, c: int, d: int): int { ((a * 256 + b) * 256 + c) * 256 + d }

  /** The conditional swap gives that number, on either kind of host. */
  lemma SwappedNumber(host: Endian, word: Word)
    ensures Swapped(host, word) == Number(host, word)
  {
    WordBound();
    var m, r := InMemory(host, word, BYTES), Reversed(InMemory(host, word, BYTES));
    FourBytes(r);
    assert Dotted(m[0], m[1], m[2], m[3]) == Dotted(r[3], r[2], r[1], r[0]);
    hide Pow2, Dotted, ToLE, FromLE;
    if host == LITTLE {
      assert Bswap(word, BYTES) == FromLE(r);
    } else {
      ReversedTwice(ToLE(word, BYTES));
      assert r == ToLE(word, BYTES);
      LERoundTrip(word, BYTES);
    }
  }

  lemma FourBytes(s: seq<Byte>)
    requires |s| == 4
    ensures FromLE(s) == Dotted(s[3], s[2], s[1], s[0])
  {
    assert FromLE(s[3..]) == s[3] + 256 * FromLE(s[4..]);
    assert s[2..][1..] == s[3..] && s[1..][1..] == s[2..];
    assert FromLE(s[2..]) == s[2] + 256 * FromLE(s[3..]);
    assert FromLE(s[1..]) == s[1] + 256 * FromLE(s[2..]);
  }

  /** Byte swapping undoes itself and commutes with the masking: or, and, complement. */
  lemma SwapCommutes(host: Endian, a: Word, b: Word)
    ensures Swapped(host, Swapped(host, a)) == a
    ensures Swapped(host, WordOr(a, b)) == WordOr(Swapped(host, a), Swapped(host, b))
    ensures Swapped(host, WordAnd(a, b)) == WordAnd(Swapped(host, a), Swapped(host, b))
    ensures Swapped(host, WordNot(a)) == WordNot(Swapped(host, a))
  {
    WordBound();
    hide Or, And, Bswap, Pow2;
    BswapInvolution(a, BYTES);
    SwapOr(a, b, BYTES);
    SwapAnd(a, b, BYTES);
    SwapNot(a, BYTES);
  }

  /** Masking off the low k bits. */
  lemma {:induction false} AndHigh(a: nat, k: nat, w: nat)
    requires a < Pow2(w) && k <= w
    ensures Pow2(k) <= Pow2(w) && And(a, Pow2(w) - Pow2(k)) == a - a % Pow2(k)
    decreases k
  {
    hide And;
    Pow2Order(k, w);
    if k == 0 {
      AndAll(a, w);
    } else {
      AndHigh(a / 2, k - 1, w - 1);
      AndHighStep(a, Pow2(k - 1), Pow2(w - 1), Pow2(k), Pow2(w));
    }
  }

  lemma AndAll(a: nat, w: nat)
    requires a < Pow2(w)
    ensures And(a, Pow2(w) - Pow2(0)) == a - a % Pow2(0)
  {
    hide And;
    AndMask(a, w);
    ModUnique(a, Pow2(w), 0, a);
    ModUnique(a, 1, a, 0);
  }

  lemma AndHighStep(a: nat, m: nat, n: nat, p: nat, q: nat)
    requires 0 < m <= n && p == 2 * m && q == 2 * n && And(a / 2, n - m) == a / 2 - (a / 2) % m
    ensures And(a, q - p) == a - a % p
  {
    hide And;
    AndEven(a, n - m);
    DoubleMod(a, m);
    Decompose(a, 2);
  }

  lemma AndEven(a: nat, b: nat)
    ensures And(a, 2 * b) == 2 * And(a / 2, b)
  {
    hide And;
    AndStep(a, 2 * b);
    assert (2 * b) / 2 == b && (2 * b) % 2 == 0;
  }

  /** By their bytes in memory, on either kind of host: the network address is the first of the
      address's block and the broadcast address the last, so network <= address <= broadcast,
      and they are 2^(32-p) - 1 apart. */
  lemma PrefixArithmetic(host: Endian, addr: Word, prefix: Word)
    requires 2 <= prefix <= 32
    ensures var a, size := Number(host, addr), Pow2(32 - prefix);
      && GetNetworkAddr(host, addr, prefix).Address? && GetBroadcastAddr(host, addr, prefix).Address?
      && var network := Number(host, GetNetworkAddr(host, addr, prefix).word);
         var broadcast := Number(host, GetBroadcastAddr(host, addr, prefix).word);
         && network == a - a % size && broadcast == network + size - 1
         && network <= a <= broadcast
  {
    PrefixSwapped(host, addr, prefix);
    hide *;
    SwappedNumber(host, addr);
    SwappedNumber(host, GetNetworkAddr(host, addr, prefix).word);
    SwappedNumber(host, GetBroadcastAddr(host, addr, prefix).word);
  }

  /** The same for the swapped words. */
  lemma PrefixSwapped(host: Endian, addr: Word, prefix: Word)
    requires 2 <= prefix <= 32
    ensures var a, size := Swapped(host, addr), Pow2(32 - prefix);
      && GetNetworkAddr(host, addr, prefix).Address? && GetBroadcastAddr(host, addr, prefix).Address?
      && var network := Swapped(host, GetNetworkAddr(host, addr, prefix).word);
         var broadcast := Swapped(host, GetBroadcastAddr(host, addr, prefix).word);
         && network == a - a % size && broadcast == network + size - 1
         && network <= a <= broadcast
  {
    var a, k := Swapped(host, addr), WIDTH - prefix;
    MaskExact(prefix);
    var mask := CreateMask(prefix).value;
    WordBound();
    hide Or, And, Swapped, Pow2, CreateMask;
    SwapCommutes(host, addr, Swapped(host, mask));
    SwapCommutes(host, mask, mask);
    SwapCommutes(host, addr, Swapped(host, WordNot(mask)));
    SwapCommutes(host, WordNot(mask), mask);
    OrMask(a, k);
    AndHigh(a, k, WIDTH);
  }

  /** When the results are addresses at all, and what they are otherwise: the subnet mask is
      computed without the range check of the other two. */
  lemma PrefixRange(host: Endian, addr: Word, prefix: Word)
    ensures GetBroadcastAddr(host, addr, prefix).Address? <==> 2 <= prefix <= 32
    ensures GetNetworkAddr(host, addr, prefix).Address? <==> 2 <= prefix <= 32
    ensures GetSubnetMask(host, prefix).Address? <==> 2 <= prefix <= 32
    ensures prefix < 2 ==> GetBroadcastAddr(host, addr, prefix) == GetNetworkAddr(host, addr, prefix) == Undefined
    ensures 32 < prefix ==> GetBroadcastAddr(host, addr, prefix) == GetNetworkAddr(host, addr, prefix) == Null
  {
    MaskExact(prefix);
  }

  /** Two addresses have one network address, and one broadcast address, exactly when they are
      in the same block. */
  lemma SameBlock(host: Endian, addr: Word, other: Word, prefix: Word)
    requires 2 <= prefix <= 32
    ensures var size := Pow2(32 - prefix);
      var same := Number(host, addr) / size == Number(host, other) / size;
      && (GetNetworkAddr(host, addr, prefix) == GetNetworkAddr(host, other, prefix) <==> same)
      && (GetBroadcastAddr(host, addr, prefix) == GetBroadcastAddr(host, other, prefix) <==> same)
  {
    hide *;
    var a, b, size := Swapped(host, addr), Swapped(host, other), Pow2(32 - prefix);
    SwappedNumber(host, addr);
    SwappedNumber(host, other);
    PrefixSwapped(host, addr, prefix);
    PrefixSwapped(host, other, prefix);
    SwappedInjective(host, GetNetworkAddr(host, addr, prefix).word, GetNetworkAddr(host, other, prefix).word);
    SwappedInjective(host, GetBroadcastAddr(host, addr, prefix).word, GetBroadcastAddr(host, other, prefix).word);
    BlockStart(a, b, size);
  }

  lemma BlockStart(a: nat, b: nat, size: nat)
    requires 0 < size
    ensures a - a % size == b - b % size <==> a / size == b / size
  {
    assert a == (a / size) * size + a % size && b == (b / size) * size + b % size;
    if a / size < b / size {
      MulOrder(a / size + 1, b / size, size);
    } else if b / size < a / size {
      MulOrder(b / size + 1, a / size, size);
    }
  }

  lemma SwappedInjective(host: Endian, a: Word, b: Word)
    ensures Swapped(host, a) == Swapped(host, b) <==> a == b
  {
    SwapCommutes(host, a, a);
    SwapCommutes(host, b, b);
  }

  /** Both operations are idempotent, and each gives the same from the other's result. */
  lemma PrefixIdempotent(host: Endian, addr: Word, prefix: Word)
    requires 2 <= prefix <= 32
    ensures var network, broadcast := GetNetworkAddr(host, addr, prefix), GetBroadcastAddr(host, addr, prefix);
      && network.Address? && broadcast.Address?
      && GetNetworkAddr(host, network.word, prefix) == network == GetNetworkAddr(host, broadcast.word, prefix)
      && GetBroadcastAddr(host, broadcast.word, prefix) == broadcast == GetBroadcastAddr(host, network.word, prefix)
  {
    hide *;
    PrefixArithmetic(host, addr, prefix);
    var n, b := GetNetworkAddr(host, addr, prefix).word, GetBroadcastAddr(host, addr, prefix).word;
    var a, size := Number(host, addr), Pow2(32 - prefix);
    InBlock(a, size, Number(host, n));
    InBlock(a, size, Number(host, b));
    SameBlock(host, n, addr, prefix);
    SameBlock(host, b, addr, prefix);
  }

  lemma InBlock(a: nat, size: nat, x: nat)
    requires 0 < size && a - a % size <= x < a - a % size + size
    ensures x / size == a / size
  {
    ModUnique(x, size, a / size, x - (a - a % size));
  }

  /** CountBitIsOne: clear the lowest one bit until none is left. */
  method CountBitIsOne(value: Word) returns (cnt: nat)
    ensures cnt == PopCount(value)
  {
    cnt := 0;
    var val := value;
    while val != 0
      invariant cnt + PopCount(val) == PopCount(value)
      decreases val
    {
      ClearLowest(val);
      cnt := cnt + 1;
      val := WordAnd(val, val - 1);
    }
  }

  /** Counting the bits of a subnet mask gives the prefix length back, on either kind of host. */
  lemma SubnetMaskCount(host: Endian, prefix: Word)
    requires 2 <= prefix <= 32
    ensures GetSubnetMask(host, prefix).Address? && PopCount(GetSubnetMask(host, prefix).word) == prefix
  {
    MaskExact(prefix);
    var mask, k := CreateMask(prefix).value, WIDTH - prefix;
    WordBound();
    SwapCommutes(host, mask, mask);
    Pow2Sum(prefix, k);
    hide Pow2, PopCount, Bswap, CreateMask;
    OneLess(Pow2(prefix), Pow2(k));
    assert WordNot(mask) == (Pow2(prefix) - 1) * Pow2(k);
    PopCountShift(Pow2(prefix) - 1, k);
    PopCountOnes(prefix);
    SwapCount(WordNot(mask), BYTES);
  }

  /** The subnet mask by its bytes in memory: ones in the leading bits, and zeros behind. */
  lemma SubnetMaskNumber(host: Endian, prefix: Word)
    requires 2 <= prefix <= 32
    ensures GetSubnetMask(host, prefix).Address?
    ensures Number(host, GetSubnetMask(host, prefix).word) == 0x1_0000_0000 - Pow2(32 - prefix)
  {
    MaskExact(prefix);
    var mask := CreateMask(prefix).value;
    hide CreateMask, Number, Pow2, Swapped;
    SwapCommutes(host, mask, mask);
    SwapCommutes(host, Swapped(host, mask), mask);
    SwappedNumber(host, GetSubnetMask(host, prefix).word);
  }

  lemma OneLess(a: nat, b: nat)
    ensures (a - 1) * b == a * b - b
  {
  }

  /** Masking an address with the subnet mask is taking its network address. */
  lemma MaskGivesNetwork(host: Endian, addr: Word, prefix: Word)
    requires 2 <= prefix <= 32
    ensures GetNetworkAddr(host, addr, prefix) == Address(WordAnd(addr, GetSubnetMask(host, prefix).word))
  {
    MaskExact(prefix);
    var mask := CreateMask(prefix).value;
    SwapCommutes(host, mask, mask);
  }
}
