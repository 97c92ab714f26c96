/** Machine words as natural numbers, with the bitwise operators defined bit by bit. */
module Bits {
  import opened Arithmetic

  function Pow2(k: nat): (p: nat)
    ensures 0 < p
  {
    if k == 0 then 1 else 2 * Pow2(k - 1)
  }

  function And(a: nat, b: nat): nat {
    if a == 0 || b == 0 then 0
    else (if a % 2 == 1 && b % 2 == 1 then 1 else 0) + 2 * And(a / 2, b / 2)
  }

  function Or(a: nat, b: nat): nat
    decreases a + b
  {
    if a == 0 && b == 0 then 0
    else (if a % 2 == 1 || b % 2 == 1 then 1 else 0) + 2 * Or(a / 2, b / 2)
  }

  function Xor(a: nat, b: nat): nat
    decreases a + b
  {
    if a == 0 && b == 0 then 0
    else (if a % 2 != b % 2 then 1 else 0) + 2 * Xor(a / 2, b / 2)
  }

  /** Complement in a w-bit word. */
  function Not(a: nat, w: nat): nat
    requires a < Pow2(w)
  {
    Pow2(w) - 1 - a
  }

  /** Left shift in a w-bit word: the bits pushed out are lost. */
  function Shl(a: nat, n: nat, w: nat): nat {
    (a * Pow2(n)) % Pow2(w)
  }

  /** Number of one bits. */
  function PopCount(a: nat): nat {
    if a == 0 then 0 else a % 2 + PopCount(a / 2)
  }

  lemma {:induction false} Pow2Sum(a: nat, b: nat)
    ensures Pow2(a + b) == Pow2(a) * Pow2(b)
  {
    if a > 0 {
      Pow2Sum(a - 1, b);
      MulAssociates(2, Pow2(a - 1), Pow2(b));
    }
  }

  lemma {:induction false} Pow2Order(a: nat, b: nat)
    requires a <= b
    ensures Pow2(a) <= Pow2(b)
    ensures a < b ==> Pow2(a) < Pow2(b)
    decreases b
  {
    if a < b {
      Pow2Order(a, b - 1);
    }
  }

  lemma AndStep(a: nat, b: nat)
    ensures And(a, b) == (if a % 2 == 1 && b % 2 == 1 then 1 else 0) + 2 * And(a / 2, b / 2)
  {
  }

  lemma OrStep(a: nat, b: nat)
    ensures Or(a, b) == (if a % 2 == 1 || b % 2 == 1 then 1 else 0) + 2 * Or(a / 2, b / 2)
  {
  }

  lemma OddHalf(m: nat)
    requires 0 < m
    ensures (2 * m - 1) / 2 == m - 1 && (2 * m - 1) % 2 == 1
  {
  }

  lemma ModZero(a: nat, k: nat)
    requires k == 0 || a == 0
    ensures a % Pow2(k) == 0 && And(a, Pow2(k) - 1) == 0
  {
    if a == 0 {
      ModUnique(0, Pow2(k), 0, 0);
    }
  }

  lemma AndOdd(a: nat, m: nat)
    requires 0 < m
    ensures And(a, 2 * m - 1) == a % 2 + 2 * And(a / 2, m - 1)
  {
    AndStep(a, 2 * m - 1);
    OddHalf(m);
    hide And;
  }

  lemma AndMaskStep(a: nat, m: nat)
    requires 0 < m && And(a / 2, m - 1) == (a / 2) % m
    ensures And(a, 2 * m - 1) == a % (2 * m)
  {
    hide And;
    AndOdd(a, m);
    DoubleMod(a, m);
  }

  lemma {:induction false} AndMask(a: nat, k: nat)
    ensures And(a, Pow2(k) - 1) == a % Pow2(k)
  {
    hide And;
    if k > 0 && a > 0 {
      AndMask(a / 2, k - 1);
      AndMaskStep(a, Pow2(k - 1));
    } else {
      ModZero(a, k);
    }
  }

  lemma {:induction false} OrZero(a: nat)
    ensures Or(a, 0) == a && Or(0, a) == a
    decreases a
  {
    if a > 0 {
      OrZero(a / 2);
    }
  }

  /** Or-ing disjoint bits is adding. */
  lemma {:induction false} OrDisjoint(a: nat, b: nat, k: nat)
    requires a < Pow2(k)
    ensures Or(a, b * Pow2(k)) == a + b * Pow2(k)
    decreases k
  {
    if k == 0 {
      OrZero(b);
    } else {
      var m := Pow2(k - 1);
      assert b * (2 * m) == 2 * (b * m);
      OrDisjoint(a / 2, b, k - 1);
      assert (b * Pow2(k)) / 2 == b * m && (b * Pow2(k)) % 2 == 0;
    }
  }

  lemma OrOdd(a: nat, m: nat)
    requires 0 < m
    ensures Or(a, 2 * m - 1) == 1 + 2 * Or(a / 2, m - 1)
  {
    OrStep(a, 2 * m - 1);
    OddHalf(m);
    hide Or;
  }

  lemma OrMaskStep(a: nat, m: nat)
    requires 0 < m && Or(a / 2, m - 1) == a / 2 - (a / 2) % m + (m - 1)
    ensures Or(a, 2 * m - 1) == a - a % (2 * m) + (2 * m - 1)
  {
    hide Or;
    OrOdd(a, m);
    DoubleMod(a, m);
    Decompose(a, 2);
  }

  lemma {:induction false} OrMask(a: nat, k: nat)
    ensures Or(a, Pow2(k) - 1) == a - a % Pow2(k) + (Pow2(k) - 1)
    decreases k
  {
    hide Or;
    if k == 0 {
      OrZero(a);
    } else {
      OrMask(a / 2, k - 1);
      OrMaskStep(a, Pow2(k - 1));
    }
  }

  lemma {:induction false} XorZero(a: nat)
    ensures Xor(a, 0) == a
    decreases a
  {
    if a > 0 {
      XorZero(a / 2);
    }
  }

  lemma {:induction false} XorOnes(a: nat, w: nat)
    requires a < Pow2(w)
    ensures Xor(a, Pow2(w) - 1) == Pow2(w) - 1 - a
    decreases w
  {
    if w > 0 {
      var m := Pow2(w - 1);
      OddHalf(m);
      XorOnes(a / 2, w - 1);
    }
  }

  /** Clearing the lowest one bit lowers the count by one. */
  lemma {:induction false} ClearLowest(a: nat)
    requires 0 < a
    ensures PopCount(And(a, a - 1)) == PopCount(a) - 1
    ensures And(a, a - 1) < a
  {
    if a % 2 == 1 {
      assert (a - 1) / 2 == a / 2;
      AndSelf(a / 2);
      assert And(a, a - 1) == 2 * (a / 2);
      assert PopCount(2 * (a / 2)) == PopCount(a / 2) by {
        if a / 2 > 0 {
          assert (2 * (a / 2)) / 2 == a / 2;
        }
      }
    } else {
      ClearLowest(a / 2);
      assert (a - 1) / 2 == a / 2 - 1;
      var b := And(a / 2, a / 2 - 1);
      assert And(a, a - 1) == 2 * b;
      if b > 0 {
        assert (2 * b) / 2 == b && (2 * b) % 2 == 0;
      }
    }
  }

  lemma {:induction false} AndSelf(a: nat)
    ensures And(a, a) == a
  {
    if a > 0 {
      AndSelf(a / 2);
    }
  }

  lemma PopCountTwice(y: nat)
    ensures PopCount(2 * y) == PopCount(y)
  {
    assert (2 * y) / 2 == y && (2 * y) % 2 == 0;
  }

  lemma TwiceProduct(x: nat, m: nat)
    ensures x * (2 * m) == 2 * (x * m)
  {
  }

  /** Trailing zeros do not count. */
  lemma {:induction false} PopCountShift(x: nat, z: nat)
    ensures PopCount(x * Pow2(z)) == PopCount(x)
  {
    hide PopCount;
    if z == 0 {
      assert x * Pow2(0) == x;
    } else {
      PopCountShift(x, z - 1);
      TwiceProduct(x, Pow2(z - 1));
      PopCountTwice(x * Pow2(z - 1));
      assert Pow2(z) == 2 * Pow2(z - 1);
      hide *;
    }
  }

  /** A block of p ones has p ones. */
  lemma {:induction false} PopCountOnes(p: nat)
    ensures PopCount(Pow2(p) - 1) == p
  {
    if p > 0 {
      PopCountOnes(p - 1);
      var m := Pow2(p - 1);
      OddHalf(m);
    }
  }
}
