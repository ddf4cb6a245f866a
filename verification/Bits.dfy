// C's bitwise operators on n-bit unsigned numbers, digit by digit.
module Bits {
  function Pow2(n: nat): (p: nat)
    ensures p >= 1
  {
    if n == 0 then 1 else 2 * Pow2(n - 1)
  }

  predicate Bit(a: nat, k: nat) {
    if k == 0 then a % 2 == 1 else Bit(a / 2, k - 1)
  }

  function Digit(b: bool): nat {
    if b then 1 else 0
  }

  function Or(a: nat, b: nat, n: nat): (r: nat)
    ensures r < Pow2(n)
  {
    if n == 0 then 0 else 2 * Or(a / 2, b / 2, n - 1) + Digit(a % 2 == 1 || b % 2 == 1)
  }

  function And(a: nat, b: nat, n: nat): (r: nat)
    ensures r < Pow2(n)
  {
    if n == 0 then 0 else 2 * And(a / 2, b / 2, n - 1) + Digit(a % 2 == 1 && b % 2 == 1)
  }

  function Xor(a: nat, b: nat, n: nat): (r: nat)
    ensures r < Pow2(n)
  {
    if n == 0 then 0 else 2 * Xor(a / 2, b / 2, n - 1) + Digit((a % 2 == 1) != (b % 2 == 1))
  }

  function Not(a: nat, n: nat): (r: nat)
    ensures r < Pow2(n)
  {
    if n == 0 then 0 else 2 * Not(a / 2, n - 1) + Digit(a % 2 == 0)
  }

  lemma {:induction false} OrBit(a: nat, b: nat, n: nat, k: nat)
    requires k < n
    ensures Bit(Or(a, b, n), k) == (Bit(a, k) || Bit(b, k))
  {
    if k > 0 {
      OrBit(a / 2, b / 2, n - 1, k - 1);
    }
  }

  lemma {:induction false} OrZero(a: nat, n: nat)
    requires a < Pow2(n)
    ensures Or(a, 0, n) == a
  {
    if n > 0 {
      OrZero(a / 2, n - 1);
    }
  }

  // Numbers whose digits do not overlap are put together.
  lemma {:induction false} OrJoins(high: nat, low: nat, k: nat, n: nat)
    requires low < Pow2(k) && high * Pow2(k) < Pow2(n) && k <= n
    ensures Or(high * Pow2(k), low, n) == high * Pow2(k) + low
  {
    if k == 0 {
      OrZero(high, n);
    } else {
      assert high * Pow2(k) == 2 * (high * Pow2(k - 1));
      OrJoins(high, low / 2, k - 1, n - 1);
    }
  }

  lemma {:induction false} AndBit(a: nat, b: nat, n: nat, k: nat)
    requires k < n
    ensures Bit(And(a, b, n), k) == (Bit(a, k) && Bit(b, k))
  {
    if k > 0 {
      AndBit(a / 2, b / 2, n - 1, k - 1);
    }
  }

  lemma {:induction false} NotBit(a: nat, n: nat, k: nat)
    requires k < n
    ensures Bit(Not(a, n), k) == !Bit(a, k)
  {
    if k > 0 {
      NotBit(a / 2, n - 1, k - 1);
    }
  }

  lemma {:induction false} XorBit(a: nat, b: nat, n: nat, k: nat)
    requires k < n
    ensures Bit(Xor(a, b, n), k) == (Bit(a, k) != Bit(b, k))
  {
    if k > 0 {
      XorBit(a / 2, b / 2, n - 1, k - 1);
    }
  }

  // The complement of an n-bit number
  lemma {:induction false} NotIs(a: nat, n: nat)
    requires a < Pow2(n)
    ensures Not(a, n) == Pow2(n) - 1 - a
  {
    if n > 0 {
      NotIs(a / 2, n - 1);
    }
  }

  // A number has no digits beyond its width.
  lemma {:induction false} BeyondWidth(a: nat, n: nat, k: nat)
    requires a < Pow2(n) && n <= k
    ensures !Bit(a, k)
  {
    if n > 0 {
      BeyondWidth(a / 2, n - 1, k - 1);
    } else {
      ZeroBit(k);
    }
  }

  // Multiplying and dividing by a power of two move the digits; taking the remainder cuts them off.
  lemma {:induction false} ShiftLeftBit(a: nat, n: nat, k: nat)
    ensures Bit(a * Pow2(n), k) == (n <= k && Bit(a, k - n))
  {
    if n > 0 {
      assert a * Pow2(n) == 2 * (a * Pow2(n - 1));
      if k > 0 {
        ShiftLeftBit(a, n - 1, k - 1);
      }
    }
  }

  function ShiftRight(a: nat, n: nat): nat {
    if n == 0 then a else ShiftRight(a / 2, n - 1)
  }

  lemma {:induction false} ShiftRightBit(a: nat, n: nat, k: nat)
    ensures Bit(ShiftRight(a, n), k) == Bit(a, k + n)
  {
    if n > 0 {
      ShiftRightBit(a / 2, n - 1, k);
    }
  }

  lemma {:induction false} ShiftRightIs(a: nat, n: nat)
    ensures a / Pow2(n) == ShiftRight(a, n)
  {
    if n > 0 {
      ShiftRightIs(a / 2, n - 1);
      DividedTwice(a, Pow2(n - 1));
    }
  }

  lemma DividedTwice(a: nat, p: nat)
    requires p > 0
    ensures a / 2 / p == a / (2 * p)
  {
    var q, r := a / 2 / p, a / 2 % p;
    Halved(a, p, q, r);
  }

  // Halving a number and dividing the rest
  lemma Halved(a: nat, p: nat, q: nat, r: nat)
    requires a / 2 == p * q + r && r < p
    ensures a / (2 * p) == q && a % (2 * p) == 2 * r + a % 2
  {
    assert a == 2 * p * q + (2 * r + a % 2);
    QuotientIs(a, 2 * p, q, 2 * r + a % 2);
  }

  lemma QuotientIs(a: nat, d: nat, q: nat, r: nat)
    requires r < d && a == d * q + r
    ensures a / d == q && a % d == r
  {
    var x: int, rest: int := a / d, a % d;
    assert d * (x - q as int) == r as int - rest;
    SmallMultiple(d, x - q as int);
  }

  lemma SmallMultiple(d: int, x: int)
    requires -d < d * x < d
    ensures x == 0
  {
  }

  lemma {:induction false} RemainderBit(a: nat, n: nat, k: nat)
    requires k < n
    ensures Bit(a % Pow2(n), k) == Bit(a, k)
  {
    RemainderHalves(a, Pow2(n - 1));
    if k > 0 {
      RemainderBit(a / 2, n - 1, k - 1);
    }
  }

  lemma RemainderHalves(a: nat, p: nat)
    requires p > 0
    ensures a % (2 * p) % 2 == a % 2 && a % (2 * p) / 2 == a / 2 % p
  {
    var q, r := a / 2 / p, a / 2 % p;
    Halved(a, p, q, r);
  }

  lemma {:induction false} Pow2Bit(j: nat, k: nat)
    ensures Bit(Pow2(j), k) == (j == k)
  {
    if j == 0 {
      ZeroBit(k - if k == 0 then 0 else 1);
    } else if k > 0 {
      Pow2Bit(j - 1, k - 1);
    }
  }

  lemma {:induction false} ZeroBit(k: nat)
    ensures !Bit(0, k)
  {
    if k > 0 {
      ZeroBit(k - 1);
    }
  }

  // Masking with 1 << k leaves that bit in place and nothing else.
  lemma {:induction false} AndPow2(a: nat, k: nat, n: nat)
    requires k < n
    ensures And(a, Pow2(k), n) == if Bit(a, k) then Pow2(k) else 0
  {
    if k == 0 {
      AndZero(a / 2, n - 1);
    } else {
      AndPow2(a / 2, k - 1, n - 1);
    }
  }

  lemma {:induction false} AndZero(a: nat, n: nat)
    ensures And(a, 0, n) == 0
  {
    if n > 0 {
      AndZero(a / 2, n - 1);
    }
  }

  lemma {:induction false} Pow2Monotone(j: nat, k: nat)
    requires j <= k
    ensures Pow2(j) <= Pow2(k)
  {
    if j < k {
      Pow2Monotone(j, k - 1);
    }
  }

  lemma WordWidth()
    ensures Pow2(32) == 0x1_0000_0000
  {
    assert Pow2(8) == 0x100;
    assert Pow2(16) == 0x1_0000;
    assert Pow2(24) == 0x100_0000;
  }
}
