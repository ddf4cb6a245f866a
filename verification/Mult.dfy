// Mult of machine/mipssim.cc: multiplication of two 32-bit registers into a 64-bit result, by
// shifting and adding words.
module Mult {
  import opened Bits
  import opened Bytes

  // The double word with the given halves.
  function Double(hi: word, lo: word): nat {
    hi * 0x1_0000_0000 + lo
  }

  // -x in a 32-bit register: the smallest value stays as it is.
  function Negated(x: int32): int32 {
    if x == -0x8000_0000 then x else -x
  }

  lemma NegatedMagnitude(x: int32)
    requires x < 0
    ensures Unsigned(Negated(x)) + x == 0
  {
  }

  function AddWords(x: word, y: word): word {
    if x + y < 0x1_0000_0000 then x + y else x + y - 0x1_0000_0000
  }

  function Complement(x: word): word {
    0xffff_ffff - x
  }

  // The product of r and x, from the bits of r and repeated doubling of x.
  ghost function ShiftAdd(r: nat, x: nat): nat {
    if r == 0 then 0 else (if r % 2 == 1 then x else 0) + ShiftAdd(r / 2, 2 * x)
  }

  lemma {:induction false} ShiftAddIsProduct(r: nat, x: nat)
    ensures ShiftAdd(r, x) == r * x
  {
    if r > 0 {
      ShiftAddIsProduct(r / 2, 2 * x);
      var h, bit := r / 2, r % 2;
      assert r * x == (2 * h + bit) * x == h * (2 * x) + bit * x;
    }
  }

  lemma ProductFits(a: word, b: word)
    ensures 0 <= ShiftAdd(a, b) == a * b < 0x1_0000_0000_0000_0000
  {
    ShiftAddIsProduct(a, b);
    var d: nat := 0xffff_ffff - b;
    assert a * b + a * d == a * 0xffff_ffff;
    NonNegative(a, d);
  }

  lemma NonNegative(a: nat, b: nat)
    ensures a * b >= 0
  {
  }

  // Adding the shifted value with carry out of the low word.
  method AddDouble(hi: word, lo: word, bHi: word, bLo: word) returns (hi': word, lo': word)
    requires Double(hi, lo) + Double(bHi, bLo) < 0x1_0000_0000_0000_0000
    ensures Double(hi', lo') == Double(hi, lo) + Double(bHi, bLo)
  {
    hi' := hi;
    lo' := AddWords(lo, bLo);
    if lo' < bLo { // the low word has wrapped around
      hi' := AddWords(hi', 1);
    }
    hi' := AddWords(hi', bHi);
  }

  // b shifted left by one.
  method ShiftDouble(bHi: word, bLo: word) returns (bHi': word, bLo': word)
    requires 2 * Double(bHi, bLo) < 0x1_0000_0000_0000_0000
    ensures Double(bHi', bLo') == 2 * Double(bHi, bLo)
  {
    bHi' := bHi * 2;
    if bLo >= 0x8000_0000 {
      bHi' := bHi' + 1;
    }
    bLo' := AddWords(bLo, bLo);
  }

  // The main loop, on magnitudes: bit by bit of the multiplier as a register holds it, with an
  // arithmetic shift, so that a set sign bit keeps being shifted in.
  method MultiplyWords(multiplier: int32, multiplicand: word) returns (hi: word, lo: word)
    ensures Double(hi, lo) == ShiftAdd(Unsigned(multiplier), multiplicand)
  {
    var a: int := multiplier;
    var bLo, bHi := multiplicand, 0;
    lo, hi := 0, 0;
    ghost var product, r: nat := ShiftAdd(Unsigned(multiplier), multiplicand), Unsigned(multiplier);
    assert product < 0x1_0000_0000_0000_0000 by {
      ProductFits(Unsigned(multiplier), multiplicand);
    }
    WordWidth();
    for i := 0 to 32
      invariant r < Pow2(32 - i) && a == if multiplier < 0 then r - Pow2(32 - i) else r
      invariant Double(bHi, bLo) < Pow2(32 + i)
      invariant Double(hi, lo) + ShiftAdd(r, Double(bHi, bLo)) == product
    {
      DoubleFits(i);
      HalveRest(multiplier < 0, a, r, i);
      ShiftAddStep(r, Double(bHi, bLo));
      if a % 2 == 1 {
        hi, lo := AddDouble(hi, lo, bHi, bLo);
        if a == 0 || a == 1 { // no bit but the last is set
          return;
        }
      }
      bHi, bLo := ShiftDouble(bHi, bLo);
      a, r := a / 2, r / 2;
    }
  }

  lemma ShiftAddStep(r: nat, x: nat)
    ensures ShiftAdd(r, x) == (if r % 2 == 1 then x else 0) + ShiftAdd(r / 2, 2 * x)
    ensures r == 1 ==> ShiftAdd(r, x) == x
  {
  }

  // Shifting the register right halves what is left of the multiplier.
  lemma HalveRest(negative: bool, a: int, r: nat, i: nat)
    requires i < 32 && r < Pow2(32 - i) && a == if negative then r - Pow2(32 - i) else r
    ensures a % 2 == r % 2 && a / 2 == (if negative then r / 2 - Pow2(31 - i) else r / 2)
    ensures r / 2 < Pow2(31 - i)
    ensures a == 0 || a == 1 ==> a == r
  {
    assert Pow2(32 - i) == 2 * Pow2(31 - i);
    Halve(negative, a, r, Pow2(31 - i));
  }

  lemma Halve(negative: bool, a: int, r: nat, h: nat)
    requires r < 2 * h && a == if negative then r - 2 * h else r
    ensures a % 2 == r % 2 && a / 2 == (if negative then r / 2 - h else r / 2)
    ensures r / 2 < h
  {
  }

  lemma DoubleFits(i: nat)
    requires i < 32
    ensures 2 * Pow2(32 + i) <= 0x1_0000_0000_0000_0000
    ensures Pow2(32 - i) == 2 * Pow2(31 - i) && Pow2(33 + i) == 2 * Pow2(32 + i)
  {
    Pow2Monotone(33 + i, 64);
    LongWidth();
  }

  lemma LongWidth()
    ensures Pow2(64) == 0x1_0000_0000_0000_0000
  {
    Pow2Sum(32, 32);
    WordWidth();
  }

  lemma {:induction false} Pow2Sum(j: nat, k: nat)
    ensures Pow2(j + k) == Pow2(j) * Pow2(k)
  {
    if j > 0 {
      Pow2Sum(j - 1, k);
      assert (2 * Pow2(j - 1)) * Pow2(k) == 2 * (Pow2(j - 1) * Pow2(k));
    }
  }

  // The two halves of a double word, read as one signed number.
  function SignedDouble(hi: int32, lo: int32): int {
    hi * 0x1_0000_0000 + Unsigned(lo)
  }

  function Magnitude(x: int): nat {
    if x < 0 then -x else x
  }

  // The halves of a product, modulo two to the 64.
  function High(product: int): int32 {
    Signed(product % 0x1_0000_0000_0000_0000 / 0x1_0000_0000)
  }

  function Low(product: int): int32 {
    Signed(product % 0x1_0000_0000_0000_0000 % 0x1_0000_0000)
  }

  lemma HalvesAreUnique(hi: int32, lo: int32, product: int)
    requires SignedDouble(hi, lo) == product || Double(Unsigned(hi), Unsigned(lo)) == product
    ensures hi == High(product) && lo == Low(product)
  {
    var h, l := Unsigned(hi), Unsigned(lo);
    WordHalves(h, l);
    assert product == Double(h, l) || product == Double(h, l) - 0x1_0000_0000_0000_0000;
    assert product % 0x1_0000_0000_0000_0000 == Double(h, l);
  }

  lemma WordHalves(h: word, l: word)
    ensures Double(h, l) < 0x1_0000_0000_0000_0000
    ensures Double(h, l) / 0x1_0000_0000 == h && Double(h, l) % 0x1_0000_0000 == l
  {
  }

  // hi and lo hold the exact product, of signed numbers or of unsigned ones.
  method Mult(a: int32, b: int32, signedArith: bool) returns (hi: int32, lo: int32)
    ensures signedArith ==> SignedDouble(hi, lo) == a * b
    ensures !signedArith ==> Double(Unsigned(hi), Unsigned(lo)) == Unsigned(a) * Unsigned(b)
  {
    if a == 0 || b == 0 {
      return 0, 0;
    }
    // the loop works on magnitudes
    var negative := false;
    var x, y := a, b;
    if signedArith {
      if x < 0 {
        negative := !negative;
        NegatedMagnitude(x);
        x := Negated(x);
      }
      if y < 0 {
        negative := !negative;
        NegatedMagnitude(y);
        y := Negated(y);
      }
    }
    var uhi, ulo := MultiplyWords(x, Unsigned(y));
    ProductFits(Unsigned(x), Unsigned(y));
    if signedArith {
      SignsMultiply(a, b, x, y);
    }
    if negative {
      uhi := Complement(uhi);
      ulo := Complement(ulo);
      ulo := AddWords(ulo, 1);
      if ulo == 0 {
        uhi := AddWords(uhi, 1);
      }
    }
    hi, lo := Signed(uhi), Signed(ulo);
  }

  // Magnitudes of signed 32-bit numbers have a product that a signed double word can hold.
  lemma SignsMultiply(a: int32, b: int32, x: int32, y: int32)
    requires a != 0 && b != 0
    requires Unsigned(x) == (if a < 0 then 0 - a else a) && Unsigned(y) == (if b < 0 then 0 - b else b)
    ensures 0 < Unsigned(x) * Unsigned(y) <= 0x4000_0000_0000_0000
    ensures Unsigned(x) * Unsigned(y) == if (a < 0) == (b < 0) then a * b else 0 - a * b
  {
  }
}
