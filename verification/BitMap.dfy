// userprog/bitmap.cc: a bitmap kept in an array of 32-bit words.
module BitMap {
  import opened Bits
  import opened Bytes

  // The bits that an array of words stands for.
  function BitsOf(words: seq<word>, n: nat): (bits: seq<bool>)
    requires n <= 32 * |words|
    ensures |bits| == n
  {
    seq(n, i requires 0 <= i < n => Bit(words[i / 32], i % 32))
  }

  function SetBit(w: word, k: nat): word
    requires k < 32
  {
    WordWidth();
    Or(w, Pow2(k), 32)
  }

  function ClearBit(w: word, k: nat): word
    requires k < 32
  {
    WordWidth();
    And(w, Not(Pow2(k), 32), 32)
  }

  lemma SetOrClear(w: word, k: nat, j: nat)
    requires k < 32 && j < 32
    ensures Bit(SetBit(w, k), j) == (j == k || Bit(w, j))
    ensures Bit(ClearBit(w, k), j) == (j != k && Bit(w, j))
  {
    Pow2Bit(k, j);
    OrBit(w, Pow2(k), 32, j);
    NotBit(Pow2(k), 32, j);
    AndBit(w, Not(Pow2(k), 32), 32, j);
  }

  lemma BitsOfUpdate(words: seq<word>, n: nat, which: nat)
    requires which < n <= 32 * |words|
    ensures var w, k := which / 32, which % 32;
            && BitsOf(words[w := SetBit(words[w], k)], n) == BitsOf(words, n)[which := true]
            && BitsOf(words[w := ClearBit(words[w], k)], n) == BitsOf(words, n)[which := false]
  {
    var w, k, bits := which / 32, which % 32, BitsOf(words, n);
    var marked := BitsOf(words[w := SetBit(words[w], k)], n);
    var cleared := BitsOf(words[w := ClearBit(words[w], k)], n);
    forall i | 0 <= i < n
      ensures marked[i] == bits[which := true][i] && cleared[i] == bits[which := false][i]
    {
      SetOrClear(words[w], k, i % 32);
    }
  }

  function CountClear(bits: seq<bool>): nat {
    if bits == [] then 0 else CountClear(bits[..|bits| - 1]) + if bits[|bits| - 1] then 0 else 1
  }

  lemma CountClearUpdate(bits: seq<bool>, i: nat, b: bool)
    requires i < |bits| && bits[i] != b
    ensures CountClear(bits[i := b]) == CountClear(bits) + if b then -1 else 1
  {
    var n := |bits| - 1;
    if i == n {
      assert bits[i := b][..n] == bits[..n];
    } else {
      assert bits[i := b][..n] == bits[..n][i := b];
      CountClearUpdate(bits[..n], i, b);
    }
  }

  lemma CountClearZero(bits: seq<bool>)
    ensures CountClear(bits) == 0 <==> forall i | 0 <= i < |bits| :: bits[i]
  {
    if bits != [] {
      var n := |bits| - 1;
      CountClearZero(bits[..n]);
      assert forall i | 0 <= i < n :: bits[..n][i] == bits[i];
    }
  }

  lemma CountClearAll(bits: seq<bool>)
    requires forall i | 0 <= i < |bits| :: !bits[i]
    ensures CountClear(bits) == |bits|
  {
  }

  // The first clear bit, which is the one Find hands out.
  predicate FirstClear(bits: seq<bool>, i: nat) {
    i < |bits| && !bits[i] && forall j | 0 <= j < i :: bits[j]
  }

  class BitMap {
    const numBits: nat
    const numWords: nat
    const storage: array<word>

    ghost predicate Valid() {
      numWords == DivRoundUp(numBits, 32) && storage.Length == numWords
    }

    ghost function Bits(): (bits: seq<bool>)
      requires Valid()
      reads storage
      ensures |bits| == numBits
    {
      BitsOf(storage[..], numBits)
    }

    // The words of a new map are not set; each bit in use is cleared one by one.
    constructor (nitems: nat)
      ensures Valid() && fresh(storage) && numBits == nitems
      ensures Bits() == seq(nitems, _ => false)
    {
      numBits := nitems;
      numWords := DivRoundUp(nitems, 32);
      storage := new word[DivRoundUp(nitems, 32)];
      new;
      for i := 0 to numBits
        invariant Valid()
        invariant forall k | 0 <= k < i :: !Bits()[k]
      {
        Clear(i);
      }
    }

    method Mark(which: int)
      requires Valid() && 0 <= which < numBits
      modifies storage
      ensures Bits() == old(Bits())[which := true]
    {
      BitsOfUpdate(storage[..], numBits, which);
      ghost var words := storage[..];
      storage[which / 32] := SetBit(storage[which / 32], which % 32);
      assert storage[..] == words[which / 32 := storage[which / 32]];
    }

    method Clear(which: int)
      requires Valid() && 0 <= which < numBits
      modifies storage
      ensures Bits() == old(Bits())[which := false]
    {
      BitsOfUpdate(storage[..], numBits, which);
      ghost var words := storage[..];
      storage[which / 32] := ClearBit(storage[which / 32], which % 32);
      assert storage[..] == words[which / 32 := storage[which / 32]];
    }

    method Test(which: int) returns (marked: bool)
      requires Valid() && 0 <= which < numBits
      ensures marked == Bits()[which]
    {
      AndPow2(storage[which / 32], which % 32, 32);
      marked := And(storage[which / 32], Pow2(which % 32), 32) != 0;
    }

    method Find() returns (found: int)
      requires Valid()
      modifies storage
      ensures found == -1 <==> CountClear(old(Bits())) == 0
      ensures found == -1 ==> Bits() == old(Bits())
      ensures found != -1 ==> 0 <= found && FirstClear(old(Bits()), found) && Bits() == old(Bits())[found := true]
      ensures found != -1 ==> found < numBits && !old(Bits())[found] && forall j | 0 <= j < found :: old(Bits())[j]
    {
      CountClearZero(Bits());
      for i := 0 to numBits
        invariant Bits() == old(Bits())
        invariant forall j | 0 <= j < i :: Bits()[j]
      {
        var marked := Test(i);
        if !marked {
          Mark(i);
          return i;
        }
      }
      return -1;
    }

    method NumClear() returns (count: nat)
      requires Valid()
      ensures count == CountClear(Bits())
    {
      count := 0;
      for i := 0 to numBits
        invariant count == CountClear(Bits()[..i])
      {
        var marked := Test(i);
        assert Bits()[..i + 1][..i] == Bits()[..i];
        if !marked {
          count := count + 1;
        }
      }
      assert Bits()[..numBits] == Bits();
    }
  }
}
