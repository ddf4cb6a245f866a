// What the instructions that compute put into their register, bit by bit for the logical operations
// and shifts, and up to a multiple of 2^32 for sums.
module Arithmetic {
  import opened Bytes
  import opened Instruction
  import opened Machine
  import opened Execution
  import Bits

  predicate BitAt(x: int32, k: nat) {
    Bits.Bit(Unsigned(x), k)
  }

  // The same but for a multiple of 2^32
  predicate Congruent(x: int, y: int) {
    (x - y) % 0x1_0000_0000 == 0
  }

  predicate Immediate(op: Op) {
    op.Addi? || op.Addiu? || op.Andi? || op.Lui? || op.Ori? || op.Slti? || op.Sltiu? || op.Xori?
  }

  predicate Sums(op: Op) {
    op.Add? || op.Addu? || op.Sub? || op.Subu? || op.Addi? || op.Addiu? || op.Lui?
  }

  predicate Compares(op: Op) {
    op.Slt? || op.Sltu? || op.Slti? || op.Sltiu?
  }

  predicate Moves(op: Op) {
    op.Mfhi? || op.Mflo? || op.Or?
  }

  predicate Logical(op: Op) {
    op.And? || op.Nor? || op.Xor? || op.Andi? || op.Ori? || op.Xori?
  }

  predicate Shifts(op: Op) {
    op.Sll? || op.Sllv? || op.Sra? || op.Srav? || op.Srl? || op.Srlv?
  }

  predicate Computes(op: Op) {
    Sums(op) || Compares(op) || Moves(op) || Logical(op) || Shifts(op)
  }

  function ResultRegister(i: Instruction): Gpr {
    if Immediate(i.op) then i.rt else i.rd
  }

  function Sum(i: Instruction, s: int, t: int): int
    requires Sums(i.op)
  {
    match i.op
    case Add => s + t
    case Addu => s + t
    case Sub => s - t
    case Subu => s - t
    case Lui => i.extra * 0x1_0000
    case _ => s + i.extra
  }

  predicate Less(i: Instruction, s: int32, t: int32)
    requires Compares(i.op)
  {
    match i.op
    case Slt => s < t
    case Sltu => Unsigned(s) < Unsigned(t)
    case Slti => s < i.extra
    case Sltiu => Unsigned(s) < Unsigned(i.extra)
  }

  // The bit of the second operand: immediate ones have 16 bits.
  predicate SecondBit(i: Instruction, t: int32, k: nat) {
    if Immediate(i.op) then k < 16 && BitAt(i.extra, k) else BitAt(t, k)
  }

  predicate LogicalBit(op: Op, a: bool, b: bool) {
    (a && b && (op.And? || op.Andi?)) || ((a || b) && op.Ori?) || (!a && !b && op.Nor?) ||
    (a != b && (op.Xor? || op.Xori?))
  }

  function Amount(i: Instruction, s: int32): nat {
    if i.op.Sll? || i.op.Sra? || i.op.Srl? then Unsigned(i.extra) % 32 else Unsigned(s) % 32
  }

  // The bit that is moved to place k; all shifts to the right fill up with the sign.
  predicate ShiftedBit(i: Instruction, s: int32, t: int32, k: nat) {
    if i.op.Sll? || i.op.Sllv? then k >= Amount(i, s) && BitAt(t, k - Amount(i, s))
    else BitAt(t, if k + Amount(i, s) < 32 then k + Amount(i, s) else 31)
  }

  ghost predicate LogicalResult(i: Instruction, o: Operands, v: int32) {
    forall k | 0 <= k < 32 :: BitAt(v, k) == LogicalBit(i.op, BitAt(o.rs, k), SecondBit(i, o.rt, k))
  }

  ghost predicate Result(i: Instruction, o: Operands, v: int32)
    requires Computes(i.op)
  {
    if Sums(i.op) then Congruent(v, Sum(i, o.rs, o.rt))
    else if Compares(i.op) then v == if Less(i, o.rs, o.rt) then 1 else 0
    else if Moves(i.op) then v == if i.op.Mfhi? then o.hi else if i.op.Mflo? then o.lo else o.rs
    else if Logical(i.op) then LogicalResult(i, o, v)
    else forall k | 0 <= k < 32 :: BitAt(v, k) == ShiftedBit(i, o.rs, o.rt, k)
  }

  lemma WrapCongruent(x: int)
    ensures Congruent(Wrap(x), x) && Unsigned(Wrap(x)) == x % 0x1_0000_0000
  {
  }

  lemma SumsMean(i: Instruction, o: Operands)
    requires Sums(i.op) && !EffectOf(i, o).Trap?
    ensures EffectOf(i, o).Set? && EffectOf(i, o).reg == ResultRegister(i) && Result(i, o, EffectOf(i, o).value)
  {
    WrapCongruent(Sum(i, o.rs, o.rt));
  }

  lemma ComparesMean(i: Instruction, o: Operands)
    requires Compares(i.op) || Moves(i.op)
    ensures EffectOf(i, o).Set? && EffectOf(i, o).reg == ResultRegister(i) && Result(i, o, EffectOf(i, o).value)
  {
  }

  // The low half of a word
  lemma LowHalf(x: int32, k: nat)
    requires k < 32
    ensures Bits.Bit(Unsigned(x) % 0x1_0000, k) == (k < 16 && BitAt(x, k))
  {
    assert Bits.Pow2(8) == 0x100;
    assert Bits.Pow2(16) == 0x1_0000;
    if k < 16 {
      Bits.RemainderBit(Unsigned(x), 16, k);
    } else {
      Bits.BeyondWidth(Unsigned(x) % 0x1_0000, 16, k);
    }
  }

  function Second(i: Instruction, t: int32): word {
    if Immediate(i.op) then Unsigned(i.extra) % 0x1_0000 else Unsigned(t)
  }

  lemma AndBits(a: word, b: word, k: nat)
    requires k < 32
    ensures BitAt(AndOf(a, b), k) == (Bits.Bit(a, k) && Bits.Bit(b, k))
  {
    Bits.WordWidth();
    UnsignedBitwise(Bits.And(a, b, 32));
    Bits.AndBit(a, b, 32, k);
  }

  lemma OrBits(a: word, b: word, k: nat)
    requires k < 32
    ensures BitAt(OrOf(a, b), k) == (Bits.Bit(a, k) || Bits.Bit(b, k))
  {
    Bits.WordWidth();
    UnsignedBitwise(Bits.Or(a, b, 32));
    Bits.OrBit(a, b, 32, k);
  }

  lemma XorBits(a: word, b: word, k: nat)
    requires k < 32
    ensures BitAt(XorOf(a, b), k) == (Bits.Bit(a, k) != Bits.Bit(b, k))
  {
    Bits.WordWidth();
    UnsignedBitwise(Bits.Xor(a, b, 32));
    Bits.XorBit(a, b, 32, k);
  }

  lemma NorBits(a: word, b: word, k: nat)
    requires k < 32
    ensures BitAt(NorOf(a, b), k) == !(Bits.Bit(a, k) || Bits.Bit(b, k))
  {
    Bits.WordWidth();
    UnsignedBitwise(Bits.Not(Bits.Or(a, b, 32), 32));
    Bits.NotBit(Bits.Or(a, b, 32), 32, k);
    Bits.OrBit(a, b, 32, k);
  }

  lemma AndEffect(i: Instruction, o: Operands)
    requires i.op.And?
    ensures EffectOf(i, o) == Set(i.rd, AndOf(Unsigned(o.rs), Unsigned(o.rt)))
  {
  }

  lemma NorEffect(i: Instruction, o: Operands)
    requires i.op.Nor?
    ensures EffectOf(i, o) == Set(i.rd, NorOf(Unsigned(o.rs), Unsigned(o.rt)))
  {
  }

  lemma XorEffect(i: Instruction, o: Operands)
    requires i.op.Xor?
    ensures EffectOf(i, o) == Set(i.rd, XorOf(Unsigned(o.rs), Unsigned(o.rt)))
  {
  }

  lemma AndiEffect(i: Instruction, o: Operands)
    requires i.op.Andi?
    ensures EffectOf(i, o) == Set(i.rt, AndOf(Unsigned(o.rs), Unsigned(i.extra) % 0x1_0000))
  {
  }

  lemma OriEffect(i: Instruction, o: Operands)
    requires i.op.Ori?
    ensures EffectOf(i, o) == Set(i.rt, OrOf(Unsigned(o.rs), Unsigned(i.extra) % 0x1_0000))
  {
  }

  lemma XoriEffect(i: Instruction, o: Operands)
    requires i.op.Xori?
    ensures EffectOf(i, o) == Set(i.rt, XorOf(Unsigned(o.rs), Unsigned(i.extra) % 0x1_0000))
  {
  }

  lemma SecondBits(i: Instruction, t: int32, k: nat)
    requires k < 32
    ensures Bits.Bit(Second(i, t), k) == SecondBit(i, t, k)
  {
    LowHalf(i.extra, k);
  }

  lemma AndResult(i: Instruction, o: Operands)
    requires i.op.And? || i.op.Andi?
    ensures LogicalResult(i, o, AndOf(Unsigned(o.rs), Second(i, o.rt)))
  {
    var a, b := Unsigned(o.rs), Second(i, o.rt);
    forall k | 0 <= k < 32
      ensures BitAt(AndOf(a, b), k) == LogicalBit(i.op, BitAt(o.rs, k), SecondBit(i, o.rt, k))
    {
      AndBits(a, b, k);
      SecondBits(i, o.rt, k);
    }
  }

  lemma OrResult(i: Instruction, o: Operands)
    requires i.op.Ori?
    ensures LogicalResult(i, o, OrOf(Unsigned(o.rs), Second(i, o.rt)))
  {
    var a, b := Unsigned(o.rs), Second(i, o.rt);
    forall k | 0 <= k < 32
      ensures BitAt(OrOf(a, b), k) == LogicalBit(i.op, BitAt(o.rs, k), SecondBit(i, o.rt, k))
    {
      OrBits(a, b, k);
      SecondBits(i, o.rt, k);
    }
  }

  lemma XorResult(i: Instruction, o: Operands)
    requires i.op.Xor? || i.op.Xori?
    ensures LogicalResult(i, o, XorOf(Unsigned(o.rs), Second(i, o.rt)))
  {
    var a, b := Unsigned(o.rs), Second(i, o.rt);
    forall k | 0 <= k < 32
      ensures BitAt(XorOf(a, b), k) == LogicalBit(i.op, BitAt(o.rs, k), SecondBit(i, o.rt, k))
    {
      XorBits(a, b, k);
      SecondBits(i, o.rt, k);
    }
  }

  lemma NorResult(i: Instruction, o: Operands)
    requires i.op.Nor?
    ensures LogicalResult(i, o, NorOf(Unsigned(o.rs), Second(i, o.rt)))
  {
    var a, b := Unsigned(o.rs), Second(i, o.rt);
    forall k | 0 <= k < 32
      ensures BitAt(NorOf(a, b), k) == LogicalBit(i.op, BitAt(o.rs, k), SecondBit(i, o.rt, k))
    {
      NorBits(a, b, k);
      SecondBits(i, o.rt, k);
    }
  }

  lemma LogicalMeans(i: Instruction, o: Operands) returns (v: int32)
    requires Logical(i.op)
    ensures EffectOf(i, o) == Set(ResultRegister(i), v) && LogicalResult(i, o, v)
  {
    v := EffectOf(i, o).value;
    match i.op {
      case And => AndEffect(i, o); AndResult(i, o);
      case Nor => NorEffect(i, o); NorResult(i, o);
      case Xor => XorEffect(i, o); XorResult(i, o);
      case Andi => AndiEffect(i, o); AndResult(i, o);
      case Ori => OriEffect(i, o); OrResult(i, o);
      case Xori => XoriEffect(i, o); XorResult(i, o);
    }
  }

  // Shifts to the left
  lemma {:induction false} LessMultiple(a: int, q: nat)
    ensures (a - q * 0x1_0000_0000) % 0x1_0000_0000 == a % 0x1_0000_0000
  {
    if q > 0 {
      LessMultiple(a, q - 1);
    }
  }

  lemma ProductWraps(t: int32, p: nat)
    ensures (t * p) % 0x1_0000_0000 == (Unsigned(t) * p) % 0x1_0000_0000
  {
    if t < 0 {
      var u: int := Unsigned(t);
      assert t * p == u * p - p * 0x1_0000_0000;
      LessMultiple(u * p, p);
    }
  }

  lemma LeftWord(t: int32, p: nat) returns (x: nat)
    ensures x == Unsigned(t) * p && Unsigned(Wrap(t * p)) == x % 0x1_0000_0000
  {
    x := Unsigned(t) * p;
    var y := t * p;
    ProductWraps(t, p);
    WrapCongruent(y);
  }

  lemma LeftBits(t: int32, n: nat, k: nat)
    requires k < 32
    ensures BitAt(Wrap(t * Bits.Pow2(n)), k) == (n <= k && BitAt(t, k - n))
  {
    var x := LeftWord(t, Bits.Pow2(n));
    Bits.ShiftLeftBit(Unsigned(t), n, k);
    LowBit(x, k);
  }

  lemma LowBit(x: nat, k: nat)
    requires k < 32
    ensures Bits.Bit(x % 0x1_0000_0000, k) == Bits.Bit(x, k)
  {
    Bits.WordWidth();
    Bits.RemainderBit(x, 32, k);
  }

  // Shifts to the right: the complement of a negative number is shifted like a positive one.
  lemma RightBits(t: int32, n: nat, k: nat)
    requires k < 32
    ensures BitAt(Wrap(t / Bits.Pow2(n)), k) == BitAt(t, if k + n < 32 then k + n else 31)
  {
    if t >= 0 {
      PositiveRight(t, n, k);
    } else {
      NegativeRight(t, n, k);
    }
  }

  lemma NoSign(x: nat, k: nat)
    requires x < 0x8000_0000 && k >= 31
    ensures !Bits.Bit(x, k)
  {
    Bits.WordWidth();
    assert Bits.Pow2(31) == 0x8000_0000;
    Bits.BeyondWidth(x, 31, k);
  }

  lemma ShiftedRight(x: nat, n: nat)
    requires x < 0x8000_0000
    ensures x / Bits.Pow2(n) == Bits.ShiftRight(x, n) <= x
  {
    Bits.ShiftRightIs(x, n);
    ShiftedSmaller(x, n);
  }

  lemma {:induction false} ShiftedSmaller(x: nat, n: nat)
    ensures Bits.ShiftRight(x, n) <= x
  {
    if n > 0 {
      ShiftedSmaller(x / 2, n - 1);
    }
  }

  lemma PositiveWord(t: int32, n: nat)
    requires t >= 0
    ensures Unsigned(Wrap(t / Bits.Pow2(n))) == Bits.ShiftRight(t, n)
  {
    ShiftedRight(t, n);
    SmallWord(Bits.ShiftRight(t, n));
  }

  lemma PositiveRight(t: int32, n: nat, k: nat)
    requires t >= 0 && k < 32
    ensures BitAt(Wrap(t / Bits.Pow2(n)), k) == BitAt(t, if k + n < 32 then k + n else 31)
  {
    PositiveWord(t, n);
    Bits.ShiftRightBit(t, n, k);
    NoSign(t, 31);
    if k + n >= 32 {
      NoSign(t, k + n);
    }
  }

  lemma FloorOfNegative(t: int, p: nat)
    requires t < 0 && p > 0
    ensures t / p == -1 - (-1 - t) / p
  {
    var y := -1 - t;
    var q, r := y / p, y % p;
    assert y == p * q + r;
    FloorIs(t, p, -1 - q, p - 1 - r);
  }

  lemma FloorIs(t: int, p: int, q: int, r: int)
    requires 0 <= r < p && t == p * q + r
    ensures t / p == q
  {
    var x, rest := t / p, t % p;
    assert p * (x - q) == r - rest;
    Bits.SmallMultiple(p, x - q);
  }

  lemma Complement(x: nat, k: nat)
    requires x < 0x1_0000_0000 && k < 32
    ensures Bits.Bit(0xffff_ffff - x, k) == !Bits.Bit(x, k)
  {
    Bits.WordWidth();
    Bits.NotIs(x, 32);
    Bits.NotBit(x, 32, k);
  }

  lemma NegativeWord(t: int32, n: nat)
    requires t < 0
    ensures Unsigned(Wrap(t / Bits.Pow2(n))) == 0xffff_ffff - Bits.ShiftRight(-1 - t, n)
  {
    FloorOfNegative(t, Bits.Pow2(n));
    ShiftedRight(-1 - t, n);
    var z: int := Bits.ShiftRight(-1 - t, n);
    WrapCongruent(-1 - z);
  }

  lemma NegativeRight(t: int32, n: nat, k: nat)
    requires t < 0 && k < 32
    ensures BitAt(Wrap(t / Bits.Pow2(n)), k) == BitAt(t, if k + n < 32 then k + n else 31)
  {
    var y := -1 - t;
    NegativeWord(t, n);
    ShiftedSmaller(y, n);
    Complement(Bits.ShiftRight(y, n), k);
    Bits.ShiftRightBit(y, n, k);
    Complement(y, if k + n < 32 then k + n else 31);
    NoSign(y, 31);
    if k + n >= 32 {
      NoSign(y, k + n);
    }
  }

  lemma ShiftEffect(i: Instruction, o: Operands)
    requires Shifts(i.op)
    ensures var p := Bits.Pow2(Amount(i, o.rs));
            EffectOf(i, o) == Set(i.rd, Wrap(if i.op.Sll? || i.op.Sllv? then o.rt * p else o.rt / p))
  {
  }

  lemma ShiftsMean(i: Instruction, o: Operands)
    requires Shifts(i.op)
    ensures EffectOf(i, o).Set? && EffectOf(i, o).reg == ResultRegister(i) && Result(i, o, EffectOf(i, o).value)
  {
    ShiftEffect(i, o);
    forall k | 0 <= k < 32
      ensures BitAt(EffectOf(i, o).value, k) == ShiftedBit(i, o.rs, o.rt, k)
    {
      LeftBits(o.rt, Amount(i, o.rs), k);
      RightBits(o.rt, Amount(i, o.rs), k);
    }
  }

  lemma ResultsMean(i: Instruction, o: Operands)
    requires Computes(i.op) && !EffectOf(i, o).Trap?
    ensures EffectOf(i, o).Set? && EffectOf(i, o).reg == ResultRegister(i) && Result(i, o, EffectOf(i, o).value)
  {
    if Sums(i.op) {
      SumsMean(i, o);
    } else if Logical(i.op) {
      var _ := LogicalMeans(i, o);
    } else if Shifts(i.op) {
      ShiftsMean(i, o);
    } else {
      ComparesMean(i, o);
    }
  }

  // What a completed instruction leaves in its register, unless a pending load goes there.
  lemma ResultAfter(c: Cpu, i: Instruction)
    requires Execution.Completes(c, i) && Computes(i.op) && ResultRegister(i) > 0
    ensures var g, r := ResultRegister(i), c.regs;
            g != r[LOAD_REG] ==> Result(i, OperandsOf(r, i), Execute(c).cpu.regs[g])
  {
    var d, e := Started(c, i);
    ResultsMean(i, OperandsOf(c.regs, i));
    RegistersAfter(c, i, ResultRegister(i));
  }
}
