// The instructions of machine/mipssim.cc: decoding, and what each one asks of the machine given the
// values of the registers it reads.
module Instruction {
  import opened Basics
  import opened Bytes
  import opened Translate
  import Bits
  import Mult

  datatype Op =
    | Add | Addi | Addiu | Addu | And | Andi | Beq | Bgez | Bgezal | Bgtz | Blez | Bltz | Bltzal | Bne
    | Div | Divu | J | Jal | Jalr | Jr | Lb | Lbu | Lh | Lhu | Lui | Lw | Lwl | Lwr | Mfhi | Mflo
    | Mthi | Mtlo | Mult | Multu | Nor | Or | Ori | Sb | Sh | Sll | Sllv | Slt | Slti | Sltiu | Sltu
    | Sra | Srav | Srl | Srlv | Sub | Subu | Sw | Swl | Swr | Xor | Xori | Syscall | Unimp | Res

  type Gpr = n: nat | n < 32

  const HI_REG := 32
  const LO_REG := 33

  datatype Instruction = Instruction(op: Op, rs: Gpr, rt: Gpr, rd: Gpr, extra: int32)

  // opTable, for all but its first two entries
  function PrimaryOp(code: nat): Op
  {
    match code
    case 2 => J
    case 3 => Jal
    case 4 => Beq
    case 5 => Bne
    case 6 => Blez
    case 7 => Bgtz
    case 8 => Addi
    case 9 => Addiu
    case 10 => Slti
    case 11 => Sltiu
    case 12 => Andi
    case 13 => Ori
    case 14 => Xori
    case 15 => Lui
    case 32 => Lb
    case 33 => Lh
    case 34 => Lwl
    case 35 => Lw
    case 36 => Lbu
    case 37 => Lhu
    case 38 => Lwr
    case 40 => Sb
    case 41 => Sh
    case 42 => Swl
    case 43 => Sw
    case 46 => Swr
    case _ => if 16 <= code < 20 || 48 <= code < 52 || 56 <= code < 60 then Unimp else Res
  }

  // specialTable
  function SpecialOp(funct: nat): Op
  {
    match funct
    case 0 => Sll
    case 2 => Srl
    case 3 => Sra
    case 4 => Sllv
    case 6 => Srlv
    case 7 => Srav
    case 8 => Jr
    case 9 => Jalr
    case 12 => Syscall
    case 13 => Unimp
    case 16 => Mfhi
    case 17 => Mthi
    case 18 => Mflo
    case 19 => Mtlo
    case 24 => Mult
    case 25 => Multu
    case 26 => Div
    case 27 => Divu
    case 32 => Add
    case 33 => Addu
    case 34 => Sub
    case 35 => Subu
    case 36 => And
    case 37 => Or
    case 38 => Xor
    case 39 => Nor
    case 42 => Slt
    case 43 => Sltu
    case _ => Res
  }

  function BranchOp(rt: nat): Op
  {
    match rt
    case 0 => Bltz
    case 1 => Bgez
    case 16 => Bltzal
    case 17 => Bgezal
    case _ => Unimp
  }

  function Decode(value: word): Instruction {
    var code := value / 0x400_0000;
    var rt := value / 0x1_0000 % 32;
    var op := if code == 0 then SpecialOp(value % 64) else if code == 1 then BranchOp(rt) else PrimaryOp(code);
    var extra :=
      if code == 0 then value / 64 % 32
      else if code == 2 || code == 3 then value % 0x400_0000
      else if value % 0x1_0000 >= 0x8000 then value % 0x1_0000 - 0x1_0000
      else value % 0x1_0000;
    Instruction(op, value / 0x20_0000 % 32, rt, value / 0x800 % 32, extra)
  }

  type Size = n: nat | n == 1 || n == 2 || n == 4 witness 1
  type Writable = n: nat | n < 34

  // What an instruction does next, once its operands are known.
  datatype Effect =
    | Trap(e: Exception, badVAddr: int32)
    | Set(reg: Writable, value: int32)
    | SetHiLo(hi: int32, lo: int32)
    | Jump(link: Option<Gpr>, pcAfter: int32)
    | Load(addr: int32, size: Size, signExtend: bool, target: Gpr)
    | LoadRight(addr: int32, before: int32, target: Gpr)     // lwr: the byte of a word goes into the value before
    | Store(addr: int32, size: Size, value: int32)
    | StoreOver(addr: int32, value: int32, whole: bool)      // swl, swr: the word is read before it is stored
    | Abort                                                  // an ASSERT fails

  // The result of 32-bit arithmetic.
  function Wrap(x: int): int32 {
    Signed(x % 0x1_0000_0000)
  }

  function Bitwise(x: nat): int32 {
    Signed(x % 0x1_0000_0000)
  }

  function AndOf(a: word, b: word): int32 {
    Bitwise(Bits.And(a, b, 32))
  }

  function OrOf(a: word, b: word): int32 {
    Bitwise(Bits.Or(a, b, 32))
  }

  function XorOf(a: word, b: word): int32 {
    Bitwise(Bits.Xor(a, b, 32))
  }

  function NorOf(a: word, b: word): int32 {
    Bitwise(Bits.Not(Bits.Or(a, b, 32), 32))
  }

  // C's division truncates towards zero.
  function Quotient(a: int, b: int): int
    requires b != 0
  {
    if (a < 0) == (b < 0) then Mult.Magnitude(a) / Mult.Magnitude(b) else -(Mult.Magnitude(a) / Mult.Magnitude(b))
  }

  function Remainder(a: int, b: int): int
    requires b != 0
  {
    a - b * Quotient(a, b)
  }

  // The values of registers that an instruction may read. loaded is the value that rt has once the
  // pending load is done, which lwr looks at.
  datatype Operands = Operands(rs: int32, rt: int32, hi: int32, lo: int32, nextPc: int32, loaded: int32)

  // The general registers that an instruction reads, and the one it writes at once.
  predicate ReadsRs(op: Op) {
    !(op.J? || op.Jal? || op.Lui? || op.Mfhi? || op.Mflo? || op.Sll? || op.Sra? || op.Srl? || op.Syscall? ||
      op.Res? || op.Unimp?)
  }

  predicate ReadsRt(op: Op) {
    op.Add? || op.Addu? || op.And? || op.Beq? || op.Bne? || op.Div? || op.Divu? || op.Mult? || op.Multu? || op.Nor? ||
    op.Sb? || op.Sh? || op.Sw? || op.Swl? || op.Swr? || op.Sll? || op.Sllv? || op.Slt? || op.Sltu? || op.Sra? ||
      op.Srav? || op.Srl? ||
    op.Srlv? || op.Sub? || op.Subu? || op.Xor?
  }

  function Branch(i: Instruction, nextPc: int32, link: Option<Gpr>, taken: bool): Effect {
    Jump(link, if taken then Wrap(nextPc + 4 * i.extra) else Wrap(nextPc + 4))
  }

  function AddressOf(i: Instruction, rs: int32): int32 {
    Wrap(rs + i.extra)
  }

  // The big switch, first for instructions that read the register rt.
  function EffectOfTwo(i: Instruction, rs: int32, rt: int32, nextPc: int32): Effect {
    match i.op
    case Add =>
      var sum := Wrap(rs + rt);
      if (rs < 0) == (rt < 0) && (rs < 0) != (sum < 0) then Trap(OverflowException, 0) else Set(i.rd, sum)
    case Addu => Set(i.rd, Wrap(rs + rt))
    case And => Set(i.rd, AndOf(Unsigned(rs), Unsigned(rt)))
    case Beq => Branch(i, nextPc, None, rs == rt)
    case Bne => Branch(i, nextPc, None, rs != rt)
    case Div => if rt == 0 then SetHiLo(0, 0) else SetHiLo(Wrap(Remainder(rs, rt)), Wrap(Quotient(rs, rt)))
    case Divu =>
      if rt == 0 then SetHiLo(0, 0)
      else SetHiLo(Signed(Unsigned(rs) % Unsigned(rt)), Wrap(Unsigned(rs) / Unsigned(rt)))
    case Mult => SetHiLo(Mult.High(rs * rt), Mult.Low(rs * rt))
    case Multu => SetHiLo(Mult.High(Unsigned(rs) * Unsigned(rt)), Mult.Low(Unsigned(rs) * Unsigned(rt)))
    case Nor => Set(i.rd, NorOf(Unsigned(rs), Unsigned(rt)))
    case Sb => Store(AddressOf(i, rs), 1, rt)
    case Sh => Store(AddressOf(i, rs), 2, rt)
    case Sll => Set(i.rd, Wrap(rt * Bits.Pow2(Unsigned(i.extra) % 32)))
    case Sllv => Set(i.rd, Wrap(rt * Bits.Pow2(Unsigned(rs) % 32)))
    case Slt => Set(i.rd, if rs < rt then 1 else 0)
    case Sltu => Set(i.rd, if Unsigned(rs) < Unsigned(rt) then 1 else 0)
    case Sra => Set(i.rd, Wrap(rt / Bits.Pow2(Unsigned(i.extra) % 32)))
    case Srav => Set(i.rd, Wrap(rt / Bits.Pow2(Unsigned(rs) % 32)))
    case Srl => Set(i.rd, Wrap(rt / Bits.Pow2(Unsigned(i.extra) % 32))) // shifted as a signed number
    case Srlv => Set(i.rd, Wrap(rt / Bits.Pow2(Unsigned(rs) % 32)))
    case Sub =>
      var diff := Wrap(rs - rt);
      if (rs < 0) != (rt < 0) && (rs < 0) != (diff < 0) then Trap(OverflowException, 0) else Set(i.rd, diff)
    case Subu => Set(i.rd, Wrap(rs - rt))
    case Sw => Store(AddressOf(i, rs), 4, rt)
    case Swl => if AddressOf(i, rs) % 4 != 0 then Abort else StoreOver(AddressOf(i, rs), rt, true)
    case Swr => if AddressOf(i, rs) % 4 != 0 then Abort else StoreOver(AddressOf(i, rs), rt, false)
    case Xor => Set(i.rd, XorOf(Unsigned(rs), Unsigned(rt)))
    case _ => Abort
  }

  function EffectOfOne(i: Instruction, rs: int32, hi: int32, lo: int32, nextPc: int32, loaded: int32): Effect {
    var link := Wrap(nextPc + 4);
    match i.op
    case Addi =>
      var sum := Wrap(rs + i.extra);
      if (rs < 0) == (i.extra < 0) && (i.extra < 0) != (sum < 0) then Trap(OverflowException, 0) else Set(i.rt, sum)
    case Addiu => Set(i.rt, Wrap(rs + i.extra))
    case Andi => Set(i.rt, AndOf(Unsigned(rs), Unsigned(i.extra) % 0x1_0000))
    case Bgezal => Branch(i, nextPc, Some(31), (if i.rs == 31 then link else rs) >= 0)
    case Bgez => Branch(i, nextPc, None, rs >= 0)
    case Bgtz => Branch(i, nextPc, None, rs > 0)
    case Blez => Branch(i, nextPc, None, rs <= 0)
    case Bltzal => Branch(i, nextPc, Some(31), (if i.rs == 31 then link else rs) < 0)
    case Bltz => Branch(i, nextPc, None, rs < 0)
    case Jal => Jump(Some(31), JumpTarget(link, i.extra))
    case J => Jump(None, JumpTarget(link, i.extra))
    case Jalr => Jump(Some(i.rd), if i.rs == i.rd then link else rs)
    case Jr => Jump(None, rs)
    case Lb => Load(AddressOf(i, rs), 1, true, i.rt)
    case Lbu => Load(AddressOf(i, rs), 1, false, i.rt)
    case Lh =>
      if AddressOf(i, rs) % 2 != 0 then Trap(AddressErrorException, AddressOf(i, rs))
      else Load(AddressOf(i, rs), 2, true, i.rt)
    case Lhu =>
      if AddressOf(i, rs) % 2 != 0 then Trap(AddressErrorException, AddressOf(i, rs))
      else Load(AddressOf(i, rs), 2, false, i.rt)
    case Lui => Set(i.rt, Wrap(i.extra * 0x1_0000))
    case Lw =>
      if AddressOf(i, rs) % 4 != 0 then Trap(AddressErrorException, AddressOf(i, rs))
      else Load(AddressOf(i, rs), 4, true, i.rt)
    case Lwl => if AddressOf(i, rs) % 4 != 0 then Abort else Load(AddressOf(i, rs), 4, true, i.rt)
    case Lwr => if AddressOf(i, rs) % 4 != 0 then Abort else LoadRight(AddressOf(i, rs), loaded, i.rt)
    case Mfhi => Set(i.rd, hi)
    case Mflo => Set(i.rd, lo)
    case Mthi => Set(HI_REG, rs)
    case Mtlo => Set(LO_REG, rs)
    case Or => Set(i.rd, rs) // rs is taken for both operands
    case Ori => Set(i.rt, OrOf(Unsigned(rs), Unsigned(i.extra) % 0x1_0000))
    case Slti => Set(i.rt, if rs < i.extra then 1 else 0)
    case Sltiu => Set(i.rt, if Unsigned(rs) < Unsigned(i.extra) then 1 else 0)
    case Xori => Set(i.rt, XorOf(Unsigned(rs), Unsigned(i.extra) % 0x1_0000))
    case Syscall => Trap(SyscallException, 0)
    case Res => Trap(IllegalInstrException, 0)
    case Unimp => Trap(IllegalInstrException, 0)
    case _ => Abort
  }

  function EffectOf(i: Instruction, o: Operands): Effect {
    if ReadsRt(i.op) then EffectOfTwo(i, o.rs, o.rt, o.nextPc)
    else EffectOfOne(i, o.rs, o.hi, o.lo, o.nextPc, o.loaded)
  }

  // (pcAfter & 0xf0000000) | IndexToAddr(extra)
  function JumpTarget(pcAfter: int32, extra: int32): int32 {
    Bitwise(Bits.Or(Unsigned(pcAfter) / 0x1000_0000 * 0x1000_0000, Unsigned(Wrap(4 * extra)), 32))
  }

  predicate Reads(i: Instruction, r: Gpr) {
    (ReadsRs(i.op) && i.rs == r) || (ReadsRt(i.op) && i.rt == r)
  }

  // Operands that an instruction does not read do not matter.
  lemma EffectIgnores(i: Instruction, o: Operands, p: Operands)
    requires ReadsRs(i.op) ==> o.rs == p.rs
    requires ReadsRt(i.op) ==> o.rt == p.rt
    requires o.hi == p.hi && o.lo == p.lo && o.nextPc == p.nextPc && (i.op.Lwr? ==> o.loaded == p.loaded)
    ensures EffectOf(i, o) == EffectOf(i, p)
  {
    if !ReadsRs(i.op) {
      IgnoresRs(i, o, p.rs);
    }
    if !i.op.Lwr? {
      IgnoresLoaded(i, o, p.loaded);
    }
    assert o.(rs := p.rs, rt := p.rt, loaded := p.loaded) == p;
  }

  lemma IgnoresRs(i: Instruction, o: Operands, rs: int32)
    requires !ReadsRs(i.op)
    ensures EffectOf(i, o) == EffectOf(i, o.(rs := rs))
  {
    match i.op {
      case Sll =>
      case Sra =>
      case Srl =>
      case _ =>
    }
  }

  lemma IgnoresLoaded(i: Instruction, o: Operands, loaded: int32)
    requires !i.op.Lwr?
    ensures EffectOf(i, o) == EffectOf(i, o.(loaded := loaded))
  {
  }

  // The ASSERTs fail exactly on the addresses that are not those of words.
  lemma AbortsIfUnaligned(i: Instruction, o: Operands)
    ensures EffectOf(i, o).Abort? <==>
              (i.op.Lwl? || i.op.Lwr? || i.op.Swl? || i.op.Swr?) && AddressOf(i, o.rs) % 4 != 0
  {
    if ReadsRt(i.op) {
      TwoAborts(i, o.rs, o.rt, o.nextPc);
    } else {
      OneAborts(i, o);
    }
  }

  lemma TwoAborts(i: Instruction, rs: int32, rt: int32, nextPc: int32)
    requires ReadsRt(i.op)
    ensures EffectOfTwo(i, rs, rt, nextPc).Abort? <==> (i.op.Swl? || i.op.Swr?) && AddressOf(i, rs) % 4 != 0
  {
  }

  lemma OneAborts(i: Instruction, o: Operands)
    requires !ReadsRt(i.op)
    ensures EffectOf(i, o).Abort? <==> (i.op.Lwl? || i.op.Lwr?) && AddressOf(i, o.rs) % 4 != 0
  {
  }

  // The general register that an instruction writes at once, not by a delayed load.
  predicate WritesRd(op: Op) {
    op.Add? || op.Addu? || op.And? || op.Nor? || op.Sll? || op.Sllv? || op.Slt? || op.Sltu? || op.Sra? || op.Srav? ||
    op.Srl? || op.Srlv? || op.Sub? || op.Subu? || op.Xor? || op.Jalr? || op.Mfhi? || op.Mflo? || op.Or?
  }

  predicate WritesRt(op: Op) {
    op.Addi? || op.Addiu? || op.Andi? || op.Lui? || op.Ori? || op.Slti? || op.Sltiu? || op.Xori?
  }

  predicate Writes(i: Instruction, r: Gpr) {
    || (WritesRd(i.op) && i.rd == r)
    || (WritesRt(i.op) && i.rt == r)
    || ((i.op.Bgezal? || i.op.Bltzal? || i.op.Jal?) && r == 31)
  }

  ghost predicate WritesOnly(i: Instruction, e: Effect) {
    && (e.Set? && e.reg < 32 ==> Writes(i, e.reg))
    && (e.Jump? && e.link.Some? ==> Writes(i, e.link.value))
  }

  lemma EffectWrites(i: Instruction, o: Operands)
    ensures WritesOnly(i, EffectOf(i, o))
  {
    if ReadsRt(i.op) {
      TwoWrites(i, o.rs, o.rt, o.nextPc);
    } else {
      OneWrites(i, o.rs, o.hi, o.lo, o.nextPc, o.loaded);
    }
  }

  lemma TwoWrites(i: Instruction, rs: int32, rt: int32, nextPc: int32)
    requires ReadsRt(i.op)
    ensures WritesOnly(i, EffectOfTwo(i, rs, rt, nextPc))
  {
  }

  lemma OneWrites(i: Instruction, rs: int32, hi: int32, lo: int32, nextPc: int32, loaded: int32)
    requires !ReadsRt(i.op)
    ensures WritesOnly(i, EffectOfOne(i, rs, hi, lo, nextPc, loaded))
  {
  }
}
