// The instruction words that stand for an instruction, and that decoding inverts.
module Encoding {
  import opened Bytes
  import opened Instruction
  import opened Execution

  predicate Known(op: Op) {
    !op.Res? && !op.Unimp?
  }

  // Instructions of the groups SPECIAL and BCOND, and jumps; the others are immediate ones.
  predicate Special(op: Op) {
    op.Sll? || op.Srl? || op.Sra? || op.Sllv? || op.Srlv? || op.Srav? || op.Jr? || op.Jalr? || op.Syscall? ||
    op.Mfhi? || op.Mthi? || op.Mflo? || op.Mtlo? || op.Mult? || op.Multu? || op.Div? || op.Divu? || op.Add? ||
    op.Addu? || op.Sub? || op.Subu? || op.And? || op.Or? || op.Xor? || op.Nor? || op.Slt? || op.Sltu?
  }

  predicate BranchGroup(op: Op) {
    op.Bltz? || op.Bgez? || op.Bltzal? || op.Bgezal?
  }

  // The last six bits of an instruction of the first group
  function Function(op: Op): nat {
    match op
    case Sll => 0x00
    case Srl => 0x02
    case Sra => 0x03
    case Sllv => 0x04
    case Srlv => 0x06
    case Srav => 0x07
    case Jr => 0x08
    case Jalr => 0x09
    case Syscall => 0x0c
    case Mfhi => 0x10
    case Mthi => 0x11
    case Mflo => 0x12
    case Mtlo => 0x13
    case Mult => 0x18
    case Multu => 0x19
    case Div => 0x1a
    case Divu => 0x1b
    case Add => 0x20
    case Addu => 0x21
    case Sub => 0x22
    case Subu => 0x23
    case And => 0x24
    case Or => 0x25
    case Xor => 0x26
    case Nor => 0x27
    case Slt => 0x2a
    case _ => 0x2b
  }

  // The first six bits of all others
  function OpCode(op: Op): nat {
    match op
    case J => 0x02
    case Jal => 0x03
    case Beq => 0x04
    case Bne => 0x05
    case Blez => 0x06
    case Bgtz => 0x07
    case Addi => 0x08
    case Addiu => 0x09
    case Slti => 0x0a
    case Sltiu => 0x0b
    case Andi => 0x0c
    case Ori => 0x0d
    case Xori => 0x0e
    case Lui => 0x0f
    case Lb => 0x20
    case Lh => 0x21
    case Lwl => 0x22
    case Lw => 0x23
    case Lbu => 0x24
    case Lhu => 0x25
    case Lwr => 0x26
    case Sb => 0x28
    case Sh => 0x29
    case Swl => 0x2a
    case Sw => 0x2b
    case Swr => 0x2e
    case _ => 0x01
  }

  function Encode(i: Instruction): int {
    if Special(i.op)
    then i.rs * 0x20_0000 + i.rt * 0x1_0000 + i.rd * 0x800 + i.extra * 0x40 + Function(i.op)
    else if i.op.J? || i.op.Jal? then OpCode(i.op) * 0x400_0000 + i.extra
    else OpCode(i.op) * 0x400_0000 + i.rs * 0x20_0000 + i.rt * 0x1_0000 + i.extra % 0x1_0000
  }

  lemma ShiftCodes(funct: nat)
    requires funct < 8 && Known(SpecialOp(funct))
    ensures Special(SpecialOp(funct)) && Function(SpecialOp(funct)) == funct
  {
    assert funct == 0 || funct == 2 || funct == 3 || funct == 4 || funct == 6 || funct == 7;
  }

  lemma ReturnCodes(funct: nat)
    requires 8 <= funct < 16 && Known(SpecialOp(funct))
    ensures Special(SpecialOp(funct)) && Function(SpecialOp(funct)) == funct
  {
  }

  lemma MoveAndDivideCodes(funct: nat)
    requires 16 <= funct < 32 && Known(SpecialOp(funct))
    ensures Special(SpecialOp(funct)) && Function(SpecialOp(funct)) == funct
  {
  }

  lemma SumAndLogicCodes(funct: nat)
    requires 32 <= funct < 64 && Known(SpecialOp(funct))
    ensures Special(SpecialOp(funct)) && Function(SpecialOp(funct)) == funct
  {
  }

  lemma SpecialCodes(funct: nat)
    requires funct < 64 && Known(SpecialOp(funct))
    ensures Special(SpecialOp(funct)) && Function(SpecialOp(funct)) == funct
  {
    if funct < 8 {
      ShiftCodes(funct);
    } else if funct < 16 {
      ReturnCodes(funct);
    } else if funct < 32 {
      MoveAndDivideCodes(funct);
    } else {
      SumAndLogicCodes(funct);
    }
  }

  lemma JumpAndBranchCodes(code: nat)
    requires 2 <= code < 8 && Known(PrimaryOp(code))
    ensures !Special(PrimaryOp(code)) && !BranchGroup(PrimaryOp(code)) && OpCode(PrimaryOp(code)) == code
  {
  }

  lemma ImmediateCodes(code: nat)
    requires 8 <= code < 32 && Known(PrimaryOp(code))
    ensures !Special(PrimaryOp(code)) && !BranchGroup(PrimaryOp(code)) && OpCode(PrimaryOp(code)) == code
  {
  }

  lemma TransferCodes(code: nat)
    requires 32 <= code < 64 && Known(PrimaryOp(code))
    ensures !Special(PrimaryOp(code)) && !BranchGroup(PrimaryOp(code)) && OpCode(PrimaryOp(code)) == code
  {
  }

  lemma PrimaryCodes(code: nat)
    requires 1 < code < 64 && Known(PrimaryOp(code))
    ensures !Special(PrimaryOp(code)) && !BranchGroup(PrimaryOp(code)) && OpCode(PrimaryOp(code)) == code
  {
    if code < 8 {
      JumpAndBranchCodes(code);
    } else if code < 32 {
      ImmediateCodes(code);
    } else {
      TransferCodes(code);
    }
  }

  lemma BranchCodes(rt: nat)
    requires rt < 32 && Known(BranchOp(rt))
    ensures BranchGroup(BranchOp(rt)) && OpCode(BranchOp(rt)) == 1
    ensures rt == match BranchOp(rt)
                  case Bltz => 0
                  case Bgez => 1
                  case Bltzal => 0x10
                  case _ => 0x11
  {
  }

  // The last six bits and the next five make up the lower half, behind the register.
  lemma LowParts(value: word)
    ensures var low := value % 0x1_0000; low == low / 0x800 * 0x800 + low / 64 % 32 * 64 + value % 64
  {
    var low, high := value % 0x1_0000, value / 0x1_0000;
    assert value % 64 == low % 64 by {
      assert value == 64 * (high * 0x400 + low / 64) + low % 64;
    }
    assert low / 0x800 == low / 64 / 32;
  }

  // Decoding loses nothing: every word that stands for an instruction is the encoding of the
  // instruction that it is decoded to.
  lemma DecodeInverted(value: word)
    requires Known(Decode(value).op)
    ensures Encode(Decode(value)) == value
  {
    var code := value / 0x400_0000;
    FieldsOf(value);
    if code == 0 {
      SpecialCodes(value % 64);
      LowParts(value);
    } else if code == 1 {
      BranchCodes(value / 0x1_0000 % 32);
    } else {
      PrimaryCodes(code);
    }
  }
}
