/**
 The opcode map against the regular structure of the 6502: in an opcode aaabbbcc the row aaa and the column
 cc choose the operation and bbb the addressing mode. The decoder's entries are proved to follow it, and the
 control opcodes to be what they are.
 */
module Opcodes {
  import opened Bytes
  import opened Machine
  import opened Alu
  import opened Instructions
  import opened BusTrace

  function Row(op: byte): int { op / 0x20 }

  function Mode(op: byte): int { op / 4 % 8 }

  function Column(op: byte): int { op % 4 }

  function LengthOf(gf: GetFn): nat { if gf in {Abs, AbsX, AbsY, AbsXRmw, AbsYRmw} then 3 else 2 }

  /** The mode bbb of the accumulator's column. */
  function ModeOf1(mode: int): GetFn {
    match mode
    case 0 => IndX
    case 1 => Zero
    case 2 => Imm
    case 3 => Abs
    case 4 => IndY
    case 5 => ZeroX
    case 6 => AbsY
    case _ => AbsX
  }

  /** The same for a write-back, which always makes the dummy read of its index. */
  function ModeOfRmw(mode: int): GetFn {
    if mode == 4 then IndYRmw else if mode == 6 then AbsYRmw else if mode == 7 then AbsXRmw else ModeOf1(mode)
  }

  function StoreOf(gf: GetFn): SetFn {
    match gf
    case ZeroX => SZeroX
    case ZeroY => SZeroY
    case Abs => SAbs
    case AbsX => SAbsX
    case AbsY => SAbsY
    case IndX => SIndX
    case IndY => SIndY
    case _ => SZero
  }

  function BackOf(gf: GetFn): SetFn {
    match gf
    case ZeroX => SZeroXRmw
    case Abs => SAbsRmw
    case AbsXRmw => SAbsXRmw
    case AbsYRmw => SAbsYRmw
    case IndX => SIndRmw
    case IndYRmw => SIndRmw
    case _ => SZeroRmw
  }

  // ---- The columns ---------------------------------------------------------------------------

  function AccumulatorOp(row: int): ReadOp {
    match row
    case 0 => Ora
    case 1 => And_
    case 2 => Eor
    case 3 => Adc
    case 5 => Lda
    case 6 => Cmp
    case _ => Sbc
  }

  /** Column 1: the accumulator against memory; row 4 stores it, and has no immediate form. */
  function Column1(row: int, mode: int): Instr {
    var gf := ModeOf1(mode);
    if row != 4 then Read(AccumulatorOp(row), gf, LengthOf(gf))
    else if mode == 2 then Noop(Imm, 2)
    else StoreReg(A, StoreOf(gf), LengthOf(gf))
  }

  /** Column 2 in its odd modes, and column 3 in all but the immediate one: memory is read, changed, written. */
  predicate ChangesMemory(op: byte) {
    Row(op) !in {4, 5} && ((Column(op) == 2 && Mode(op) % 2 == 1) || (Column(op) == 3 && Mode(op) != 2))
  }

  function MemoryOp(column: int, row: int): RmwOp {
    if column == 2 then
      match row
      case 0 => Asl
      case 1 => Rol
      case 2 => Lsr
      case 3 => Ror
      case 6 => Dec
      case _ => Inc
    else
      match row
      case 0 => Slo
      case 1 => Rla
      case 2 => Sre
      case 3 => Rra
      case 6 => Dcp
      case _ => Isb
  }

  function Changes(column: int, row: int, mode: int): Instr {
    var gf := ModeOfRmw(mode);
    Rmw(MemoryOp(column, row), gf, BackOf(gf), LengthOf(gf))
  }

  /** Rows 4 and 5 store and load Y in column 0, X in column 2, A with X in column 3, over the odd modes; where
      X is what is moved, Y does the indexing. */
  predicate MovesRegister(op: byte) {
    Row(op) in {4, 5} && Column(op) != 1 && Mode(op) % 2 == 1 && !(Row(op) == 4 && Mode(op) == 7)
  }

  function Moved(column: int, row: int, mode: int): Instr {
    var gf := if mode == 1 then Zero else if mode == 3 then Abs
      else if mode == 5 then (if column == 0 then ZeroX else ZeroY) else (if column == 0 then AbsX else AbsY);
    if row == 5 then Read(if column == 0 then Ldy else if column == 2 then Ldx else Lax, gf, LengthOf(gf))
    else StoreReg(if column == 0 then Y else if column == 2 then X else AX, StoreOf(gf), LengthOf(gf))
  }

  predicate IsBranch(op: byte) { op % 0x20 == 0x10 }

  /** The flag a branch asks for is in its top two bits, and the state it asks for in the one below. */
  predicate Asks(op: byte, p: Flags) {
    var flag := match op / 0x40 case 0 => p.n case 1 => p.v case 2 => p.c case _ => p.z;
    flag == (op / 0x20 % 2 == 1)
  }

  // ---- The proofs, two rows of the map at a time ---------------------------------------------

  lemma Accumulator0(op: byte)
    requires 0x00 <= op < 0x20 && Column(op) == 1
    ensures Rows0(op) == Column1(0, Mode(op))
  {
    hide WellFormed;
  }

  lemma Accumulator2(op: byte)
    requires 0x20 <= op < 0x40 && Column(op) == 1
    ensures Rows2(op) == Column1(1, Mode(op))
  {
    hide WellFormed;
  }

  lemma Accumulator4(op: byte)
    requires 0x40 <= op < 0x60 && Column(op) == 1
    ensures Rows4(op) == Column1(2, Mode(op))
  {
    hide WellFormed;
  }

  lemma Accumulator6(op: byte)
    requires 0x60 <= op < 0x80 && Column(op) == 1
    ensures Rows6(op) == Column1(3, Mode(op))
  {
    hide WellFormed;
  }

  lemma Accumulator8(op: byte)
    requires 0x80 <= op < 0xA0 && Column(op) == 1
    ensures Rows8(op) == Column1(4, Mode(op))
  {
    hide WellFormed;
  }

  lemma AccumulatorA(op: byte)
    requires 0xA0 <= op < 0xC0 && Column(op) == 1
    ensures RowsA(op) == Column1(5, Mode(op))
  {
    hide WellFormed;
  }

  lemma AccumulatorC(op: byte)
    requires 0xC0 <= op < 0xE0 && Column(op) == 1
    ensures RowsC(op) == Column1(6, Mode(op))
  {
    hide WellFormed;
  }

  lemma AccumulatorE(op: byte)
    requires 0xE0 <= op < 0x100 && Column(op) == 1
    ensures RowsE(op) == Column1(7, Mode(op))
  {
    hide WellFormed;
  }

  lemma Memory0(op: byte)
    requires 0x00 <= op < 0x20 && ChangesMemory(op)
    ensures Rows0(op) == Changes(Column(op), 0, Mode(op))
  {
    hide WellFormed;
  }

  lemma Memory2(op: byte)
    requires 0x20 <= op < 0x40 && ChangesMemory(op)
    ensures Rows2(op) == Changes(Column(op), 1, Mode(op))
  {
    hide WellFormed;
  }

  lemma Memory4(op: byte)
    requires 0x40 <= op < 0x60 && ChangesMemory(op)
    ensures Rows4(op) == Changes(Column(op), 2, Mode(op))
  {
    hide WellFormed;
  }

  lemma Memory6(op: byte)
    requires 0x60 <= op < 0x80 && ChangesMemory(op)
    ensures Rows6(op) == Changes(Column(op), 3, Mode(op))
  {
    hide WellFormed;
  }

  lemma MemoryC(op: byte)
    requires 0xC0 <= op < 0xE0 && ChangesMemory(op)
    ensures RowsC(op) == Changes(Column(op), 6, Mode(op))
  {
    hide WellFormed;
  }

  lemma MemoryE(op: byte)
    requires 0xE0 <= op < 0x100 && ChangesMemory(op)
    ensures RowsE(op) == Changes(Column(op), 7, Mode(op))
  {
    hide WellFormed;
  }

  lemma Register8(op: byte)
    requires 0x80 <= op < 0xA0 && MovesRegister(op)
    ensures Rows8(op) == Moved(Column(op), 4, Mode(op))
  {
    hide WellFormed;
  }

  lemma RegisterA(op: byte)
    requires 0xA0 <= op < 0xC0 && MovesRegister(op)
    ensures RowsA(op) == Moved(Column(op), 5, Mode(op))
  {
    hide WellFormed;
  }

  // ---- The decoder ---------------------------------------------------------------------------

  lemma AccumulatorColumn(op: byte)
    requires Column(op) == 1
    ensures Decode(op) == Column1(Row(op), Mode(op))
  {
    hide Rows0, Rows2, Rows4, Rows6, Rows8, RowsA, RowsC, RowsE, Column1, WellFormed;
    if op < 0x20 {
      Accumulator0(op);
    } else if op < 0x40 {
      Accumulator2(op);
    } else if op < 0x60 {
      Accumulator4(op);
    } else if op < 0x80 {
      Accumulator6(op);
    } else if op < 0xA0 {
      Accumulator8(op);
    } else if op < 0xC0 {
      AccumulatorA(op);
    } else if op < 0xE0 {
      AccumulatorC(op);
    } else {
      AccumulatorE(op);
    }
  }

  lemma MemoryColumns(op: byte)
    requires ChangesMemory(op)
    ensures Decode(op) == Changes(Column(op), Row(op), Mode(op))
  {
    hide Rows0, Rows2, Rows4, Rows6, Rows8, RowsA, RowsC, RowsE, Changes, WellFormed;
    if op < 0x20 {
      Memory0(op);
    } else if op < 0x40 {
      Memory2(op);
    } else if op < 0x60 {
      Memory4(op);
    } else if op < 0x80 {
      Memory6(op);
    } else if 0xC0 <= op < 0xE0 {
      MemoryC(op);
    } else if 0xE0 <= op {
      MemoryE(op);
    }
  }

  lemma RegisterColumns(op: byte)
    requires MovesRegister(op)
    ensures Decode(op) == Moved(Column(op), Row(op), Mode(op))
  {
    hide Rows0, Rows2, Rows4, Rows6, Rows8, RowsA, RowsC, RowsE, Moved, WellFormed;
    if op < 0xA0 {
      Register8(op);
    } else {
      RegisterA(op);
    }
  }

  lemma BranchRows()
    ensures Rows0(0x10) == Branch(Plus) && Rows2(0x30) == Branch(Minus)
    ensures Rows4(0x50) == Branch(OverflowClear) && Rows6(0x70) == Branch(OverflowSet)
    ensures Rows8(0x90) == Branch(CarryClear) && RowsA(0xB0) == Branch(CarrySet)
    ensures RowsC(0xD0) == Branch(NotZero) && RowsE(0xF0) == Branch(IsZero)
  {
    hide WellFormed;
  }

  /** Every opcode xxx10000 is a branch on the flag and the state its top bits ask for. */
  lemma BranchesByBits(op: byte, p: Flags)
    requires IsBranch(op)
    ensures Decode(op).Branch? && (Holds(p, Decode(op).cond) <==> Asks(op, p))
  {
    BranchRows();
    hide Rows0, Rows2, Rows4, Rows6, Rows8, RowsA, RowsC, RowsE, WellFormed;
  }

  lemma FlowRows()
    ensures Rows0(0x00) == Brk && Rows2(0x20) == Jsr && Rows4(0x40) == Rti && Rows6(0x60) == Rts
    ensures Rows4(0x4C) == Jmp && Rows6(0x6C) == JmpInd
  {
    hide WellFormed;
  }

  lemma StackRows()
    ensures Rows0(0x08) == Php && Rows2(0x28) == Plp && Rows4(0x48) == Pha && Rows6(0x68) == Pla
    ensures Rows4(0x58) == Cli && Rows6(0x78) == Sei
  {
    hide WellFormed;
  }

  lemma FlagRows()
    ensures Rows0(0x18) == Implied(Clc) && Rows2(0x38) == Implied(Sec) && RowsA(0xB8) == Implied(Clv)
    ensures RowsC(0xD8) == Implied(Cld) && RowsE(0xF8) == Implied(Sed)
  {
    hide WellFormed;
  }

  lemma ImpliedRows()
    ensures Rows8(0x88) == Implied(Dey) && RowsC(0xC8) == Implied(Iny)
    ensures RowsC(0xCA) == Implied(Dex) && RowsE(0xE8) == Implied(Inx)
    ensures Rows8(0x8A) == Implied(Txa) && Rows8(0x98) == Implied(Tya) && Rows8(0x9A) == Implied(Txs)
    ensures RowsA(0xA8) == Implied(Tay) && RowsA(0xAA) == Implied(Tax) && RowsA(0xBA) == Implied(Tsx)
    ensures Rows0(0x0A) == Implied(AslA) && Rows2(0x2A) == Implied(RolA)
  {
    hide WellFormed;
  }

  lemma OtherRows()
    ensures Rows4(0x4A) == Implied(LsrA) && Rows6(0x6A) == Implied(RorA)
    ensures Rows2(0x24) == Read(BitTest, Zero, 2) && Rows2(0x2C) == Read(BitTest, Abs, 3)
    ensures RowsA(0xA0) == Read(Ldy, Imm, 2) && RowsA(0xA2) == Read(Ldx, Imm, 2)
    ensures RowsC(0xC0) == Read(Cpy, Imm, 2) && RowsC(0xC4) == Read(Cpy, Zero, 2) && RowsC(0xCC) == Read(Cpy, Abs, 3)
    ensures RowsE(0xE0) == Read(Cpx, Imm, 2) && RowsE(0xE4) == Read(Cpx, Zero, 2) && RowsE(0xEC) == Read(Cpx, Abs, 3)
    ensures RowsE(0xEA) == Noop(Imm, 1)
  {
    hide WellFormed;
  }

  /** The control opcodes and the few that belong to no column. */
  lemma ControlOpcodes()
    ensures Decode(0x00) == Brk && Decode(0x20) == Jsr && Decode(0x40) == Rti && Decode(0x60) == Rts
    ensures Decode(0x4C) == Jmp && Decode(0x6C) == JmpInd
    ensures Decode(0x08) == Php && Decode(0x28) == Plp && Decode(0x48) == Pha && Decode(0x68) == Pla
    ensures Decode(0x58) == Cli && Decode(0x78) == Sei
    ensures Decode(0x18) == Implied(Clc) && Decode(0x38) == Implied(Sec) && Decode(0xB8) == Implied(Clv)
    ensures Decode(0xD8) == Implied(Cld) && Decode(0xF8) == Implied(Sed)
    ensures Decode(0x88) == Implied(Dey) && Decode(0xC8) == Implied(Iny)
    ensures Decode(0xCA) == Implied(Dex) && Decode(0xE8) == Implied(Inx)
    ensures Decode(0x8A) == Implied(Txa) && Decode(0x98) == Implied(Tya) && Decode(0x9A) == Implied(Txs)
    ensures Decode(0xA8) == Implied(Tay) && Decode(0xAA) == Implied(Tax) && Decode(0xBA) == Implied(Tsx)
    ensures Decode(0x0A) == Implied(AslA) && Decode(0x2A) == Implied(RolA)
    ensures Decode(0x4A) == Implied(LsrA) && Decode(0x6A) == Implied(RorA)
    ensures Decode(0x24) == Read(BitTest, Zero, 2) && Decode(0x2C) == Read(BitTest, Abs, 3)
    ensures Decode(0xA0) == Read(Ldy, Imm, 2) && Decode(0xA2) == Read(Ldx, Imm, 2)
    ensures Decode(0xC0) == Read(Cpy, Imm, 2) && Decode(0xC4) == Read(Cpy, Zero, 2) && Decode(0xCC) == Read(Cpy, Abs, 3)
    ensures Decode(0xE0) == Read(Cpx, Imm, 2) && Decode(0xE4) == Read(Cpx, Zero, 2) && Decode(0xEC) == Read(Cpx, Abs, 3)
    ensures Decode(0xEA) == Noop(Imm, 1)
  {
    FlowRows();
    StackRows();
    FlagRows();
    ImpliedRows();
    OtherRows();
    hide Rows0, Rows2, Rows4, Rows6, Rows8, RowsA, RowsC, RowsE, WellFormed;
  }
}
