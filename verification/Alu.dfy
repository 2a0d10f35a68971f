/**
 The arithmetic of the opcode bodies, on the register file alone.

 Masks are written as quotients and remainders: `t & 0x1f0 > 0x90` is `t % 0x200 / 0x10 > 9`,
 and a bitwise or of disjoint nibbles is their sum.
 */
module Alu {
  import opened Bytes
  import opened Machine

  datatype ReadOp = Ora | And_ | Eor | Adc | Sbc | Cmp | Cpx | Cpy | BitTest | Lda | Ldx | Ldy | Lax

  datatype RmwOp = Asl | Lsr | Rol | Ror | Dec | Inc | Dcp | Isb | Rla | Rra | Slo | Sre

  datatype ImpliedOp =
    | AslA | LsrA | RolA | RorA
    | Clc | Cld | Clv | Sec | Sed
    | Dex | Dey | Inx | Iny
    | Tax | Tay | Tsx | Txa | Txs | Tya

  datatype ImmediateOp = Anc | Asr | Arr | Sbx

  function SetNZ(r: Regs, v: byte): Regs { r.(p := r.p.(n := Bit7(v), z := v == 0)) }

  function SetCarry(r: Regs, c: bool): Regs { r.(p := r.p.(c := c)) }

  /** Load the accumulator and the flags it decides. */
  function LoadA(r: Regs, v: byte): Regs { SetNZ(r.(a := v), v) }

  // ---- ADC and SBC ---------------------------------------------------------------------------

  /** The decimal sum with its low nibble corrected, then with its high nibble corrected too. */
  function LowCorrected(a: byte, v: byte, c: nat): nat {
    var low := a % 0x10 + v % 0x10 + c;
    var fixed := if low > 9 then low + 6 else low;
    fixed % 0x10 + (a - a % 0x10) + (v - v % 0x10) + (if fixed <= 0xF then 0 else 0x10)
  }

  function HighCorrected(t: nat): nat { if t % 0x200 / 0x10 > 9 then t + 0x60 else t }

  function AddDecimal(r: Regs, v: byte): Regs {
    var t := LowCorrected(r.a, v, Bit(r.p.c));
    var t' := HighCorrected(t);
    r.(a := Wrap8(t'),
       p := r.p.(z := (r.a + v + Bit(r.p.c)) % 0x100 == 0,
                 n := Bit7(t),
                 v := Bit7(r.a) != Bit7(t) && Bit7(r.a) == Bit7(v),
                 c := t' % 0x1000 / 0x10 > 0xF))
  }

  function AddBinary(r: Regs, v: byte): Regs {
    var t := v + r.a + Bit(r.p.c);
    SetNZ(r.(a := Wrap8(t),
             p := r.p.(v := Bit7(r.a) == Bit7(v) && Bit7(r.a) != Bit7(t), c := t > 0xFF)),
          Wrap8(t))
  }

  function AddWithCarry(r: Regs, v: byte): Regs {
    if r.p.d then AddDecimal(r, v) else AddBinary(r, v)
  }

  /** The low digit of a decimal subtraction; a negative difference has bit 4 set. */
  function LowBorrowed(d: int): nat { if d < 0 then (d - 6) % 0x10 else d % 0x10 }

  /** The correction of the high digit, which bit 8 asks for. */
  function HighBorrowed(t: int): byte { Wrap8(if t / 0x100 % 2 == 1 then t - 0x60 else t) }

  /** The accumulator of a decimal subtraction. */
  function SubtractNibbles(a: byte, v: byte, borrow: nat): byte {
    var low := a % 0x10 - v % 0x10 - borrow;
    var high := (a - a % 0x10) - (v - v % 0x10);
    HighBorrowed(LowBorrowed(low) + (if low < 0 then high - 0x10 else high) % 0x1_0000)
  }

  function SubtractWithCarry(r: Regs, v: byte): Regs {
    var borrow := 1 - Bit(r.p.c);
    var t := Wrap16(r.a - v - borrow);
    var a := if r.p.d then SubtractNibbles(r.a, v, borrow) else Wrap8(t);
    SetNZ(r.(p := r.p.(c := t < 0x100, v := Bit7(r.a) != Bit7(t) && Bit7(r.a) != Bit7(v))),
          Wrap8(t)).(a := a)
  }

  function Compare(r: Regs, reg: byte, v: byte): Regs {
    SetNZ(SetCarry(r, v <= reg), Wrap8(reg - v))
  }

  // ---- Operations by addressing shape --------------------------------------------------------

  function ReadOperation(op: ReadOp, r: Regs, v: byte): Regs {
    match op
    case Ora => LoadA(r, Or(r.a, v))
    case And_ => LoadA(r, And(r.a, v))
    case Eor => LoadA(r, Xor(r.a, v))
    case Adc => AddWithCarry(r, v)
    case Sbc => SubtractWithCarry(r, v)
    case Cmp => Compare(r, r.a, v)
    case Cpx => Compare(r, r.x, v)
    case Cpy => Compare(r, r.y, v)
    case BitTest => r.(p := r.p.(n := Bit7(v), v := v / 0x40 % 2 == 1, z := And(v, r.a) == 0))
    case Lda => LoadA(r, v)
    case Ldx => SetNZ(r.(x := v), v)
    case Ldy => SetNZ(r.(y := v), v)
    case Lax => SetNZ(r.(a := v, x := v), v)
  }

  function ShiftLeft(v: byte, carryIn: bool): byte { Wrap8(2 * v + Bit(carryIn)) }

  function ShiftRight(v: byte, carryIn: bool): byte { v / 2 + 0x80 * Bit(carryIn) }

  /** The registers after a read-modify-write, and the byte it writes back. */
  function RmwOperation(op: RmwOp, r: Regs, old_: byte): (Regs, byte) {
    match op
    case Asl => var w := ShiftLeft(old_, false); (SetNZ(SetCarry(r, Bit7(old_)), w), w)
    case Lsr => var w := ShiftRight(old_, false); (SetNZ(SetCarry(r, old_ % 2 == 1), w), w)
    case Rol => var w := ShiftLeft(old_, r.p.c); (SetNZ(SetCarry(r, Bit7(old_)), w), w)
    case Ror => var w := ShiftRight(old_, r.p.c); (SetNZ(SetCarry(r, old_ % 2 == 1), w), w)
    case Dec => var w := Wrap8(old_ - 1); (SetNZ(r, w), w)
    case Inc => var w := Wrap8(old_ + 1); (SetNZ(r, w), w)
    case Dcp => var w := Wrap8(old_ - 1); (Compare(r, r.a, w), w)
    case Isb => var w := Wrap8(old_ + 1); (SubtractWithCarry(r, w), w)
    case Rla => var w := ShiftLeft(old_, r.p.c); (LoadA(SetCarry(r, Bit7(old_)), And(r.a, w)), w)
    case Rra => var w := ShiftRight(old_, r.p.c); (AddWithCarry(SetNZ(SetCarry(r, old_ % 2 == 1), w), w), w)
    case Slo => var w := ShiftLeft(old_, false); (LoadA(SetCarry(r, Bit7(old_)), Or(r.a, w)), w)
    case Sre => var w := ShiftRight(old_, false); (LoadA(SetCarry(r, old_ % 2 == 1), Xor(r.a, w)), w)
  }

  function ImpliedOperation(op: ImpliedOp, r: Regs): Regs {
    match op
    case AslA => LoadA(SetCarry(r, Bit7(r.a)), ShiftLeft(r.a, false))
    case LsrA => LoadA(SetCarry(r, r.a % 2 == 1), ShiftRight(r.a, false))
    case RolA => LoadA(SetCarry(r, Bit7(r.a)), ShiftLeft(r.a, r.p.c))
    case RorA => LoadA(SetCarry(r, r.a % 2 == 1), ShiftRight(r.a, r.p.c))
    case Clc => SetCarry(r, false)
    case Cld => r.(p := r.p.(d := false))
    case Clv => r.(p := r.p.(v := false))
    case Sec => SetCarry(r, true)
    case Sed => r.(p := r.p.(d := true))
    case Dex => SetNZ(r.(x := Wrap8(r.x - 1)), Wrap8(r.x - 1))
    case Dey => SetNZ(r.(y := Wrap8(r.y - 1)), Wrap8(r.y - 1))
    case Inx => SetNZ(r.(x := Wrap8(r.x + 1)), Wrap8(r.x + 1))
    case Iny => SetNZ(r.(y := Wrap8(r.y + 1)), Wrap8(r.y + 1))
    case Tax => SetNZ(r.(x := r.a), r.a)
    case Tay => SetNZ(r.(y := r.a), r.a)
    case Tsx => SetNZ(r.(x := r.sp), r.sp)
    case Txa => LoadA(r, r.x)
    case Txs => r.(sp := r.x)
    case Tya => LoadA(r, r.y)
  }

  /** The nibble fix-ups of a decimal ARR: `t` is the masked operand, `w` its rotation. */
  function FixLow(t: byte, w: byte): byte {
    if t % 0x10 + t % 2 > 5 then (w - w % 0x10) + (w + 6) % 0x10 else w
  }

  predicate FixesHigh(t: byte) { t / 0x10 * 0x10 + t / 0x10 % 2 * 0x10 > 0x50 }

  function FixHigh(t: byte, w: byte): byte {
    if FixesHigh(t) then w % 0x10 + (w + 0x60) % 0x100 / 0x10 * 0x10 else w
  }

  /** ARR: an AND and a rotate right, in decimal mode with both nibbles corrected. */
  function AndRotate(r: Regs, v: byte): Regs {
    var t := And(r.a, v);
    var w := ShiftRight(t, r.p.c);
    if !r.p.d then
      LoadA(r.(p := r.p.(c := w / 0x40 % 2 == 1, v := w / 0x40 % 2 != w / 0x20 % 2)), w)
    else
      r.(a := FixHigh(t, FixLow(t, w)),
         p := r.p.(n := r.p.c, z := w == 0, v := w / 0x40 % 2 != t / 0x40 % 2, c := FixesHigh(t)))
  }

  function ImmediateOperation(op: ImmediateOp, r: Regs, v: byte): Regs {
    match op
    case Anc => var w := And(r.a, v); SetCarry(LoadA(r, w), Bit7(w))
    case Asr => var w := And(r.a, v); LoadA(SetCarry(r, w % 2 == 1), ShiftRight(w, false))
    case Arr => AndRotate(r, v)
    case Sbx =>
      var ax := And(r.a, r.x);
      SetNZ(SetCarry(r, v <= ax).(x := Wrap8(ax - v)), Wrap8(ax - v))
  }
}
