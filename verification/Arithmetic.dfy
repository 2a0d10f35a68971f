/**
 The binary arithmetic of the opcodes: sums and differences exact with their carry, over one byte and over
 numbers of any length, signed overflow, comparisons, shifts and rotations as multiplication and division.
 */
module Arithmetic {
  import opened Bytes
  import opened Machine
  import opened Alu
  import opened Decimal

  /** A byte as a signed number. */
  function Signed(b: byte): int { if b >= 0x80 then b - 0x100 else b }

  predicate Fits8(x: int) { -0x80 <= x <= 0x7F }

  /** The flags that a result decides. */
  predicate Shows(p: Flags, v: byte) { p.n == (v >= 0x80) && p.z == (v == 0) }

  /** Nothing but the accumulator and the four arithmetic flags has changed. */
  predicate OnlyArithmetic(r: Regs, r': Regs) {
    r' == r.(a := r'.a, p := r.p.(n := r'.p.n, v := r'.p.v, z := r'.p.z, c := r'.p.c))
  }

  // ---- One byte ------------------------------------------------------------------------------

  /** Binary ADC: the sum of accumulator, operand and carry is the new accumulator and the new carry; V says
      whether the signed sum left its range. */
  lemma AddExact(r: Regs, v: byte)
    requires !r.p.d
    ensures var r', c := ReadOperation(Adc, r, v), if r.p.c then 1 else 0;
      && r.a + v + c == r'.a + (if r'.p.c then 0x100 else 0)
      && (r'.p.v <==> !Fits8(Signed(r.a) + Signed(v) + c))
      && Shows(r'.p, r'.a) && OnlyArithmetic(r, r')
  {
  }

  /** Binary SBC: the difference with the borrow, which is the carry turned round. */
  lemma SubtractExact(r: Regs, v: byte)
    requires !r.p.d
    ensures var r', b := ReadOperation(Sbc, r, v), if r.p.c then 0 else 1;
      && r.a - v - b == r'.a - (if r'.p.c then 0 else 0x100)
      && (r'.p.v <==> !Fits8(Signed(r.a) - Signed(v) - b))
      && Shows(r'.p, r'.a) && OnlyArithmetic(r, r')
  {
    var t := r.a - v - (1 - Bit(r.p.c));
    assert t % 0x1_0000 == if t < 0 then t + 0x1_0000 else t;
    assert (t % 0x1_0000) % 0x100 == if t < 0 then t + 0x100 else t;
  }

  /** Which register an operation compares. */
  function Compared(op: ReadOp, r: Regs): byte { if op == Cpx then r.x else if op == Cpy then r.y else r.a }

  /** A comparison: C if the register is not less, Z if it is equal, and nothing else but N changes. */
  lemma CompareExact(op: ReadOp, r: Regs, v: byte)
    requires op in {Cmp, Cpx, Cpy}
    ensures var r', reg := ReadOperation(op, r, v), Compared(op, r);
      && (r'.p.c <==> v <= reg) && (r'.p.z <==> v == reg)
      && (r'.p.n <==> (reg - v) % 0x100 >= 0x80)
      && r' == r.(p := r.p.(n := r'.p.n, z := r'.p.z, c := r'.p.c))
  {
  }

  // ---- Shifts and rotations ------------------------------------------------------------------

  predicate Leftward(op: RmwOp) { op in {Asl, Rol} }

  predicate Shifts(op: RmwOp) { op in {Asl, Lsr, Rol, Ror} }

  /** What a shift moves in: the carry if it rotates, nothing otherwise. */
  function MovedIn(op: RmwOp, p: Flags): nat { if op in {Rol, Ror} && p.c then 1 else 0 }

  lemma LeftExact(v: byte, carryIn: bool)
    ensures 2 * v + (if carryIn then 1 else 0) == ShiftLeft(v, carryIn) + (if Bit7(v) then 0x100 else 0)
  {
  }

  lemma RightExact(v: byte, carryIn: bool)
    ensures v + (if carryIn then 0x100 else 0) == 2 * ShiftRight(v, carryIn) + (if v % 2 == 1 then 1 else 0)
  {
  }

  lemma ShowsNZ(r: Regs, v: byte)
    ensures Shows(SetNZ(r, v).p, v) && SetNZ(r, v) == r.(p := r.p.(n := SetNZ(r, v).p.n, z := SetNZ(r, v).p.z))
  {
  }

  /** To the left a shift doubles and adds what it moves in, to the right it halves and puts it on top; what
      falls out is the carry. */
  lemma ShiftExact(op: RmwOp, r: Regs, v: byte)
    requires Shifts(op)
    ensures var (r', w) := RmwOperation(op, r, v);
      var out := if r'.p.c then 1 else 0;
      && (if Leftward(op) then 2 * v + MovedIn(op, r.p) == w + 0x100 * out
          else v + 0x100 * MovedIn(op, r.p) == 2 * w + out)
      && Shows(r'.p, w) && r' == r.(p := r.p.(n := r'.p.n, z := r'.p.z, c := r'.p.c))
  {
    LeftExact(v, op == Rol && r.p.c);
    RightExact(v, op == Ror && r.p.c);
    var (r', w) := RmwOperation(op, r, v);
    ShowsNZ(SetCarry(r, if Leftward(op) then Bit7(v) else v % 2 == 1), w);
    hide SetNZ, ShiftLeft, ShiftRight, Bit7, Shows;
  }

  /** The same opcode on the accumulator is the same operation. */
  lemma ShiftAccumulator(op: ImpliedOp, r: Regs)
    requires op in {AslA, LsrA, RolA, RorA}
    ensures var op' := if op == AslA then Asl else if op == LsrA then Lsr else if op == RolA then Rol else Ror;
      var (r', w) := RmwOperation(op', r, r.a);
      ImpliedOperation(op, r) == r'.(a := w)
  {
  }

  /** A rotation one way and one the other way give the byte and the carry back. */
  lemma RotationsUndo(r: Regs, v: byte)
    ensures var (r1, w) := RmwOperation(Rol, r, v);
      var (r2, u) := RmwOperation(Ror, r1, w);
      u == v && r2.p.c == r.p.c
    ensures var (r1, w) := RmwOperation(Ror, r, v);
      var (r2, u) := RmwOperation(Rol, r1, w);
      u == v && r2.p.c == r.p.c
  {
    ShiftExact(Rol, r, v);
    ShiftExact(Ror, r, v);
    var (r1, w) := RmwOperation(Rol, r, v);
    ShiftExact(Ror, r1, w);
    var (q1, x) := RmwOperation(Ror, r, v);
    ShiftExact(Rol, q1, x);
    hide RmwOperation;
  }

  /** INC and DEC count modulo 256 and touch N and Z only. */
  lemma CountExact(op: RmwOp, r: Regs, v: byte)
    requires op in {Inc, Dec}
    ensures var (r', w) := RmwOperation(op, r, v);
      && w == (v + (if op == Inc then 1 else 0xFF)) % 0x100
      && Shows(r'.p, w) && r' == r.(p := r.p.(n := r'.p.n, z := r'.p.z))
  {
  }

  /** The undocumented combinations are their two parts, one after the other: the first on memory, the second
      on the accumulator with what the first has written. */
  lemma CombinedExact(op: RmwOp, first: RmwOp, second: ReadOp, r: Regs, v: byte)
    requires (op, first, second) in
      {(Slo, Asl, Ora), (Rla, Rol, And_), (Sre, Lsr, Eor), (Rra, Ror, Adc), (Dcp, Dec, Cmp), (Isb, Inc, Sbc)}
    ensures var (r1, w) := RmwOperation(first, r, v);
      var (r2, w2) := RmwOperation(op, r, v);
      && w2 == w
      && r2.a == ReadOperation(second, r1, w).a && r2.p.c == ReadOperation(second, r1, w).p.c
      && r2.x == r.x && r2.y == r.y && r2.sp == r.sp && r2.pc == r.pc
  {
  }

  // ---- Registers -----------------------------------------------------------------------------

  datatype Name = RegA | RegX | RegY | RegSp

  function Of(r: Regs, n: Name): byte {
    match n
    case RegA => r.a
    case RegX => r.x
    case RegY => r.y
    case RegSp => r.sp
  }

  /** `r'` is `r` with register `n` set to `v`, and N and Z by it unless it is the stack pointer. */
  predicate Sets(r: Regs, r': Regs, n: Name, v: byte) {
    && Of(r', n) == v
    && (forall k :: k != n ==> Of(r', k) == Of(r, k)) && r'.pc == r.pc
    && (if n == RegSp then r'.p == r.p else Shows(r'.p, v) && r'.p == r.p.(n := r'.p.n, z := r'.p.z))
  }

  /** Each transfer, from its source to its target. */
  function Moves(op: ImpliedOp): (Name, Name) {
    match op
    case Tay => (RegA, RegY)
    case Tsx => (RegSp, RegX)
    case Txa => (RegX, RegA)
    case Txs => (RegX, RegSp)
    case Tya => (RegY, RegA)
    case _ => (RegA, RegX)
  }

  lemma TransferExact(op: ImpliedOp, r: Regs)
    requires op in {Tax, Tay, Tsx, Txa, Txs, Tya}
    ensures Sets(r, ImpliedOperation(op, r), Moves(op).1, Of(r, Moves(op).0))
  {
  }

  /** A loaded register holds the byte, and the index counters count modulo 256. */
  lemma LoadExact(r: Regs, v: byte)
    ensures Sets(r, ReadOperation(Lda, r, v), RegA, v)
    ensures Sets(r, ReadOperation(Ldx, r, v), RegX, v)
    ensures Sets(r, ReadOperation(Ldy, r, v), RegY, v)
  {
  }

  lemma CountersExact(r: Regs)
    ensures Sets(r, ImpliedOperation(Inx, r), RegX, (r.x + 1) % 0x100)
    ensures Sets(r, ImpliedOperation(Iny, r), RegY, (r.y + 1) % 0x100)
    ensures Sets(r, ImpliedOperation(Dex, r), RegX, (r.x - 1) % 0x100)
    ensures Sets(r, ImpliedOperation(Dey, r), RegY, (r.y - 1) % 0x100)
  {
    ShowsNZ(r.(x := (r.x + 1) % 0x100), (r.x + 1) % 0x100);
    ShowsNZ(r.(y := (r.y + 1) % 0x100), (r.y + 1) % 0x100);
    ShowsNZ(r.(x := (r.x - 1) % 0x100), (r.x - 1) % 0x100);
    ShowsNZ(r.(y := (r.y - 1) % 0x100), (r.y - 1) % 0x100);
    hide SetNZ, Shows;
  }

  /** Which flag the flag opcodes change, and to what. */
  lemma FlagsExact(r: Regs)
    ensures ImpliedOperation(Clc, r) == r.(p := r.p.(c := false)) && ImpliedOperation(Sec, r) == r.(p := r.p.(c := true))
    ensures ImpliedOperation(Cld, r) == r.(p := r.p.(d := false)) && ImpliedOperation(Sed, r) == r.(p := r.p.(d := true))
    ensures ImpliedOperation(Clv, r) == r.(p := r.p.(v := false))
  {
  }

  // ---- Logic ---------------------------------------------------------------------------------

  /** A mask of one bit. */
  predicate OneBit(k: bv8) { k != 0 && k & (k - 1) == 0 }

  predicate Has(b: byte, k: bv8) { (b as bv8) & k != 0 }

  lemma BitsOfVectors(x: bv8, y: bv8, k: bv8)
    requires OneBit(k)
    ensures (x & y) & k != 0 <==> x & k != 0 && y & k != 0
    ensures (x | y) & k != 0 <==> x & k != 0 || y & k != 0
    ensures (x ^ y) & k != 0 <==> (x & k != 0) != (y & k != 0)
  {
  }

  lemma ThereAndBack(v: bv8)
    ensures (v as int) as bv8 == v
  {
  }

  /** The bitwise operators of the model, bit by bit. */
  lemma BitsExact(x: byte, y: byte, k: bv8)
    requires OneBit(k)
    ensures Has(And(x, y), k) <==> Has(x, k) && Has(y, k)
    ensures Has(Or(x, y), k) <==> Has(x, k) || Has(y, k)
    ensures Has(Xor(x, y), k) <==> Has(x, k) != Has(y, k)
  {
    BitsOfVectors(x as bv8, y as bv8, k);
    ThereAndBack((x as bv8) & (y as bv8));
    ThereAndBack((x as bv8) | (y as bv8));
    ThereAndBack((x as bv8) ^ (y as bv8));
  }

  lemma Accumulates(r: Regs, v: byte)
    ensures LoadA(r, v).a == v && OnlyArithmetic(r, LoadA(r, v)) && Shows(LoadA(r, v).p, v)
    ensures LoadA(r, v).p == r.p.(n := LoadA(r, v).p.n, z := LoadA(r, v).p.z)
  {
  }

  /** AND, ORA and EOR on the accumulator, bit by bit; N and Z by the result, and nothing else. */
  lemma LogicExact(op: ReadOp, r: Regs, v: byte, k: bv8)
    requires op in {And_, Ora, Eor} && OneBit(k)
    ensures var r' := ReadOperation(op, r, v);
      && (Has(r'.a, k) <==>
            if op == And_ then Has(r.a, k) && Has(v, k) else if op == Ora then Has(r.a, k) || Has(v, k)
            else Has(r.a, k) != Has(v, k))
      && Shows(r'.p, r'.a) && r' == r.(a := r'.a, p := r.p.(n := r'.p.n, z := r'.p.z))
  {
    BitsExact(r.a, v, k);
    Accumulates(r, And(r.a, v));
    Accumulates(r, Or(r.a, v));
    Accumulates(r, Xor(r.a, v));
    hide And, Or, Xor, LoadA, Has, Shows;
  }

  /** BIT: Z by the common bits, N and V by the top two of the operand. */
  lemma BitTestExact(r: Regs, v: byte)
    ensures var r' := ReadOperation(BitTest, r, v);
      && (r'.p.z <==> And(r.a, v) == 0) && (r'.p.n <==> v >= 0x80) && (r'.p.v <==> v % 0x80 >= 0x40)
      && r' == r.(p := r.p.(n := r'.p.n, v := r'.p.v, z := r'.p.z))
  {
    Commutes(r.a, v);
    hide And;
  }

  lemma Commutes(x: byte, y: byte)
    ensures And(x, y) == And(y, x)
  {
    assert (x as bv8) & (y as bv8) == (y as bv8) & (x as bv8);
  }

  // ---- Numbers of any length -----------------------------------------------------------------

  /** Binary ADC over two numbers from the low byte up: the exact sum, the carry out being worth the byte above
      the last. */
  lemma {:induction false} BinarySumExact(r: Regs, xs: seq<byte>, ys: seq<byte>)
    requires |xs| == |ys| && !r.p.d
    ensures var (zs, r') := AddChain(r, xs, ys);
      !r'.p.d && FromLittleEndian(zs) + (if r'.p.c then Power256(|xs|) else 0)
                 == FromLittleEndian(xs) + FromLittleEndian(ys) + (if r.p.c then 1 else 0)
    decreases |xs|
  {
    hide AddWithCarry, Shows, Fits8;
    if xs != [] {
      var r1 := AddWithCarry(r.(a := xs[0]), ys[0]);
      AddExact(r.(a := xs[0]), ys[0]);
      assert r1 == ReadOperation(Adc, r.(a := xs[0]), ys[0]);
      hide ReadOperation;
      BinarySumExact(r1, xs[1..], ys[1..]);
      var (rest, r2) := AddChain(r1, xs[1..], ys[1..]);
      assert ([r1.a] + rest)[1..] == rest;
    }
  }

  /** And the exact difference; a clear carry is the borrow. */
  lemma {:induction false} BinaryDifferenceExact(r: Regs, xs: seq<byte>, ys: seq<byte>)
    requires |xs| == |ys| && !r.p.d
    ensures var (zs, r') := SubtractChain(r, xs, ys);
      !r'.p.d && FromLittleEndian(zs) + FromLittleEndian(ys) + (if r.p.c then 0 else 1)
                 == FromLittleEndian(xs) + (if r'.p.c then 0 else Power256(|xs|))
    decreases |xs|
  {
    hide SubtractWithCarry, Shows, Fits8;
    if xs != [] {
      var r1 := SubtractWithCarry(r.(a := xs[0]), ys[0]);
      SubtractExact(r.(a := xs[0]), ys[0]);
      assert r1 == ReadOperation(Sbc, r.(a := xs[0]), ys[0]);
      hide ReadOperation;
      BinaryDifferenceExact(r1, xs[1..], ys[1..]);
      var (rest, r2) := SubtractChain(r1, xs[1..], ys[1..]);
      assert ([r1.a] + rest)[1..] == rest;
    }
  }
}
