/**
 The opcode bodies: addressing modes, operations, the decode table. Each body is cycle-stepped:
 every bus access is followed by the CPU cycle it takes.
 */
module Instructions {
  import opened Bytes
  import opened Interrupts
  import opened Machine
  import opened Alu

  datatype GetFn = Imm | Zero | ZeroX | ZeroY | Abs | AbsX | AbsY | AbsXRmw | AbsYRmw | IndX | IndY | IndYRmw

  datatype SetFn =
    | SZero | SZeroX | SZeroY | SAbs | SAbsX | SAbsY | SIndX | SIndY
    | SZeroRmw | SZeroXRmw | SAbsRmw | SAbsXRmw | SAbsYRmw | SIndRmw

  datatype Reg = A | X | Y | AX

  datatype Condition = Plus | Minus | OverflowClear | OverflowSet | CarryClear | CarrySet | NotZero | IsZero

  datatype Instr =
    | Read(rop: ReadOp, gf: GetFn, length: nat)
    | Noop(gf: GetFn, length: nat)
    | Rmw(mop: RmwOp, gf: GetFn, sf: SetFn, length: nat)
    | StoreReg(reg: Reg, sf: SetFn, length: nat)
    | Implied(iop: ImpliedOp)
    | Immediate(aop: ImmediateOp)
    | Branch(cond: Condition)
    | Ane | Lxa | Cli | Sei
    | Jmp | JmpInd | Jsr | Rts | Rti | Brk
    | Pha | Php | Pla | Plp
    | Las | ShaIndY | ShAbs(reg: Reg, index: Reg) | ShsAbsY
    | Jam

  function RegValue(r: Regs, reg: Reg): byte {
    match reg
    case A => r.a
    case X => r.x
    case Y => r.y
    case AX => And(r.a, r.x)
  }

  // ---- Addressing modes ----------------------------------------------------------------------

  /** The address an indexed mode puts on the bus before the carry has reached its high byte. */
  function Uncarried(base: word, index: byte): word { MakeWord(Hi(base), Wrap8(Lo(base) + index)) }

  /** `int_abs_i_r`: the dummy read of a page crossing. */
  function CrossRead(b: Bus, m: Machine, base: word, index: byte): (r: Machine)
    ensures Cycled(b, m, r)
  {
    if Lo(base) + index > 0xFF then LoadCycle(b, m, Dummy, Uncarried(base, index)).0 else m
  }

  /** `int_abs_i_w`: the dummy read a write always makes. */
  function AlwaysRead(b: Bus, m: Machine, base: word, index: byte): (r: Machine)
    ensures Cycled(b, m, r)
  {
    LoadCycle(b, m, Dummy, Uncarried(base, index)).0
  }

  function Indexed(base: word, index: byte): word { Wrap16(base + index) }

  function GetIndexed(b: Bus, m: Machine, kind: Kind, base: word, index: byte): (r: (Machine, byte))
    ensures Cycled(b, m, r.0)
  {
    hide Valid, Phased, VectorsRead, Timely, AllLate, Exact, NeverSteals, LostIn, Taken, Stamped;
    hide LoadCycle, CrossRead;
    LoadCycle(b, CrossRead(b, m, base, index), kind, Indexed(base, index))
  }

  function GetIndexedRmw(b: Bus, m: Machine, base: word, index: byte): (r: (Machine, byte))
    ensures Cycled(b, m, r.0)
  {
    hide Valid, Phased, VectorsRead, Timely, AllLate, Exact, NeverSteals, LostIn, Taken, Stamped;
    hide LoadCycle, AlwaysRead;
    LoadCycle(b, AlwaysRead(b, m, base, index), Real, Indexed(base, index))
  }

  function SetIndexed(b: Bus, m: Machine, base: word, index: byte, v: byte): (r: Machine)
    ensures Cycled(b, m, r)
  {
    hide Valid, Phased, VectorsRead, Timely, AllLate, Exact, NeverSteals, LostIn, Taken, Stamped;
    hide StoreCycle, AlwaysRead;
    StoreCycle(b, AlwaysRead(b, m, base, index), Write, Indexed(base, index), v)
  }

  function GetZeroIndexed(b: Bus, m: Machine, kind: Kind, p1: byte, index: byte): (r: (Machine, byte))
    ensures Cycled(b, m, r.0)
  {
    hide Valid, Phased, VectorsRead, Timely, AllLate, Exact, NeverSteals, LostIn, Taken, Stamped;
    hide LoadPageCycle;
    LoadPageCycle(b, LoadPageCycle(b, m, Dummy, p1).0, kind, Wrap8(p1 + index))
  }

  function SetZeroIndexed(b: Bus, m: Machine, p1: byte, index: byte, v: byte): (r: Machine)
    ensures Cycled(b, m, r)
  {
    hide Valid, Phased, VectorsRead, Timely, AllLate, Exact, NeverSteals, LostIn, Taken, Stamped;
    hide LoadPageCycle, StorePageCycle;
    StorePageCycle(b, LoadPageCycle(b, m, Dummy, p1).0, Write, Wrap8(p1 + index), v)
  }

  /** A little-endian pointer from two zero-page bytes, the second wrapping inside the page. */
  function ReadPointer(b: Bus, m: Machine, at: byte): (r: (Machine, word))
    ensures Cycled(b, m, r.0)
  {
    hide Valid, Phased, VectorsRead, Timely, AllLate, Exact, NeverSteals, LostIn, Taken, Stamped;
    hide LoadPageCycle;
    var (m1, lo) := LoadPageCycle(b, m, Real, at);
    var (m2, hi) := LoadPageCycle(b, m1, Real, Wrap8(at + 1));
    (m2, MakeWord(hi, lo))
  }

  /** `int_ind_x`: the target of ($nn,X). */
  function PointerX(b: Bus, m: Machine, p1: byte): (r: (Machine, word))
    ensures Cycled(b, m, r.0)
  {
    hide Valid, Phased, VectorsRead, Timely, AllLate, Exact, NeverSteals, LostIn, Taken, Stamped;
    hide LoadPageCycle, ReadPointer;
    ReadPointer(b, LoadPageCycle(b, m, Dummy, p1).0, Wrap8(p1 + m.regs.x))
  }

  /** `int_ind_y_r` and `int_ind_y_w`: the target of ($nn),Y, without and with a forced dummy read. */
  function PointerY(b: Bus, m: Machine, p1: byte, always: bool): (r: (Machine, word))
    ensures Cycled(b, m, r.0)
  {
    hide Valid, Phased, VectorsRead, Timely, AllLate, Exact, NeverSteals, LostIn, Taken, Stamped;
    hide CrossRead, AlwaysRead, ReadPointer;
    var (m1, base) := ReadPointer(b, m, p1);
    var y := m.regs.y;
    (if always then AlwaysRead(b, m1, base, y) else CrossRead(b, m1, base, y), Indexed(base, y))
  }

  /** Two write cycles on end, as the recorder sees them. */
  lemma TwoWrites(b: Bus, m: Machine, m1: Machine, m2: Machine, a: word, old_: byte, new_: byte)
    requires Sound(b, m, m1) && OneMore(m, m1, DummyWrite, a, old_) && OneMore(m1, m2, Write, a, new_)
    ensures Lead(m) == 0 ==>
      m2.log.accesses == m.log.accesses
        + [Access(DummyWrite, a, old_, |m.log.accesses|), Access(Write, a, new_, |m.log.accesses| + 1)]
  {
    hide Clocked, Rested, Stamped, Owed;
  }

  /** `set_ind_rmw`, `set_abs_rmw` and their indexed forms: the old value, then the new one. */
  function WriteBack(b: Bus, m: Machine, a: word, old_: byte, new_: byte): (r: Machine)
    ensures Cycled(b, m, r)
    ensures Lead(m) == 0 ==>
      r.log.accesses == m.log.accesses
        + [Access(DummyWrite, a, old_, |m.log.accesses|), Access(Write, a, new_, |m.log.accesses| + 1)]
  {
    hide Valid, Phased, VectorsRead, Timely, AllLate, Exact, NeverSteals, LostIn, Taken, Stamped;
    hide StoreCycle, Steady, Rested, OneMore, Lead;
    var m1 := StoreCycle(b, m, DummyWrite, a, old_);
    var m2 := StoreCycle(b, m1, Write, a, new_);
    SoundThen(b, m, m1, m2);
    TwoWrites(b, m, m1, m2, a, old_, new_);
    m2
  }

  /** The same for the zero page, which never waits for the turbo grid. */
  function WriteBackPage(b: Bus, m: Machine, a: byte, old_: byte, new_: byte): (r: Machine)
    ensures Cycled(b, m, r)
    ensures Lead(m) == 0 ==>
      r.log.accesses == m.log.accesses
        + [Access(DummyWrite, a, old_, |m.log.accesses|), Access(Write, a, new_, |m.log.accesses| + 1)]
  {
    hide Valid, Phased, VectorsRead, Timely, AllLate, Exact, NeverSteals, LostIn, Taken, Stamped;
    hide StorePageCycle, Steady, Rested, OneMore, Lead;
    var m1 := StorePageCycle(b, m, DummyWrite, a, old_);
    var m2 := StorePageCycle(b, m1, Write, a, new_);
    SoundThen(b, m, m1, m2);
    TwoWrites(b, m, m1, m2, a, old_, new_);
    m2
  }

  /** `get_ind_y_rmw`: the read, with the target handed on to the write-back. */
  function GetIndYRmw(b: Bus, m: Machine, p1: byte): (r: (Machine, byte))
    ensures Sound(b, m, r.0) && SameCore(m.(indAddr := r.0.indAddr), r.0)
  {
    hide Valid, Phased, VectorsRead, Timely, AllLate, Exact, NeverSteals, LostIn, Taken, Stamped;
    hide LoadCycle, PointerY;
    var (m1, a) := PointerY(b, m, p1, true);
    var (m2, v) := LoadCycle(b, m1, Real, a);
    (m2.(indAddr := a), v)
  }

  /** `call_get`. Only the ($nn),Y read-modify-write form hands its target on. */
  function CallGet(b: Bus, m: Machine, gf: GetFn, p1: byte, p2: word): (r: (Machine, byte))
    ensures Sound(b, m, r.0) && SameCore(if gf.IndYRmw? then m.(indAddr := r.0.indAddr) else m, r.0)
  {
    hide Valid, Phased, VectorsRead, Timely, AllLate, Exact, NeverSteals, LostIn, Taken, Stamped;
    hide LoadCycle, LoadPageCycle, GetIndexed, GetIndexedRmw, GetZeroIndexed, PointerX, PointerY, GetIndYRmw;
    match gf
    case Imm => (m, p1)
    case Zero => LoadPageCycle(b, m, Real, p1)
    case ZeroX => GetZeroIndexed(b, m, Real, p1, m.regs.x)
    case ZeroY => GetZeroIndexed(b, m, Real, p1, m.regs.y)
    case Abs => LoadCycle(b, m, Real, p2)
    case AbsX => GetIndexed(b, m, Real, p2, m.regs.x)
    case AbsY => GetIndexed(b, m, Real, p2, m.regs.y)
    case AbsXRmw => GetIndexedRmw(b, m, p2, m.regs.x)
    case AbsYRmw => GetIndexedRmw(b, m, p2, m.regs.y)
    case IndX => var (m1, a) := PointerX(b, m, p1); LoadCycle(b, m1, Real, a)
    case IndY => var (m1, a) := PointerY(b, m, p1, false); LoadCycle(b, m1, Real, a)
    case IndYRmw => GetIndYRmw(b, m, p1)
  }

  /** `call_get_dummy`: what a NOP with an operand reads and throws away. */
  function CallGetDummy(b: Bus, m: Machine, gf: GetFn, p1: byte, p2: word): (r: Machine)
    ensures Cycled(b, m, r)
  {
    hide Valid, Phased, VectorsRead, Timely, AllLate, Exact, NeverSteals, LostIn, Taken, Stamped;
    hide LoadCycle, LoadPageCycle, GetIndexed, GetZeroIndexed;
    match gf
    case Zero => LoadPageCycle(b, m, Dummy, p1).0
    case ZeroX => GetZeroIndexed(b, m, Dummy, p1, m.regs.x).0
    case Abs => LoadCycle(b, m, Dummy, p2).0
    case AbsX => GetIndexed(b, m, Dummy, p2, m.regs.x).0
    case _ => m
  }

  /** `call_set`: the write-back of a read-modify-write. */
  function CallSet(b: Bus, m: Machine, sf: SetFn, p1: byte, p2: word, old_: byte, new_: byte): (r: Machine)
    ensures Cycled(b, m, r)
  {
    hide Valid, Phased, VectorsRead, Timely, AllLate, Exact, NeverSteals, LostIn, Taken, Stamped;
    hide WriteBack, WriteBackPage;
    match sf
    case SZeroRmw => WriteBackPage(b, m, p1, old_, new_)
    case SZeroXRmw => WriteBackPage(b, m, Wrap8(p1 + m.regs.x), old_, new_)
    case SAbsRmw => WriteBack(b, m, p2, old_, new_)
    case SAbsXRmw => WriteBack(b, m, Indexed(p2, m.regs.x), old_, new_)
    case SAbsYRmw => WriteBack(b, m, Indexed(p2, m.regs.y), old_, new_)
    case SIndRmw => WriteBack(b, m, m.indAddr, old_, new_)
    case _ => m
  }

  /** `call_set_store`: a plain store. */
  function CallSetStore(b: Bus, m: Machine, sf: SetFn, p1: byte, p2: word, v: byte): (r: Machine)
    ensures Cycled(b, m, r)
  {
    hide Valid, Phased, VectorsRead, Timely, AllLate, Exact, NeverSteals, LostIn, Taken, Stamped;
    hide StoreCycle, StorePageCycle, SetIndexed, SetZeroIndexed, PointerX, PointerY;
    match sf
    case SZero => StorePageCycle(b, m, Write, p1, v)
    case SZeroX => SetZeroIndexed(b, m, p1, m.regs.x, v)
    case SZeroY => SetZeroIndexed(b, m, p1, m.regs.y, v)
    case SAbs => StoreCycle(b, m, Write, p2, v)
    case SAbsX => SetIndexed(b, m, p2, m.regs.x, v)
    case SAbsY => SetIndexed(b, m, p2, m.regs.y, v)
    case SIndX => var (m1, a) := PointerX(b, m, p1); StoreCycle(b, m1, Write, a, v)
    case SIndY => var (m1, a) := PointerY(b, m, p1, true); StoreCycle(b, m1, Write, a, v)
    case _ => m
  }

  /** `set_abs_sh_i`: the unstable stores. The value is masked by the high byte of the base plus
      one unless a stolen cycle lifted the mask; a page crossing puts the masked byte on the high
      half of the address. */
  function StoreUnstable(b: Bus, m: Machine, base: word, value: byte, index: byte): (r: Machine)
    ensures Sound(b, m, r)
  {
    hide Valid, Phased, VectorsRead, Timely, AllLate, Exact, NeverSteals, LostIn, Taken, Stamped;
    hide StoreCycle;
    var masked := And(value, Wrap8(Hi(base) + 1));
    var m1 := m.(info := m.info.(enables := false));
    var a := Indexed(base, index);
    var a' := if Lo(base) + index > 0xFF then MakeWord(masked, Lo(a)) else a;
    StoreCycle(b, m1, Write, a', if m.info.enables then value else masked)
  }

  // ---- Operations ----------------------------------------------------------------------------

  function IncPc(r: Regs, n: nat): Regs { r.(pc := Wrap16(r.pc + n)) }

  function SetRegs(m: Machine, r: Regs): (r': Machine)
    ensures Instant(m, r', 0) && r' == m.(regs := r)
  {
    m.(regs := r)
  }

  function ReadInstr(b: Bus, m: Machine, op: ReadOp, gf: GetFn, n: nat, p1: byte, p2: word): (r: Machine)
    ensures Sound(b, m, r)
  {
    hide Valid, Phased, VectorsRead, Timely, AllLate, Exact, NeverSteals, LostIn, Taken, Stamped;
    hide CallGet, ReadOperation;
    var (m1, v) := CallGet(b, m, gf, p1, p2);
    SetRegs(m1, IncPc(ReadOperation(op, m1.regs, v), n))
  }

  function RmwInstr(b: Bus, m: Machine, op: RmwOp, gf: GetFn, sf: SetFn, n: nat, p1: byte, p2: word): (r: Machine)
    ensures Sound(b, m, r)
  {
    hide Valid, Phased, VectorsRead, Timely, AllLate, Exact, NeverSteals, LostIn, Taken, Stamped;
    hide CallGet, CallSet;
    var (m1, old_) := CallGet(b, m, gf, p1, p2);
    var (regs, new_) := RmwOperation(op, m1.regs, old_);
    CallSet(b, SetRegs(m1, IncPc(regs, n)), sf, p1, p2, old_, new_)
  }

  function CondHolds(p: Flags, cond: Condition): bool {
    match cond
    case Plus => !p.n
    case Minus => p.n
    case OverflowClear => !p.v
    case OverflowSet => p.v
    case CarryClear => !p.c
    case CarrySet => p.c
    case NotZero => !p.z
    case IsZero => p.z
  }

  function SignExtend(v: byte): int { if v < 0x80 then v else v - 0x100 }

  /** A taken branch inside its page delays the next interrupt by one cycle. */
  function BranchInstr(b: Bus, m: Machine, cond: Condition, p1: byte): (r: Machine)
    ensures Sound(b, m, r)
  {
    hide Valid, Phased, VectorsRead, Timely, AllLate, Exact, NeverSteals, LostIn, Taken, Stamped;
    hide LoadCycle;
    var m0 := SetRegs(m, IncPc(m.regs, 2));
    if !CondHolds(m.regs.p, cond) then m0 else
    var pc := m0.regs.pc;
    var dest := Wrap16(pc + SignExtend(p1));
    var m1 := LoadCycle(b, m0, Dummy, pc).0;
    var m2 := if Hi(pc) != Hi(dest) then LoadCycle(b, m1, Dummy, MakeWord(Hi(pc), Lo(dest))).0
              else m1.(info := m1.info.(delays := true));
    SetRegs(m2, m2.regs.(pc := dest))
  }

  function JmpIndInstr(b: Bus, m: Machine, p2: word): (r: Machine)
    ensures Sound(b, m, r)
  {
    hide Valid, Phased, VectorsRead, Timely, AllLate, Exact, NeverSteals, LostIn, Taken, Stamped;
    hide LoadCycle;
    var (m1, lo) := LoadCycle(b, m, Real, p2);
    var (m2, hi) := LoadCycle(b, m1, Real, MakeWord(Hi(p2), Wrap8(Lo(p2) + 1)));
    SetRegs(m2, m2.regs.(pc := MakeWord(hi, lo)))
  }

  function JsrInstr(b: Bus, m: Machine, p1: byte): (r: Machine)
    ensures Sound(b, m, r)
  {
    hide Valid, Phased, VectorsRead, Timely, AllLate, Exact, NeverSteals, LostIn, Taken, Stamped;
    hide LoadCycle, PushCycle, PeekCycle, OneMore, Wrap8;
    var m1 := PeekCycle(b, m);
    var m2 := SetRegs(m1, IncPc(m1.regs, 2));
    var m3 := PushCycle(b, m2, Hi(m2.regs.pc));
    var m4 := PushCycle(b, m3, Lo(m3.regs.pc));
    var (m5, hi) := LoadCycle(b, m4, Fetch, m4.regs.pc);
    SetRegs(m5, m5.regs.(pc := MakeWord(hi, p1)))
  }

  function RtsInstr(b: Bus, m: Machine): (r: Machine)
    ensures Sound(b, m, r)
  {
    hide Valid, Phased, VectorsRead, Timely, AllLate, Exact, NeverSteals, LostIn, Taken, Stamped;
    hide LoadCycle, PullCycle, PeekCycle;
    var (m1, lo) := PullCycle(b, PeekCycle(b, m));
    var (m2, hi) := PullCycle(b, m1);
    var m3 := LoadCycle(b, m2, Dummy, MakeWord(hi, lo)).0;
    SetRegs(m3, m3.regs.(pc := Wrap16(MakeWord(hi, lo) + 1)))
  }

  function RtiInstr(b: Bus, m: Machine): (r: Machine)
    ensures Sound(b, m, r)
  {
    hide Valid, Phased, VectorsRead, Timely, AllLate, Exact, NeverSteals, LostIn, Taken, Stamped;
    hide PullCycle, PeekCycle;
    var (m1, p) := PullCycle(b, PeekCycle(b, m));
    var (m2, lo) := PullCycle(b, SetRegs(m1, m1.regs.(p := FromStatus(p))));
    var (m3, hi) := PullCycle(b, m2);
    SetRegs(m3, m3.regs.(pc := MakeWord(hi, lo)))
  }

  function PlaInstr(b: Bus, m: Machine): (r: Machine)
    ensures Sound(b, m, r)
  {
    hide Valid, Phased, VectorsRead, Timely, AllLate, Exact, NeverSteals, LostIn, Taken, Stamped;
    hide PullCycle, PeekCycle;
    var (m1, v) := PullCycle(b, PeekCycle(b, m));
    SetRegs(m1, IncPc(LoadA(m1.regs, v), 1))
  }

  function PlpInstr(b: Bus, m: Machine): (r: Machine)
    ensures Sound(b, m, r)
  {
    hide Valid, Phased, VectorsRead, Timely, AllLate, Exact, NeverSteals, LostIn, Taken, Stamped;
    hide PullCycle, PeekCycle;
    var (m1, v) := PullCycle(b, PeekCycle(b, m));
    var p := FromStatus(v);
    var i := m1.regs.p.i;
    m1.(info := m1.info.(enables := m1.info.enables || (i && !p.i), disables := m1.info.disables || (!i && p.i)),
        regs := IncPc(m1.regs.(p := p), 1))
  }

  /** CLI: the interrupt stays off for one more instruction, unless a stolen cycle already served
      that delay. */
  function CliInstr(m: Machine): (r: Machine)
    ensures Instant(m, r, 0)
  {
    m.(info := m.info.(enables := !m.info.enables && m.regs.p.i),
       regs := IncPc(m.regs.(p := m.regs.p.(i := false)), 1))
  }

  function SeiInstr(m: Machine): (r: Machine)
    ensures Instant(m, r, 0)
  {
    m.(info := m.info.(disables := m.info.disables || !m.regs.p.i),
       regs := IncPc(m.regs.(p := m.regs.p.(i := true)), 1))
  }

  const ANE_MAGIC: byte := 0xEF
  const LXA_MAGIC: byte := 0xEE

  /** ANE: a stolen cycle changes the constant; afterwards it poses as a NOP. */
  function AneInstr(m: Machine, p1: byte): (r: Machine)
    ensures Instant(m, r, 0)
  {
    var magic := if m.info.enables then And(0xEE, ANE_MAGIC) else ANE_MAGIC;
    m.(info := OpInfo(0x80, false, false, false),
       regs := IncPc(LoadA(m.regs, And(And(Or(m.regs.a, magic), m.regs.x), p1)), 2))
  }

  function LxaInstr(m: Machine, p1: byte): (r: Machine)
    ensures Instant(m, r, 0)
  {
    var v := And(Or(m.regs.a, LXA_MAGIC), p1);
    m.(info := OpInfo(0x80, false, false, false), regs := IncPc(LoadA(m.regs, v).(x := v), 2))
  }

  function LasInstr(b: Bus, m: Machine, p2: word): (r: Machine)
    ensures Sound(b, m, r)
  {
    hide Valid, Phased, VectorsRead, Timely, AllLate, Exact, NeverSteals, LostIn, Taken, Stamped;
    hide GetIndexed, LoadA, And;
    var (m1, v) := GetIndexed(b, m, Real, p2, m.regs.y);
    var w := And(m1.regs.sp, v);
    SetRegs(m1, IncPc(LoadA(m1.regs.(sp := w, x := w), w), 3))
  }

  function ShaIndYInstr(b: Bus, m: Machine, p1: byte): (r: Machine)
    ensures Sound(b, m, r)
  {
    hide Valid, Phased, VectorsRead, Timely, AllLate, Exact, NeverSteals, LostIn, Taken, Stamped;
    hide LoadBaLowCycle, ReadPointer, StoreUnstable;
    var (m1, base) := ReadPointer(b, m, p1);
    var m2 := LoadBaLowCycle(b, m1, Real, Uncarried(base, m.regs.y));
    var m3 := StoreUnstable(b, m2, base, RegValue(m2.regs, AX), m2.regs.y);
    SetRegs(m3, IncPc(m3.regs, 2))
  }

  function ShAbsInstr(b: Bus, m: Machine, p2: word, value: byte, index: byte): (r: Machine)
    ensures Sound(b, m, r)
  {
    hide Valid, Phased, VectorsRead, Timely, AllLate, Exact, NeverSteals, LostIn, Taken, Stamped;
    hide LoadBaLowCycle, StoreUnstable;
    var m1 := LoadBaLowCycle(b, m, Dummy, Uncarried(p2, index));
    var m2 := StoreUnstable(b, m1, p2, value, index);
    SetRegs(m2, IncPc(m2.regs, 3))
  }

  function ShsInstr(b: Bus, m: Machine, p2: word): (r: Machine)
    ensures Sound(b, m, r)
  {
    hide Valid, Phased, VectorsRead, Timely, AllLate, Exact, NeverSteals, LostIn, Taken, Stamped;
    hide ShAbsInstr, RegValue;
    var m1 := ShAbsInstr(b, m, p2, RegValue(m.regs, AX), m.regs.y);
    SetRegs(m1, m1.regs.(sp := RegValue(m1.regs, AX)))
  }

  /** A JAM opcode with no host handler: one cycle, no access, and the program counter stays. */
  function JamInstr(b: Bus, m: Machine): (r: Machine)
    ensures Kept(b, m, r, 1)
  {
    hide Valid, Phased, VectorsRead, Timely, AllLate, Exact, NeverSteals, LostIn, Taken, Stamped, Clocked;
    hide IdleCycle;
    var m1 := m.(jammed := true);
    var r := IdleCycle(b, m1);
    JamKeeps(m, r);
    CountsAside(m, r, r.log.idle, r.log.waits, r.log.jams + 1);
    r.(log := r.log.(jams := r.log.jams + 1))
  }

  lemma JamKeeps(m: Machine, r: Machine)
    requires Clocked(m.(jammed := true), r)
    ensures Clocked(m, r)
  {
    hide Valid, Phased, VectorsRead, Timely, AllLate, Exact, LostIn, Succeeds;
  }

  // ---- Interrupt sequences -------------------------------------------------------------------

  /** `process_alarms`: the chips catch up to the clock and the CIAs' line changes are replayed. */
  function ProcessAlarms(b: Bus, m: Machine): (r: Machine)
    ensures Sound(b, m, r)
    ensures r == m.(dev := r.dev, lines := r.lines)
  {
    hide Report, Valid, VectorsRead, Timely, AllLate, Exact, NeverSteals, LostIn, Taken, Stamped;
    var (dev, changes) := b.drain(b.alarms(m.dev, m.time.clk));
    m.(dev := dev, lines := Report(m.lines, changes, m.time.clk))
  }

  /** The last two of `acc` are real reads of `v` and the byte after it, and `pc` is what they spell. */
  predicate Spells(acc: seq<Access>, v: int, pc: word) {
    var n := |acc|;
    var spells := n >= 2
      && acc[n - 2].kind == Real && acc[n - 2].addr == v
      && acc[n - 1].kind == Real && acc[n - 1].addr == v + 1
      && pc == 0x100 * acc[n - 1].value + acc[n - 2].value;
    spells
  }

  /** Of the registers only the program counter moved, through the vector at `v`. */
  predicate Jumped(m: Machine, m': Machine, v: int) {
    var jumped := m'.regs == m.regs.(pc := m'.regs.pc) && m'.jammed == m.jammed
      && |m'.log.accesses| == |m.log.accesses| + 2 && Spells(m'.log.accesses, v, m'.regs.pc);
    jumped
  }

  /** The vector an interrupt sequence jumped through: that of the NMI if it was fetched. */
  function VectorOf(m: Machine, m': Machine): int {
    if |m'.log.nmiVectors| > |m.log.nmiVectors| then 0xFFFA else 0xFFFE
  }

  /** The vector fetch and the jump through it. */
  function FetchVector(b: Bus, m: Machine, vector: word): (r: Machine)
    requires vector < 0xFFFF
    ensures Sound(b, m, r) && Jumped(m, r, vector)
    ensures NextAccess(m.log, r.log, vector) && r.log.nmiVectors == m.log.nmiVectors
  {
    hide Valid, Phased, VectorsRead, Timely, AllLate, Exact, NeverSteals, LostIn, Taken, Stamped;
    hide LoadCycle, MakeWord;
    var (m1, lo) := LoadCycle(b, m, Real, vector);
    var (m2, hi) := LoadCycle(b, m1, Real, vector + 1);
    m2.(regs := m2.regs.(pc := MakeWord(hi, lo)))
  }

  /** The first access `l'` adds to `l` is a real read of `a`. */
  ghost predicate NextAccess(l: Log, l': Log, a: word) {
    var n := |l.accesses|;
    var next := n < |l'.accesses| && l.accesses <= l'.accesses
                && l'.accesses[n].kind == Real && l'.accesses[n].addr == a;
    next
  }

  lemma VectorRecorded(l: Log, l': Log)
    requires NextAccess(l, l', 0xFFFA) && VectorsRead(l.nmiVectors, l.accesses)
    ensures VectorsRead(l.nmiVectors + [|l.accesses|], l'.accesses)
  {
  }

  function AckNmiOf(m: Machine): (r: Machine)
    requires m.lines.global.nmi
    ensures Instant(m, r, 1)
  {
    hide Valid, Phased, VectorsRead, Timely, AllLate, Exact, Stamped;
    AckKeeps(m.lines, m.time.clk);
    m.(lines := AckNmi(m.lines))
  }

  /** An acknowledge touches neither the line counters nor the delays. */
  lemma AckKeeps(s: IntState, clk: nat)
    ensures Valid(s) ==> Valid(AckNmi(s))
    ensures Timely(s, clk) ==> Timely(AckNmi(s), clk)
    ensures Exact(s, clk) ==> Exact(AckNmi(s), clk)
  {
  }

  /** Everything kept but the NMI account: one acknowledged NMI is settled. */
  ghost predicate PaysOne(b: Bus, m: Machine, m': Machine) {
    var kept := Clocked(m, m') && Paired(m, m') && Rested(m, m', 0) && Owed(m') == Owed(m) - 1;
    var unstolen := NeverSteals(b) ==> m'.log.stolen == m.log.stolen;
    kept && unstolen
  }

  /** The fetch of the NMI vector: it settles one acknowledged NMI. */
  function FetchNmiVector(b: Bus, m: Machine): (r: Machine)
    ensures PaysOne(b, m, r) && Jumped(m, r, 0xFFFA)
    ensures r.log.nmiVectors == m.log.nmiVectors + [|m.log.accesses|]
  {
    hide Valid, Phased, VectorsRead, Timely, AllLate, Exact, NeverSteals, LostIn, Taken, Stamped, FetchVector,
         NextAccess;
    var m1 := FetchVector(b, m.(dev := b.nmiVectorFetch(m.dev)), 0xFFFA);
    assert VectorsRead(m.log.nmiVectors, m.log.accesses) ==>
        VectorsRead(m.log.nmiVectors + [|m.log.accesses|], m1.log.accesses) by {
      if VectorsRead(m.log.nmiVectors, m.log.accesses) { VectorRecorded(m.log, m1.log); }
    }
    m1.(log := m1.log.(nmiVectors := m1.log.nmiVectors + [|m.log.accesses|]))
  }

  /** Pushes the program counter and P. */
  function PushState(b: Bus, m: Machine): (r: Machine)
    ensures Sound(b, m, r)
    ensures SameCore(m.(regs := r.regs), r) && r.regs == m.regs.(sp := Wrap8(m.regs.sp - 3))
    ensures r.log.nmiVectors == m.log.nmiVectors && |r.log.accesses| == |m.log.accesses| + 3
  {
    hide Valid, Phased, VectorsRead, Timely, AllLate, Exact, NeverSteals, LostIn, Taken, Stamped;
    hide PushCycle;
    PushCycle(b, PushCycle(b, PushCycle(b, m, Hi(m.regs.pc)), Lo(m.regs.pc)), Status(m.regs.p))
  }

  /** An NMI due two cycles before the vector fetch takes an IRQ or BRK sequence over. */
  predicate NmiTakesOver(m: Machine) {
    && m.lines.global.nmi
    && (if m.time.div > 1 then m.lines.nmiDelay >= INTERRUPT_DELAY
        else m.lines.nmiClk + INTERRUPT_DELAY <= m.time.clk)
  }

  /** Three bytes pushed, I set, and a jump through the vector of the BRK or of the NMI. */
  predicate Interrupted(m: Machine, m': Machine) {
    var sp, p := Wrap8(m.regs.sp - 3), m.regs.p.(i := true);
    var interrupted := m'.regs == m.regs.(sp := sp, pc := m'.regs.pc, p := p) && m'.jammed == m.jammed
      && Spells(m'.log.accesses, VectorOf(m, m'), m'.regs.pc);
    interrupted
  }

  /** `do_irqbrk`: the sequence an IRQ and a BRK share. */
  function IrqBrk(b: Bus, m: Machine): (r: Machine)
    ensures Sound(b, m, r) && Interrupted(m, r)
  {
    hide Valid, Phased, VectorsRead, Timely, AllLate, Exact, NeverSteals, LostIn, Taken, Stamped;
    hide FetchVector, FetchNmiVector, PushState, ProcessAlarms;
    var m1 := ProcessAlarms(b, PushState(b, m));
    var takeover := NmiTakesOver(m1);
    var m2 := if takeover then AckNmiOf(m1) else m1;
    var m3 := m2.(regs := m2.regs.(p := m2.regs.p.(i := true)));
    if takeover then FetchNmiVector(b, m3) else FetchVector(b, m3, 0xFFFE)
  }

  function BrkInstr(b: Bus, m: Machine): (r: Machine)
    ensures Sound(b, m, r)
  {
    hide IrqBrk;
    IrqBrk(b, SetRegs(m, IncPc(m.regs, 2).(p := m.regs.p.(b := true))))
  }

  /** The JAM opcodes among one instruction. */
  function JamsIn(instr: Instr): nat { if instr.Jam? then 1 else 0 }

  function Execute(b: Bus, m: Machine, instr: Instr, p1: byte, p2: word): (r: Machine)
    ensures Kept(b, m, r, JamsIn(instr))
  {
    hide Valid, Phased, VectorsRead, Timely, AllLate, Exact, NeverSteals, LostIn, Taken, Stamped;
    hide PushCycle, CallGetDummy, CallSetStore, ReadInstr, RmwInstr, BranchInstr, AneInstr, LxaInstr, CliInstr,
         SeiInstr, JmpIndInstr, JsrInstr, RtsInstr, RtiInstr, BrkInstr, PlaInstr, PlpInstr, LasInstr,
         ShaIndYInstr, ShAbsInstr, ShsInstr, JamInstr;
    match instr
    case Read(op, gf, n) => ReadInstr(b, m, op, gf, n, p1, p2)
    case Noop(gf, n) => var m1 := CallGetDummy(b, m, gf, p1, p2); SetRegs(m1, IncPc(m1.regs, n))
    case Rmw(op, gf, sf, n) => RmwInstr(b, m, op, gf, sf, n, p1, p2)
    case StoreReg(reg, sf, n) =>
      CallSetStore(b, SetRegs(m, IncPc(m.regs, n)), sf, p1, p2, RegValue(m.regs, reg))
    case Implied(op) => SetRegs(m, IncPc(ImpliedOperation(op, m.regs), 1))
    case Immediate(op) => SetRegs(m, IncPc(ImmediateOperation(op, m.regs, p1), 2))
    case Branch(cond) => BranchInstr(b, m, cond, p1)
    case Ane => AneInstr(m, p1)
    case Lxa => LxaInstr(m, p1)
    case Cli => CliInstr(m)
    case Sei => SeiInstr(m)
    case Jmp => SetRegs(m, m.regs.(pc := p2))
    case JmpInd => JmpIndInstr(b, m, p2)
    case Jsr => JsrInstr(b, m, p1)
    case Rts => RtsInstr(b, m)
    case Rti => RtiInstr(b, m)
    case Brk => BrkInstr(b, m)
    case Pha => var m1 := PushCycle(b, m, m.regs.a); SetRegs(m1, IncPc(m1.regs, 1))
    case Php => var m1 := PushCycle(b, m, Status(m.regs.p.(b := true))); SetRegs(m1, IncPc(m1.regs, 1))
    case Pla => PlaInstr(b, m)
    case Plp => PlpInstr(b, m)
    case Las => LasInstr(b, m, p2)
    case ShaIndY => ShaIndYInstr(b, m, p1)
    case ShAbs(reg, index) => ShAbsInstr(b, m, p2, RegValue(m.regs, reg), RegValue(m.regs, index))
    case ShsAbsY => ShsInstr(b, m, p2)
    case Jam => JamInstr(b, m)
  }

  // ---- Decoding ------------------------------------------------------------------------------

  /** `FETCH_TAB`: the opcodes whose third byte is fetched with the first two. */
  predicate ThreeBytes(opcode: byte) {
    opcode % 0x10 >= 0x0C || (opcode / 0x10 % 2 == 1 && opcode % 0x10 in {0x09, 0x0B})
  }

  /** A read-modify-write writes back in the mode it read in. */
  predicate WritesBackWhereItReads(gf: GetFn, sf: SetFn) {
    match gf
    case Zero => sf == SZeroRmw
    case ZeroX => sf == SZeroXRmw
    case Abs => sf == SAbsRmw
    case AbsXRmw => sf == SAbsXRmw
    case AbsYRmw => sf == SAbsYRmw
    case IndX => sf == SIndRmw
    case IndYRmw => sf == SIndRmw
    case _ => false
  }

  /** The stores that are no write-back. */
  predicate Plain(sf: SetFn) { sf in {SZero, SZeroX, SZeroY, SAbs, SAbsX, SAbsY, SIndX, SIndY} }

  /** How far an instruction's own body moves the program counter past itself. */
  function Length(i: Instr): nat {
    match i
    case Read(_, _, n) => n
    case Noop(_, n) => n
    case Rmw(_, _, _, n) => n
    case StoreReg(_, _, n) => n
    case Immediate(_) | Branch(_) | Ane | Lxa | ShaIndY => 2
    case Jmp | JmpInd | Las | ShAbs(_, _) | ShsAbsY => 3
    case _ => 1
  }

  predicate WellFormed(opcode: byte, i: Instr) {
    var longEnough := ThreeBytes(opcode) <==> Length(i) == 3;
    var writesBack := i.Rmw? ==> WritesBackWhereItReads(i.gf, i.sf);
    var plain := i.StoreReg? ==> Plain(i.sf);
    longEnough && writesBack && plain
  }

  function Rows0(opcode: byte): (i: Instr)
    requires 0x00 <= opcode < 0x20
    ensures WellFormed(opcode, i)
  {
    match opcode
    case 0x00 => Brk
    case 0x01 => Read(Ora, IndX, 2)
    case 0x02 => Jam
    case 0x03 => Rmw(Slo, IndX, SIndRmw, 2)
    case 0x04 => Noop(Zero, 2)
    case 0x05 => Read(Ora, Zero, 2)
    case 0x06 => Rmw(Asl, Zero, SZeroRmw, 2)
    case 0x07 => Rmw(Slo, Zero, SZeroRmw, 2)
    case 0x08 => Php
    case 0x09 => Read(Ora, Imm, 2)
    case 0x0A => Implied(AslA)
    case 0x0B => Immediate(Anc)
    case 0x0C => Noop(Abs, 3)
    case 0x0D => Read(Ora, Abs, 3)
    case 0x0E => Rmw(Asl, Abs, SAbsRmw, 3)
    case 0x0F => Rmw(Slo, Abs, SAbsRmw, 3)
    case 0x10 => Branch(Plus)
    case 0x11 => Read(Ora, IndY, 2)
    case 0x12 => Jam
    case 0x13 => Rmw(Slo, IndYRmw, SIndRmw, 2)
    case 0x14 => Noop(ZeroX, 2)
    case 0x15 => Read(Ora, ZeroX, 2)
    case 0x16 => Rmw(Asl, ZeroX, SZeroXRmw, 2)
    case 0x17 => Rmw(Slo, ZeroX, SZeroXRmw, 2)
    case 0x18 => Implied(Clc)
    case 0x19 => Read(Ora, AbsY, 3)
    case 0x1A => Noop(Imm, 1)
    case 0x1B => Rmw(Slo, AbsYRmw, SAbsYRmw, 3)
    case 0x1C => Noop(AbsX, 3)
    case 0x1D => Read(Ora, AbsX, 3)
    case 0x1E => Rmw(Asl, AbsXRmw, SAbsXRmw, 3)
    case _ => Rmw(Slo, AbsXRmw, SAbsXRmw, 3)
  }

  function Rows2(opcode: byte): (i: Instr)
    requires 0x20 <= opcode < 0x40
    ensures WellFormed(opcode, i)
  {
    match opcode
    case 0x20 => Jsr
    case 0x21 => Read(And_, IndX, 2)
    case 0x22 => Jam
    case 0x23 => Rmw(Rla, IndX, SIndRmw, 2)
    case 0x24 => Read(BitTest, Zero, 2)
    case 0x25 => Read(And_, Zero, 2)
    case 0x26 => Rmw(Rol, Zero, SZeroRmw, 2)
    case 0x27 => Rmw(Rla, Zero, SZeroRmw, 2)
    case 0x28 => Plp
    case 0x29 => Read(And_, Imm, 2)
    case 0x2A => Implied(RolA)
    case 0x2B => Immediate(Anc)
    case 0x2C => Read(BitTest, Abs, 3)
    case 0x2D => Read(And_, Abs, 3)
    case 0x2E => Rmw(Rol, Abs, SAbsRmw, 3)
    case 0x2F => Rmw(Rla, Abs, SAbsRmw, 3)
    case 0x30 => Branch(Minus)
    case 0x31 => Read(And_, IndY, 2)
    case 0x32 => Jam
    case 0x33 => Rmw(Rla, IndYRmw, SIndRmw, 2)
    case 0x34 => Noop(ZeroX, 2)
    case 0x35 => Read(And_, ZeroX, 2)
    case 0x36 => Rmw(Rol, ZeroX, SZeroXRmw, 2)
    case 0x37 => Rmw(Rla, ZeroX, SZeroXRmw, 2)
    case 0x38 => Implied(Sec)
    case 0x39 => Read(And_, AbsY, 3)
    case 0x3A => Noop(Imm, 1)
    case 0x3B => Rmw(Rla, AbsYRmw, SAbsYRmw, 3)
    case 0x3C => Noop(AbsX, 3)
    case 0x3D => Read(And_, AbsX, 3)
    case 0x3E => Rmw(Rol, AbsXRmw, SAbsXRmw, 3)
    case _ => Rmw(Rla, AbsXRmw, SAbsXRmw, 3)
  }

  function Rows4(opcode: byte): (i: Instr)
    requires 0x40 <= opcode < 0x60
    ensures WellFormed(opcode, i)
  {
    match opcode
    case 0x40 => Rti
    case 0x41 => Read(Eor, IndX, 2)
    case 0x42 => Jam
    case 0x43 => Rmw(Sre, IndX, SIndRmw, 2)
    case 0x44 => Noop(Zero, 2)
    case 0x45 => Read(Eor, Zero, 2)
    case 0x46 => Rmw(Lsr, Zero, SZeroRmw, 2)
    case 0x47 => Rmw(Sre, Zero, SZeroRmw, 2)
    case 0x48 => Pha
    case 0x49 => Read(Eor, Imm, 2)
    case 0x4A => Implied(LsrA)
    case 0x4B => Immediate(Asr)
    case 0x4C => Jmp
    case 0x4D => Read(Eor, Abs, 3)
    case 0x4E => Rmw(Lsr, Abs, SAbsRmw, 3)
    case 0x4F => Rmw(Sre, Abs, SAbsRmw, 3)
    case 0x50 => Branch(OverflowClear)
    case 0x51 => Read(Eor, IndY, 2)
    case 0x52 => Jam
    case 0x53 => Rmw(Sre, IndYRmw, SIndRmw, 2)
    case 0x54 => Noop(ZeroX, 2)
    case 0x55 => Read(Eor, ZeroX, 2)
    case 0x56 => Rmw(Lsr, ZeroX, SZeroXRmw, 2)
    case 0x57 => Rmw(Sre, ZeroX, SZeroXRmw, 2)
    case 0x58 => Cli
    case 0x59 => Read(Eor, AbsY, 3)
    case 0x5A => Noop(Imm, 1)
    case 0x5B => Rmw(Sre, AbsYRmw, SAbsYRmw, 3)
    case 0x5C => Noop(AbsX, 3)
    case 0x5D => Read(Eor, AbsX, 3)
    case 0x5E => Rmw(Lsr, AbsXRmw, SAbsXRmw, 3)
    case _ => Rmw(Sre, AbsXRmw, SAbsXRmw, 3)
  }

  function Rows6(opcode: byte): (i: Instr)
    requires 0x60 <= opcode < 0x80
    ensures WellFormed(opcode, i)
  {
    match opcode
    case 0x60 => Rts
    case 0x61 => Read(Adc, IndX, 2)
    case 0x62 => Jam
    case 0x63 => Rmw(Rra, IndX, SIndRmw, 2)
    case 0x64 => Noop(Zero, 2)
    case 0x65 => Read(Adc, Zero, 2)
    case 0x66 => Rmw(Ror, Zero, SZeroRmw, 2)
    case 0x67 => Rmw(Rra, Zero, SZeroRmw, 2)
    case 0x68 => Pla
    case 0x69 => Read(Adc, Imm, 2)
    case 0x6A => Implied(RorA)
    case 0x6B => Immediate(Arr)
    case 0x6C => JmpInd
    case 0x6D => Read(Adc, Abs, 3)
    case 0x6E => Rmw(Ror, Abs, SAbsRmw, 3)
    case 0x6F => Rmw(Rra, Abs, SAbsRmw, 3)
    case 0x70 => Branch(OverflowSet)
    case 0x71 => Read(Adc, IndY, 2)
    case 0x72 => Jam
    case 0x73 => Rmw(Rra, IndYRmw, SIndRmw, 2)
    case 0x74 => Noop(ZeroX, 2)
    case 0x75 => Read(Adc, ZeroX, 2)
    case 0x76 => Rmw(Ror, ZeroX, SZeroXRmw, 2)
    case 0x77 => Rmw(Rra, ZeroX, SZeroXRmw, 2)
    case 0x78 => Sei
    case 0x79 => Read(Adc, AbsY, 3)
    case 0x7A => Noop(Imm, 1)
    case 0x7B => Rmw(Rra, AbsYRmw, SAbsYRmw, 3)
    case 0x7C => Noop(AbsX, 3)
    case 0x7D => Read(Adc, AbsX, 3)
    case 0x7E => Rmw(Ror, AbsXRmw, SAbsXRmw, 3)
    case _ => Rmw(Rra, AbsXRmw, SAbsXRmw, 3)
  }

  function Rows8(opcode: byte): (i: Instr)
    requires 0x80 <= opcode < 0xA0
    ensures WellFormed(opcode, i)
  {
    match opcode
    case 0x80 => Noop(Imm, 2)
    case 0x81 => StoreReg(A, SIndX, 2)
    case 0x82 => Noop(Imm, 2)
    case 0x83 => StoreReg(AX, SIndX, 2)
    case 0x84 => StoreReg(Y, SZero, 2)
    case 0x85 => StoreReg(A, SZero, 2)
    case 0x86 => StoreReg(X, SZero, 2)
    case 0x87 => StoreReg(AX, SZero, 2)
    case 0x88 => Implied(Dey)
    case 0x89 => Noop(Imm, 2)
    case 0x8A => Implied(Txa)
    case 0x8B => Ane
    case 0x8C => StoreReg(Y, SAbs, 3)
    case 0x8D => StoreReg(A, SAbs, 3)
    case 0x8E => StoreReg(X, SAbs, 3)
    case 0x8F => StoreReg(AX, SAbs, 3)
    case 0x90 => Branch(CarryClear)
    case 0x91 => StoreReg(A, SIndY, 2)
    case 0x92 => Jam
    case 0x93 => ShaIndY
    case 0x94 => StoreReg(Y, SZeroX, 2)
    case 0x95 => StoreReg(A, SZeroX, 2)
    case 0x96 => StoreReg(X, SZeroY, 2)
    case 0x97 => StoreReg(AX, SZeroY, 2)
    case 0x98 => Implied(Tya)
    case 0x99 => StoreReg(A, SAbsY, 3)
    case 0x9A => Implied(Txs)
    case 0x9B => ShsAbsY
    case 0x9C => ShAbs(Y, X)
    case 0x9D => StoreReg(A, SAbsX, 3)
    case 0x9E => ShAbs(X, Y)
    case _ => ShAbs(AX, Y)
  }

  function RowsA(opcode: byte): (i: Instr)
    requires 0xA0 <= opcode < 0xC0
    ensures WellFormed(opcode, i)
  {
    match opcode
    case 0xA0 => Read(Ldy, Imm, 2)
    case 0xA1 => Read(Lda, IndX, 2)
    case 0xA2 => Read(Ldx, Imm, 2)
    case 0xA3 => Read(Lax, IndX, 2)
    case 0xA4 => Read(Ldy, Zero, 2)
    case 0xA5 => Read(Lda, Zero, 2)
    case 0xA6 => Read(Ldx, Zero, 2)
    case 0xA7 => Read(Lax, Zero, 2)
    case 0xA8 => Implied(Tay)
    case 0xA9 => Read(Lda, Imm, 2)
    case 0xAA => Implied(Tax)
    case 0xAB => Lxa
    case 0xAC => Read(Ldy, Abs, 3)
    case 0xAD => Read(Lda, Abs, 3)
    case 0xAE => Read(Ldx, Abs, 3)
    case 0xAF => Read(Lax, Abs, 3)
    case 0xB0 => Branch(CarrySet)
    case 0xB1 => Read(Lda, IndY, 2)
    case 0xB2 => Jam
    case 0xB3 => Read(Lax, IndY, 2)
    case 0xB4 => Read(Ldy, ZeroX, 2)
    case 0xB5 => Read(Lda, ZeroX, 2)
    case 0xB6 => Read(Ldx, ZeroY, 2)
    case 0xB7 => Read(Lax, ZeroY, 2)
    case 0xB8 => Implied(Clv)
    case 0xB9 => Read(Lda, AbsY, 3)
    case 0xBA => Implied(Tsx)
    case 0xBB => Las
    case 0xBC => Read(Ldy, AbsX, 3)
    case 0xBD => Read(Lda, AbsX, 3)
    case 0xBE => Read(Ldx, AbsY, 3)
    case _ => Read(Lax, AbsY, 3)
  }

  function RowsC(opcode: byte): (i: Instr)
    requires 0xC0 <= opcode < 0xE0
    ensures WellFormed(opcode, i)
  {
    match opcode
    case 0xC0 => Read(Cpy, Imm, 2)
    case 0xC1 => Read(Cmp, IndX, 2)
    case 0xC2 => Noop(Imm, 2)
    case 0xC3 => Rmw(Dcp, IndX, SIndRmw, 2)
    case 0xC4 => Read(Cpy, Zero, 2)
    case 0xC5 => Read(Cmp, Zero, 2)
    case 0xC6 => Rmw(Dec, Zero, SZeroRmw, 2)
    case 0xC7 => Rmw(Dcp, Zero, SZeroRmw, 2)
    case 0xC8 => Implied(Iny)
    case 0xC9 => Read(Cmp, Imm, 2)
    case 0xCA => Implied(Dex)
    case 0xCB => Immediate(Sbx)
    case 0xCC => Read(Cpy, Abs, 3)
    case 0xCD => Read(Cmp, Abs, 3)
    case 0xCE => Rmw(Dec, Abs, SAbsRmw, 3)
    case 0xCF => Rmw(Dcp, Abs, SAbsRmw, 3)
    case 0xD0 => Branch(NotZero)
    case 0xD1 => Read(Cmp, IndY, 2)
    case 0xD2 => Jam
    case 0xD3 => Rmw(Dcp, IndYRmw, SIndRmw, 2)
    case 0xD4 => Noop(ZeroX, 2)
    case 0xD5 => Read(Cmp, ZeroX, 2)
    case 0xD6 => Rmw(Dec, ZeroX, SZeroXRmw, 2)
    case 0xD7 => Rmw(Dcp, ZeroX, SZeroXRmw, 2)
    case 0xD8 => Implied(Cld)
    case 0xD9 => Read(Cmp, AbsY, 3)
    case 0xDA => Noop(Imm, 1)
    case 0xDB => Rmw(Dcp, AbsYRmw, SAbsYRmw, 3)
    case 0xDC => Noop(AbsX, 3)
    case 0xDD => Read(Cmp, AbsX, 3)
    case 0xDE => Rmw(Dec, AbsXRmw, SAbsXRmw, 3)
    case _ => Rmw(Dcp, AbsXRmw, SAbsXRmw, 3)
  }

  function RowsE(opcode: byte): (i: Instr)
    requires 0xE0 <= opcode < 0x100
    ensures WellFormed(opcode, i)
  {
    match opcode
    case 0xE0 => Read(Cpx, Imm, 2)
    case 0xE1 => Read(Sbc, IndX, 2)
    case 0xE2 => Noop(Imm, 2)
    case 0xE3 => Rmw(Isb, IndX, SIndRmw, 2)
    case 0xE4 => Read(Cpx, Zero, 2)
    case 0xE5 => Read(Sbc, Zero, 2)
    case 0xE6 => Rmw(Inc, Zero, SZeroRmw, 2)
    case 0xE7 => Rmw(Isb, Zero, SZeroRmw, 2)
    case 0xE8 => Implied(Inx)
    case 0xE9 => Read(Sbc, Imm, 2)
    case 0xEA => Noop(Imm, 1)
    case 0xEB => Read(Sbc, Imm, 2)
    case 0xEC => Read(Cpx, Abs, 3)
    case 0xED => Read(Sbc, Abs, 3)
    case 0xEE => Rmw(Inc, Abs, SAbsRmw, 3)
    case 0xEF => Rmw(Isb, Abs, SAbsRmw, 3)
    case 0xF0 => Branch(IsZero)
    case 0xF1 => Read(Sbc, IndY, 2)
    case 0xF2 => Jam
    case 0xF3 => Rmw(Isb, IndYRmw, SIndRmw, 2)
    case 0xF4 => Noop(ZeroX, 2)
    case 0xF5 => Read(Sbc, ZeroX, 2)
    case 0xF6 => Rmw(Inc, ZeroX, SZeroXRmw, 2)
    case 0xF7 => Rmw(Isb, ZeroX, SZeroXRmw, 2)
    case 0xF8 => Implied(Sed)
    case 0xF9 => Read(Sbc, AbsY, 3)
    case 0xFA => Noop(Imm, 1)
    case 0xFB => Rmw(Isb, AbsYRmw, SAbsYRmw, 3)
    case 0xFC => Noop(AbsX, 3)
    case 0xFD => Read(Sbc, AbsX, 3)
    case 0xFE => Rmw(Inc, AbsXRmw, SAbsXRmw, 3)
    case _ => Rmw(Isb, AbsXRmw, SAbsXRmw, 3)
  }

  /** The opcode switch, two rows of the opcode matrix at a time. */
  function Decode(opcode: byte): (i: Instr)
    ensures WellFormed(opcode, i)
  {
    hide WellFormed, Rows0, Rows2, Rows4, Rows6, Rows8, RowsA, RowsC, RowsE;
    if opcode < 0x20 then Rows0(opcode)
    else if opcode < 0x40 then Rows2(opcode)
    else if opcode < 0x60 then Rows4(opcode)
    else if opcode < 0x80 then Rows6(opcode)
    else if opcode < 0xA0 then Rows8(opcode)
    else if opcode < 0xC0 then RowsA(opcode)
    else if opcode < 0xE0 then RowsC(opcode)
    else RowsE(opcode)
  }
}
