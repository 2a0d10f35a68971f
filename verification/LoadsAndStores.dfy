/**
 Loads, stores and read-modify-writes on flat RAM: which byte each addressing mode means, that a load gets
 that byte and changes nothing, and that a store or a write-back changes that byte and no other.
 */
module LoadsAndStores {
  import opened Bytes
  import opened Interrupts
  import opened Machine
  import opened Alu
  import opened Instructions
  import opened Dispatch
  import opened FlatMemory
  import opened BusTrace

  // ---- Accesses that memory answered ---------------------------------------------------------

  /** From `m` to `m'` memory stayed as it was and every access carried what it holds. */
  ghost predicate Answered(ram: Device -> Memory, m: Machine, m': Machine) {
    var acc, n := m'.log.accesses, |m.log.accesses|;
    var answered := SameRam(ram, m, m') && m.log.accesses <= acc
      && forall i :: n <= i < |acc| ==> acc[i].value == ram(m.dev)(acc[i].addr);
    answered
  }

  /** The same but for the last access, which wrote its value to its address. */
  ghost predicate Wrote(ram: Device -> Memory, m: Machine, m': Machine) {
    var acc, n := m'.log.accesses, |m.log.accesses|;
    var wrote := n < |acc| && m.log.accesses <= acc
      && (forall i :: n <= i < |acc| - 1 ==> acc[i].value == ram(m.dev)(acc[i].addr))
      && Stored(ram(m.dev), ram(m'.dev), acc[|acc| - 1].addr, acc[|acc| - 1].value);
    wrote
  }

  lemma AnsweredThen(ram: Device -> Memory, m: Machine, m1: Machine, m2: Machine)
    requires Answered(ram, m, m1) && Answered(ram, m1, m2)
    ensures Answered(ram, m, m2)
  {
  }

  lemma WroteAfter(ram: Device -> Memory, m: Machine, m1: Machine, m2: Machine)
    requires Answered(ram, m, m1) && Wrote(ram, m1, m2)
    ensures Wrote(ram, m, m2)
  {
  }

  lemma NothingAnswered(ram: Device -> Memory, m: Machine, m': Machine)
    requires m'.dev == m.dev && m'.log == m.log
    ensures Answered(ram, m, m')
  {
  }

  lemma LoadAnswered(b: Bus, ram: Device -> Memory, m: Machine, kind: Kind, a: word)
    requires FlatRam(b, ram)
    ensures Answered(ram, m, LoadCycle(b, m, kind, a).0)
  {
    hide LoadCycle, FlatRam, Cycled;
    LoadIsRam(b, ram, m, kind, a);
  }

  lemma LoadPageAnswered(b: Bus, ram: Device -> Memory, m: Machine, kind: Kind, a: word)
    requires FlatRam(b, ram)
    ensures Answered(ram, m, LoadPageCycle(b, m, kind, a).0)
  {
    hide LoadPageCycle, FlatRam, Cycled;
    LoadPageIsRam(b, ram, m, kind, a);
  }

  lemma LoadPageIsRam(b: Bus, ram: Device -> Memory, m: Machine, kind: Kind, a: word)
    requires FlatRam(b, ram)
    ensures var (m1, v) := LoadPageCycle(b, m, kind, a);
      SameRam(ram, m, m1) && v == ram(m.dev)(a)
  {
    hide ClkInc, Steady, Sound, Rested;
    ClkIncKeepsRam(b, ram, LoadPage(b, m, kind, a).0);
  }

  lemma StoreIsRam(b: Bus, ram: Device -> Memory, m: Machine, kind: Kind, a: word, v: byte)
    requires FlatRam(b, ram)
    ensures Stored(ram(m.dev), ram(StoreCycle(b, m, kind, a, v).dev), a, v)
  {
    hide ClkInc, AccessWait, Steady, Sound, Rested, Cycled;
    WaitKeepsRam(b, ram, m, a, true);
    ClkIncKeepsRam(b, ram, Store(b, m, kind, a, v));
  }

  lemma StorePageIsRam(b: Bus, ram: Device -> Memory, m: Machine, kind: Kind, a: word, v: byte)
    requires FlatRam(b, ram)
    ensures Stored(ram(m.dev), ram(StorePageCycle(b, m, kind, a, v).dev), a, v)
  {
    hide ClkInc, Steady, Sound, Rested, Cycled;
    ClkIncKeepsRam(b, ram, WriteRaw(b, m, kind, a, v));
  }

  lemma StoreWrote(b: Bus, ram: Device -> Memory, m: Machine, kind: Kind, a: word, v: byte)
    requires FlatRam(b, ram)
    ensures Wrote(ram, m, StoreCycle(b, m, kind, a, v)) && Wrote(ram, m, StorePageCycle(b, m, kind, a, v))
  {
    hide StoreCycle, StorePageCycle, FlatRam, Cycled;
    StoreIsRam(b, ram, m, kind, a, v);
    StorePageIsRam(b, ram, m, kind, a, v);
    hide Stored;
  }

  // ---- The parts of the modes ----------------------------------------------------------------

  lemma CrossAnswered(b: Bus, ram: Device -> Memory, m: Machine, base: word, index: byte)
    requires FlatRam(b, ram)
    ensures Answered(ram, m, CrossRead(b, m, base, index)) && Answered(ram, m, AlwaysRead(b, m, base, index))
  {
    hide LoadCycle, FlatRam, Answered, Uncarried;
    LoadAnswered(b, ram, m, Dummy, Uncarried(base, index));
    NothingAnswered(ram, m, m);
  }

  lemma PointerAnswered(b: Bus, ram: Device -> Memory, m: Machine, at: byte)
    requires FlatRam(b, ram)
    ensures Answered(ram, m, ReadPointer(b, m, at).0)
  {
    hide LoadPageCycle, FlatRam, Answered, MakeWord, Cycled;
    var m1 := LoadPageCycle(b, m, Real, at).0;
    LoadPageAnswered(b, ram, m, Real, at);
    LoadPageAnswered(b, ram, m1, Real, Wrap8(at + 1));
    AnsweredThen(ram, m, m1, ReadPointer(b, m, at).0);
  }

  lemma PointersAnswered(b: Bus, ram: Device -> Memory, m: Machine, p1: byte, always: bool)
    requires FlatRam(b, ram)
    ensures Answered(ram, m, PointerX(b, m, p1).0) && Answered(ram, m, PointerY(b, m, p1, always).0)
  {
    hide LoadPageCycle, ReadPointer, CrossRead, AlwaysRead, FlatRam, Answered, Cycled;
    var m1 := LoadPageCycle(b, m, Dummy, p1).0;
    LoadPageAnswered(b, ram, m, Dummy, p1);
    PointerAnswered(b, ram, m1, Wrap8(p1 + m.regs.x));
    AnsweredThen(ram, m, m1, PointerX(b, m, p1).0);
    PointerAnswered(b, ram, m, p1);
    var (m2, base) := ReadPointer(b, m, p1);
    CrossAnswered(b, ram, m2, base, m.regs.y);
    AnsweredThen(ram, m, m2, PointerY(b, m, p1, always).0);
  }

  lemma IndexedAnswered(b: Bus, ram: Device -> Memory, m: Machine, kind: Kind, base: word, index: byte)
    requires FlatRam(b, ram)
    ensures Answered(ram, m, GetIndexed(b, m, kind, base, index).0)
    ensures Answered(ram, m, GetIndexedRmw(b, m, base, index).0)
  {
    hide LoadCycle, CrossRead, AlwaysRead, FlatRam, Answered, Cycled;
    CrossAnswered(b, ram, m, base, index);
    var m1, m2 := CrossRead(b, m, base, index), AlwaysRead(b, m, base, index);
    LoadAnswered(b, ram, m1, kind, Indexed(base, index));
    LoadAnswered(b, ram, m2, Real, Indexed(base, index));
    AnsweredThen(ram, m, m1, GetIndexed(b, m, kind, base, index).0);
    AnsweredThen(ram, m, m2, GetIndexedRmw(b, m, base, index).0);
  }

  lemma ZeroIndexedAnswered(b: Bus, ram: Device -> Memory, m: Machine, kind: Kind, p1: byte, index: byte)
    requires FlatRam(b, ram)
    ensures Answered(ram, m, GetZeroIndexed(b, m, kind, p1, index).0)
  {
    hide LoadPageCycle, FlatRam, Answered, Cycled;
    var m1 := LoadPageCycle(b, m, Dummy, p1).0;
    LoadPageAnswered(b, ram, m, Dummy, p1);
    LoadPageAnswered(b, ram, m1, kind, Wrap8(p1 + index));
    AnsweredThen(ram, m, m1, GetZeroIndexed(b, m, kind, p1, index).0);
  }

  /** No get of any mode changes memory, and every access it makes carries what memory holds. */
  lemma GetAnswered(b: Bus, ram: Device -> Memory, m: Machine, gf: GetFn, p1: byte, p2: word)
    requires FlatRam(b, ram)
    ensures Answered(ram, m, CallGet(b, m, gf, p1, p2).0)
  {
    hide FlatRam, Answered, LoadCycle, LoadPageCycle, GetIndexed, GetIndexedRmw, GetZeroIndexed, PointerX,
         PointerY, Cycled, Sound;
    match gf {
      case Imm => NothingAnswered(ram, m, m);
      case Zero => LoadPageAnswered(b, ram, m, Real, p1);
      case ZeroX => ZeroIndexedAnswered(b, ram, m, Real, p1, m.regs.x);
      case ZeroY => ZeroIndexedAnswered(b, ram, m, Real, p1, m.regs.y);
      case Abs => LoadAnswered(b, ram, m, Real, p2);
      case AbsX => IndexedAnswered(b, ram, m, Real, p2, m.regs.x);
      case AbsY => IndexedAnswered(b, ram, m, Real, p2, m.regs.y);
      case AbsXRmw => IndexedAnswered(b, ram, m, Real, p2, m.regs.x);
      case AbsYRmw => IndexedAnswered(b, ram, m, Real, p2, m.regs.y);
      case IndX =>
        PointersAnswered(b, ram, m, p1, false);
        LoadBehind(b, ram, m, PointerX(b, m, p1).0, PointerX(b, m, p1).1);
      case IndY =>
        PointersAnswered(b, ram, m, p1, false);
        LoadBehind(b, ram, m, PointerY(b, m, p1, false).0, PointerY(b, m, p1, false).1);
      case IndYRmw =>
        PointersAnswered(b, ram, m, p1, true);
        LoadBehind(b, ram, m, PointerY(b, m, p1, true).0, PointerY(b, m, p1, true).1);
        var m2 := LoadCycle(b, PointerY(b, m, p1, true).0, Real, PointerY(b, m, p1, true).1).0;
        NothingAnswered(ram, m2, CallGet(b, m, gf, p1, p2).0);
        AnsweredThen(ram, m, m2, CallGet(b, m, gf, p1, p2).0);
    }
  }

  lemma LoadBehind(b: Bus, ram: Device -> Memory, m: Machine, m1: Machine, a: word)
    requires FlatRam(b, ram) && Answered(ram, m, m1)
    ensures Answered(ram, m, LoadCycle(b, m1, Real, a).0)
  {
    hide FlatRam, Answered, LoadCycle, Accessed;
    LoadAnswered(b, ram, m1, Real, a);
    AnsweredThen(ram, m, m1, LoadCycle(b, m1, Real, a).0);
  }

  lemma StoreBehind(b: Bus, ram: Device -> Memory, m: Machine, m1: Machine, a: word, v: byte)
    requires FlatRam(b, ram) && Answered(ram, m, m1)
    ensures Wrote(ram, m, StoreCycle(b, m1, Write, a, v)) && Wrote(ram, m, StorePageCycle(b, m1, Write, a, v))
  {
    hide FlatRam, Answered, Wrote, StoreCycle, StorePageCycle, Accessed;
    StoreWrote(b, ram, m1, Write, a, v);
    WroteAfter(ram, m, m1, StoreCycle(b, m1, Write, a, v));
    WroteAfter(ram, m, m1, StorePageCycle(b, m1, Write, a, v));
  }

  /** Every plain store changes one byte, that of its last access. */
  lemma StoreWroteOnce(b: Bus, ram: Device -> Memory, m: Machine, sf: SetFn, p1: byte, p2: word, v: byte)
    requires FlatRam(b, ram) && Plain(sf)
    ensures Wrote(ram, m, CallSetStore(b, m, sf, p1, p2, v))
  {
    hide FlatRam, Answered, Wrote, StoreCycle, StorePageCycle, AlwaysRead, LoadPageCycle, PointerX, PointerY,
         Cycled, Accessed;
    match sf {
      case SZero => StoreWrote(b, ram, m, Write, p1, v);
      case SZeroX =>
        LoadPageAnswered(b, ram, m, Dummy, p1);
        StoreBehind(b, ram, m, LoadPageCycle(b, m, Dummy, p1).0, Wrap8(p1 + m.regs.x), v);
      case SZeroY =>
        LoadPageAnswered(b, ram, m, Dummy, p1);
        StoreBehind(b, ram, m, LoadPageCycle(b, m, Dummy, p1).0, Wrap8(p1 + m.regs.y), v);
      case SAbs => StoreWrote(b, ram, m, Write, p2, v);
      case SAbsX =>
        CrossAnswered(b, ram, m, p2, m.regs.x);
        StoreBehind(b, ram, m, AlwaysRead(b, m, p2, m.regs.x), Indexed(p2, m.regs.x), v);
      case SAbsY =>
        CrossAnswered(b, ram, m, p2, m.regs.y);
        StoreBehind(b, ram, m, AlwaysRead(b, m, p2, m.regs.y), Indexed(p2, m.regs.y), v);
      case SIndX =>
        PointersAnswered(b, ram, m, p1, true);
        StoreBehind(b, ram, m, PointerX(b, m, p1).0, PointerX(b, m, p1).1, v);
      case SIndY =>
        PointersAnswered(b, ram, m, p1, true);
        StoreBehind(b, ram, m, PointerY(b, m, p1, true).0, PointerY(b, m, p1, true).1, v);
    }
  }

  // ---- The byte a mode means -----------------------------------------------------------------

  /** The pointer an indirect mode finds in memory; its second byte wraps inside the zero page. */
  function PointerIn(mem: Memory, gf: GetFn, r: Regs, p1: byte): int {
    var at: int := if gf.IndX? then (p1 + r.x) % 0x100 else p1;
    mem(at) + 0x100 * mem((at + 1) % 0x100)
  }

  /** The effective address, from the registers, the operands and memory. */
  function Effective(mem: Memory, gf: GetFn, r: Regs, p1: byte, p2: word): (a: word)
    requires !gf.Imm?
  {
    Target(gf, r, p1, p2, PointerIn(mem, gf, r, p1))
  }

  /** An access sequence that followed a mode and was answered by memory read the pointer that is there. */
  lemma PointerFound(ram: Device -> Memory, m: Machine, m': Machine, gf: GetFn, p1: byte, p2: word, last: Last)
    requires Follows(m, m', gf, p1, p2, last)
    requires Answered(ram, m, m') || Wrote(ram, m, m')
    requires gf in {IndX, IndY, IndYRmw}
    ensures Pointer(gf, m'.log.accesses, |m.log.accesses|) == PointerIn(ram(m.dev), gf, m.regs, p1)
  {
    var acc, n := m'.log.accesses, |m.log.accesses|;
    var ptr := Pointer(gf, acc, n);
    var tr := ModeTrace(gf, m.regs, p1, p2, ptr, last);
    var k := if gf.IndX? then 1 else 0;
    var at: int := if gf.IndX? then (p1 + m.regs.x) % 0x100 else p1;
    assert tr[k] == In(Real, at) && tr[k + 1] == In(Real, (at + 1) % 0x100) && |tr| > k + 2;
    assert Fits(acc[n + k], tr[k]) && Fits(acc[n + k + 1], tr[k + 1]);
  }

  lemma TargetFound(ram: Device -> Memory, m: Machine, m': Machine, gf: GetFn, p1: byte, p2: word, last: Last)
    requires !gf.Imm? && Follows(m, m', gf, p1, p2, last)
    requires Answered(ram, m, m') || Wrote(ram, m, m')
    ensures var acc := m'.log.accesses;
      |acc| > |m.log.accesses| && Fits(acc[|acc| - 1], At(last, Effective(ram(m.dev), gf, m.regs, p1, p2)))
  {
    if gf in {IndX, IndY, IndYRmw} {
      PointerFound(ram, m, m', gf, p1, p2, last);
    }
    var acc, n := m'.log.accesses, |m.log.accesses|;
    var tr := ModeTrace(gf, m.regs, p1, p2, Pointer(gf, acc, n), last);
    assert Fits(acc[n + (|tr| - 1)], tr[|tr| - 1]);
    hide Prelude, Answered, Wrote;
  }

  /** A load gets the byte at its effective address, and changes nothing. */
  lemma LoadGets(b: Bus, ram: Device -> Memory, m: Machine, gf: GetFn, p1: byte, p2: word)
    requires FlatRam(b, ram) && !gf.Imm?
    ensures var (m1, v) := CallGet(b, m, gf, p1, p2);
      SameRam(ram, m, m1) && v == ram(m.dev)(Effective(ram(m.dev), gf, m.regs, p1, p2))
  {
    hide CallGet, FlatRam, Sound, Follows, Effective, SameCore;
    GetFollows(b, m, gf, p1, p2);
    GetAnswered(b, ram, m, gf, p1, p2);
    TargetFound(ram, m, CallGet(b, m, gf, p1, p2).0, gf, p1, p2, Reading(Real));
  }

  /** A store changes the byte at its effective address, and no other. */
  lemma StoreChanges(b: Bus, ram: Device -> Memory, m: Machine, sf: SetFn, p1: byte, p2: word, v: byte)
    requires FlatRam(b, ram) && Plain(sf)
    ensures Stored(ram(m.dev), ram(CallSetStore(b, m, sf, p1, p2, v).dev),
                   Effective(ram(m.dev), ModeOf(sf), m.regs, p1, p2), v)
  {
    hide CallSetStore, FlatRam, Cycled, Follows, Effective, Stored;
    StoreFollows(b, m, sf, p1, p2, v);
    StoreWroteOnce(b, ram, m, sf, p1, p2, v);
    TargetFound(ram, m, CallSetStore(b, m, sf, p1, p2, v), ModeOf(sf), p1, p2, Writing(v));
  }

  // ---- Whole instructions --------------------------------------------------------------------

  /** The opcode and the operands in memory at the program counter. */
  function OpcodeAt(mem: Memory, pc: word): byte { mem(pc) }

  function LowOperand(mem: Memory, pc: word): byte { mem(Next(pc, 1)) }

  function WordOperand(mem: Memory, pc: word): word {
    if ThreeBytes(mem(pc)) then mem(Next(pc, 1)) + 0x100 * mem(Next(pc, 2)) else mem(Next(pc, 1))
  }

  function InstrAt(mem: Memory, pc: word): Instr { Decode(mem(pc)) }

  /** The effective address of an instruction in memory. */
  function TargetAt(mem: Memory, r: Regs, gf: GetFn): word
    requires !gf.Imm?
  {
    Effective(mem, gf, r, LowOperand(mem, r.pc), WordOperand(mem, r.pc))
  }

  /** A store was made: its register at its effective address, nothing else but the program counter. */
  ghost predicate StoreMade(i: Instr, mem: Memory, r: Regs, mem': Memory, r': Regs) {
    i.StoreReg? && Plain(i.sf)
    && Stored(mem, mem', TargetAt(mem, r, ModeOf(i.sf)), StoredReg(r, i.reg))
    && r' == r.(pc := Next(r.pc, i.length))
  }

  /** A read-modify-write was made: at its effective address, or at address 0 for ($nn,X). */
  ghost predicate RmwMade(i: Instr, mem: Memory, r: Regs, mem': Memory, r': Regs) {
    i.Rmw? && !i.gf.Imm? &&
    var a := TargetAt(mem, r, i.gf);
    var (regs, new_) := RmwOperation(i.mop, r, mem(a));
    Stored(mem, mem', if i.gf.IndX? then 0 else a, new_) && r' == regs.(pc := Next(r.pc, i.length))
  }

  lemma FetchFirstIsRam(b: Bus, ram: Device -> Memory, m: Machine)
    requires FlatRam(b, ram)
    ensures var (m1, op) := FetchFirst(b, m);
      SameRam(ram, m, m1) && op == ram(m.dev)(m.regs.pc)
  {
    hide ClkInc, AccessWait, Steady, Sound, Rested, Cycled;
    WaitKeepsRam(b, ram, m, m.regs.pc, false);
    var (m1, op) := Load(b, m, Fetch, m.regs.pc);
    ClkIncKeepsRam(b, ram, m1.(info := OpInfo(op, false, false, false)));
  }

  lemma FetchIsRam(b: Bus, ram: Device -> Memory, m: Machine)
    requires FlatRam(b, ram)
    ensures var (m1, op, p1, p2) := FetchOpcode(b, m);
      var mem, pc := ram(m.dev), m.regs.pc;
      && SameRam(ram, m, m1) && m1.regs == m.regs && m1.indAddr == m.indAddr
      && op == mem(pc) && p1 == LowOperand(mem, pc) && p2 == WordOperand(mem, pc)
  {
    hide FlatRam, FetchFirst, LoadCycle, Sound, Accessed, MakeWord, ThreeBytes;
    var pc: int := m.regs.pc;
    FetchFirstIsRam(b, ram, m);
    var m1 := FetchFirst(b, m).0;
    LoadIsRam(b, ram, m1, Fetch, Wrap16(pc + 1));
    var (m2, lo) := LoadCycle(b, m1, Fetch, Wrap16(pc + 1));
    LoadIsRam(b, ram, m2, Fetch, Wrap16(pc + 2));
    WordIs(LoadCycle(b, m2, Fetch, Wrap16(pc + 2)).1, lo);
  }

  /** On flat RAM a call of the core executes what memory holds at the program counter. */
  lemma RunsMemory(b: Bus, ram: Device -> Memory, m: Machine) returns (m1: Machine)
    requires FlatRam(b, ram)
    ensures var mem, pc := ram(m.dev), m.regs.pc;
      && ram(m1.dev) == mem && m1.regs == m.regs && m1.indAddr == 0
      && FetchAndExecute(b, m) == Execute(b, m1, InstrAt(mem, pc), LowOperand(mem, pc), WordOperand(mem, pc))
  {
    hide FlatRam, FetchOpcode, Execute, Decode, Sound, Kept, JamAt, LowOperand, WordOperand, Fetching;
    FetchIsRam(b, ram, m.(indAddr := 0));
    m1 := FetchOpcode(b, m.(indAddr := 0)).0;
  }

  /** A load was made: its operation on the byte at its effective address, memory as it was. */
  ghost predicate LoadMade(i: Instr, mem: Memory, r: Regs, mem': Memory, r': Regs) {
    i.Read? && !i.gf.Imm? && mem' == mem
    && r' == ReadOperation(i.rop, r, mem(TargetAt(mem, r, i.gf))).(pc := Next(r.pc, i.length))
  }

  lemma LoadBody(b: Bus, ram: Device -> Memory, m: Machine, op: ReadOp, gf: GetFn, n: nat, p1: byte, p2: word)
    requires FlatRam(b, ram) && !gf.Imm?
    ensures var mem, r := ram(m.dev), Execute(b, m, Read(op, gf, n), p1, p2);
      && ram(r.dev) == mem
      && r.regs == ReadOperation(op, m.regs, mem(Effective(mem, gf, m.regs, p1, p2))).(pc := Next(m.regs.pc, n))
  {
    hide FlatRam, CallGet, ReadOperation, Effective, Sound, Kept;
    LoadGets(b, ram, m, gf, p1, p2);
    var (m2, v) := CallGet(b, m, gf, p1, p2);
    OperationsStay(m2.regs, v, op, Asl, Anc);
  }

  /** Any load instruction in memory. */
  lemma LoadInstruction(b: Bus, ram: Device -> Memory, m: Machine)
    requires FlatRam(b, ram)
    requires var i := InstrAt(ram(m.dev), m.regs.pc);
      i.Read? && !i.gf.Imm?
    ensures var mem, r := ram(m.dev), FetchAndExecute(b, m);
      LoadMade(InstrAt(mem, m.regs.pc), mem, m.regs, ram(r.dev), r.regs)
  {
    hide FlatRam, FetchAndExecute, Execute, InstrAt, ReadOperation, Effective, Kept, JamAt, LowOperand, WordOperand;
    var m1 := RunsMemory(b, ram, m);
    var mem, pc := ram(m.dev), m.regs.pc;
    var i := InstrAt(mem, pc);
    LoadBody(b, ram, m1, i.rop, i.gf, i.length, LowOperand(mem, pc), WordOperand(mem, pc));
  }

  /** The body of a plain store. */
  ghost predicate StoredBy(reg: Reg, sf: SetFn, n: nat, p1: byte, p2: word, mem: Memory, r: Regs, mem': Memory, r': Regs)
    requires Plain(sf)
  {
    Stored(mem, mem', Effective(mem, ModeOf(sf), r, p1, p2), StoredReg(r, reg)) && r' == r.(pc := Next(r.pc, n))
  }

  lemma StoreBody(b: Bus, ram: Device -> Memory, m: Machine, reg: Reg, sf: SetFn, n: nat, p1: byte, p2: word)
    requires FlatRam(b, ram) && Plain(sf)
    ensures var r := Execute(b, m, StoreReg(reg, sf, n), p1, p2);
      StoredBy(reg, sf, n, p1, p2, ram(m.dev), m.regs, ram(r.dev), r.regs)
  {
    hide FlatRam, CallSetStore, Sound, Kept, Stored, And, PointerIn, Effective;
    var m2 := SetRegs(m, IncPc(m.regs, n));
    RegIs(m.regs, reg);
    StoreChanges(b, ram, m2, sf, p1, p2, RegValue(m.regs, reg));
    SameEffective(ram(m.dev), ModeOf(sf), m.regs, m2.regs, p1, p2);
  }

  /** Any plain store in memory: the byte at its effective address becomes its register, every other byte
      and every register but the program counter stays. */
  lemma StoreInstruction(b: Bus, ram: Device -> Memory, m: Machine)
    requires FlatRam(b, ram) && InstrAt(ram(m.dev), m.regs.pc).StoreReg?
    ensures var mem, r := ram(m.dev), FetchAndExecute(b, m);
      StoreMade(InstrAt(mem, m.regs.pc), mem, m.regs, ram(r.dev), r.regs)
  {
    var mem, pc := ram(m.dev), m.regs.pc;
    DecodesDecodable(mem(pc));
    var i := InstrAt(mem, pc);
    assert Plain(i.sf);
    hide FlatRam, FetchAndExecute, Execute, InstrAt, Stored, Effective, Kept, JamAt, LowOperand, WordOperand,
         StoredReg, Plain;
    var m1 := RunsMemory(b, ram, m);
    StoreBody(b, ram, m1, i.reg, i.sf, i.length, LowOperand(mem, pc), WordOperand(mem, pc));
  }

  lemma SameEffective(mem: Memory, gf: GetFn, r: Regs, r': Regs, p1: byte, p2: word)
    requires r'.x == r.x && r'.y == r.y && !gf.Imm?
    ensures Effective(mem, gf, r', p1, p2) == Effective(mem, gf, r, p1, p2)
  {
  }

  // ---- Read-modify-writes --------------------------------------------------------------------

  /** Two writes to one address: the second stays. */
  lemma WriteBackIsRam(b: Bus, ram: Device -> Memory, m: Machine, a: word, old_: byte, new_: byte)
    requires FlatRam(b, ram)
    ensures Stored(ram(m.dev), ram(WriteBack(b, m, a, old_, new_).dev), a, new_)
  {
    hide FlatRam, StoreCycle, Accessed, Cycled;
    StoreIsRam(b, ram, m, DummyWrite, a, old_);
    StoreIsRam(b, ram, StoreCycle(b, m, DummyWrite, a, old_), Write, a, new_);
  }

  lemma WriteBackPageIsRam(b: Bus, ram: Device -> Memory, m: Machine, a: byte, old_: byte, new_: byte)
    requires FlatRam(b, ram)
    ensures Stored(ram(m.dev), ram(WriteBackPage(b, m, a, old_, new_).dev), a, new_)
  {
    hide FlatRam, StorePageCycle, Accessed, Cycled;
    StorePageIsRam(b, ram, m, DummyWrite, a, old_);
    StorePageIsRam(b, ram, StorePageCycle(b, m, DummyWrite, a, old_), Write, a, new_);
  }

  lemma SetChanges(b: Bus, ram: Device -> Memory, m: Machine, gf: GetFn, sf: SetFn, p1: byte, p2: word,
                   old_: byte, new_: byte, ptr: int)
    requires FlatRam(b, ram) && WritesBackWhereItReads(gf, sf)
    requires gf.IndYRmw? ==> m.indAddr == Target(gf, m.regs, p1, p2, ptr)
    ensures Stored(ram(m.dev), ram(CallSet(b, m, sf, p1, p2, old_, new_).dev),
                   BackTo(gf, Target(gf, m.regs, p1, p2, ptr), m.indAddr), new_)
  {
    hide FlatRam, WriteBack, WriteBackPage, Stored, Cycled, Lead;
    match sf {
      case SZeroRmw => WriteBackPageIsRam(b, ram, m, p1, old_, new_);
      case SZeroXRmw => WriteBackPageIsRam(b, ram, m, Wrap8(p1 + m.regs.x), old_, new_);
      case _ => SetChangesWide(b, ram, m, gf, sf, p1, p2, old_, new_, ptr);
    }
  }

  lemma SetChangesWide(b: Bus, ram: Device -> Memory, m: Machine, gf: GetFn, sf: SetFn, p1: byte, p2: word,
                       old_: byte, new_: byte, ptr: int)
    requires FlatRam(b, ram) && WritesBackWhereItReads(gf, sf) && sf !in {SZeroRmw, SZeroXRmw}
    requires gf.IndYRmw? ==> m.indAddr == Target(gf, m.regs, p1, p2, ptr)
    ensures Stored(ram(m.dev), ram(CallSet(b, m, sf, p1, p2, old_, new_).dev),
                   BackTo(gf, Target(gf, m.regs, p1, p2, ptr), m.indAddr), new_)
  {
    hide FlatRam, WriteBack, Stored, Cycled, Lead, WriteBackPage;
    var w := match sf
      case SAbsRmw => p2
      case SAbsXRmw => Indexed(p2, m.regs.x)
      case SAbsYRmw => Indexed(p2, m.regs.y)
      case _ => m.indAddr;
    assert w == BackTo(gf, Target(gf, m.regs, p1, p2, ptr), m.indAddr);
    assert CallSet(b, m, sf, p1, p2, old_, new_) == WriteBack(b, m, w, old_, new_);
    hide CallSet, Target, WritesBackWhereItReads;
    WriteBackIsRam(b, ram, m, w, old_, new_);
  }

  lemma RmwBody(b: Bus, ram: Device -> Memory, m: Machine, op: RmwOp, gf: GetFn, sf: SetFn, n: nat, p1: byte, p2: word)
    requires FlatRam(b, ram) && !gf.Imm? && WritesBackWhereItReads(gf, sf) && m.indAddr == 0
    ensures var mem, r := ram(m.dev), Execute(b, m, Rmw(op, gf, sf, n), p1, p2);
      var a := Effective(mem, gf, m.regs, p1, p2);
      var (regs, new_) := RmwOperation(op, m.regs, mem(a));
      Stored(mem, ram(r.dev), if gf.IndX? then 0 else a, new_) && r.regs == regs.(pc := Next(m.regs.pc, n))
  {
    hide FlatRam, CallGet, CallSet, RmwOperation, Sound, Kept, Stored, WritesBackWhereItReads, PointerIn, Cycled;
    LoadGets(b, ram, m, gf, p1, p2);
    var (m2, v) := CallGet(b, m, gf, p1, p2);
    KeptForWriteBack(b, ram, m, gf, p1, p2);
    OperationsStay(m2.regs, v, Lda, op, Anc);
    RmwKeepsIndexes(op, m2.regs, v);
    var (regs, new_) := RmwOperation(op, m2.regs, v);
    var m3 := SetRegs(m2, IncPc(regs, n));
    SameEffective(ram(m.dev), gf, m.regs, m3.regs, p1, p2);
    SetChanges(b, ram, m3, gf, sf, p1, p2, v, new_, PointerIn(ram(m.dev), gf, m3.regs, p1));
    SetKeepsRegs(b, m3, sf, p1, p2, v, new_);
    hide Target;
  }

  /** Any read-modify-write in memory: the byte at its effective address becomes what its operation makes of
      it, and no other byte changes; but the ($nn,X) forms change address 0 instead. */
  lemma RmwInstruction(b: Bus, ram: Device -> Memory, m: Machine)
    requires FlatRam(b, ram) && InstrAt(ram(m.dev), m.regs.pc).Rmw?
    ensures var mem, r := ram(m.dev), FetchAndExecute(b, m);
      RmwMade(InstrAt(mem, m.regs.pc), mem, m.regs, ram(r.dev), r.regs)
  {
    var mem, pc := ram(m.dev), m.regs.pc;
    DecodesDecodable(mem(pc));
    var i := InstrAt(mem, pc);
    NoImmediate(i.gf, i.sf);
    hide FlatRam, FetchAndExecute, Execute, InstrAt, Stored, Effective, Kept, JamAt, LowOperand, WordOperand, RmwOperation,
         WritesBackWhereItReads;
    var m1 := RunsMemory(b, ram, m);
    RmwBody(b, ram, m1, i.mop, i.gf, i.sf, i.length, LowOperand(mem, pc), WordOperand(mem, pc));
  }

  lemma SetKeepsRegs(b: Bus, m: Machine, sf: SetFn, p1: byte, p2: word, old_: byte, new_: byte)
    ensures CallSet(b, m, sf, p1, p2, old_, new_).regs == m.regs
  {
    hide CallSet, Sound;
  }

  /** What the get hands on to the write-back is its effective address. */
  lemma KeptForWriteBack(b: Bus, ram: Device -> Memory, m: Machine, gf: GetFn, p1: byte, p2: word)
    requires FlatRam(b, ram) && !gf.Imm?
    ensures var m1 := CallGet(b, m, gf, p1, p2).0;
      m1.indAddr == if gf.IndYRmw? then Effective(ram(m.dev), gf, m.regs, p1, p2) else m.indAddr
  {
    hide CallGet, FlatRam, Sound, Follows, SameCore, Prelude, Answered;
    GetFollows(b, m, gf, p1, p2);
    if gf.IndYRmw? {
      GetAnswered(b, ram, m, gf, p1, p2);
      PointerFound(ram, m, CallGet(b, m, gf, p1, p2).0, gf, p1, p2, Reading(Real));
    }
  }
}
