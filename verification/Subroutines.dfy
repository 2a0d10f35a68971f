/**
 Subroutines and saved registers on flat RAM: JSR reaches the address of its operands, RTS comes back behind
 the JSR, and what PHA and PHP push, PLA and PLP bring back; for every PC and every SP, wrapping in the stack
 page.
 */
module Subroutines {
  import opened Bytes
  import opened Interrupts
  import opened Machine
  import opened Alu
  import opened Instructions
  import opened Dispatch
  import opened FlatMemory
  import opened BusTrace
  import opened LoadsAndStores
  import opened Opcodes

  const JSR: byte := 0x20
  const RTS: byte := 0x60
  const PHP: byte := 0x08
  const PLP: byte := 0x28
  const PHA: byte := 0x48
  const PLA: byte := 0x68

  lemma StackOpcodes()
    ensures Decode(JSR) == Jsr && Decode(RTS) == Rts
    ensures Decode(PHP) == Php && Decode(PLP) == Plp && Decode(PHA) == Pha && Decode(PLA) == Pla
  {
    hide Decode, WellFormed;
    ControlOpcodes();
  }

  lemma StackBodies(b: Bus, m: Machine, p1: byte, p2: word)
    ensures Execute(b, m, Jsr, p1, p2) == JsrInstr(b, m, p1) && Execute(b, m, Rts, p1, p2) == RtsInstr(b, m)
    ensures Execute(b, m, Pla, p1, p2) == PlaInstr(b, m) && Execute(b, m, Plp, p1, p2) == PlpInstr(b, m)
  {
    hide Kept, Sound, JsrInstr, RtsInstr, PlaInstr, PlpInstr;
  }

  // ---- JSR -----------------------------------------------------------------------------------

  /** Memory after the two pushes of a JSR at `pc`: the address of its own last byte. */
  ghost predicate Called(mem: Memory, mem': Memory, pc: word, sp: byte) {
    forall x: word :: mem'(x) ==
      if x == Stack(sp - 1) then Next(pc, 2) % 0x100 else if x == Stack(sp) then Next(pc, 2) / 0x100 else mem(x)
  }

  /** The registers after a JSR whose first operand was `low`. */
  predicate JumpedTo(low: byte, mem': Memory, r: Regs, r': Regs) {
    && r'.pc == low + 0x100 * mem'(Next(r.pc, 2))
    && r' == r.(pc := r'.pc, sp := (r.sp - 2) % 0x100)
  }

  /** The registers after an RTS. */
  predicate CameBack(mem: Memory, r: Regs, r': Regs) {
    && r'.pc == (mem(Stack(r.sp + 1)) + 0x100 * mem(Stack(r.sp + 2)) + 1) % 0x1_0000
    && r' == r.(pc := r'.pc, sp := (r.sp + 2) % 0x100)
  }

  lemma TwoPushes(m0: Memory, m1: Memory, m2: Memory, pc: word, sp: byte)
    requires Stored(m0, m1, Stack(sp), Next(pc, 2) / 0x100) && Stored(m1, m2, Stack(sp - 1), Next(pc, 2) % 0x100)
    ensures Called(m0, m2, pc, sp)
  {
  }

  lemma PushStored(b: Bus, ram: Device -> Memory, m: Machine, v: byte)
    requires FlatRam(b, ram)
    ensures Stored(ram(m.dev), ram(PushCycle(b, m, v).dev), Stack(m.regs.sp), v)
  {
    hide FlatRam, PushCycle, Stacked;
    PushIsRam(b, ram, m, v);
    StackIs(m.regs.sp);
  }

  lemma JsrIsRam(b: Bus, ram: Device -> Memory, m: Machine, p1: byte)
    requires FlatRam(b, ram)
    ensures var r := JsrInstr(b, m, p1);
      Called(ram(m.dev), ram(r.dev), m.regs.pc, m.regs.sp) && JumpedTo(p1, ram(r.dev), m.regs, r.regs)
  {
    hide FlatRam, LoadCycle, PushCycle, PeekCycle, Accessed, Sound, OneMore, Wrap8, Stored, Called, Stack,
         Stacked, Traced, MakeWord;
    var sp: int := m.regs.sp;
    PeekKeepsRam(b, ram, m);
    PeekTraced(b, m);
    var m1 := PeekCycle(b, m);
    var m2 := SetRegs(m1, IncPc(m1.regs, 2));
    PushStored(b, ram, m2, Hi(m2.regs.pc));
    PushTraced(b, m2, Hi(m2.regs.pc));
    var m3 := PushCycle(b, m2, Hi(m2.regs.pc));
    PushStored(b, ram, m3, Lo(m3.regs.pc));
    PushTraced(b, m3, Lo(m3.regs.pc));
    var m4 := PushCycle(b, m3, Lo(m3.regs.pc));
    LoadIsRam(b, ram, m4, Fetch, m4.regs.pc);
    LoadTraced(b, m4, Fetch, m4.regs.pc);
    StackWraps(sp - 1, 0);
    TwoPushes(ram(m.dev), ram(m3.dev), ram(m4.dev), m.regs.pc, m.regs.sp);
    WordIs(LoadCycle(b, m4, Fetch, m4.regs.pc).1, p1);
  }

  /** A JSR in memory goes to the address of its operands, the second of them read behind its own pushes, and
      leaves its return address on the stack. */
  lemma JsrCalls(b: Bus, ram: Device -> Memory, m: Machine)
    requires FlatRam(b, ram) && ram(m.dev)(m.regs.pc) == JSR
    ensures var mem, r := ram(m.dev), FetchAndExecute(b, m);
      && Called(mem, ram(r.dev), m.regs.pc, m.regs.sp)
      && JumpedTo(mem(Next(m.regs.pc, 1)), ram(r.dev), m.regs, r.regs)
  {
    hide FlatRam, FetchAndExecute, Execute, JsrInstr, Decode, Sound, Kept, JamAt, WordOperand, Stack, Called,
         JumpedTo, Next;
    StackOpcodes();
    var m1 := RunsMemory(b, ram, m);
    var mem, pc := ram(m.dev), m.regs.pc;
    StackBodies(b, m1, LowOperand(mem, pc), WordOperand(mem, pc));
    JsrIsRam(b, ram, m1, LowOperand(mem, pc));
  }

  /** So it reaches the address its operands spell in memory, unless it overwrites the second one itself. */
  lemma JsrReaches(b: Bus, ram: Device -> Memory, m: Machine)
    requires FlatRam(b, ram) && ram(m.dev)(m.regs.pc) == JSR
    requires Next(m.regs.pc, 2) !in {Stack(m.regs.sp), Stack(m.regs.sp - 1)}
    ensures var mem, pc := ram(m.dev), m.regs.pc;
      FetchAndExecute(b, m).regs.pc == mem(Next(pc, 1)) + 0x100 * mem(Next(pc, 2))
  {
    hide FlatRam, FetchAndExecute, Kept, JamAt, Stack, Next;
    JsrCalls(b, ram, m);
  }

  // ---- RTS -----------------------------------------------------------------------------------

  lemma RtsIsRam(b: Bus, ram: Device -> Memory, h: Machine)
    requires FlatRam(b, ram)
    ensures var r := RtsInstr(b, h);
      ram(r.dev) == ram(h.dev) && CameBack(ram(h.dev), h.regs, r.regs)
  {
    hide FlatRam, LoadCycle, PullCycle, PeekCycle, Accessed, Sound, Stacked, OneMore, Stack, Traced, Wrap8, MakeWord;
    var sp: int := h.regs.sp;
    PeekKeepsRam(b, ram, h);
    PeekTraced(b, h);
    var m0 := PeekCycle(b, h);
    PullIsRam(b, ram, m0);
    PullTraced(b, m0);
    var (m1, lo) := PullCycle(b, m0);
    PullIsRam(b, ram, m1);
    PullTraced(b, m1);
    var (m2, hi) := PullCycle(b, m1);
    StackWraps(sp + 1, 1);
    StackIs(sp + 1);
    StackIs((sp + 1) % 0x100 + 1);
    WordIs(hi, lo);
    LoadIsRam(b, ram, m2, Dummy, MakeWord(hi, lo));
    LoadTraced(b, m2, Dummy, MakeWord(hi, lo));
  }

  lemma StackIs(sp: int)
    ensures Stack(sp) == 0x100 + Wrap8(sp)
  {
  }

  /** The subroutine left the return address where it was. */
  ghost predicate ReturnKept(before: Memory, after: Memory, sp: byte) {
    after(Stack(sp + 1)) == before(Stack(sp + 1)) && after(Stack(sp + 2)) == before(Stack(sp + 2))
  }

  /** A JSR, any subroutine that keeps the stack pointer and the two pushed bytes, and its RTS: the program
      goes on behind the JSR, with the stack pointer it had. */
  lemma SubroutineReturns(b: Bus, ram: Device -> Memory, m: Machine, h: Machine)
    requires FlatRam(b, ram) && ram(m.dev)(m.regs.pc) == JSR && ram(h.dev)(h.regs.pc) == RTS
    requires var c := FetchAndExecute(b, m);
      h.regs.sp == c.regs.sp && ReturnKept(ram(c.dev), ram(h.dev), c.regs.sp)
    ensures var r := FetchAndExecute(b, h);
      && r.regs == h.regs.(pc := Next(m.regs.pc, 3), sp := m.regs.sp)
      && ram(r.dev) == ram(h.dev)
  {
    hide FlatRam, FetchAndExecute, Kept, JamAt, Stack, Called, JumpedTo, CameBack, Next, ReturnKept;
    JsrCalls(b, ram, m);
    RtsRuns(b, ram, h);
    ComesBack(ram(m.dev), ram(FetchAndExecute(b, m).dev), ram(h.dev), m.regs, FetchAndExecute(b, m).regs, h.regs,
              FetchAndExecute(b, h).regs);
  }

  /** The same about registers and memory alone. */
  lemma ComesBack(mem: Memory, mem': Memory, mem'': Memory, r: Regs, c: Regs, h: Regs, r': Regs)
    requires Called(mem, mem', r.pc, r.sp) && JumpedTo(mem(Next(r.pc, 1)), mem', r, c)
    requires h.sp == c.sp && ReturnKept(mem', mem'', c.sp) && CameBack(mem'', h, r')
    ensures r' == h.(pc := Next(r.pc, 3), sp := r.sp)
  {
    hide Called, Stack;
    var sp: int := r.sp;
    ReturnIsThere(mem, mem', r.pc, r.sp);
    StackWraps(sp - 2, 1);
    StackWraps(sp - 2, 2);
  }

  lemma RtsRuns(b: Bus, ram: Device -> Memory, h: Machine)
    requires FlatRam(b, ram) && ram(h.dev)(h.regs.pc) == RTS
    ensures var r := FetchAndExecute(b, h);
      ram(r.dev) == ram(h.dev) && CameBack(ram(h.dev), h.regs, r.regs)
  {
    hide FlatRam, FetchAndExecute, Execute, RtsInstr, Decode, Sound, Kept, JamAt, LowOperand, WordOperand,
         Stack, CameBack;
    StackOpcodes();
    var h1 := RunsMemory(b, ram, h);
    var mem, pc := ram(h.dev), h.regs.pc;
    StackBodies(b, h1, LowOperand(mem, pc), WordOperand(mem, pc));
    RtsIsRam(b, ram, h1);
  }

  /** The two bytes a JSR pushed spell its return address. */
  lemma ReturnIsThere(mem: Memory, mem': Memory, pc: word, sp: byte)
    requires Called(mem, mem', pc, sp)
    ensures mem'(Stack(sp - 1)) + 0x100 * mem'(Stack(sp)) == Next(pc, 2)
  {
    assert Stack(sp - 1) != Stack(sp);
  }

  // ---- Saved registers -----------------------------------------------------------------------

  /** What PHA and PHP push. */
  function Saved(op: byte, r: Regs): int { if op == PHA then r.a else Packed(r.p.(b := true)) }

  /** A push was made: one byte, the stack pointer, the program counter. */
  ghost predicate PushMade(mem: Memory, r: Regs, mem': Memory, r': Regs) {
    && (forall x: word :: mem'(x) == if x == Stack(r.sp) then Saved(mem(r.pc), r) else mem(x))
    && r' == r.(sp := (r.sp - 1) % 0x100, pc := Next(r.pc, 1))
  }

  /** A pull was made. */
  predicate PullMade(mem: Memory, r: Regs, r': Regs) {
    var v, moved := mem(Stack(r.sp + 1)), r.(sp := (r.sp + 1) % 0x100, pc := Next(r.pc, 1));
    r' == if mem(r.pc) == PLA then moved.(a := v, p := r.p.(n := v >= 0x80, z := v == 0)) else moved.(p := FromStatus(v))
  }

  lemma PushRuns(b: Bus, ram: Device -> Memory, m: Machine)
    requires FlatRam(b, ram) && ram(m.dev)(m.regs.pc) in {PHA, PHP}
    ensures var r := FetchAndExecute(b, m);
      PushMade(ram(m.dev), m.regs, ram(r.dev), r.regs)
  {
    hide FlatRam, FetchAndExecute, Execute, PushMade, Decode, Sound, Kept, JamAt, LowOperand, WordOperand;
    StackOpcodes();
    var m1 := RunsMemory(b, ram, m);
    var mem, pc := ram(m.dev), m.regs.pc;
    PushIsMade(b, ram, m1, LowOperand(mem, pc), WordOperand(mem, pc));
  }

  lemma PushIsMade(b: Bus, ram: Device -> Memory, m: Machine, p1: byte, p2: word)
    requires FlatRam(b, ram) && ram(m.dev)(m.regs.pc) in {PHA, PHP}
    ensures var r := Execute(b, m, if ram(m.dev)(m.regs.pc) == PHA then Pha else Php, p1, p2);
      PushMade(ram(m.dev), m.regs, ram(r.dev), r.regs)
  {
    hide FlatRam, PushCycle, Sound, Kept, Stacked, Status, Packed, Traced;
    StatusPacks(m.regs.p.(b := true));
    var v := if ram(m.dev)(m.regs.pc) == PHA then m.regs.a else Status(m.regs.p.(b := true));
    PushIsRam(b, ram, m, v);
    PushTraced(b, m, v);
    StackIs(m.regs.sp);
  }

  lemma PullRuns(b: Bus, ram: Device -> Memory, h: Machine)
    requires FlatRam(b, ram) && ram(h.dev)(h.regs.pc) in {PLA, PLP}
    ensures var r := FetchAndExecute(b, h);
      ram(r.dev) == ram(h.dev) && PullMade(ram(h.dev), h.regs, r.regs)
  {
    hide FlatRam, FetchAndExecute, Execute, PullMade, Decode, Sound, Kept, JamAt, LowOperand, WordOperand,
         PlaInstr, PlpInstr;
    StackOpcodes();
    var h1 := RunsMemory(b, ram, h);
    var mem, pc := ram(h.dev), h.regs.pc;
    StackBodies(b, h1, LowOperand(mem, pc), WordOperand(mem, pc));
    PullIsMade(b, ram, h1);
  }

  lemma PullIsMade(b: Bus, ram: Device -> Memory, h: Machine)
    requires FlatRam(b, ram) && ram(h.dev)(h.regs.pc) in {PLA, PLP}
    ensures var r := if ram(h.dev)(h.regs.pc) == PLA then PlaInstr(b, h) else PlpInstr(b, h);
      ram(r.dev) == ram(h.dev) && PullMade(ram(h.dev), h.regs, r.regs)
  {
    hide FlatRam, PullCycle, PeekCycle, Sound, Stacked, Traced, FromStatus, Cycled;
    PeekKeepsRam(b, ram, h);
    PeekTraced(b, h);
    PullIsRam(b, ram, PeekCycle(b, h));
    PullTraced(b, PeekCycle(b, h));
    StackIs(h.regs.sp + 1);
  }

  /** PHA, any code that keeps the stack pointer and the pushed byte, PLA: the accumulator is back, with the
      flags it decides. */
  lemma AccumulatorSaved(b: Bus, ram: Device -> Memory, m: Machine, h: Machine)
    requires FlatRam(b, ram) && ram(m.dev)(m.regs.pc) == PHA && ram(h.dev)(h.regs.pc) == PLA
    requires var s := FetchAndExecute(b, m);
      h.regs.sp == s.regs.sp && ram(h.dev)(Stack(m.regs.sp)) == ram(s.dev)(Stack(m.regs.sp))
    ensures var r := FetchAndExecute(b, h).regs;
      && r.a == m.regs.a && r.sp == m.regs.sp && r.x == h.regs.x && r.y == h.regs.y
      && r.p == h.regs.p.(n := m.regs.a >= 0x80, z := m.regs.a == 0)
  {
    hide FlatRam, FetchAndExecute, Kept, JamAt, Stack, Next;
    PushRuns(b, ram, m);
    PullRuns(b, ram, h);
    StackWraps(m.regs.sp - 1, 1);
  }

  /** PHP and PLP: all flags are back, with B as the push set it. */
  lemma FlagsSaved(b: Bus, ram: Device -> Memory, m: Machine, h: Machine)
    requires FlatRam(b, ram) && ram(m.dev)(m.regs.pc) == PHP && ram(h.dev)(h.regs.pc) == PLP
    requires var s := FetchAndExecute(b, m);
      h.regs.sp == s.regs.sp && ram(h.dev)(Stack(m.regs.sp)) == ram(s.dev)(Stack(m.regs.sp))
    ensures var r := FetchAndExecute(b, h).regs;
      r == h.regs.(p := m.regs.p.(b := true), sp := m.regs.sp, pc := Next(h.regs.pc, 1))
  {
    hide FlatRam, FetchAndExecute, Kept, JamAt, Stack, Status, Packed, FromStatus, Next;
    PushRuns(b, ram, m);
    PullRuns(b, ram, h);
    StackWraps(m.regs.sp - 1, 1);
    StatusPacks(m.regs.p.(b := true));
    StatusRoundTrip(m.regs.p.(b := true));
  }
}
