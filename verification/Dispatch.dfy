/**
 One call of the core: the prologue with its interrupt dispatch, the opcode fetch, the opcode.
 */
module Dispatch {
  import opened Bytes
  import opened Interrupts
  import opened Machine
  import opened Instructions

  // ---- Interrupt gates -----------------------------------------------------------------------

  /** A turbo CPU sees its IRQ line a quarter of a PHI2 cycle late. */
  function TurboIrqSync(div: nat): nat { div / 4 }

  function Threshold(info: OpInfo): nat { INTERRUPT_DELAY + (if info.delays then 1 else 0) }

  /** `interrupt_check_nmi_delay`: a BRK defers the NMI by one opcode. */
  predicate NmiDue(m: Machine) {
    m.lines.global.nmi && m.info.number != 0x00 && Threshold(m.info) <= m.lines.nmiDelay
  }

  /** The IRQ may be looked at: I is clear, or the last opcode has only just set it. */
  predicate IrqGate(m: Machine) {
    && (m.lines.global.irq || m.lines.global.irqPend)
    && (!m.regs.p.i || m.info.disables)
  }

  /** `interrupt_check_irq_delay`, before it asks whether the last opcode enabled the IRQ. */
  predicate IrqRipe(m: Machine) {
    Threshold(m.info) + TurboIrqSync(m.time.div) <= m.lines.irqDelay
  }

  predicate IrqDue(m: Machine) { IrqGate(m) && IrqRipe(m) && !m.info.enables }

  // ---- Entries -------------------------------------------------------------------------------

  function NoteEntry(m: Machine, vector: word, edge: nat): (r: Machine)
    requires (vector == 0xFFFA && NmiDue(m) && edge == m.lines.nmiClk)
          || (vector == 0xFFFE && IrqDue(m) && edge == m.lines.irqClk)
    ensures Instant(m, r, 0)
    ensures r == m.(log := m.log.(entries := m.log.entries + [Entry(vector, m.time.clk, edge, m.info)]))
  {
    m.(log := m.log.(entries := m.log.entries + [Entry(vector, m.time.clk, edge, m.info)]))
  }

  function SetBreak(m: Machine, set_: bool): (r: Machine)
    ensures Instant(m, r, 0) && r == m.(regs := m.regs.(p := m.regs.p.(b := set_)))
  {
    SetRegs(m, m.regs.(p := m.regs.p.(b := set_)))
  }

  /** The two dummy reads every hardware entry starts with. */
  function TwoDummies(b: Bus, m: Machine): (r: Machine)
    ensures Cycled(b, m, r)
    ensures r.log.nmiVectors == m.log.nmiVectors && |r.log.accesses| == |m.log.accesses| + 2
  {
    hide Valid, Phased, VectorsRead, Timely, AllLate, Exact, NeverSteals, LostIn, Taken, Stamped;
    hide LoadCycle;
    LoadCycle(b, LoadCycle(b, m, Dummy, m.regs.pc).0, Dummy, m.regs.pc).0
  }

  function SetLastOpcode(m: Machine, n: byte): (r: Machine)
    ensures Instant(m, r, 0) && r == m.(info := OpInfo(n, false, false, false))
  {
    m.(info := OpInfo(n, false, false, false))
  }

  /** Right after an entry: the last opcode counts as a BRK and the IRQ is masked. */
  predicate Serviced(m: Machine) {
    var serviced := m.info.number == 0 && !m.info.disables && m.regs.p.i;
    serviced
  }

  /** What an entry leaves: three bytes pushed, B clear, I set, the last opcode a BRK, and the program counter
      at what the vector spells. */
  ghost predicate Entered(b: Bus, m: Machine, m': Machine) {
    var sp, p := Wrap8(m.regs.sp - 3), m.regs.p.(b := false, i := true);
    var regs := m'.regs == m.regs.(sp := sp, pc := m'.regs.pc, p := p);
    var jumped := Spells(m'.log.accesses, VectorOf(m, m'), m'.regs.pc);
    var entered := Sound(b, m, m') && regs && Serviced(m') && m'.jammed == m.jammed && jumped;
    entered
  }

  function NmiEntry(b: Bus, m: Machine): (r: Machine)
    requires NmiDue(m)
    ensures Entered(b, m, r) && VectorOf(m, r) == 0xFFFA
  {
    hide Valid, Phased, VectorsRead, Timely, AllLate, Exact, NeverSteals, LostIn, Taken, Stamped;
    hide NoteEntry, TwoDummies, SetBreak, PushState, FetchNmiVector, SetLastOpcode;
    var m1 := AckNmiOf(NoteEntry(m, 0xFFFA, m.lines.nmiClk));
    var m2 := PushState(b, SetBreak(TwoDummies(b, m1), false));
    var m3 := FetchNmiVector(b, m2);
    SetLastOpcode(m3.(regs := m3.regs.(p := m3.regs.p.(i := true))), 0)
  }

  function IrqEntry(b: Bus, m: Machine): (r: Machine)
    requires IrqDue(m)
    ensures Entered(b, m, r)
  {
    hide Valid, Phased, VectorsRead, Timely, AllLate, Exact, NeverSteals, LostIn, Taken, Stamped;
    hide NoteEntry, TwoDummies, SetBreak, IrqBrk, SetLastOpcode, AckIrq;
    var m1 := NoteEntry(m, 0xFFFE, m.lines.irqClk);
    var m2 := SetBreak(TwoDummies(b, AckIrqOf(m1)), false);
    SetLastOpcode(IrqBrk(b, m2), 0)
  }

  function AckIrqOf(m: Machine): (r: Machine)
    ensures Instant(m, r, 0) && SameCore(m, r)
  {
    m.(lines := AckIrq(m.lines))
  }

  /** One of the two vector reads of a reset: it stalls like any other but takes no cycle. */
  function ResetRead(b: Bus, m: Machine, a: word): (r: (Machine, byte))
    ensures Cycled(b, m, r.0)
  {
    hide Valid, Phased, VectorsRead, Timely, AllLate, Exact, NeverSteals, LostIn, Taken, Stamped;
    hide CheckBa, AccessWait;
    var m1 := CheckBa(b, AccessWait(b, m, a, false), false);
    var (dev, v) := b.read(m1.dev, Real, a);
    (m1.(dev := dev, log := m1.log.(resets := m1.log.resets + [Access(Real, a, v, m1.log.cycles)])), v)
  }

  function ResetVector(b: Bus, m: Machine): (r: (Machine, word))
    ensures Cycled(b, m, r.0)
  {
    hide Valid, Phased, VectorsRead, Timely, AllLate, Exact, NeverSteals, LostIn, Taken, Stamped;
    hide ResetRead, MakeWord;
    var (m1, lo) := ResetRead(b, m, 0xFFFC);
    var (m2, hi) := ResetRead(b, m1, 0xFFFD);
    (m2, MakeWord(hi, lo))
  }

  function DropReset(b: Bus, m: Machine): (r: Machine)
    ensures Instant(m, r, 0) && r == m.(lines := AckReset(m.lines), dev := b.cpuReset(m.dev))
  {
    m.(lines := AckReset(m.lines), dev := b.cpuReset(m.dev))
  }

  function JumpOutOfReset(m: Machine, vector: word): (r: Machine)
    ensures Instant(m, r, 0)
    ensures r == m.(regs := m.regs.(p := m.regs.p.(i := true), pc := vector), jammed := false)
  {
    m.(regs := m.regs.(p := m.regs.p.(i := true), pc := vector), jammed := false)
  }

  function ResetEntry(b: Bus, m: Machine): (r: Machine)
    ensures Sound(b, m, r)
    ensures var awake := !r.jammed && !r.lines.global.reset && (Serviced(m) ==> Serviced(r)); awake
  {
    hide Valid, Phased, VectorsRead, Timely, AllLate, Exact, NeverSteals, LostIn, Taken, Stamped;
    hide ResetVector, DropReset, JumpOutOfReset;
    var m1 := DropReset(b, m);
    var (m2, vector) := ResetVector(b, m1);
    JumpOutOfReset(m2, vector)
  }

  /** Latches the tail of an IRQ that an enabling opcode holds off for one instruction. */
  function HoldIrq(m: Machine): (r: Machine)
    requires IrqGate(m)
    ensures Instant(m, r, 0) && SameCore(m, r)
  {
    m.(lines := m.lines.(global := m.lines.global.(irqPend := true)))
  }

  /** The NMI and IRQ half of `do_interrupt`. */
  function EnterDue(b: Bus, m: Machine): (r: (Machine, bool))
    ensures Sound(b, m, r.0)
    ensures r.1 <==> NmiDue(m) || IrqDue(m)
    ensures var serviced := r.1 ==> Serviced(r.0) && r.0.jammed == m.jammed; serviced
  {
    hide Valid, Phased, VectorsRead, Timely, AllLate, Exact, NeverSteals, LostIn, Taken, Stamped;
    hide NmiEntry, IrqEntry, HoldIrq;
    if NmiDue(m) then (NmiEntry(b, m), true)
    else if IrqDue(m) then (IrqEntry(b, m), true)
    else if IrqGate(m) && IrqRipe(m) then (HoldIrq(m), false)
    else (m, false)
  }

  /** `do_interrupt`: the machine after it, and whether a hardware IRQ or NMI was entered. */
  function DoInterrupt(b: Bus, m: Machine): (r: (Machine, bool))
    ensures Sound(b, m, r.0)
    ensures r.1 <==> NmiDue(m) || IrqDue(m)
    ensures var serviced := r.1 ==> Serviced(r.0) && (m.jammed || !r.0.jammed); serviced
    ensures !r.0.lines.global.reset
  {
    hide Valid, Phased, VectorsRead, Timely, AllLate, Exact, NeverSteals, LostIn, Taken, Stamped;
    hide EnterDue, ResetEntry;
    var ik := m.lines.global;
    var (m1, entered) := EnterDue(b, m);
    var reset := ik.reset || (ik.trap && m1.lines.global.reset);
    (if reset then ResetEntry(b, m1) else m1, entered)
  }

  // ---- The prologue --------------------------------------------------------------------------

  /** A jammed CPU drops both requests; a pending reset wakes it. */
  function JamHack(m: Machine): (r: Machine)
    ensures Instant(m, r, 0)
  {
    if m.jammed
    then m.(lines := DropRequests(m.lines), jammed := !m.lines.global.reset)
    else m
  }

  /** The tail of a released IRQ expires at its clock. */
  function ExpireTail(m: Machine): (r: Machine)
    ensures Instant(m, r, 0)
  {
    if Dangling(m.lines) && m.lines.irqPendingClk <= m.time.clk then AckIrqOf(m) else m
  }

  function ClearTail(m: Machine): (r: Machine)
    ensures Instant(m, r, 0)
  {
    if Dangling(m.lines)
    then m.(lines := m.lines.(global := m.lines.global.(irqPend := false)))
    else m
  }

  /** What the dispatch sees: the alarms have run, a jam has dropped its requests, tails expired. */
  function Boundary(b: Bus, m: Machine): (r: Machine)
    ensures Sound(b, m, r)
  {
    hide Valid, Phased, VectorsRead, Timely, AllLate, Exact, NeverSteals, LostIn, Taken, Stamped;
    hide ProcessAlarms, JamHack, ExpireTail;
    ExpireTail(JamHack(ProcessAlarms(b, m)))
  }

  function Prologue(b: Bus, m: Machine): (r: (Machine, bool))
    ensures Sound(b, m, r.0)
  {
    hide Valid, Phased, VectorsRead, Timely, AllLate, Exact, NeverSteals, LostIn, Taken, Stamped;
    hide Boundary, DoInterrupt, ClearTail, ProcessAlarms;
    var m1 := Boundary(b, m);
    if m1.lines.global == NONE then (m1, false) else
    var (m2, entered) := DoInterrupt(b, m1);
    (ProcessAlarms(b, ClearTail(m2)), entered)
  }

  // ---- Fetch and run -------------------------------------------------------------------------

  /** A fetch moves neither the registers nor the target of a write-back. */
  ghost predicate Fetching(b: Bus, m: Machine, m': Machine) {
    var fetching := Sound(b, m, m') && m'.indAddr == m.indAddr && m'.regs == m.regs;
    fetching
  }

  /** The opcode byte: last-opcode bookkeeping happens before its cycle. */
  function FetchFirst(b: Bus, m: Machine): (r: (Machine, byte))
    ensures Fetching(b, m, r.0)
  {
    hide Valid, Phased, VectorsRead, Timely, AllLate, Exact, NeverSteals, LostIn, Taken, Stamped;
    hide Load, ClkInc;
    var (m1, op) := Load(b, m, Fetch, m.regs.pc);
    (ClkInc(b, m1.(info := OpInfo(op, false, false, false))), op)
  }

  function FetchOpcode(b: Bus, m: Machine): (r: (Machine, byte, byte, word))
    ensures Fetching(b, m, r.0)
  {
    hide Valid, Phased, VectorsRead, Timely, AllLate, Exact, NeverSteals, LostIn, Taken, Stamped;
    hide FetchFirst, LoadCycle;
    var pc := m.regs.pc;
    var (m1, op) := FetchFirst(b, m);
    var (m2, lo) := LoadCycle(b, m1, Fetch, Wrap16(pc + 1));
    if ThreeBytes(op) then
      var (m3, hi) := LoadCycle(b, m2, Fetch, Wrap16(pc + 2));
      (m3, op, lo, MakeWord(hi, lo))
    else (m2, op, lo, lo)
  }

  /** The JAM opcodes among the instruction a fetch from here finds. */
  function JamAt(b: Bus, m: Machine): nat { JamsIn(Decode(FetchOpcode(b, m.(indAddr := 0)).1)) }

  function FetchAndExecute(b: Bus, m: Machine): (r: Machine)
    ensures Kept(b, m, r, JamAt(b, m))
  {
    hide Valid, Phased, VectorsRead, Timely, AllLate, Exact, NeverSteals, LostIn, Taken, Stamped;
    hide FetchOpcode, Execute, Decode;
    var (m1, op, p1, p2) := FetchOpcode(b, m.(indAddr := 0));
    Execute(b, m1, Decode(op), p1, p2)
  }

  /** The debugger's gates for one call: stop after any entry, stop after an entry to an armed
      address, run the prologue only. */
  datatype Gates = Gates(entryStop: bool, stopAt: (Device, word) -> bool, prologueOnly: bool)

  function NoGates(): Gates { Gates(false, (d, pc) => false, false) }

  /** What one call does before it may fetch: the machine then, and whether it does fetch. */
  function UpToFetch(b: Bus, m: Machine, g: Gates): (r: (Machine, bool))
    ensures Sound(b, m.(entryPaused := r.0.entryPaused), r.0)
  {
    hide Valid, Phased, VectorsRead, Timely, AllLate, Exact, NeverSteals, LostIn, Taken, Stamped;
    hide Prologue;
    if g.prologueOnly && m.entryPaused then (m, false) else
    var m0 := m.(entryPaused := false);
    var (m1, entered) := if m.entryPaused then (m0, false) else Prologue(b, m0);
    if entered && (g.entryStop || g.stopAt(m1.dev, m1.regs.pc)) then (m1.(entryPaused := true), false)
    else (m1, !g.prologueOnly)
  }

  /** The JAM opcodes one call executes. */
  function JamsOf(b: Bus, m: Machine, g: Gates): nat {
    var (m1, fetches) := UpToFetch(b, m, g);
    if fetches then JamAt(b, m1) else 0
  }

  /** `c64_6510core_execute`. */
  function Run(b: Bus, m: Machine, g: Gates): (r: Machine)
    ensures Kept(b, m.(entryPaused := r.entryPaused), r, JamsOf(b, m, g))
  {
    hide Valid, Phased, VectorsRead, Timely, AllLate, Exact, NeverSteals, LostIn, Taken, Stamped;
    hide UpToFetch, FetchAndExecute, JamAt;
    var (m1, fetches) := UpToFetch(b, m, g);
    if fetches then FetchAndExecute(b, m1) else m1
  }
}
