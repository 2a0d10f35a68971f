/**
 The boundary right after the instruction that changed the interrupt mask: a CLI or a PLP that cleared I
 holds the IRQ off for one more instruction, a SEI that set it lets a ripe one in.
 */
module Masking {
  import opened Bytes
  import opened Interrupts
  import opened Machine
  import opened Instructions
  import opened Dispatch
  import opened BusTrace

  /** A bus whose BA stalls never mark the last opcode. */
  ghost predicate NeverMarks(b: Bus) { forall d: Device, i: OpInfo, low: bool :: !b.checkBa(d, i, low).1 }

  lemma {:induction false} IdleKeepsInfo(b: Bus, m: Machine, n: nat)
    ensures Idle(b, m, n).info == m.info
    decreases n
  {
    hide Idled, Steady, ClkInc;
    if n > 0 {
      IdleKeepsInfo(b, m, n - 1);
    }
  }

  lemma LoadKeepsInfo(b: Bus, m: Machine, kind: Kind, a: word)
    requires NeverMarks(b)
    ensures Load(b, m, kind, a).0.info == m.info
  {
    hide Idle, Idled, Cycled, OneAhead, WaitFor;
    IdleKeepsInfo(b, m, WaitFor(b, m, a, false));
  }

  lemma LoadCycleKeepsInfo(b: Bus, m: Machine, kind: Kind, a: word)
    requires NeverMarks(b)
    ensures LoadCycle(b, m, kind, a).0.info == m.info
  {
    hide NeverMarks, Load, ClkInc, Cycled, OneAhead, OneMore, Steady;
    LoadKeepsInfo(b, m, kind, a);
  }

  /** On such a bus nothing is marked when the opcode has been fetched. */
  lemma FetchMarksNothing(b: Bus, m: Machine)
    requires NeverMarks(b)
    ensures var (m1, op, p1, p2) := FetchOpcode(b, m);
      m1.info == OpInfo(op, false, false, false)
  {
    hide NeverMarks, Load, ClkInc, LoadCycle, Sound, Cycled, OneAhead, OneMore, Steady;
    var pc: int := m.regs.pc;
    var m1 := FetchFirst(b, m).0;
    LoadCycleKeepsInfo(b, m1, Fetch, Wrap16(pc + 1));
    LoadCycleKeepsInfo(b, LoadCycle(b, m1, Fetch, Wrap16(pc + 1)).0, Fetch, Wrap16(pc + 2));
  }

  lemma BoundaryKeepsInfo(b: Bus, m: Machine)
    ensures Boundary(b, m).info == m.info && Boundary(b, m).regs == m.regs
  {
    hide Sound, Instant, Report, DropRequests, AckIrq;
  }

  /** No IRQ is entered at the boundary of such a machine: only an NMI may be. */
  lemma EnabledHoldsIrq(b: Bus, m: Machine)
    requires m.info.enables
    ensures !IrqDue(Boundary(b, m)) && (Prologue(b, m).1 ==> NmiDue(Boundary(b, m)))
  {
    BoundaryKeepsInfo(b, m);
    hide Sound, Instant, Boundary, DoInterrupt, ProcessAlarms, NmiDue;
  }

  /** The instruction a call fetches from here. */
  function Fetched(b: Bus, m: Machine): Instr { Decode(FetchOpcode(b, m.(indAddr := 0)).1) }

  /** Right after a CLI that found I set no IRQ is entered, unless a stall in its fetch marked it: the stolen
      cycle has then served the delay. */
  lemma CliHoldsIrq(b: Bus, m: Machine)
    requires Fetched(b, m).Cli? && m.regs.p.i
    ensures var r := FetchAndExecute(b, m);
      && !r.regs.p.i
      && (r.info.enables <==> !FetchOpcode(b, m.(indAddr := 0)).0.info.enables)
      && (r.info.enables || NeverMarks(b) ==> !IrqDue(Boundary(b, r)) && (Prologue(b, r).1 ==> NmiDue(Boundary(b, r))))
  {
    hide FetchOpcode, Decode, Sound, Kept, Instant, NmiDue, IrqDue, Boundary, Prologue, NeverMarks, JamAt;
    var r := FetchAndExecute(b, m);
    if NeverMarks(b) {
      FetchMarksNothing(b, m.(indAddr := 0));
    }
    if r.info.enables {
      EnabledHoldsIrq(b, r);
    }
  }

  /** Right after a PLP that cleared I none is entered on any bus. */
  lemma PlpHoldsIrq(b: Bus, m: Machine)
    requires Fetched(b, m).Plp? && m.regs.p.i && !FetchAndExecute(b, m).regs.p.i
    ensures var r := FetchAndExecute(b, m);
      !IrqDue(Boundary(b, r)) && (Prologue(b, r).1 ==> NmiDue(Boundary(b, r)))
  {
    hide FetchOpcode, Decode, Sound, Kept, Instant, NmiDue, IrqDue, Boundary, Prologue, JamAt, PullCycle, PeekCycle;
    hide OneMore, Wrap8, FromStatus;
    EnabledHoldsIrq(b, FetchAndExecute(b, m));
  }

  /** Right after a SEI that found I clear a ripe IRQ is still entered. */
  lemma SeiLetsIrqIn(b: Bus, m: Machine)
    requires NeverMarks(b) && Fetched(b, m).Sei? && !m.regs.p.i
    ensures var m1 := Boundary(b, FetchAndExecute(b, m));
      && m1.regs.p.i
      && (IrqDue(m1) <==> (m1.lines.global.irq || m1.lines.global.irqPend) && IrqRipe(m1))
  {
    hide FetchOpcode, Decode, Sound, Kept, Instant, Boundary, IrqRipe, NeverMarks, JamAt;
    FetchMarksNothing(b, m.(indAddr := 0));
    BoundaryKeepsInfo(b, FetchAndExecute(b, m));
  }

  // ---- The branch that delays an interrupt ---------------------------------------------------

  lemma LoadMarksEnableOnly(b: Bus, m: Machine, kind: Kind, a: word)
    ensures var r := LoadCycle(b, m, kind, a).0;
      r.info == m.info.(enables := r.info.enables)
  {
    hide LoadCycle, Sound, OneMore;
  }

  lemma FetchDelaysNothing(b: Bus, m: Machine)
    ensures var (m1, op, p1, p2) := FetchOpcode(b, m);
      !m1.info.delays && m1.info.number == op && m1.regs == m.regs
  {
    hide Load, ClkInc, LoadCycle, Accessed, OneAhead, Steady, Sound;
    var pc: int := m.regs.pc;
    var m1 := FetchFirst(b, m).0;
    LoadMarksEnableOnly(b, m1, Fetch, Wrap16(pc + 1));
    LoadMarksEnableOnly(b, LoadCycle(b, m1, Fetch, Wrap16(pc + 1)).0, Fetch, Wrap16(pc + 2));
  }

  /** A branch delays the next interrupt by a cycle if and only if it is taken and stays in the page of the
      instruction behind it. */
  lemma BranchDelays(b: Bus, m: Machine)
    requires Fetched(b, m).Branch?
    ensures var (m1, op, p1, p2) := FetchOpcode(b, m.(indAddr := 0));
      var next, to := Next(m.regs.pc, 2), Destination(m.regs, p1);
      FetchAndExecute(b, m).info.delays <==> Holds(m.regs.p, Fetched(b, m).cond) && next / 0x100 == to / 0x100
  {
    hide FetchOpcode, Decode, Kept, Sound, JamAt, LoadCycle, Accessed, CondHolds, Holds, Fetching, Destination,
         SignExtend, MakeWord;
    var m0 := m.(indAddr := 0);
    FetchDelaysNothing(b, m0);
    var (m1, op, p1, p2) := FetchOpcode(b, m0);
    ConditionHolds(m.regs.p, Decode(op).cond);
    DestinationIs(m.regs, p1);
    var m2 := SetRegs(m1, IncPc(m1.regs, 2));
    LoadMarksEnableOnly(b, m2, Dummy, m2.regs.pc);
    var m3 := LoadCycle(b, m2, Dummy, m2.regs.pc).0;
    LoadMarksEnableOnly(b, m3, Dummy, MakeWord(Hi(m2.regs.pc), Lo(Destination(m.regs, p1))));
  }
}
