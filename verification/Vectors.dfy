/**
 Where an interrupt goes. Every entry ends with the two vector bytes read one after the other, and the
 program continues at the address they spell, low byte first: $FFFA for an NMI or an NMI that takes a
 BRK or an IRQ over, $FFFE for any other BRK or IRQ, $FFFC for a reset.
 */
module Vectors {
  import opened Bytes
  import opened Interrupts
  import opened Machine
  import opened Instructions
  import opened Dispatch

  /** From `m` to `m'` a jump through the vector at `v` was made, and the NMI vector was noted if it was that. */
  predicate JumpsThrough(m: Machine, m': Machine, v: int) {
    && |m.log.accesses| + 2 <= |m'.log.accesses|
    && Spells(m'.log.accesses, v, m'.regs.pc)
    && |m'.log.nmiVectors| == |m.log.nmiVectors| + (if v == 0xFFFA then 1 else 0)
  }

  // ---- The sequences -------------------------------------------------------------------------

  /** When an NMI takes the sequence over, after P has been pushed: the request is latched, and its edge is
      two cycles old, in CPU cycles at turbo and in clocks at 1 MHz. */
  predicate TakenOver(b: Bus, m: Machine) {
    var p := ProcessAlarms(b, PushState(b, m));
    p.lines.global.nmi && (if p.time.div > 1 then p.lines.nmiDelay >= 2 else p.time.clk >= p.lines.nmiClk + 2)
  }

  function BreakVector(b: Bus, m: Machine): int { if TakenOver(b, m) then 0xFFFA else 0xFFFE }

  /** The sequence that IRQ and BRK share. */
  lemma IrqBrkJumps(b: Bus, m: Machine)
    ensures JumpsThrough(m, IrqBrk(b, m), BreakVector(b, m))
  {
    hide FetchVector, FetchNmiVector, PushState, ProcessAlarms, Sound, PaysOne, NextAccess, Spells, Instant;
    var m1 := ProcessAlarms(b, PushState(b, m));
    assert m1.log == PushState(b, m).log;
    var m2 := if NmiTakesOver(m1) then AckNmiOf(m1) else m1;
    assert m2.log == m1.log;
    var m3 := m2.(regs := m2.regs.(p := m2.regs.p.(i := true)));
  }

  /** A BRK goes through the vector of its own sequence. */
  lemma BrkJumps(b: Bus, m: Machine)
    ensures var s := SetRegs(m, IncPc(m.regs, 2).(p := m.regs.p.(b := true)));
      JumpsThrough(m, BrkInstr(b, m), BreakVector(b, s))
  {
    hide IrqBrk, Sound, TakenOver;
    IrqBrkJumps(b, SetRegs(m, IncPc(m.regs, 2).(p := m.regs.p.(b := true))));
  }

  // ---- The entries ---------------------------------------------------------------------------

  lemma NmiEntryJumps(b: Bus, m: Machine)
    requires NmiDue(m)
    ensures JumpsThrough(m, NmiEntry(b, m), 0xFFFA)
  {
    hide NoteEntry, TwoDummies, SetBreak, PushState, FetchNmiVector, Sound, Instant, PaysOne, Threshold, Spells;
    var m1 := AckNmiOf(NoteEntry(m, 0xFFFA, m.lines.nmiClk));
    var m2 := SetBreak(TwoDummies(b, m1), false);
  }

  /** What an IRQ entry hands to the shared sequence: the interrupted state, B clear, two cycles on. */
  function BeforeIrqBrk(b: Bus, m: Machine): Machine
    requires IrqDue(m)
  {
    SetBreak(TwoDummies(b, AckIrqOf(NoteEntry(m, 0xFFFE, m.lines.irqClk))), false)
  }

  lemma IrqEntryJumps(b: Bus, m: Machine)
    requires IrqDue(m)
    ensures JumpsThrough(m, IrqEntry(b, m), BreakVector(b, BeforeIrqBrk(b, m)))
  {
    hide NoteEntry, TwoDummies, SetBreak, IrqBrk, Sound, Instant, IrqGate, IrqRipe, Spells, TakenOver;
    var m1 := AckIrqOf(NoteEntry(m, 0xFFFE, m.lines.irqClk));
    IrqBrkJumps(b, SetBreak(TwoDummies(b, m1), false));
  }

  /** A reset's reads are recorded apart: they take no cycle. */
  lemma ResetJumps(b: Bus, m: Machine)
    ensures var r := ResetEntry(b, m);
      && Spells(r.log.resets, 0xFFFC, r.regs.pc) && |r.log.resets| == |m.log.resets| + 2
      && r.regs == m.regs.(pc := r.regs.pc, p := m.regs.p.(i := true))
  {
    hide AccessWait, CheckBa, Sound, Instant, Cycled;
    WaitMakesNoReset(b, DropReset(b, m), 0xFFFC);
    WaitMakesNoReset(b, ResetRead(b, DropReset(b, m), 0xFFFC).0, 0xFFFD);
  }

  lemma WaitMakesNoReset(b: Bus, m: Machine, a: word)
    ensures CheckBa(b, AccessWait(b, m, a, false), false).log.resets == m.log.resets
    ensures CheckBa(b, AccessWait(b, m, a, false), false).regs == m.regs
  {
    hide Idle, Idled, Cycled, WaitFor;
    IdleMakesNoReset(b, m, WaitFor(b, m, a, false));
  }

  lemma {:induction false} IdleMakesNoReset(b: Bus, m: Machine, n: nat)
    ensures Idle(b, m, n).log.resets == m.log.resets && Idle(b, m, n).regs == m.regs
    decreases n
  {
    hide Idled, Steady, ClkInc;
    if n > 0 {
      IdleMakesNoReset(b, m, n - 1);
    }
  }

  /** The dispatch: through $FFFC for a reset; else through $FFFA for an NMI that is due; else, for an IRQ
      that is due, through $FFFE or the NMI that took it over; else the program goes on where it was. */
  lemma DispatchJumps(b: Bus, m: Machine)
    ensures var r := DoInterrupt(b, m).0;
      if m.lines.global.reset then Spells(r.log.resets, 0xFFFC, r.regs.pc)
      else if NmiDue(m) then JumpsThrough(m, r, 0xFFFA)
      else if IrqDue(m) then JumpsThrough(m, r, BreakVector(b, BeforeIrqBrk(b, m)))
      else r.regs == m.regs && r.log == m.log
  {
    hide NmiEntry, IrqEntry, ResetEntry, Sound, Instant, Spells, BreakVector, BeforeIrqBrk, Entered, IrqRipe;
    var m1 := EnterDue(b, m).0;
    assert m1.lines.global.reset ==> m.lines.global.reset by { NoResetRaised(b, m); }
    if m.lines.global.reset {
      ResetJumps(b, m1);
    } else if NmiDue(m) {
      NmiEntryJumps(b, m);
    } else if IrqDue(m) {
      IrqEntryJumps(b, m);
    }
  }

  lemma NoResetRaised(b: Bus, m: Machine)
    ensures EnterDue(b, m).0.lines.global.reset ==> m.lines.global.reset
  {
    hide EnterDue;
  }
}
