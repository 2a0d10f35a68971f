/**
 A hardware interrupt and the RTI that ends its handler are invisible to the interrupted code: on
 flat RAM, PC, SP and the flags come back, for every PC, every SP (wrapping inside the stack page)
 and every flag state, with B cleared.
 */
module InterruptReturn {
  import opened Bytes
  import opened Interrupts
  import opened Machine
  import opened Instructions
  import opened Dispatch
  import opened FlatMemory

  lemma WrapTwice(x: int, k: int)
    ensures Wrap8(Wrap8(x) + k) == Wrap8(x + k)
  {
  }

  /** The three stack slots of an entry are three different bytes, wherever the page wraps. */
  lemma DistinctSlots(sp: byte)
    ensures var s: int := sp;
      Wrap8(s) == sp && Wrap8(s - 1) != Wrap8(s) && Wrap8(s - 2) != Wrap8(s) && Wrap8(s - 2) != Wrap8(s - 1)
  {
  }

  // ---- The three bytes of an entry -----------------------------------------------------------

  /** The stack frame an entry from `r` leaves, read upwards from the final stack pointer. */
  ghost predicate Frame(mem: Memory, sp: byte, r: Regs) {
    && mem(0x100 + Wrap8(sp + 1)) == Status(r.p)
    && mem(0x100 + Wrap8(sp + 2)) == Lo(r.pc)
    && mem(0x100 + Wrap8(sp + 3)) == Hi(r.pc)
  }

  lemma ThreePushes(m0: Memory, m1: Memory, m2: Memory, m3: Memory, sp: byte, r: Regs)
    requires Stored(m0, m1, 0x100 + sp, Hi(r.pc))
    requires Stored(m1, m2, 0x100 + Wrap8(sp - 1), Lo(r.pc))
    requires Stored(m2, m3, 0x100 + Wrap8(Wrap8(sp - 1) - 1), Status(r.p))
    ensures Frame(m3, Wrap8(sp - 3), r)
  {
    hide Status, Hi, Lo;
    var s: int := sp;
    WrapTwice(s - 1, -1);
    WrapTwice(s - 3, 1);
    WrapTwice(s - 3, 2);
    WrapTwice(s - 3, 3);
    DistinctSlots(sp);
    hide Wrap8;
  }

  lemma PushStateLeavesFrame(b: Bus, ram: Device -> Memory, m: Machine)
    requires FlatRam(b, ram)
    ensures var m1 := PushState(b, m);
      Frame(ram(m1.dev), m1.regs.sp, m.regs)
  {
    hide FlatRam, PushCycle, Status, Frame, Hi, Lo, Wrap8;
    var m1 := PushCycle(b, m, Hi(m.regs.pc));
    var m2 := PushCycle(b, m1, Lo(m.regs.pc));
    var m3 := PushCycle(b, m2, Status(m.regs.p));
    PushIsRam(b, ram, m, Hi(m.regs.pc));
    PushIsRam(b, ram, m1, Lo(m.regs.pc));
    PushIsRam(b, ram, m2, Status(m.regs.p));
    ThreePushes(ram(m.dev), ram(m1.dev), ram(m2.dev), ram(m3.dev), m.regs.sp, m.regs);
  }

  lemma FetchKeepsRam(b: Bus, ram: Device -> Memory, m: Machine, vector: word)
    requires FlatRam(b, ram) && vector < 0xFFFF
    ensures SameRam(ram, m, FetchVector(b, m, vector))
    ensures SameRam(ram, m, FetchNmiVector(b, m))
  {
    hide LoadCycle;
    LoadIsRam(b, ram, m, Real, vector);
    LoadIsRam(b, ram, LoadCycle(b, m, Real, vector).0, Real, vector + 1);
    var m' := m.(dev := b.nmiVectorFetch(m.dev));
    LoadIsRam(b, ram, m', Real, 0xFFFA);
    LoadIsRam(b, ram, LoadCycle(b, m', Real, 0xFFFA).0, Real, 0xFFFB);
  }

  lemma DummiesKeepRam(b: Bus, ram: Device -> Memory, m: Machine)
    requires FlatRam(b, ram)
    ensures SameRam(ram, m, TwoDummies(b, m))
  {
    hide LoadCycle, FlatRam;
    LoadIsRam(b, ram, m, Dummy, m.regs.pc);
    LoadIsRam(b, ram, LoadCycle(b, m, Dummy, m.regs.pc).0, Dummy, m.regs.pc);
  }

  lemma NmiLeavesFrame(b: Bus, ram: Device -> Memory, m: Machine)
    requires FlatRam(b, ram) && NmiDue(m)
    ensures var e := NmiEntry(b, m);
      Frame(ram(e.dev), e.regs.sp, m.regs.(p := m.regs.p.(b := false)))
  {
    hide FlatRam, TwoDummies, PushState, FetchNmiVector, Frame;
    hide Valid, Phased, VectorsRead, Timely, AllLate, Exact, NeverSteals, LostIn, Taken, Stamped;
    var m1 := AckNmiOf(NoteEntry(m, 0xFFFA, m.lines.nmiClk));
    DummiesKeepRam(b, ram, m1);
    var m2 := SetBreak(TwoDummies(b, m1), false);
    PushStateLeavesFrame(b, ram, m2);
    FetchKeepsRam(b, ram, PushState(b, m2), 0xFFFA);
    FrameOf(ram(PushState(b, m2).dev), PushState(b, m2).regs.sp, m2.regs, m.regs.(p := m.regs.p.(b := false)));
  }

  lemma FrameOf(mem: Memory, sp: byte, r: Regs, r': Regs)
    requires r.pc == r'.pc && r.p == r'.p
    ensures Frame(mem, sp, r) == Frame(mem, sp, r')
  {
  }

  lemma IrqBrkLeavesFrame(b: Bus, ram: Device -> Memory, m: Machine)
    requires FlatRam(b, ram)
    ensures var e := IrqBrk(b, m);
      Frame(ram(e.dev), e.regs.sp, m.regs)
  {
    hide PushState, FetchNmiVector, FetchVector, Frame, Replay;
    hide Valid, Phased, VectorsRead, Timely, AllLate, Exact, NeverSteals, LostIn, Taken, Stamped;
    PushStateLeavesFrame(b, ram, m);
    var m1 := ProcessAlarms(b, PushState(b, m));
    var m2 := if NmiTakesOver(m1) then AckNmiOf(m1) else m1;
    FetchKeepsRam(b, ram, m2.(regs := m2.regs.(p := m2.regs.p.(i := true))), 0xFFFE);
  }

  lemma IrqLeavesFrame(b: Bus, ram: Device -> Memory, m: Machine)
    requires FlatRam(b, ram) && IrqDue(m)
    ensures var e := IrqEntry(b, m);
      Frame(ram(e.dev), e.regs.sp, m.regs.(p := m.regs.p.(b := false)))
  {
    hide FlatRam, TwoDummies, IrqBrk, Frame, IrqDue;
    hide Valid, Phased, VectorsRead, Timely, AllLate, Exact, NeverSteals, LostIn, Taken, Stamped;
    var m1 := AckIrqOf(NoteEntry(m, 0xFFFE, m.lines.irqClk));
    DummiesKeepRam(b, ram, m1);
    var m2 := SetBreak(TwoDummies(b, m1), false);
    IrqBrkLeavesFrame(b, ram, m2);
    FrameOf(ram(IrqBrk(b, m2).dev), IrqBrk(b, m2).regs.sp, m2.regs, m.regs.(p := m.regs.p.(b := false)));
  }

  // ---- RTI -----------------------------------------------------------------------------------

  lemma RtiReadsFrame(b: Bus, ram: Device -> Memory, h: Machine, r: Regs)
    requires FlatRam(b, ram) && Frame(ram(h.dev), h.regs.sp, r)
    ensures var m' := RtiInstr(b, h);
      m'.regs.pc == r.pc && m'.regs.p == r.p && m'.regs.sp == Wrap8(h.regs.sp + 3)
  {
    hide FlatRam, PullCycle, PeekCycle, Status, FromStatus, Sound, OneMore;
    hide Valid, Phased, VectorsRead, Timely, AllLate, Exact, NeverSteals, LostIn, Taken, Stamped;
    var m0 := PeekCycle(b, h);
    PeekKeepsRam(b, ram, h);
    PullIsRam(b, ram, m0);
    var (m1, p) := PullCycle(b, m0);
    StatusRoundTrip(r.p);
    var m1' := SetRegs(m1, m1.regs.(p := FromStatus(p)));
    PullIsRam(b, ram, m1');
    var (m2, lo) := PullCycle(b, m1');
    PullIsRam(b, ram, m2);
    var sp: int := h.regs.sp;
    WrapTwice(sp + 1, 1);
    WrapTwice(sp + 2, 1);
    hide Wrap8;
  }

  lemma EntryLeavesFrame(b: Bus, ram: Device -> Memory, m: Machine)
    requires FlatRam(b, ram)
    requires DoInterrupt(b, m).1 && !m.lines.global.reset
    ensures var e := DoInterrupt(b, m).0;
      && Frame(ram(e.dev), e.regs.sp, m.regs.(p := m.regs.p.(b := false)))
      && e.regs.sp == Wrap8(m.regs.sp - 3)
  {
    hide FlatRam, Frame, NmiEntry, IrqEntry, NmiDue, IrqDue;
    hide Valid, Phased, VectorsRead, Timely, AllLate, Exact, NeverSteals, LostIn, Taken, Stamped;
    if NmiDue(m) {
      NmiLeavesFrame(b, ram, m);
    } else {
      IrqLeavesFrame(b, ram, m);
    }
  }

  /** The handler left the three pushed bytes alone. */
  ghost predicate FrameKept(before: Memory, after: Memory, sp: byte) {
    && after(0x100 + Wrap8(sp + 1)) == before(0x100 + Wrap8(sp + 1))
    && after(0x100 + Wrap8(sp + 2)) == before(0x100 + Wrap8(sp + 2))
    && after(0x100 + Wrap8(sp + 3)) == before(0x100 + Wrap8(sp + 3))
  }

  /** The theorem: take an IRQ or an NMI (which may take an IRQ's vector over), run any handler
      that returns with the stack pointer and the three pushed bytes as the entry left them, and
      execute its RTI. */
  lemma InterruptIsInvisible(b: Bus, ram: Device -> Memory, m: Machine, h: Machine)
    requires FlatRam(b, ram)
    requires DoInterrupt(b, m).1 && !m.lines.global.reset
    requires var e := DoInterrupt(b, m).0;
      h.regs.sp == e.regs.sp && FrameKept(ram(e.dev), ram(h.dev), e.regs.sp)
    ensures var r := RtiInstr(b, h).regs;
      r.pc == m.regs.pc && r.sp == m.regs.sp && r.p == m.regs.p.(b := false)
  {
    hide FlatRam, DoInterrupt, RtiInstr, Status;
    var r := m.regs.(p := m.regs.p.(b := false));
    EntryLeavesFrame(b, ram, m);
    assert Frame(ram(h.dev), h.regs.sp, r);
    RtiReadsFrame(b, ram, h, r);
    var sp: int := m.regs.sp;
    assert Wrap8(Wrap8(sp - 3) + 3) == sp;
  }
}
