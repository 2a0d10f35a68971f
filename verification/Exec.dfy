/**
 The core as it runs: the registers, the clock, the interrupt status and the bus state are updated
 in place, cycle by cycle. Every method is proved to be the corresponding function of `Machine`,
 `Instructions` or `Dispatch` on the state before it.
 */
module Exec {
  import opened Bytes
  import opened Interrupts
  import opened IntStatusObject
  import M = Machine
  import opened Alu
  import I = Instructions
  import D = Dispatch
  import W = WholeRuns

  class Core {
    const bus: M.Bus
    const lines: IntStatus
    var regs: M.Regs
    var time: M.Timing
    var info: M.OpInfo
    var dev: M.Device
    var jammed: bool
    var entryPaused: bool
    var indAddr: word
    ghost var log: M.Log

    ghost function St(): M.Machine
      reads this, lines
    {
      M.Machine(regs, time, info, lines.Model(), dev, log, jammed, entryPaused, indAddr)
    }

    /** The line counters are right, and the machine is inside a PHI2 cycle of its divider. */
    ghost predicate Ready()
      reads this, lines
    {
      Valid(lines.Model()) && 0 < time.pendingDiv && time.phase < time.div
    }

    constructor (bus: M.Bus, lines: IntStatus, dev: M.Device)
      requires Valid(lines.Model())
      ensures this.bus == bus && this.lines == lines && Ready()
      ensures log.accesses == [] && time.clk == 6 && !entryPaused && !jammed
    {
      this.bus, this.lines, this.dev := bus, lines, dev;
      regs := M.Regs(0, 0, 0, 0, 0, M.Flags(false, false, false, false, false, false, false));
      time := M.Timing(6, 1, 0, 1, true);
      info := M.OpInfo(0, false, false, false);
      jammed, entryPaused, indAddr := false, false, 0;
      log := M.Log([], 0, 0, 0, 0, 0, 0, [], 0, [], [], []);
    }

    // ---- Cycles ------------------------------------------------------------------------------

    /** What a cycle samples itself: the VIC, the expansion port, the RESTORE key. */
    method SampleInputs()
      requires Ready()
      modifies lines
      ensures lines.Model() == Replay(old(lines.Model()), M.Sampled(bus, dev, time.clk))
    {
      hide Valid, Succeeds, Exact, Replay, M.Sampled, Interrupts.SetIrq, Interrupts.SetNmi, Timely, Past;
      var clk := time.clk;
      SampledUnfolds(bus, dev, clk, lines.Model());
      lines.SetIrq(SRC_VIC, bus.vicIrq(dev), clk);
      if bus.expansionActive(dev) {
        lines.SetIrq(SRC_EXPANSION, bus.expansionIrq(dev), clk);
        lines.SetNmi(SRC_EXPANSION, bus.expansionNmi(dev), clk);
      }
      if bus.restorePress(dev, clk) {
        lines.SetNmi(SRC_RESTORE, true, clk);
        lines.SetNmi(SRC_RESTORE, false, clk);
      }
    }

    /** The lines as one cycle sees them. */
    method SampleLines()
      requires Ready()
      modifies this, lines
      ensures Ready() && St() == M.SampleLines(bus, old(St()))
    {
      hide Valid, Succeeds, Exact, Replay, M.Sampled, Timely, Past;
      var r := bus.drain(dev);
      dev := r.0;
      ghost var tail := M.Sampled(bus, dev, time.clk);
      ghost var s0 := lines.Model();
      ReplayConcat(s0, r.1, tail);
      lines.ReplayAll(r.1);
      SampleInputs();
      lines.tally := lines.tally.(past := lines.tally.past + Past(r.1 + tail, time.clk));
      assert lines.Model() == Interrupts.Report(s0, r.1 + tail, time.clk);
    }

    /** Samples the lines and advances the delay counters: all of a CPU cycle that ends no PHI2
        cycle, and the middle of one that does. */
    method TurboInterruptCycle()
      requires Ready()
      modifies this, lines
      ensures Ready() && St() == M.SampleAndBump(bus, old(St()))
    {
      hide Valid, Succeeds, Exact, Timely, Interrupts.BumpDelays, M.SampleLines, Taken;
      SampleLines();
      lines.BumpDelays(time.clk);
    }

    /** A PHI2 edge begins: here, and nowhere else, the pending divider is adopted. */
    method AdoptDivider()
      requires Ready() && (time.div <= 1 || time.phase + 1 >= time.div)
      modifies this
      ensures Ready() && St() == M.AdoptDivider(bus, old(St()))
    {
      log := log.(cycles := log.cycles + 1, lost := 0,
                  edges := log.edges + [M.Edge(time.div, log.cycles + 1, log.lost)]);
      if time.div > 1 {
        time := time.(phase := 0);
        dev := bus.setTurboPhase(dev, 0, time.div);
      }
      time := time.(div := time.pendingDiv);
      dev := bus.delayAlarms(dev, time.clk);
    }

    /** The cycle that ends a PHI2 cycle. */
    method Phi2Edge()
      requires Ready() && (time.div <= 1 || time.phase + 1 >= time.div)
      modifies this, lines
      ensures Ready() && St() == M.EdgeCycle(bus, old(St()))
    {
      hide Valid, Succeeds, Exact, M.Steady, M.AdoptDivider, M.Phased, Timely, M.SampleAndBump, Taken;
      AdoptDivider();
      TurboInterruptCycle();
      time := time.(clk := time.clk + 1);
      dev := bus.vicCycle(dev, time.clk);
      log := log.(vic := log.vic + 1);
    }

    method ClkInc()
      requires Ready()
      modifies this, lines
      ensures Ready() && St() == M.ClkInc(bus, old(St()))
    {
      hide Valid, Succeeds, Exact, M.Steady, Timely, M.SampleAndBump, Taken, M.EdgeCycle;
      if time.div > 1 && time.phase + 1 < time.div {
        time := time.(phase := time.phase + 1);
        dev := bus.setTurboPhase(dev, time.phase, time.div);
        log := log.(cycles := log.cycles + 1);
        TurboInterruptCycle();
      } else {
        Phi2Edge();
      }
    }

    /** A cycle without an access. */
    method IdleCycle()
      requires Ready()
      modifies this, lines
      ensures Ready() && St() == M.IdleCycle(bus, old(St()))
    {
      hide M.ClkInc, M.Kept, M.Instant;
      ClkInc();
      log := log.(idle := log.idle + 1);
    }

    /** The turbo price of an access to `a`, paid in idle cycles before it. */
    method TurboAccessWait(a: word, write: bool)
      requires Ready()
      modifies this, lines
      ensures Ready() && St() == M.AccessWait(bus, old(St()), a, write)
    {
      hide M.IdleCycle, M.Kept, M.Instant, M.Idled, Valid, Succeeds, Exact, M.SameCore, M.Notice;
      var wait := 0;
      if time.div > 1 {
        var kind := bus.accessKind(dev, a);
        if kind == M.Sid || (kind == M.Fast && !write) {
          if bus.shortCycle(time.div, time.phase) {
            wait := 1;
          }
        } else if kind == M.BusCycle || kind == M.Io12 {
          var lead := M.Notice(kind, write, time.div);
          var first := if time.phase == 0 then 0 else time.div - time.phase;
          wait := first;
          while wait < lead
            invariant M.Stretch(wait, time.div, lead) == M.Stretch(first, time.div, lead)
            decreases if wait < lead then lead - wait else 0
          {
            wait := wait + time.div;
          }
        }
      }
      assert wait == M.WaitFor(bus, old(St()), a, write);
      for i := 0 to wait
        invariant Ready() && St() == M.Idle(bus, old(St()), i)
      {
        IdleCycle();
      }
      log := log.(waits := log.waits + wait);
    }

    /** The BA stall. */
    method CheckBa(low: bool)
      requires Ready()
      modifies this
      ensures Ready() && St() == M.CheckBa(bus, old(St()), low)
    {
      hide M.Kept, M.Instant, Valid, Succeeds, Exact;
      if !time.badline {
        return;
      }
      var r := bus.checkBa(dev, info, low);
      dev := r.0;
      info := info.(enables := info.enables || r.1);
      time := time.(clk := time.clk + r.2);
      log := log.(stolen := log.stolen + r.2);
    }

    // ---- Accesses ----------------------------------------------------------------------------

    method ReadRaw(kind: M.Kind, a: word) returns (v: byte)
      requires Ready()
      modifies this
      ensures Ready() && (St(), v) == M.ReadRaw(bus, old(St()), kind, a)
    {
      hide M.OneAhead, Valid, Succeeds, Exact;
      var r := bus.read(dev, kind, a);
      dev, v := r.0, r.1;
      log := log.(accesses := log.accesses + [M.Access(kind, a, v, log.cycles - log.idle)]);
    }

    method WriteRaw(kind: M.Kind, a: word, v: byte)
      requires Ready()
      modifies this
      ensures Ready() && St() == M.WriteRaw(bus, old(St()), kind, a, v)
    {
      hide M.OneAhead, Valid, Succeeds, Exact;
      dev := bus.write(dev, kind, a, v);
      log := log.(accesses := log.accesses + [M.Access(kind, a, v, log.cycles - log.idle)]);
    }

    method Load(kind: M.Kind, a: word) returns (v: byte)
      requires Ready()
      modifies this, lines
      ensures Ready() && (St(), v) == M.Load(bus, old(St()), kind, a)
    {
      hide M.OneAhead, M.Kept, M.Instant, M.ReadRaw, M.CheckBa, M.AccessWait, Valid, Succeeds, Exact;
      TurboAccessWait(a, false);
      CheckBa(false);
      v := ReadRaw(kind, a);
    }

    /** A load, and the cycle it takes. */
    method LoadCycle(kind: M.Kind, a: word) returns (v: byte)
      requires Ready()
      modifies this, lines
      ensures Ready() && (St(), v) == M.LoadCycle(bus, old(St()), kind, a)
    {
      hide M.OneAhead, M.Kept, M.Instant, M.SameCore, M.OneMore, M.Load, M.ClkInc, Valid, Succeeds, Exact;
      v := Load(kind, a);
      ClkInc();
    }

    method LoadBaLowCycle(kind: M.Kind, a: word)
      requires Ready()
      modifies this, lines
      ensures Ready() && St() == M.LoadBaLowCycle(bus, old(St()), kind, a)
    {
      hide M.OneAhead, M.Kept, M.Instant, M.SameCore, M.ReadRaw, M.CheckBa, M.AccessWait, M.ClkInc, Valid,
           Succeeds, Exact;
      TurboAccessWait(a, false);
      CheckBa(true);
      var _ := ReadRaw(kind, a);
      ClkInc();
    }

    method LoadPageCycle(kind: M.Kind, a: word) returns (v: byte)
      requires Ready()
      modifies this, lines
      ensures Ready() && (St(), v) == M.LoadPageCycle(bus, old(St()), kind, a)
    {
      hide M.OneAhead, M.Kept, M.Instant, M.SameCore, M.OneMore, M.ReadRaw, M.CheckBa, M.ClkInc, Valid,
           Succeeds, Exact;
      CheckBa(false);
      v := ReadRaw(kind, a);
      ClkInc();
    }

    method StoreCycle(kind: M.Kind, a: word, v: byte)
      requires Ready()
      modifies this, lines
      ensures Ready() && St() == M.StoreCycle(bus, old(St()), kind, a, v)
    {
      hide M.OneAhead, M.Kept, M.Instant, M.SameCore, M.OneMore, M.WriteRaw, M.AccessWait, M.ClkInc, Valid,
           Succeeds, Exact;
      TurboAccessWait(a, true);
      WriteRaw(kind, a, v);
      ClkInc();
    }

    method StorePageCycle(kind: M.Kind, a: word, v: byte)
      requires Ready()
      modifies this, lines
      ensures Ready() && St() == M.StorePageCycle(bus, old(St()), kind, a, v)
    {
      hide M.OneAhead, M.Kept, M.Instant, M.SameCore, M.OneMore, M.WriteRaw, M.ClkInc, Valid, Succeeds, Exact;
      WriteRaw(kind, a, v);
      ClkInc();
    }

    method PushCycle(v: byte)
      requires Ready()
      modifies this, lines
      ensures Ready() && St() == M.PushCycle(bus, old(St()), v)
    {
      hide M.Steady, M.Paired, M.OneMore, M.WriteRaw, M.ClkInc, Valid, Succeeds, Exact;
      WriteRaw(M.Write, 0x100 + regs.sp, v);
      regs := regs.(sp := Wrap8(regs.sp - 1));
      ClkInc();
    }

    method PullCycle() returns (v: byte)
      requires Ready()
      modifies this, lines
      ensures Ready() && (St(), v) == M.PullCycle(bus, old(St()))
    {
      hide M.Steady, M.Paired, M.OneMore, M.ReadRaw, M.CheckBa, M.ClkInc, Valid, Succeeds, Exact;
      regs := regs.(sp := Wrap8(regs.sp + 1));
      CheckBa(false);
      v := ReadRaw(M.Real, 0x100 + regs.sp);
      ClkInc();
    }

    method PeekCycle()
      requires Ready()
      modifies this, lines
      ensures Ready() && St() == M.PeekCycle(bus, old(St()))
    {
      hide M.Kept, M.Instant, M.SameCore, M.OneMore, M.LoadPageCycle, Valid, Succeeds, Exact;
      var _ := LoadPageCycle(M.Dummy, 0x100 + regs.sp);
    }

    // ---- Addressing modes --------------------------------------------------------------------

    method CrossRead(base: word, index: byte)
      requires Ready()
      modifies this, lines
      ensures Ready() && St() == I.CrossRead(bus, old(St()), base, index)
    {
      hide M.Kept, M.Instant, Valid, Succeeds, Exact, M.SameCore, M.LoadCycle;
      if Lo(base) + index > 0xFF {
        var _ := LoadCycle(M.Dummy, I.Uncarried(base, index));
      }
    }

    method AlwaysRead(base: word, index: byte)
      requires Ready()
      modifies this, lines
      ensures Ready() && St() == I.AlwaysRead(bus, old(St()), base, index)
    {
      hide M.Kept, M.Instant, Valid, Succeeds, Exact, M.SameCore, M.LoadCycle;
      var _ := LoadCycle(M.Dummy, I.Uncarried(base, index));
    }

    method GetIndexed(kind: M.Kind, base: word, index: byte) returns (v: byte)
      requires Ready()
      modifies this, lines
      ensures Ready() && (St(), v) == I.GetIndexed(bus, old(St()), kind, base, index)
    {
      hide M.Kept, M.Instant, Valid, Succeeds, Exact, M.SameCore, I.CrossRead, M.LoadCycle;
      CrossRead(base, index);
      v := LoadCycle(kind, I.Indexed(base, index));
    }

    method GetIndexedRmw(base: word, index: byte) returns (v: byte)
      requires Ready()
      modifies this, lines
      ensures Ready() && (St(), v) == I.GetIndexedRmw(bus, old(St()), base, index)
    {
      hide M.Kept, M.Instant, Valid, Succeeds, Exact, M.SameCore, I.AlwaysRead, M.LoadCycle;
      AlwaysRead(base, index);
      v := LoadCycle(M.Real, I.Indexed(base, index));
    }

    method SetIndexed(base: word, index: byte, v: byte)
      requires Ready()
      modifies this, lines
      ensures Ready() && St() == I.SetIndexed(bus, old(St()), base, index, v)
    {
      hide M.Kept, M.Instant, Valid, Succeeds, Exact, M.SameCore, I.AlwaysRead, M.StoreCycle;
      AlwaysRead(base, index);
      StoreCycle(M.Write, I.Indexed(base, index), v);
    }

    method GetZeroIndexed(kind: M.Kind, p1: byte, index: byte) returns (v: byte)
      requires Ready()
      modifies this, lines
      ensures Ready() && (St(), v) == I.GetZeroIndexed(bus, old(St()), kind, p1, index)
    {
      hide M.Kept, M.Instant, Valid, Succeeds, Exact, M.SameCore, M.LoadPageCycle;
      var _ := LoadPageCycle(M.Dummy, p1);
      v := LoadPageCycle(kind, Wrap8(p1 + index));
    }

    method SetZeroIndexed(p1: byte, index: byte, v: byte)
      requires Ready()
      modifies this, lines
      ensures Ready() && St() == I.SetZeroIndexed(bus, old(St()), p1, index, v)
    {
      hide M.Kept, M.Instant, Valid, Succeeds, Exact, M.SameCore, M.LoadPageCycle, M.StorePageCycle;
      var _ := LoadPageCycle(M.Dummy, p1);
      StorePageCycle(M.Write, Wrap8(p1 + index), v);
    }

    method ReadPointer(at: byte) returns (a: word)
      requires Ready()
      modifies this, lines
      ensures Ready() && (St(), a) == I.ReadPointer(bus, old(St()), at)
    {
      hide M.Kept, M.Instant, Valid, Succeeds, Exact, M.SameCore, M.LoadPageCycle;
      var lo := LoadPageCycle(M.Real, at);
      var hi := LoadPageCycle(M.Real, Wrap8(at + 1));
      a := MakeWord(hi, lo);
    }

    method PointerX(p1: byte) returns (a: word)
      requires Ready()
      modifies this, lines
      ensures Ready() && (St(), a) == I.PointerX(bus, old(St()), p1)
    {
      hide M.Steady, M.Paired, Valid, Succeeds, Exact, M.OneMore, I.ReadPointer, M.LoadPageCycle;
      var _ := LoadPageCycle(M.Dummy, p1);
      a := ReadPointer(Wrap8(p1 + regs.x));
    }

    method PointerY(p1: byte, always: bool) returns (a: word)
      requires Ready()
      modifies this, lines
      ensures Ready() && (St(), a) == I.PointerY(bus, old(St()), p1, always)
    {
      hide M.Steady, M.Paired, Valid, Succeeds, Exact, I.ReadPointer, I.AlwaysRead, I.CrossRead, I.Indexed;
      var base := ReadPointer(p1);
      a := I.Indexed(base, regs.y);
      if always {
        AlwaysRead(base, regs.y);
      } else {
        CrossRead(base, regs.y);
      }
    }

    method WriteBack(a: word, old_: byte, new_: byte)
      requires Ready()
      modifies this, lines
      ensures Ready() && St() == I.WriteBack(bus, old(St()), a, old_, new_)
    {
      hide M.Kept, M.Instant, Valid, Succeeds, Exact, M.SameCore, M.OneMore, M.StoreCycle;
      StoreCycle(M.DummyWrite, a, old_);
      StoreCycle(M.Write, a, new_);
    }

    method WriteBackPage(a: byte, old_: byte, new_: byte)
      requires Ready()
      modifies this, lines
      ensures Ready() && St() == I.WriteBackPage(bus, old(St()), a, old_, new_)
    {
      hide M.Kept, M.Instant, Valid, Succeeds, Exact, M.SameCore, M.OneMore, M.StorePageCycle;
      StorePageCycle(M.DummyWrite, a, old_);
      StorePageCycle(M.Write, a, new_);
    }

    method CallGet(gf: I.GetFn, p1: byte, p2: word) returns (v: byte)
      requires Ready()
      modifies this, lines
      ensures Ready() && (St(), v) == I.CallGet(bus, old(St()), gf, p1, p2)
    {
      hide M.Kept, M.Instant, Valid, Succeeds, Exact, M.SameCore, M.OneMore,
        M.LoadCycle, M.LoadPageCycle, I.GetIndexed, I.GetIndexedRmw, I.GetZeroIndexed, I.PointerX,
        I.PointerY;
      match gf {
        case Imm => v := p1;
        case Zero => v := LoadPageCycle(M.Real, p1);
        case ZeroX => v := GetZeroIndexed(M.Real, p1, regs.x);
        case ZeroY => v := GetZeroIndexed(M.Real, p1, regs.y);
        case Abs => v := LoadCycle(M.Real, p2);
        case AbsX => v := GetIndexed(M.Real, p2, regs.x);
        case AbsY => v := GetIndexed(M.Real, p2, regs.y);
        case AbsXRmw => v := GetIndexedRmw(p2, regs.x);
        case AbsYRmw => v := GetIndexedRmw(p2, regs.y);
        case IndX =>
          var a := PointerX(p1);
          v := LoadCycle(M.Real, a);
        case IndY =>
          var a := PointerY(p1, false);
          v := LoadCycle(M.Real, a);
        case IndYRmw =>
          var a := PointerY(p1, true);
          v := LoadCycle(M.Real, a);
          indAddr := a;
      }
    }

    method CallGetDummy(gf: I.GetFn, p1: byte, p2: word)
      requires Ready()
      modifies this, lines
      ensures Ready() && St() == I.CallGetDummy(bus, old(St()), gf, p1, p2)
    {
      hide M.Kept, M.Instant, Valid, Succeeds, Exact, M.SameCore, M.OneMore, M.LoadCycle, M.LoadPageCycle,
           I.GetIndexed, I.GetZeroIndexed;
      match gf {
        case Zero => var _ := LoadPageCycle(M.Dummy, p1);
        case ZeroX => var _ := GetZeroIndexed(M.Dummy, p1, regs.x);
        case Abs => var _ := LoadCycle(M.Dummy, p2);
        case AbsX => var _ := GetIndexed(M.Dummy, p2, regs.x);
        case _ =>
      }
    }

    method CallSet(sf: I.SetFn, p1: byte, p2: word, old_: byte, new_: byte)
      requires Ready()
      modifies this, lines
      ensures Ready() && St() == I.CallSet(bus, old(St()), sf, p1, p2, old_, new_)
    {
      hide M.Kept, M.Instant, Valid, Succeeds, Exact, M.SameCore, I.WriteBack, I.WriteBackPage;
      match sf {
        case SZeroRmw => WriteBackPage(p1, old_, new_);
        case SZeroXRmw => WriteBackPage(Wrap8(p1 + regs.x), old_, new_);
        case SAbsRmw => WriteBack(p2, old_, new_);
        case SAbsXRmw => WriteBack(I.Indexed(p2, regs.x), old_, new_);
        case SAbsYRmw => WriteBack(I.Indexed(p2, regs.y), old_, new_);
        case SIndRmw => WriteBack(indAddr, old_, new_);
        case _ =>
      }
    }

    method CallSetStore(sf: I.SetFn, p1: byte, p2: word, v: byte)
      requires Ready()
      modifies this, lines
      ensures Ready() && St() == I.CallSetStore(bus, old(St()), sf, p1, p2, v)
    {
      hide M.Kept, M.Instant, Valid, Succeeds, Exact, M.SameCore, M.OneMore, M.StoreCycle, M.StorePageCycle, I.SetIndexed, I.SetZeroIndexed,
        I.PointerX, I.PointerY;
      match sf {
        case SZero => StorePageCycle(M.Write, p1, v);
        case SZeroX => SetZeroIndexed(p1, regs.x, v);
        case SZeroY => SetZeroIndexed(p1, regs.y, v);
        case SAbs => StoreCycle(M.Write, p2, v);
        case SAbsX => SetIndexed(p2, regs.x, v);
        case SAbsY => SetIndexed(p2, regs.y, v);
        case SIndX =>
          var a := PointerX(p1);
          StoreCycle(M.Write, a, v);
        case SIndY =>
          var a := PointerY(p1, true);
          StoreCycle(M.Write, a, v);
        case _ =>
      }
    }

    method StoreUnstable(base: word, value: byte, index: byte)
      requires Ready()
      modifies this, lines
      ensures Ready() && St() == I.StoreUnstable(bus, old(St()), base, value, index)
    {
      hide M.Kept, M.Instant, Valid, Succeeds, Exact, M.SameCore, M.OneMore, M.StoreCycle;
      var masked := And(value, Wrap8(Hi(base) + 1));
      var stored := masked;
      if info.enables {
        info := info.(enables := false);
        stored := value;
      }
      var a := I.Indexed(base, index);
      if Lo(base) + index > 0xFF {
        a := MakeWord(masked, Lo(a));
      }
      StoreCycle(M.Write, a, stored);
    }

    // ---- Opcode bodies -----------------------------------------------------------------------

    method BranchInstr(cond: I.Condition, p1: byte)
      requires Ready()
      modifies this, lines
      ensures Ready() && St() == I.BranchInstr(bus, old(St()), cond, p1)
    {
      hide M.Kept, M.Instant, Valid, Succeeds, Exact, M.SameCore, M.OneMore, M.LoadCycle, M.Steady, M.Clocked,
           I.SignExtend, I.CondHolds;
      var taken := I.CondHolds(regs.p, cond);
      regs := I.IncPc(regs, 2);
      if taken {
        var pc := regs.pc;
        var dest := Wrap16(pc + I.SignExtend(p1));
        var _ := LoadCycle(M.Dummy, pc);
        if Hi(pc) != Hi(dest) {
          var _ := LoadCycle(M.Dummy, MakeWord(Hi(pc), Lo(dest)));
        } else {
          info := info.(delays := true);
        }
        regs := regs.(pc := dest);
      }
    }

    method JmpIndInstr(p2: word)
      requires Ready()
      modifies this, lines
      ensures Ready() && St() == I.JmpIndInstr(bus, old(St()), p2)
    {
      hide M.Kept, M.Instant, Valid, Succeeds, Exact, M.SameCore, M.OneMore, M.LoadCycle;
      var lo := LoadCycle(M.Real, p2);
      var hi := LoadCycle(M.Real, MakeWord(Hi(p2), Wrap8(Lo(p2) + 1)));
      regs := regs.(pc := MakeWord(hi, lo));
    }

    method JsrInstr(p1: byte)
      requires Ready()
      modifies this, lines
      ensures Ready() && St() == I.JsrInstr(bus, old(St()), p1)
    {
      hide M.Kept, M.Instant, Valid, Succeeds, Exact, M.SameCore, M.OneMore, M.PeekCycle, M.PushCycle, M.LoadCycle;
      PeekCycle();
      regs := I.IncPc(regs, 2);
      PushCycle(Hi(regs.pc));
      PushCycle(Lo(regs.pc));
      var hi := LoadCycle(M.Fetch, regs.pc);
      regs := regs.(pc := MakeWord(hi, p1));
    }

    method RtsInstr()
      requires Ready()
      modifies this, lines
      ensures Ready() && St() == I.RtsInstr(bus, old(St()))
    {
      hide M.Kept, M.Instant, Valid, Succeeds, Exact, M.SameCore, M.OneMore, M.PeekCycle, M.PullCycle, M.LoadCycle;
      PeekCycle();
      var lo := PullCycle();
      var hi := PullCycle();
      var _ := LoadCycle(M.Dummy, MakeWord(hi, lo));
      regs := regs.(pc := Wrap16(MakeWord(hi, lo) + 1));
    }

    method RtiInstr()
      requires Ready()
      modifies this, lines
      ensures Ready() && St() == I.RtiInstr(bus, old(St()))
    {
      hide M.Kept, M.Instant, Valid, Succeeds, Exact, M.SameCore, M.PeekCycle, M.PullCycle, M.FromStatus;
      PeekCycle();
      var p := PullCycle();
      regs := regs.(p := M.FromStatus(p));
      var lo := PullCycle();
      var hi := PullCycle();
      regs := regs.(pc := MakeWord(hi, lo));
    }

    method PlaInstr()
      requires Ready()
      modifies this, lines
      ensures Ready() && St() == I.PlaInstr(bus, old(St()))
    {
      hide M.Kept, M.Instant, Valid, Succeeds, Exact, M.SameCore, M.PeekCycle, M.PullCycle, LoadA;
      PeekCycle();
      var v := PullCycle();
      regs := I.IncPc(LoadA(regs, v), 1);
    }

    method PlpInstr()
      requires Ready()
      modifies this, lines
      ensures Ready() && St() == I.PlpInstr(bus, old(St()))
    {
      hide M.Kept, M.Instant, Valid, Succeeds, Exact, M.SameCore, M.PeekCycle, M.PullCycle, M.FromStatus;
      PeekCycle();
      var v := PullCycle();
      var p := M.FromStatus(v);
      if !p.i && regs.p.i {
        info := info.(enables := true);
      } else if p.i && !regs.p.i {
        info := info.(disables := true);
      }
      regs := I.IncPc(regs.(p := p), 1);
    }

    method CliInstr()
      requires Ready()
      modifies this, lines
      ensures Ready() && St() == I.CliInstr(old(St()))
    {
      hide M.Kept, M.Instant, Valid, Succeeds, Exact;
      if !info.enables {
        if regs.p.i {
          info := info.(enables := true);
        }
      } else {
        info := info.(enables := false);
      }
      regs := I.IncPc(regs.(p := regs.p.(i := false)), 1);
    }

    method LasInstr(p2: word)
      requires Ready()
      modifies this, lines
      ensures Ready() && St() == I.LasInstr(bus, old(St()), p2)
    {
      hide M.Kept, M.Instant, Valid, Succeeds, Exact, M.SameCore, I.GetIndexed, LoadA;
      var v := GetIndexed(M.Real, p2, regs.y);
      var w := And(regs.sp, v);
      regs := I.IncPc(LoadA(regs.(sp := w, x := w), w), 3);
    }

    method ShaIndYInstr(p1: byte)
      requires Ready()
      modifies this, lines
      ensures Ready() && St() == I.ShaIndYInstr(bus, old(St()), p1)
    {
      hide M.Steady, M.Paired, Valid, Succeeds, Exact, I.ReadPointer, M.LoadBaLowCycle, I.StoreUnstable,
           I.RegValue, I.Uncarried;
      var base := ReadPointer(p1);
      LoadBaLowCycle(M.Real, I.Uncarried(base, regs.y));
      StoreUnstable(base, I.RegValue(regs, I.AX), regs.y);
      regs := I.IncPc(regs, 2);
    }

    method ShAbsInstr(p2: word, value: byte, index: byte)
      requires Ready()
      modifies this, lines
      ensures Ready() && St() == I.ShAbsInstr(bus, old(St()), p2, value, index)
    {
      hide M.Kept, M.Instant, Valid, Succeeds, Exact, M.SameCore, M.LoadBaLowCycle, I.StoreUnstable, I.Uncarried;
      LoadBaLowCycle(M.Dummy, I.Uncarried(p2, index));
      StoreUnstable(p2, value, index);
      regs := I.IncPc(regs, 3);
    }

    // ---- Interrupt sequences -----------------------------------------------------------------

    method ProcessAlarms()
      requires Ready()
      modifies this, lines
      ensures Ready() && St() == I.ProcessAlarms(bus, old(St()))
    {
      hide M.Kept, M.Instant, Valid, Succeeds, Exact, Interrupts.Report, Timely;
      dev := bus.alarms(dev, time.clk);
      var r := bus.drain(dev);
      dev := r.0;
      lines.Report(r.1, time.clk);
    }

    method FetchVector(vector: word)
      requires Ready() && vector < 0xFFFF
      modifies this, lines
      ensures Ready() && St() == I.FetchVector(bus, old(St()), vector)
    {
      hide M.Kept, M.Instant, Valid, Succeeds, Exact, M.SameCore, M.OneMore, I.NextAccess, M.LoadCycle;
      var lo := LoadCycle(M.Real, vector);
      var hi := LoadCycle(M.Real, vector + 1);
      regs := regs.(pc := MakeWord(hi, lo));
    }

    method FetchNmiVector()
      requires Ready()
      modifies this, lines
      ensures Ready() && St() == I.FetchNmiVector(bus, old(St()))
    {
      hide M.Kept, M.Instant, M.Clocked, M.Paired, M.Owed, Valid, Succeeds, Exact, I.NextAccess, I.FetchVector,
           M.VectorsRead;
      ghost var at := |log.accesses|;
      dev := bus.nmiVectorFetch(dev);
      FetchVector(0xFFFA);
      log := log.(nmiVectors := log.nmiVectors + [at]);
    }

    method PushState()
      requires Ready()
      modifies this, lines
      ensures Ready() && St() == I.PushState(bus, old(St()))
    {
      hide M.Steady, M.Paired, Valid, Succeeds, Exact, M.PushCycle, M.Status;
      PushCycle(Hi(regs.pc));
      PushCycle(Lo(regs.pc));
      PushCycle(M.Status(regs.p));
    }

    method IrqBrk()
      requires Ready()
      modifies this, lines
      ensures Ready() && St() == I.IrqBrk(bus, old(St()))
    {
      hide M.Kept, M.Instant, M.SameCore, M.Clocked, M.Paired, M.Owed, I.NextAccess, I.PushState, I.ProcessAlarms,
        I.FetchVector, I.FetchNmiVector;
      PushState();
      ProcessAlarms();
      var due := if time.div > 1 then lines.nmiDelay >= INTERRUPT_DELAY
                 else lines.nmiClk + INTERRUPT_DELAY <= time.clk;
      if lines.global.nmi && due {
        lines.AckNmi();
        regs := regs.(p := regs.p.(i := true));
        FetchNmiVector();
      } else {
        regs := regs.(p := regs.p.(i := true));
        FetchVector(0xFFFE);
      }
    }

    method ReadInstr(op: ReadOp, gf: I.GetFn, n: nat, p1: byte, p2: word)
      requires Ready()
      modifies this, lines
      ensures Ready() && St() == I.ReadInstr(bus, old(St()), op, gf, n, p1, p2)
    {
      hide M.Kept, M.Instant, M.SameCore, Valid, Succeeds, Exact, I.CallGet, ReadOperation, I.IncPc;
      var v := CallGet(gf, p1, p2);
      regs := I.IncPc(ReadOperation(op, regs, v), n);
    }

    method RmwInstr(op: RmwOp, gf: I.GetFn, sf: I.SetFn, n: nat, p1: byte, p2: word)
      requires Ready()
      modifies this, lines
      ensures Ready() && St() == I.RmwInstr(bus, old(St()), op, gf, sf, n, p1, p2)
    {
      hide M.Kept, M.Instant, M.SameCore, Valid, Succeeds, Exact, I.CallGet, I.CallSet, RmwOperation, I.IncPc;
      var old_ := CallGet(gf, p1, p2);
      var (r, new_) := RmwOperation(op, regs, old_);
      regs := I.IncPc(r, n);
      CallSet(sf, p1, p2, old_, new_);
    }

    method AneInstr(p1: byte)
      requires Ready()
      modifies this
      ensures Ready() && St() == I.AneInstr(old(St()), p1)
    {
      hide M.Kept, M.Instant, Valid, Succeeds, Exact, And, Or, LoadA, I.IncPc;
      var magic := if info.enables then And(0xEE, I.ANE_MAGIC) else I.ANE_MAGIC;
      regs := I.IncPc(LoadA(regs, And(And(Or(regs.a, magic), regs.x), p1)), 2);
      info := M.OpInfo(0x80, false, false, false);
    }

    method LxaInstr(p1: byte)
      requires Ready()
      modifies this
      ensures Ready() && St() == I.LxaInstr(old(St()), p1)
    {
      hide M.Kept, M.Instant, Valid, Succeeds, Exact, And, Or, LoadA, I.IncPc;
      var v := And(Or(regs.a, I.LXA_MAGIC), p1);
      regs := I.IncPc(LoadA(regs, v).(x := v), 2);
      info := M.OpInfo(0x80, false, false, false);
    }

    method SeiInstr()
      requires Ready()
      modifies this
      ensures Ready() && St() == I.SeiInstr(old(St()))
    {
      hide M.Kept, M.Instant, Valid, Succeeds, Exact, I.IncPc;
      info := info.(disables := info.disables || !regs.p.i);
      regs := I.IncPc(regs.(p := regs.p.(i := true)), 1);
    }

    method BrkInstr()
      requires Ready()
      modifies this, lines
      ensures Ready() && St() == I.BrkInstr(bus, old(St()))
    {
      hide M.Kept, M.Instant, M.SameCore, Valid, Succeeds, Exact, I.IrqBrk, I.IncPc;
      regs := I.IncPc(regs, 2).(p := regs.p.(b := true));
      IrqBrk();
    }

    method ShsInstr(p2: word)
      requires Ready()
      modifies this, lines
      ensures Ready() && St() == I.ShsInstr(bus, old(St()), p2)
    {
      hide M.Kept, M.Instant, M.SameCore, Valid, Succeeds, Exact, I.ShAbsInstr, I.RegValue;
      ShAbsInstr(p2, I.RegValue(regs, I.AX), regs.y);
      regs := regs.(sp := I.RegValue(regs, I.AX));
    }

    method JamInstr()
      requires Ready()
      modifies this, lines
      ensures Ready() && St() == I.JamInstr(bus, old(St()))
    {
      hide M.Kept, M.Instant, M.Idled, M.SameCore, Valid, Succeeds, Exact, M.IdleCycle;
      jammed := true;
      IdleCycle();
      log := log.(jams := log.jams + 1);
    }

    /** The opcode switch, after decoding. */
    method Execute(i: I.Instr, p1: byte, p2: word)
      requires Ready()
      modifies this, lines
      ensures Ready() && St() == I.Execute(bus, old(St()), i, p1, p2)
    {
      hide M.Kept, M.Instant, M.SameCore, Valid, Succeeds, Exact, I.CallGetDummy, I.CallSetStore, I.ReadInstr, I.RmwInstr, I.BranchInstr,
        I.AneInstr, I.LxaInstr, I.CliInstr, I.SeiInstr, I.JmpIndInstr, I.JsrInstr, I.RtsInstr, I.RtiInstr,
        I.BrkInstr, I.PlaInstr, I.PlpInstr, I.LasInstr, I.ShaIndYInstr, I.ShAbsInstr, I.ShsInstr, I.JamInstr,
        M.PushCycle, M.Status, ImpliedOperation, ImmediateOperation, I.RegValue, I.IncPc;
      match i {
        case Read(op, gf, n) => ReadInstr(op, gf, n, p1, p2);
        case Noop(gf, n) =>
          CallGetDummy(gf, p1, p2);
          regs := I.IncPc(regs, n);
        case Rmw(op, gf, sf, n) => RmwInstr(op, gf, sf, n, p1, p2);
        case StoreReg(reg, sf, n) =>
          var v := I.RegValue(regs, reg);
          regs := I.IncPc(regs, n);
          CallSetStore(sf, p1, p2, v);
        case Implied(op) => regs := I.IncPc(ImpliedOperation(op, regs), 1);
        case Immediate(op) => regs := I.IncPc(ImmediateOperation(op, regs, p1), 2);
        case Las => LasInstr(p2);
        case ShaIndY => ShaIndYInstr(p1);
        case ShAbs(reg, index) => ShAbsInstr(p2, I.RegValue(regs, reg), I.RegValue(regs, index));
        case ShsAbsY => ShsInstr(p2);
        case Ane => AneInstr(p1);
        case Lxa => LxaInstr(p1);
        case _ => ExecuteControl(i, p1, p2);
      }
    }

    /** The part of the switch with the opcodes that steer: flow, stack and interrupt mask. */
    method ExecuteControl(i: I.Instr, p1: byte, p2: word)
      requires Ready()
      requires !i.Read? && !i.Noop? && !i.Rmw? && !i.StoreReg? && !i.Implied? && !i.Immediate?
      requires !i.Las? && !i.ShaIndY? && !i.ShAbs? && !i.ShsAbsY? && !i.Ane? && !i.Lxa?
      modifies this, lines
      ensures Ready() && St() == I.Execute(bus, old(St()), i, p1, p2)
    {
      hide M.Kept, M.Instant, M.SameCore, Valid, Succeeds, Exact, I.CallGetDummy, I.CallSetStore, I.ReadInstr, I.RmwInstr, I.BranchInstr,
        I.AneInstr, I.LxaInstr, I.CliInstr, I.SeiInstr, I.JmpIndInstr, I.JsrInstr, I.RtsInstr, I.RtiInstr,
        I.BrkInstr, I.PlaInstr, I.PlpInstr, I.LasInstr, I.ShaIndYInstr, I.ShAbsInstr, I.ShsInstr, I.JamInstr,
        M.PushCycle, M.Status, ImpliedOperation, ImmediateOperation, I.RegValue, I.IncPc;
      match i {
        case Branch(cond) => BranchInstr(cond, p1);
        case Cli => CliInstr();
        case Sei => SeiInstr();
        case Jmp => regs := regs.(pc := p2);
        case JmpInd => JmpIndInstr(p2);
        case Jsr => JsrInstr(p1);
        case Rts => RtsInstr();
        case Rti => RtiInstr();
        case Brk => BrkInstr();
        case Pha =>
          PushCycle(regs.a);
          regs := I.IncPc(regs, 1);
        case Php =>
          PushCycle(M.Status(regs.p.(b := true)));
          regs := I.IncPc(regs, 1);
        case Pla => PlaInstr();
        case Plp => PlpInstr();
        case Jam => JamInstr();
      }
    }

    method TwoDummies()
      requires Ready()
      modifies this, lines
      ensures Ready() && St() == D.TwoDummies(bus, old(St()))
    {
      hide M.Steady, M.Paired, Valid, Succeeds, Exact, M.OneMore, M.LoadCycle;
      var _ := LoadCycle(M.Dummy, regs.pc);
      var _ := LoadCycle(M.Dummy, regs.pc);
    }

    method AcceptNmi()
      requires Ready() && D.NmiDue(St())
      modifies this`log, lines
      ensures Ready() && St() == I.AckNmiOf(D.NoteEntry(old(St()), 0xFFFA, old(lines.nmiClk)))
    {
      hide M.Kept, M.Instant, Taken, Succeeds, Exact;
      log := log.(entries := log.entries + [M.Entry(0xFFFA, time.clk, lines.nmiClk, info)]);
      lines.AckNmi();
    }

    method NmiEntry()
      requires Ready() && D.NmiDue(St())
      modifies this, lines
      ensures Ready() && St() == D.NmiEntry(bus, old(St()))
    {
      hide M.Kept, M.Instant, M.SameCore, M.Owed, D.TwoDummies, I.PushState, I.FetchNmiVector, I.PaysOne,
        D.NoteEntry, I.AckNmiOf, Valid, Succeeds, Exact, Taken;
      AcceptNmi();
      TwoDummies();
      regs := regs.(p := regs.p.(b := false));
      PushState();
      FetchNmiVector();
      regs := regs.(p := regs.p.(i := true));
      info := M.OpInfo(0, false, false, false);
    }

    method IrqEntry()
      requires Ready() && D.IrqDue(St())
      modifies this, lines
      ensures Ready() && St() == D.IrqEntry(bus, old(St()))
    {
      hide M.Kept, M.Instant, M.SameCore, D.TwoDummies, I.IrqBrk;
      log := log.(entries := log.entries + [M.Entry(0xFFFE, time.clk, lines.irqClk, info)]);
      lines.AckIrq();
      TwoDummies();
      regs := regs.(p := regs.p.(b := false));
      IrqBrk();
      info := M.OpInfo(0, false, false, false);
    }

    method ResetRead(a: word) returns (v: byte)
      requires Ready()
      modifies this, lines
      ensures Ready() && (St(), v) == D.ResetRead(bus, old(St()), a)
    {
      hide M.Kept, M.Instant, M.SameCore, M.AccessWait, M.CheckBa, Valid, Succeeds, Exact;
      TurboAccessWait(a, false);
      CheckBa(false);
      var r := bus.read(dev, M.Real, a);
      dev, v := r.0, r.1;
      log := log.(resets := log.resets + [M.Access(M.Real, a, v, log.cycles)]);
    }

    method ResetEntry()
      requires Ready()
      modifies this, lines
      ensures Ready() && St() == D.ResetEntry(bus, old(St()))
    {
      hide M.Kept, M.Instant, M.SameCore, D.ResetRead, MakeWord;
      lines.AckReset();
      dev := bus.cpuReset(dev);
      var lo := ResetRead(0xFFFC);
      var hi := ResetRead(0xFFFD);
      regs := regs.(p := regs.p.(i := true), pc := MakeWord(hi, lo));
      jammed := false;
    }

    method EnterDue() returns (entered: bool)
      requires Ready()
      modifies this, lines
      ensures Ready() && (St(), entered) == D.EnterDue(bus, old(St()))
    {
      hide M.Kept, M.Instant, M.SameCore, D.NmiEntry, D.IrqEntry, D.Threshold, D.TurboIrqSync, Valid, Succeeds,
           Exact, D.Serviced;
      var ik := lines.global;
      entered := false;
      var threshold := D.Threshold(info);
      if ik.nmi && info.number != 0x00 && threshold <= lines.nmiDelay {
        NmiEntry();
        entered := true;
      } else if (ik.irq || ik.irqPend) && (!regs.p.i || info.disables)
             && threshold + D.TurboIrqSync(time.div) <= lines.irqDelay {
        if !info.enables {
          IrqEntry();
          entered := true;
        } else {
          HoldIrq();
        }
      }
    }

    method HoldIrq()
      requires Ready() && D.IrqGate(St())
      modifies lines
      ensures Ready() && St() == D.HoldIrq(old(St()))
    {
      hide M.Kept, M.Instant, M.SameCore;
      lines.global := lines.global.(irqPend := true);
    }

    method DoInterrupt() returns (entered: bool)
      requires Ready()
      modifies this, lines
      ensures Ready() && (St(), entered) == D.DoInterrupt(bus, old(St()))
    {
      hide M.Kept, M.Instant, M.SameCore, D.EnterDue, D.ResetEntry, Valid, Succeeds, Exact, D.Serviced,
           D.NmiDue, D.IrqDue;
      var ik := lines.global;
      entered := EnterDue();
      if ik.reset || (ik.trap && lines.global.reset) {
        ResetEntry();
      }
    }

    method Boundary()
      requires Ready()
      modifies this, lines
      ensures Ready() && St() == D.Boundary(bus, old(St()))
    {
      hide M.Kept, M.Instant, M.SameCore, I.ProcessAlarms;
      ProcessAlarms();
      if jammed {
        var reset := lines.global.reset;
        lines.DropRequests();
        if reset {
          jammed := false;
        }
      }
      if !lines.global.irq && lines.global.irqPend && lines.irqPendingClk <= time.clk {
        lines.AckIrq();
      }
    }

    method Prologue() returns (entered: bool)
      requires Ready()
      modifies this, lines
      ensures Ready() && (St(), entered) == D.Prologue(bus, old(St()))
    {
      hide M.Kept, M.Instant, D.Boundary, D.DoInterrupt, I.ProcessAlarms;
      Boundary();
      entered := false;
      if lines.global != NONE {
        entered := DoInterrupt();
        if !lines.global.irq && lines.global.irqPend {
          lines.global := lines.global.(irqPend := false);
        }
        ProcessAlarms();
      }
    }

    method FetchOpcode() returns (op: byte, p1: byte, p2: word)
      requires Ready()
      modifies this, lines
      ensures Ready() && (St(), op, p1, p2) == D.FetchOpcode(bus, old(St()))
    {
      hide M.Kept, M.Instant, M.SameCore, M.OneMore, M.OneAhead, M.Load, M.ClkInc, M.LoadCycle, Valid, Succeeds,
           Exact, I.ThreeBytes, MakeWord;
      var pc: int := regs.pc;
      op := Load(M.Fetch, pc);
      info := M.OpInfo(op, false, false, false);
      ClkInc();
      p1 := LoadCycle(M.Fetch, Wrap16(pc + 1));
      p2 := p1;
      if I.ThreeBytes(op) {
        var hi := LoadCycle(M.Fetch, Wrap16(pc + 2));
        p2 := MakeWord(hi, p1);
      }
    }

    method FetchAndExecute()
      requires Ready()
      modifies this, lines
      ensures Ready() && St() == D.FetchAndExecute(bus, old(St()))
    {
      hide M.Kept, M.Instant, Valid, Succeeds, Exact, D.FetchOpcode, I.Execute, I.Decode;
      indAddr := 0;
      var op, p1, p2 := FetchOpcode();
      Execute(I.Decode(op), p1, p2);
    }

    /** `c64_6510core_execute`: one instruction, or one stop on the way to it. */
    method Run(g: D.Gates)
      requires Ready()
      modifies this, lines
      ensures Ready() && St() == D.Run(bus, old(St()), g)
    {
      hide M.Kept, M.Sound, M.Instant, Valid, Succeeds, Exact, D.Prologue, D.FetchAndExecute, D.JamAt, D.JamsOf;
      if g.prologueOnly && entryPaused {
        return;
      }
      var resumed := entryPaused;
      entryPaused := false;
      if !resumed {
        var entered := Prologue();
        if entered && (g.entryStop || g.stopAt(dev, regs.pc)) {
          entryPaused := true;
          return;
        }
      }
      if g.prologueOnly {
        return;
      }
      FetchAndExecute();
    }

    // ---- The host's loop ---------------------------------------------------------------------

    /** `sync_turbo_from_vic`: the speed registers as the VIC holds them, and whether they were written. */
    method SyncTurbo(div: nat, stalls: bool, restart: bool)
      requires Ready() && 0 < div
      modifies this
      ensures Ready() && St() == W.Act(bus, old(St()), W.Speed(div, stalls, restart))
      ensures time.div == old(time.div) && time.phase == (if restart then 0 else old(time.phase))
      ensures M.Lost(St()) == old(M.Lost(St())) + (old(time.phase) - time.phase)
    {
      if restart {
        log := log.(lost := log.lost + time.phase);
        time := time.(phase := 0);
      }
      time := time.(pendingDiv := div, badline := stalls);
    }

    method Perform(a: W.Action)
      requires Ready() && W.Legal(a)
      modifies this, lines
      ensures Ready() && St() == W.Act(bus, old(St()), a)
    {
      hide M.Kept, M.Instant, D.Run, Interrupts.Report, Valid, Succeeds, Exact, Timely;
      match a {
        case Call(g) => Run(g);
        case Lines(changes) => lines.Report(changes, time.clk);
        case Speed(div, stalls, restart) => SyncTurbo(div, stalls, restart);
        case Touch(d) => dev := d;
      }
    }

    /** Any run, one action after the other: at its end every NMI ever latched is fetched, pending or
        dropped by a jam, and every cycle is an access, a wait or a JAM. */
    method RunAll(actions: seq<W.Action>)
      requires W.Inv(St()) && W.AllLegal(actions)
      modifies this, lines
      ensures W.Inv(St()) && St() == W.RunAll(bus, old(St()), actions)
      ensures lines.tally.latched
                == |log.nmiVectors| + (if lines.global.nmi then 1 else 0) + lines.tally.dropped
      ensures |log.accesses| + log.waits + log.jams == log.cycles
    {
      hide M.Kept, M.Instant, W.Inv, Valid, Succeeds, W.Act;
      ghost var m0 := St();
      assert actions[..0] == [];
      for i := 0 to |actions|
        invariant W.Inv(St()) && St() == W.RunAll(bus, m0, actions[..i])
      {
        var a := actions[i];
        InvIsReady();
        Perform(a);
        W.RunAllOneMore(bus, m0, actions[..i], a);
        assert actions[..i + 1] == actions[..i] + [a];
        assert W.AllLegal(actions[..i + 1]);
        W.RunAllKeepsInv(bus, m0, actions[..i + 1]);
      }
      assert actions[..|actions|] == actions;
      W.NmiConserved(bus, m0, actions);
      W.OneAccessPerCycle(bus, m0, actions);
    }

    lemma InvIsReady()
      requires W.Inv(St())
      ensures Ready()
    {
    }
  }

  /** The sampled changes, one call after the other. */
  lemma SampledUnfolds(bus: M.Bus, dev: M.Device, clk: nat, s: IntState)
    ensures Replay(s, M.Sampled(bus, dev, clk)) ==
      var s1 := SetIrq(s, SRC_VIC, bus.vicIrq(dev), clk);
      var s2 := if bus.expansionActive(dev)
        then SetNmi(SetIrq(s1, SRC_EXPANSION, bus.expansionIrq(dev), clk), SRC_EXPANSION, bus.expansionNmi(dev), clk)
        else s1;
      if bus.restorePress(dev, clk)
      then SetNmi(SetNmi(s2, SRC_RESTORE, true, clk), SRC_RESTORE, false, clk)
      else s2
  {
    hide SetIrq, SetNmi, Valid, Succeeds, Exact;
    var a := [LineChange(false, SRC_VIC, bus.vicIrq(dev), clk)];
    var b := if bus.expansionActive(dev)
      then [LineChange(false, SRC_EXPANSION, bus.expansionIrq(dev), clk),
            LineChange(true, SRC_EXPANSION, bus.expansionNmi(dev), clk)]
      else [];
    var c := if bus.restorePress(dev, clk)
      then [LineChange(true, SRC_RESTORE, true, clk), LineChange(true, SRC_RESTORE, false, clk)]
      else [];
    ReplayConcat(s, a + b, c);
    ReplayConcat(s, a, b);
    ReplayShort(s, a);
    ReplayShort(Replay(s, a), b);
    ReplayShort(Replay(s, a + b), c);
  }

  lemma ReplayShort(s: IntState, xs: seq<LineChange>)
    requires |xs| <= 2
    ensures Replay(s, xs) == if xs == [] then s else if |xs| == 1 then Apply(s, xs[0])
                             else Apply(Apply(s, xs[0]), xs[1])
  {
    hide Apply, Valid, Succeeds, Exact;
    if |xs| == 2 {
      assert xs[1..][1..] == [];
      assert Replay(s, xs) == Replay(Apply(s, xs[0]), xs[1..]);
    } else if |xs| == 1 {
      assert xs[1..] == [];
    }
  }
}
