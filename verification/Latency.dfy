/**
 The exact interrupt latency at 1 MHz: while nothing is stolen and every line change is reported by
 the clock it is stamped with, the delay counters of every run are the clocks since their edge, and an
 interrupt is entered at the first boundary from two clocks after its edge on, and not before.
 */
module Latency {
  import opened Interrupts
  import opened Machine
  import opened Instructions
  import opened Dispatch
  import opened WholeRuns

  /** One cycle whose changes are not stamped in the past keeps the counters exact; an edge may be
      stamped ahead of the clock, as a CIA stamps an interrupt it raises in the next cycle. */
  lemma CycleExact(b: Bus, m: Machine)
    requires OneMHz(m.time) && Exact(m.lines, m.time.clk)
    requires Past(b.drain(b.delayAlarms(m.dev, m.time.clk)).1, m.time.clk) == 0
    ensures var r := ClkInc(b, m);
      OneMHz(r.time) && r.time.clk == m.time.clk + 1 && Exact(r.lines, r.time.clk)
  {
    hide Valid, Spaced, VectorsRead, Stamped, Timely, AllLate, Exact, NeverSteals, LostIn, Taken, Report;
    var dev := b.delayAlarms(m.dev, m.time.clk);
    var (d, changes) := b.drain(dev);
    PastOfSampled(b, d, changes, m.time.clk);
  }

  /** What a cycle samples itself is never late. */
  lemma PastOfSampled(b: Bus, d: Device, changes: seq<LineChange>, clk: nat)
    ensures Past(changes + Sampled(b, d, clk), clk) == Past(changes, clk)
  {
    PastConcat(changes, Sampled(b, d, clk), clk);
    PastNone(Sampled(b, d, clk), clk);
  }

  lemma {:induction false} PastConcat(xs: seq<LineChange>, ys: seq<LineChange>, clk: nat)
    ensures Past(xs + ys, clk) == Past(xs, clk) + Past(ys, clk)
    decreases |xs|
  {
    if xs == [] {
      assert xs + ys == ys;
    } else {
      PastConcat(xs[1..], ys, clk);
      assert (xs + ys)[1..] == xs[1..] + ys;
    }
  }

  lemma {:induction false} PastNone(xs: seq<LineChange>, clk: nat)
    ensures Past(xs, clk) == 0 <==> forall i :: 0 <= i < |xs| ==> xs[i].clk >= clk
    decreases |xs|
  {
    if xs != [] {
      PastNone(xs[1..], clk);
      assert forall i :: 0 < i < |xs| ==> xs[i] == xs[1..][i - 1];
    }
  }

  /** Over every run at 1 MHz from power-on in which no cycle is stolen and no change reported late:
      `irq_delay_cycles` is `clk - irq_clk`, and `nmi_delay_cycles` is `clk - nmi_clk`. */
  lemma DelaysExact(b: Bus, dev: Device, as_: seq<Action>)
    requires Slow(as_) && Undisturbed(PowerOn(dev), RunAll(b, PowerOn(dev), as_))
    ensures var r := RunAll(b, PowerOn(dev), as_);
      && (r.lines.irqClk <= r.time.clk ==> r.lines.irqDelay == r.time.clk - r.lines.irqClk)
      && (r.lines.nmiClk <= r.time.clk ==> r.lines.nmiDelay == r.time.clk - r.lines.nmiClk)
      && (r.lines.irqClk > r.time.clk ==> r.lines.irqDelay == 0)
      && (r.lines.nmiClk > r.time.clk ==> r.lines.nmiDelay == 0)
  {
    PowerOnInv(dev);
    RunSlowly(b, PowerOn(dev), as_);
    hide RunAll, PowerOn;
  }

  /** With exact counters the gates open exactly two clocks after the edge, three after a taken
      same-page branch, and stay open. */
  lemma RipeExactly(m: Machine)
    requires OneMHz(m.time) && Exact(m.lines, m.time.clk)
    ensures IrqRipe(m) <==> m.lines.irqClk + INTERRUPT_DELAY + (if m.info.delays then 1 else 0) <= m.time.clk
    ensures NmiDue(m) <==>
            && m.lines.global.nmi && m.info.number != 0
            && m.lines.nmiClk + INTERRUPT_DELAY + (if m.info.delays then 1 else 0) <= m.time.clk
  {
  }

  /** With exact counters the dispatch enters an interrupt if and only if one is ripe by the clock. */
  lemma EnteredAt(b: Bus, m: Machine)
    requires OneMHz(m.time) && Exact(m.lines, m.time.clk)
    ensures DoInterrupt(b, m).1 <==> RipeByClock(m)
  {
    hide DoInterrupt, Kept, Exact, IrqGate;
    RipeExactly(m);
  }

  /** An NMI latched, or an IRQ let through, two clocks after its edge, three after a taken same-page
      branch; no NMI right after a BRK, no IRQ right after the opcode that enabled it. */
  predicate RipeByClock(m: Machine) {
    var late := if m.info.delays then 3 else 2;
    || (m.lines.global.nmi && m.info.number != 0 && m.lines.nmiClk + late <= m.time.clk)
    || (IrqGate(m) && !m.info.enables && m.lines.irqClk + late <= m.time.clk)
  }

  /** At the boundary of any such run an interrupt is entered if and only if one is ripe there by the
      clock: neither later than it could, nor earlier than the rule allows. */
  lemma EnteredExactly(b: Bus, dev: Device, as_: seq<Action>)
    requires Slow(as_) && Undisturbed(PowerOn(dev), Boundary(b, RunAll(b, PowerOn(dev), as_)))
    ensures var m := Boundary(b, RunAll(b, PowerOn(dev), as_));
      DoInterrupt(b, m).1 <==> RipeByClock(m)
  {
    PowerOnInv(dev);
    hide DoInterrupt, RipeByClock, RunAll, PowerOn, Boundary, Exact, AtOneMHz, Kept;
    RunSlowly(b, PowerOn(dev), as_);
    BoundaryExact(b, PowerOn(dev), RunAll(b, PowerOn(dev), as_));
    EnteredAt(b, Boundary(b, RunAll(b, PowerOn(dev), as_)));
  }

  /** The boundary work at the end of an exact run. */
  lemma BoundaryExact(b: Bus, m0: Machine, m: Machine)
    requires OneMHz(m.time) && SlowlyKept(m0, m) && Exact(m0.lines, m0.time.clk)
    requires Undisturbed(m0, Boundary(b, m))
    ensures OneMHz(Boundary(b, m).time) && Exact(Boundary(b, m).lines, Boundary(b, m).time.clk)
  {
    hide Boundary, Valid, Spaced, VectorsRead, Stamped, Timely, AllLate, Exact, NeverSteals, LostIn, Taken;
  }
}
