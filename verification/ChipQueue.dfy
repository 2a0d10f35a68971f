/**
 When the chips' queued line changes are replayed: every CPU cycle drains the queue, so that an interrupt
 entry, made of nothing but cycles, leaves it empty, and what the alarms add behind it can only raise a
 line. A prologue therefore never leaves the tail of a released IRQ behind.
 */
module ChipQueue {
  import opened Bytes
  import opened Interrupts
  import opened Machine
  import opened Instructions
  import opened Dispatch

  /** No line change is queued. */
  predicate Drained(b: Bus, d: Device) { b.drain(d) == (d, []) }

  predicate OnlyRaises(changes: seq<LineChange>) { forall c :: c in changes ==> c.nmi || c.level }

  /** The chips of a C64. An IRQ line is released by a register access or a reset of its chip, and by
      nothing else: a VIC tick queues no change, and alarms that start from an empty queue only raise. */
  ghost predicate Orderly(b: Bus) {
    && (forall d: Device :: Drained(b, b.drain(d).0))
    && (forall d: Device, clk: nat :: Drained(b, d) ==> Drained(b, b.vicCycle(d, clk)))
    && (forall d: Device, clk: nat :: Drained(b, d) ==> OnlyRaises(b.drain(b.alarms(d, clk)).1))
  }

  /** A reset dispatch that queues nothing: neither the reset hook, nor a stall, nor the two vector reads. */
  ghost predicate PassiveReset(b: Bus) {
    && (forall d: Device :: Drained(b, d) ==> Drained(b, b.cpuReset(d)))
    && (forall d: Device, i: OpInfo, low: bool :: Drained(b, d) ==> Drained(b, b.checkBa(d, i, low).0))
    && (forall d: Device, a: word :: Drained(b, d) && a in {0xFFFC, 0xFFFD} ==> Drained(b, b.read(d, Real, a).0))
  }

  // ---- Every cycle drains --------------------------------------------------------------------

  lemma CycleDrains(b: Bus, m: Machine)
    requires Orderly(b)
    ensures Drained(b, ClkInc(b, m).dev)
  {
    hide Steady, Advances, Drained, Report, AdoptDivider, BumpDelays;
    hide Valid, Timely, Exact, Taken, Succeeds;
  }

  lemma LoadCycleDrains(b: Bus, m: Machine, kind: Kind, a: word)
    requires Orderly(b)
    ensures Drained(b, LoadCycle(b, m, kind, a).0.dev)
  {
    hide Orderly, Drained, ClkInc, Load, Cycled, OneMore, OneAhead, Steady;
    CycleDrains(b, Load(b, m, kind, a).0);
  }

  lemma VectorDrains(b: Bus, m: Machine, vector: word)
    requires Orderly(b) && vector < 0xFFFF
    ensures Drained(b, FetchVector(b, m, vector).dev)
  {
    hide Orderly, Drained, LoadCycle, Cycled, OneMore;
    LoadCycleDrains(b, LoadCycle(b, m, Real, vector).0, Real, vector + 1);
  }

  lemma NmiVectorDrains(b: Bus, m: Machine)
    requires Orderly(b)
    ensures Drained(b, FetchNmiVector(b, m).dev)
  {
    hide Orderly, Drained, FetchVector, PaysOne, NextAccess;
    VectorDrains(b, m.(dev := b.nmiVectorFetch(m.dev)), 0xFFFA);
  }

  lemma IrqBrkDrains(b: Bus, m: Machine)
    requires Orderly(b)
    ensures Drained(b, IrqBrk(b, m).dev)
  {
    hide Orderly, Drained, FetchVector, FetchNmiVector, PushState, ProcessAlarms, Sound, PaysOne, NextAccess, Instant;
    var m1 := ProcessAlarms(b, PushState(b, m));
    var m2 := if NmiTakesOver(m1) then AckNmiOf(m1) else m1;
    var m3 := m2.(regs := m2.regs.(p := m2.regs.p.(i := true)));
    VectorDrains(b, m3, 0xFFFE);
    NmiVectorDrains(b, m3);
  }

  lemma NmiEntryDrains(b: Bus, m: Machine)
    requires Orderly(b) && NmiDue(m)
    ensures Drained(b, NmiEntry(b, m).dev)
  {
    hide Orderly, Drained, NoteEntry, TwoDummies, SetBreak, PushState, FetchNmiVector;
    hide Sound, Instant, PaysOne, Threshold;
    var m1 := AckNmiOf(NoteEntry(m, 0xFFFA, m.lines.nmiClk));
    NmiVectorDrains(b, PushState(b, SetBreak(TwoDummies(b, m1), false)));
  }

  lemma IrqEntryDrains(b: Bus, m: Machine)
    requires Orderly(b) && IrqDue(m)
    ensures Drained(b, IrqEntry(b, m).dev)
  {
    hide Orderly, Drained, NoteEntry, TwoDummies, SetBreak, IrqBrk;
    hide Sound, Instant, IrqGate, IrqRipe;
    var m1 := NoteEntry(m, 0xFFFE, m.lines.irqClk);
    IrqBrkDrains(b, SetBreak(TwoDummies(b, AckIrqOf(m1)), false));
  }

  /** The NMI and IRQ half of the dispatch: an entry drains, and anything else touches no chip. */
  lemma EnterDueDrains(b: Bus, m: Machine)
    requires Orderly(b) && Drained(b, m.dev)
    ensures Drained(b, EnterDue(b, m).0.dev)
  {
    hide Orderly, Drained, NmiEntry, IrqEntry, Sound, Instant, IrqRipe;
    if NmiDue(m) {
      NmiEntryDrains(b, m);
    } else if IrqDue(m) {
      IrqEntryDrains(b, m);
    }
  }

  // ---- A passive reset keeps the queue empty -------------------------------------------------

  lemma WaitKeepsDrained(b: Bus, m: Machine, a: word)
    requires Orderly(b) && Drained(b, m.dev)
    ensures Drained(b, AccessWait(b, m, a, false).dev)
  {
    hide Orderly, Drained, Idle, Cycled, Idled;
    IdleKeepsDrained(b, m, WaitFor(b, m, a, false));
    hide WaitFor;
  }

  lemma {:induction false} IdleKeepsDrained(b: Bus, m: Machine, n: nat)
    requires Orderly(b) && Drained(b, m.dev)
    ensures Drained(b, Idle(b, m, n).dev)
    decreases n
  {
    hide Orderly, Drained, ClkInc, Idled, Steady;
    if n > 0 {
      CycleDrains(b, Idle(b, m, n - 1));
    }
  }

  lemma ResetReadKeepsDrained(b: Bus, m: Machine, a: word)
    requires Orderly(b) && PassiveReset(b) && Drained(b, m.dev) && a in {0xFFFC, 0xFFFD}
    ensures Drained(b, ResetRead(b, m, a).0.dev)
  {
    hide Orderly, Drained, AccessWait, Cycled;
    WaitKeepsDrained(b, m, a);
  }

  lemma ResetKeepsDrained(b: Bus, m: Machine)
    requires Orderly(b) && PassiveReset(b) && Drained(b, m.dev)
    ensures Drained(b, ResetEntry(b, m).dev)
  {
    hide Orderly, Drained, ResetRead, Cycled, Sound, Instant;
    var m1 := DropReset(b, m);
    ResetReadKeepsDrained(b, m1, 0xFFFC);
    ResetReadKeepsDrained(b, ResetRead(b, m1, 0xFFFC).0, 0xFFFD);
  }

  lemma DispatchDrains(b: Bus, m: Machine)
    requires Orderly(b) && Drained(b, m.dev) && (m.lines.global.reset ==> PassiveReset(b))
    ensures Drained(b, DoInterrupt(b, m).0.dev)
  {
    EnterDueDrains(b, m);
    var m1 := EnterDue(b, m).0;
    assert m1.lines.global.reset ==> m.lines.global.reset;
    hide Orderly, PassiveReset, Drained, EnterDue, ResetEntry, Sound;
    if m.lines.global.reset {
      ResetKeepsDrained(b, m1);
    }
  }

  // ---- No tail is left behind ----------------------------------------------------------------

  lemma {:induction false} RaisesLeaveNoTail(s: IntState, changes: seq<LineChange>)
    requires !Dangling(s) && OnlyRaises(changes)
    ensures !Dangling(Replay(s, changes))
    decreases |changes|
  {
    if changes != [] {
      assert changes[0] in changes;
      RaisesLeaveNoTail(Apply(s, changes[0]), changes[1..]);
    }
  }

  /** From an empty queue the alarms leave no tail where there was none. */
  lemma AlarmsLeaveNoTail(b: Bus, m: Machine)
    requires Orderly(b) && Drained(b, m.dev) && !Dangling(m.lines)
    ensures !Dangling(ProcessAlarms(b, m).lines)
  {
    hide Drained, OnlyRaises, Replay, Sound;
    RaisesLeaveNoTail(m.lines, b.drain(b.alarms(m.dev, m.time.clk)).1);
  }

  lemma BoundaryDrains(b: Bus, m: Machine)
    requires Orderly(b)
    ensures Drained(b, Boundary(b, m).dev)
    ensures Boundary(b, m).lines.global.reset ==> m.lines.global.reset
  {
    hide Drained, Report, Dangling, DropRequests, AckIrq, Instant, Steady;
  }

  /** On a bus with orderly chips no prologue leaves a tail dangling, whatever is queued before it. */
  lemma PrologueNeverDangles(b: Bus, m: Machine)
    requires Orderly(b) && (m.lines.global.reset ==> PassiveReset(b))
    ensures !Dangling(Prologue(b, m).0.lines)
  {
    BoundaryDrains(b, m);
    var m1 := Boundary(b, m);
    if m1.lines.global != NONE {
      DispatchDrains(b, m1);
      var m2 := DoInterrupt(b, m1).0;
      hide Orderly, PassiveReset, Drained, Boundary, DoInterrupt, ProcessAlarms, Sound, Instant;
      AlarmsLeaveNoTail(b, ClearTail(m2));
    }
  }
}
