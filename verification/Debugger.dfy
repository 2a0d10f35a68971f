/**
 Debugger stops are transparent: a run that is stopped after interrupt entries and split at prologues,
 any number of times and in any order, is the unstopped run; a repeated prologue never lets a second
 interrupt in, and changes nothing exactly when no tail of a released IRQ is left dangling.
 */
module Debugger {
  import opened Bytes
  import opened Interrupts
  import opened Machine
  import opened Instructions
  import opened Dispatch
  import opened ChipQueue
  import opened WholeRuns

  // ---- Stops after an entry ------------------------------------------------------------------

  function Unstopped(b: Bus, m: Machine, n: nat): Machine
    decreases n
  {
    hide Run, JamsOf;
    if n == 0 then m else Unstopped(b, Run(b, m, NoGates()), n - 1)
  }

  lemma {:induction false} UnstoppedOneMore(b: Bus, m: Machine, n: nat)
    ensures Unstopped(b, m, n + 1) == Run(b, Unstopped(b, m, n), NoGates())
    decreases n
  {
    hide Run, Kept, JamsOf;
    if n > 0 {
      UnstoppedOneMore(b, Run(b, m, NoGates()), n - 1);
    }
  }

  /** Calls of the core under a debugger: after every call, the next one resumes. */
  function Calls(b: Bus, m: Machine, gs: seq<Gates>): Machine {
    if gs == [] then m else Run(b, Calls(b, m, gs[..|gs| - 1]), gs[|gs| - 1])
  }

  predicate Fetches(b: Bus, m: Machine, g: Gates) { UpToFetch(b, m, g).1 }

  /** The instructions those calls executed: a call that stops before its fetch executes none. */
  function Finished(b: Bus, m: Machine, gs: seq<Gates>): nat {
    if gs == [] then 0
    else
      var rest := gs[..|gs| - 1];
      Finished(b, m, rest) + (if Fetches(b, Calls(b, m, rest), gs[|gs| - 1]) then 1 else 0)
  }

  predicate WholeSteps(gs: seq<Gates>) { forall i :: 0 <= i < |gs| ==> !gs[i].prologueOnly }

  lemma PrologueKeepsGate(b: Bus, m: Machine)
    ensures Prologue(b, m).0.entryPaused == m.entryPaused
  {
    hide Prologue, Rested, Paired, Owed, Valid, Exact, Timely;
  }

  lemma FetchKeepsGate(b: Bus, m: Machine)
    ensures FetchAndExecute(b, m).entryPaused == m.entryPaused
  {
    hide FetchAndExecute, JamAt, Rested, Paired, Owed, Valid, Exact, Timely;
  }

  /** One call: it either does what the unstopped call does, or stops where resuming does it. */
  lemma StopAndResume(b: Bus, m: Machine, g: Gates, g': Gates)
    requires !m.entryPaused && !g.prologueOnly && !g'.prologueOnly
    ensures var r := Run(b, m, g);
      && !Run(b, m, NoGates()).entryPaused
      && (Fetches(b, m, g) <==> !r.entryPaused)
      && (if r.entryPaused then Run(b, r, g') else r) == Run(b, m, NoGates())
  {
    hide Prologue, FetchAndExecute, JamAt, Kept;
    var m0 := m.(entryPaused := false);
    assert m0 == m;
    var (m1, entered) := Prologue(b, m0);
    PrologueKeepsGate(b, m);
    FetchKeepsGate(b, m1);
    assert m1.(entryPaused := true).(entryPaused := false) == m1;
  }

  /** The whole run: after any calls under any gates, the machine is the unstopped run after as
      many instructions as were executed; if it is paused, resuming gives the next one. */
  lemma {:induction false} StopsAreTransparent(b: Bus, m: Machine, gs: seq<Gates>)
    requires !m.entryPaused && WholeSteps(gs)
    ensures var r := Calls(b, m, gs);
      var n := Finished(b, m, gs);
      && (!r.entryPaused ==> r == Unstopped(b, m, n))
      && (r.entryPaused ==> forall g: Gates :: !g.prologueOnly ==> Run(b, r, g) == Unstopped(b, m, n + 1))
    decreases |gs|
  {
    hide Run, Kept, JamsOf, Fetches;
    if gs != [] {
      var rest, g := gs[..|gs| - 1], gs[|gs| - 1];
      StopsAreTransparent(b, m, rest);
      var q, n := Calls(b, m, rest), Finished(b, m, rest);
      var r := Calls(b, m, gs);
      if q.entryPaused {
        ResumedIsNotPaused(b, q, g);
      } else {
        UnstoppedOneMore(b, m, n);
        forall g': Gates | !g'.prologueOnly
          ensures r.entryPaused ==> Run(b, r, g') == Unstopped(b, m, n + 1)
          ensures !r.entryPaused ==> r == Unstopped(b, m, n + 1)
          ensures Fetches(b, q, g) <==> !r.entryPaused
        {
          StopAndResume(b, q, g, g');
        }
        assert !NoGates().prologueOnly;
      }
    }
  }

  lemma ResumedIsNotPaused(b: Bus, m: Machine, g: Gates)
    requires m.entryPaused && !g.prologueOnly
    ensures Fetches(b, m, g) && !Run(b, m, g).entryPaused
  {
    FetchKeepsGate(b, m.(entryPaused := false));
    hide Prologue, FetchAndExecute, JamAt, Kept;
  }

  // ---- Steps split at the prologue -----------------------------------------------------------

  /** Line changes never make an interrupt due that was not: every new edge restarts its delay. */
  lemma {:induction false} ChangesMakeNothingDue(m: Machine, changes: seq<LineChange>)
    ensures var m' := m.(lines := Replay(m.lines, changes));
      var none := (NmiDue(m') ==> NmiDue(m)) && (IrqDue(m') ==> IrqDue(m));
      none && m'.lines.global.reset == m.lines.global.reset
    decreases |changes|
  {
    if changes != [] {
      var m1 := m.(lines := Apply(m.lines, changes[0]));
      ChangesMakeNothingDue(m1, changes[1..]);
      assert m1.(lines := Replay(m1.lines, changes[1..])) == m.(lines := Replay(m.lines, changes));
    }
  }

  predicate Quiet(m: Machine) { !NmiDue(m) && !IrqDue(m) }

  lemma AlarmsKeepQuiet(b: Bus, m: Machine)
    ensures Quiet(m) ==> Quiet(ProcessAlarms(b, m))
    ensures ProcessAlarms(b, m).lines.global.reset == m.lines.global.reset
  {
    var (dev, changes) := b.drain(b.alarms(m.dev, m.time.clk));
    ChangesMakeNothingDue(m, changes);
  }

  lemma BoundaryKeepsQuiet(b: Bus, m: Machine)
    requires Quiet(m)
    ensures Quiet(Boundary(b, m))
  {
    AlarmsKeepQuiet(b, m);
    hide ProcessAlarms;
  }

  /** The reset vector is in memory, as on the C64: reading it waits for nothing at any speed. */
  ghost predicate FastVectors(b: Bus) {
    forall d: Device, a: word :: a in {0xFFFC, 0xFFFD} ==> b.accessKind(d, a).Memory?
  }

  /** A reset's vector reads cost CPU cycles only at a turbo divider and only off memory; there they can
      make an interrupt ripe behind the dispatch's back. */
  ghost predicate NoTurboReset(b: Bus, m: Machine) {
    m.lines.global.reset ==> m.time.div <= 1 || FastVectors(b)
  }

  lemma BoundaryKeepsTime(b: Bus, m: Machine)
    ensures Boundary(b, m).time == m.time && Boundary(b, m).lines.global.reset == m.lines.global.reset
  {
    AlarmsKeepQuiet(b, m);
    hide Kept, Report;
  }

  /** Such a vector read takes no cycle. */
  lemma ResetReadIsInstant(b: Bus, m: Machine, a: word)
    requires (m.time.div <= 1 || FastVectors(b)) && a in {0xFFFC, 0xFFFD}
    ensures var r := ResetRead(b, m, a).0;
      && r.lines == m.lines && r.regs == m.regs && r.jammed == m.jammed && r.time.div == m.time.div
      && r.info == m.info.(enables := r.info.enables) && (m.info.enables ==> r.info.enables)
  {
    assert WaitFor(b, m, a, false) == 0;
    hide WaitFor, Cycled, Idled, IdleCycle;
  }

  /** Then a reset takes none either, so that the delays stand still; and it masks the IRQ. */
  lemma ResetKeepsQuiet(b: Bus, m: Machine)
    requires Quiet(m) && (m.time.div <= 1 || FastVectors(b))
    ensures var r := ResetEntry(b, m);
      && Quiet(r) && !r.lines.global.reset && !r.jammed && r.lines == AckReset(m.lines)
      && (IrqGate(r) && IrqRipe(r) ==> IrqGate(m) && IrqRipe(m))
  {
    hide Kept, Cycled, Instant, ResetRead, FastVectors;
    var m1 := DropReset(b, m);
    ResetReadIsInstant(b, m1, 0xFFFC);
    ResetReadIsInstant(b, ResetRead(b, m1, 0xFFFC).0, 0xFFFD);
  }

  /** A dispatch that enters nothing leaves nothing due. */
  lemma NotEntered(b: Bus, m: Machine)
    requires !DoInterrupt(b, m).1 && NoTurboReset(b, m)
    ensures var r := DoInterrupt(b, m).0;
      && Quiet(r) && !r.lines.global.reset
      && (m.lines.global.reset ==> !r.jammed)
      && (IrqGate(r) && IrqRipe(r) ==> r.lines.global.irqPend)
  {
    hide Kept, ResetEntry;
    var m1 := if IrqGate(m) && IrqRipe(m) then HoldIrq(m) else m;
    if m.lines.global.reset {
      ResetKeepsQuiet(b, m1);
    }
  }

  /** After any prologue that met no reset, or that entered an interrupt, nothing is due. */
  lemma PrologueLeavesQuiet(b: Bus, m: Machine)
    requires Prologue(b, m).1 || NoTurboReset(b, m)
    ensures Quiet(Prologue(b, m).0)
  {
    BoundaryKeepsTime(b, m);
    hide Boundary, ProcessAlarms, NmiEntry, IrqEntry, ResetEntry;
    var m1 := Boundary(b, m);
    var (m2, entered) := DoInterrupt(b, m1);
    if entered {
      hide DoInterrupt;
      assert Serviced(m2);
      assert Quiet(ClearTail(m2));
    } else {
      assert Quiet(m2) by {
        NotEntered(b, m1);
      }
      hide DoInterrupt;
      assert Quiet(ClearTail(m2));
    }
    AlarmsKeepQuiet(b, ClearTail(m2));
  }

  /** A repeated prologue never takes a second entry, whatever the alarms do in between. */
  lemma NoSecondEntry(b: Bus, m: Machine)
    requires NoTurboReset(b, m)
    ensures !Prologue(b, Prologue(b, m).0).1
  {
    PrologueLeavesQuiet(b, m);
    BoundaryKeepsQuiet(b, Prologue(b, m).0);
  }

  /** Vectors that are read like a CIA, with every line silent. */
  function SlowVectors(): Bus {
    Bus((d, k, a) => (d, 0), (d, k, a, v) => d, (d, a) => BusCycle, (div, phase) => false,
        (d, i, low) => (d, false, 0), (d, phase, div) => d, (d, clk) => d, (d, clk) => d, (d, clk) => d,
        d => (d, []), d => false, d => false, d => false, d => false, (d, clk) => false, d => d, d => d)
  }

  /** A reset and an NMI one cycle short of ripe, at divider 2. */
  function ResetBeforeNmi(dev: Device): Machine {
    var m := PowerOn(dev);
    m.(time := Timing(6, 2, 1, 2, true), info := OpInfo(0xEA, false, false, false),
       lines := m.lines.(nmiClk := 4, nmiDelay := 1, global := NONE.(nmi := true, reset := true)))
  }

  lemma SilentAlarms(m: Machine)
    ensures ProcessAlarms(SlowVectors(), m) == m
  {
  }

  /** What the rest of the dispatch looks at: only the delays moved, and the phase. */
  ghost predicate Delayed(m: Machine, m': Machine, phase: nat, nmiDelay: nat) {
    && m'.lines == m.lines.(irqDelay := m'.lines.irqDelay, nmiDelay := nmiDelay)
    && m'.info == m.info && m'.jammed == m.jammed
    && m'.time.div == m.time.div && m'.time.pendingDiv == m.time.pendingDiv
    && m'.time.phase == phase && m.time.clk <= m'.time.clk
  }

  /** A cycle up to the next edge, with every line silent. */
  lemma SilentEdge(m: Machine)
    requires m.time.div == m.time.pendingDiv == 2 && m.time.phase == 1
    requires |m.lines.pendingIrq| == NUM_SOURCES && !m.lines.pendingIrq[SRC_VIC] && m.lines.nmiClk <= m.time.clk
    ensures Delayed(m, IdleCycle(SlowVectors(), m), 0, m.lines.nmiDelay + 1)
  {
    hide Steady, Idled, Advances;
    var m1 := AdoptDivider(SlowVectors(), m);
    SilentSample(m1);
    hide SampleAndBump, SlowVectors;
  }

  lemma SilentSample(m: Machine)
    requires |m.lines.pendingIrq| == NUM_SOURCES && !m.lines.pendingIrq[SRC_VIC]
    ensures SampleAndBump(SlowVectors(), m).lines == BumpDelays(m.lines, m.time.clk)
  {
    hide Advances, BumpDelays;
    var b := SlowVectors();
    var changes := [] + Sampled(b, m.dev, m.time.clk);
    assert changes == [LineChange(false, SRC_VIC, false, m.time.clk)];
    assert changes[1..] == [];
    assert Replay(m.lines, changes) == m.lines;
    assert Past(changes, m.time.clk) == 0;
  }

  /** Off an edge an access waits for it; on the edge it waits for nothing. */
  lemma SlowWait(m: Machine, a: word)
    requires m.time.div == m.time.pendingDiv == 2 && m.time.phase < 2
    requires |m.lines.pendingIrq| == NUM_SOURCES && !m.lines.pendingIrq[SRC_VIC] && m.lines.nmiClk <= m.time.clk
    ensures Delayed(m, AccessWait(SlowVectors(), m, a, false), 0, m.lines.nmiDelay + m.time.phase)
  {
    hide Steady, Cycled, Idled, IdleCycle;
    var b := SlowVectors();
    assert WaitFor(b, m, a, false) == m.time.phase;
    hide WaitFor, SlowVectors;
    if m.time.phase == 1 {
      SilentEdge(m);
      assert Idle(b, m, 1) == IdleCycle(b, Idle(b, m, 0));
    }
  }

  lemma SlowRead(m: Machine, a: word)
    requires m.time.div == m.time.pendingDiv == 2 && m.time.phase < 2
    requires |m.lines.pendingIrq| == NUM_SOURCES && !m.lines.pendingIrq[SRC_VIC] && m.lines.nmiClk <= m.time.clk
    ensures Delayed(m, ResetRead(SlowVectors(), m, a).0, 0, m.lines.nmiDelay + m.time.phase)
  {
    hide AccessWait, Cycled, WaitFor;
    SlowWait(m, a);
  }

  /** The two vector reads wait one cycle in all; that is one too many. */
  lemma SlowResetRipens(dev: Device)
    ensures var r := ResetEntry(SlowVectors(), ResetBeforeNmi(dev));
      NmiDue(r) && !r.jammed && !r.lines.global.irqPend && r.lines.global.nmi
  {
    var b := SlowVectors();
    hide Sound, Instant, Cycled, ResetRead, CheckBa, AccessWait;
    var m1 := DropReset(b, ResetBeforeNmi(dev));
    SlowRead(m1, 0xFFFC);
    SlowRead(ResetRead(b, m1, 0xFFFC).0, 0xFFFD);
    hide SlowVectors;
  }

  lemma PassedOver(dev: Device)
    ensures var b, m := SlowVectors(), ResetBeforeNmi(dev);
      m.lines.global != NONE && Boundary(b, m) == m && DoInterrupt(b, m) == (ResetEntry(b, m), false)
  {
    SilentAlarms(ResetBeforeNmi(dev));
    hide ProcessAlarms, ResetEntry, NmiEntry, IrqEntry, SlowVectors, Sound, Instant;
  }

  /** An interrupt that is due behind a dispatch is entered by the next prologue. */
  lemma DueBehindDispatch(b: Bus, m: Machine, r: Machine)
    requires Boundary(b, m) == m && m.lines.global != NONE && DoInterrupt(b, m) == (r, false)
    requires ProcessAlarms(b, r) == r && NmiDue(r) && !r.jammed && !r.lines.global.irqPend
    ensures !Prologue(b, m).1 && Prologue(b, Prologue(b, m).0).1
  {
    hide Sound, Instant, ProcessAlarms, DoInterrupt, Threshold;
    assert ClearTail(r) == r;
    assert Prologue(b, m) == (r, false);
    assert Boundary(b, r) == r;
  }

  /** Where the vector reads wait, a turbo reset can ripen the NMI that the dispatch has just passed over. */
  lemma SecondEntryAfterReset(dev: Device)
    ensures var b, m := SlowVectors(), ResetBeforeNmi(dev);
      !Prologue(b, m).1 && Prologue(b, Prologue(b, m).0).1
  {
    hide ResetEntry, DoInterrupt, ProcessAlarms, SlowVectors, ResetBeforeNmi, NmiDue, Sound, Instant, Prologue,
         Boundary;
    var b, m := SlowVectors(), ResetBeforeNmi(dev);
    PassedOver(dev);
    SlowResetRipens(dev);
    SilentAlarms(ResetEntry(b, m));
    DueBehindDispatch(b, m, ResetEntry(b, m));
  }

  /** In every state a run reaches from power-on. */
  lemma NeverASecondEntry(b: Bus, dev: Device, as_: seq<Action>)
    requires AllLegal(as_)
    ensures var m := RunAll(b, PowerOn(dev), as_);
      !Prologue(b, Prologue(b, m).0).1
  {
    ReachedWithoutReset(b, dev, as_);
    hide RunAll, PowerOn, Prologue;
    NoSecondEntry(b, RunAll(b, PowerOn(dev), as_));
  }

  lemma ReachedWithoutReset(b: Bus, dev: Device, as_: seq<Action>)
    requires AllLegal(as_)
    ensures !RunAll(b, PowerOn(dev), as_).lines.global.reset
  {
    hide RunAll, JamCount, RestartLoss, Inv, NeverSteals, Lost, Succeeds;
    PowerOnInv(dev);
    RunCounted(b, PowerOn(dev), as_);
  }

  /** What the debugger needs to know of a reset, should one be pending. Nothing in the core asks for one. */
  ghost predicate CalmReset(b: Bus, m: Machine) {
    m.lines.global.reset ==> FastVectors(b) && Orderly(b) && PassiveReset(b)
  }

  lemma ReachedCalm(b: Bus, dev: Device, as_: seq<Action>)
    requires AllLegal(as_)
    ensures CalmReset(b, RunAll(b, PowerOn(dev), as_))
  {
    hide PowerOn, RunAll, FastVectors, Orderly, PassiveReset;
    ReachedWithoutReset(b, dev, as_);
  }

  /** The chips have nothing more to do at this clock. */
  predicate CaughtUp(b: Bus, d: Device, clk: nat) { b.alarms(d, clk) == d && b.drain(d) == (d, []) }

  /** Running the alarms twice at one clock is running them once. */
  ghost predicate Settled(b: Bus) {
    forall d: Device, clk: nat :: CaughtUp(b, b.drain(b.alarms(d, clk)).0, clk)
  }

  lemma CaughtUpAlarms(b: Bus, m: Machine)
    requires CaughtUp(b, m.dev, m.time.clk)
    ensures ProcessAlarms(b, m) == m
  {
  }

  predicate Latched(m: Machine) { IrqGate(m) && IrqRipe(m) ==> m.lines.global.irqPend }

  /** A machine with nothing due, nothing to drop and nothing to latch. */
  predicate AtRest(b: Bus, m: Machine) {
    && CaughtUp(b, m.dev, m.time.clk)
    && JamHack(m) == m
    && Quiet(m) && !m.lines.global.reset
    && Latched(m)
  }

  /** With nothing due, to reset or to latch, a dispatch does nothing. */
  lemma NothingToDispatch(b: Bus, m: Machine)
    requires Quiet(m) && !m.lines.global.reset && Latched(m)
    ensures DoInterrupt(b, m) == (m, false)
  {
    hide Kept, NmiDue, IrqRipe, NmiEntry, IrqEntry, ResetEntry, Instant;
  }

  /** At rest, a prologue does nothing, unless a released IRQ left its tail: that it clears. */
  lemma PrologueAtRest(b: Bus, m: Machine)
    requires AtRest(b, m)
    ensures Prologue(b, m) == (m, false) <==> !Dangling(m.lines)
  {
    CaughtUpAlarms(b, m);
    var m1 := Boundary(b, m);
    assert m1 == ExpireTail(m);
    hide ProcessAlarms, JamHack, Boundary, Instant, Sound;
    assert Quiet(m1) && Latched(m1);
    NothingToDispatch(b, m1);
    hide DoInterrupt, Quiet, Latched;
    CaughtUpAlarms(b, ClearTail(m1));
  }

  /** After the boundary work: caught up, and a jammed CPU has nothing left to drop. */
  lemma BoundaryCatchesUp(b: Bus, m: Machine)
    requires Settled(b)
    ensures var m1 := Boundary(b, m);
      && CaughtUp(b, m1.dev, m1.time.clk) && JamHack(m1) == m1
      && (m1.jammed ==> !m1.lines.global.irq && !m1.lines.global.irqPend && !m1.lines.global.nmi)
      && (m1.lines.global.reset ==> !m1.jammed)
      && !(Dangling(m1.lines) && m1.lines.irqPendingClk <= m1.time.clk)
  {
    hide Kept, Valid;
    var (d, changes) := b.drain(b.alarms(m.dev, m.time.clk));
    assert CaughtUp(b, d, m.time.clk);
    ghost var m0 := ProcessAlarms(b, m);
    assert m0.dev == d && m0.time == m.time;
    hide ProcessAlarms;
  }

  /** No line change un-latches an IRQ that is ripe. */
  lemma {:induction false} ChangesKeepLatch(m: Machine, changes: seq<LineChange>)
    requires Latched(m)
    ensures Latched(m.(lines := Replay(m.lines, changes)))
    decreases |changes|
  {
    if changes != [] {
      var m1 := m.(lines := Apply(m.lines, changes[0]));
      ChangesKeepLatch(m1, changes[1..]);
      assert m1.(lines := Replay(m1.lines, changes[1..])) == m.(lines := Replay(m.lines, changes));
    }
  }

  lemma AlarmsKeepLatch(b: Bus, m: Machine)
    requires Latched(m)
    ensures Latched(ProcessAlarms(b, m)) && ProcessAlarms(b, m).jammed == m.jammed
  {
    var (dev, changes) := b.drain(b.alarms(m.dev, m.time.clk));
    ChangesKeepLatch(m, changes);
  }

  lemma PrologueComesToRest(b: Bus, m: Machine)
    requires Settled(b) && (Prologue(b, m).1 || NoTurboReset(b, m))
    ensures var (r, entered) := Prologue(b, m);
      && AtRest(b, r)
      && (!entered && !m.lines.global.reset ==> !Dangling(r.lines))
  {
    hide Kept, Valid;
    hide Boundary, NmiEntry, IrqEntry, ResetEntry;
    BoundaryKeepsTime(b, m);
    var m1 := Boundary(b, m);
    BoundaryCatchesUp(b, m);
    PrologueLeavesQuiet(b, m);
    var (m2, entered) := DoInterrupt(b, m1);
    if entered {
      hide DoInterrupt;
      AlarmsCatchUp(b, ClearTail(m2));
    } else if m1.lines.global.reset {
      NotEntered(b, m1);
      hide DoInterrupt;
      AlarmsCatchUp(b, ClearTail(m2));
      AlarmsKeepLatch(b, ClearTail(m2));
    } else {
      CaughtUpAlarms(b, ClearTail(m2));
    }
  }

  /** A step split at its prologue: the second prologue is the identity exactly when the first left
      no tail dangling; without an entry or a reset it always is. */
  lemma RepeatedPrologue(b: Bus, m: Machine)
    requires Settled(b) && NoTurboReset(b, m)
    ensures var (r, entered) := Prologue(b, m);
      && (Prologue(b, r) == (r, false) <==> !Dangling(r.lines))
      && (!entered && !m.lines.global.reset ==> Prologue(b, r) == (r, false))
  {
    PrologueComesToRest(b, m);
    PrologueAtRest(b, Prologue(b, m).0);
  }

  /** With orderly chips a repeated prologue changes nothing at all. */
  lemma RepeatedPrologueIsIdle(b: Bus, m: Machine)
    requires Settled(b) && Orderly(b) && CalmReset(b, m)
    ensures Prologue(b, Prologue(b, m).0) == (Prologue(b, m).0, false)
  {
    RepeatedPrologue(b, m);
    PrologueNeverDangles(b, m);
  }

  // ---- Runs that are stopped and split -------------------------------------------------------

  /** Between two calls the machine is the unstopped one, or that one after its prologue: paused at an
      entry, or in front of its fetch. */
  ghost predicate Behind(b: Bus, r: Machine, u: Machine) {
    var (p, entered) := Prologue(b, u);
    || r == u
    || (entered && r == p.(entryPaused := true))
    || (r == p && Prologue(b, r) == (r, false))
  }

  /** A call whose split is seen through: one that runs a prologue only also stops at entries, as the
      monitor's step does, or the chips are orderly. */
  ghost predicate Seamless(b: Bus, g: Gates) { g.prologueOnly ==> g.entryStop || Orderly(b) }

  /** A call from the unstopped machine itself. */
  lemma CallFromStart(b: Bus, u: Machine, g: Gates)
    requires Settled(b) && CalmReset(b, u) && !u.entryPaused && Seamless(b, g)
    ensures var r' := Run(b, u, g);
      if Fetches(b, u, g) then r' == Run(b, u, NoGates()) else Behind(b, r', u)
  {
    hide Prologue, FetchAndExecute, JamAt, Kept, JamsOf, Sound, Settled, Orderly;
    PrologueKeepsGate(b, u);
    assert u.(entryPaused := false) == u;
    var (p, entered) := Prologue(b, u);
    if g.prologueOnly && (Orderly(b) || !entered) {
      if Orderly(b) {
        RepeatedPrologueIsIdle(b, u);
      } else {
        RepeatedPrologue(b, u);
      }
      assert Prologue(b, p) == (p, false);
    }
    hide CalmReset, Dangling;
  }

  /** One from the machine paused at an entry. */
  lemma CallFromPause(b: Bus, u: Machine, g: Gates)
    requires !u.entryPaused && Prologue(b, u).1
    ensures var r := Prologue(b, u).0.(entryPaused := true);
      if Fetches(b, r, g) then Run(b, r, g) == Run(b, u, NoGates()) else Run(b, r, g) == r
  {
    hide Prologue, FetchAndExecute, JamAt, Kept, JamsOf, Sound;
    PrologueKeepsGate(b, u);
    var p := Prologue(b, u).0;
    assert u.(entryPaused := false) == u && p.(entryPaused := true).(entryPaused := false) == p;
  }

  /** One from the machine in front of its fetch. */
  lemma CallFromFetch(b: Bus, u: Machine, g: Gates)
    requires !u.entryPaused && Prologue(b, Prologue(b, u).0) == (Prologue(b, u).0, false)
    ensures var r := Prologue(b, u).0;
      if Fetches(b, r, g) then Run(b, r, g) == Run(b, u, NoGates()) else Run(b, r, g) == r
  {
    hide Prologue, FetchAndExecute, JamAt, Kept, JamsOf, Sound;
    PrologueKeepsGate(b, u);
    var p := Prologue(b, u).0;
    assert u.(entryPaused := false) == u && p.(entryPaused := false) == p;
  }

  /** What a machine behind the unstopped one still has to execute is what that one has. */
  lemma CallBehind(b: Bus, u: Machine, r: Machine, g: Gates)
    requires Settled(b) && CalmReset(b, u) && !u.entryPaused && Behind(b, r, u) && Seamless(b, g)
    ensures var r' := Run(b, r, g);
      if Fetches(b, r, g) then r' == Run(b, u, NoGates()) else Behind(b, r', u)
  {
    hide Prologue, Fetches, Run, JamsOf, Kept, Settled, CalmReset, Seamless;
    var (p, entered) := Prologue(b, u);
    if r == u {
      CallFromStart(b, u, g);
    } else if entered && r == p.(entryPaused := true) {
      CallFromPause(b, u, g);
    } else {
      CallFromFetch(b, u, g);
    }
  }

  /** The monitor's single step, prologue first and the opcode later, is the unsplit call. */
  lemma SplitStepIsTransparent(b: Bus, m: Machine, g: Gates)
    requires Settled(b) && !m.entryPaused && g.prologueOnly && Seamless(b, g)
    requires CalmReset(b, m) || (g.entryStop && Prologue(b, m).1)
    ensures Run(b, Run(b, m, g), NoGates()) == Run(b, m, NoGates())
  {
    hide Prologue, Run, JamsOf, Kept, Settled, CalmReset;
    UngatedFetches(b, Run(b, m, g));
    if g.entryStop && Prologue(b, m).1 {
      StopsAtEntry(b, m, g);
      CallFromPause(b, m, NoGates());
    } else {
      CallFromStart(b, m, g);
      hide Fetches;
      PrologueOnlyFetchesNothing(b, m, g);
      CallBehind(b, m, Run(b, m, g), NoGates());
    }
  }

  lemma StopsAtEntry(b: Bus, m: Machine, g: Gates)
    requires !m.entryPaused && g.entryStop && Prologue(b, m).1
    ensures Run(b, m, g) == Prologue(b, m).0.(entryPaused := true)
  {
    hide Prologue, FetchAndExecute, JamAt, Kept, JamsOf;
    assert m.(entryPaused := false) == m;
  }

  lemma PrologueOnlyFetchesNothing(b: Bus, m: Machine, g: Gates)
    requires g.prologueOnly
    ensures !Fetches(b, m, g)
  {
    hide Prologue;
  }

  lemma RunKeepsCalm(b: Bus, m: Machine, g: Gates)
    requires CalmReset(b, m)
    ensures CalmReset(b, Run(b, m, g))
  {
    hide UpToFetch, FetchAndExecute, Run, JamsOf, FastVectors, Orderly, PassiveReset, Rested, Paired;
  }

  lemma {:induction false} UnstoppedStaysCalm(b: Bus, m: Machine, n: nat)
    requires CalmReset(b, m) && !m.entryPaused
    ensures CalmReset(b, Unstopped(b, m, n)) && !Unstopped(b, m, n).entryPaused
    decreases n
  {
    hide Run, Kept, JamsOf, CalmReset;
    if n > 0 {
      RunKeepsCalm(b, m, NoGates());
      StopAndResume(b, m, NoGates(), NoGates());
      UnstoppedStaysCalm(b, Run(b, m, NoGates()), n - 1);
    }
  }

  /** Any calls under any seamless gates: at every point the machine is the unstopped run after as many
      instructions as were executed, or that machine after its prologue; the next call that is let through
      gives the next state of the unstopped run. */
  lemma {:induction false} SplitsAreTransparent(b: Bus, m: Machine, gs: seq<Gates>)
    requires Settled(b) && CalmReset(b, m) && !m.entryPaused
    requires forall i :: 0 <= i < |gs| ==> Seamless(b, gs[i])
    ensures var r, n := Calls(b, m, gs), Finished(b, m, gs);
      && Behind(b, r, Unstopped(b, m, n))
      && Run(b, r, NoGates()) == Unstopped(b, m, n + 1)
    ensures gs != [] && Fetches(b, Calls(b, m, gs[..|gs| - 1]), gs[|gs| - 1]) ==>
              Calls(b, m, gs) == Unstopped(b, m, Finished(b, m, gs))
    decreases |gs|
  {
    hide Run, Kept, JamsOf, Settled, CalmReset, Orderly, Behind, Fetches;
    if gs == [] {
      assert Behind(b, m, m) by { BehindItself(b, m); }
    } else {
      var rest, g := gs[..|gs| - 1], gs[|gs| - 1];
      SplitsAreTransparent(b, m, rest);
      var n := Finished(b, m, rest);
      UnstoppedStaysCalm(b, m, n);
      UnstoppedOneMore(b, m, n);
      CallBehind(b, Unstopped(b, m, n), Calls(b, m, rest), g);
      BehindItself(b, Unstopped(b, m, n + 1));
    }
    NextCallCatchesUp(b, m, gs);
  }

  lemma BehindItself(b: Bus, m: Machine)
    ensures Behind(b, m, m)
  {
    hide Prologue;
  }

  lemma NextCallCatchesUp(b: Bus, m: Machine, gs: seq<Gates>)
    requires Settled(b) && CalmReset(b, m) && !m.entryPaused
    requires Behind(b, Calls(b, m, gs), Unstopped(b, m, Finished(b, m, gs)))
    ensures Run(b, Calls(b, m, gs), NoGates()) == Unstopped(b, m, Finished(b, m, gs) + 1)
  {
    hide Run, Kept, JamsOf, Settled, CalmReset, Orderly, Behind, Fetches, Calls, Unstopped, Finished;
    var n, r := Finished(b, m, gs), Calls(b, m, gs);
    UnstoppedStaysCalm(b, m, n);
    UnstoppedOneMore(b, m, n);
    CallBehind(b, Unstopped(b, m, n), r, NoGates());
    UngatedFetches(b, r);
  }

  lemma UngatedFetches(b: Bus, m: Machine)
    ensures Fetches(b, m, NoGates())
  {
    hide Prologue;
  }

  /** In every state a run reaches from power-on no reset is pending: any session that splits its steps the
      way the monitor does is the unstopped run. */
  lemma SessionsAreTransparent(b: Bus, dev: Device, as_: seq<Action>, gs: seq<Gates>)
    requires Settled(b) && AllLegal(as_) && !RunAll(b, PowerOn(dev), as_).entryPaused
    requires forall i :: 0 <= i < |gs| ==> gs[i].prologueOnly ==> gs[i].entryStop
    ensures var m := RunAll(b, PowerOn(dev), as_);
      Run(b, Calls(b, m, gs), NoGates()) == Unstopped(b, m, Finished(b, m, gs) + 1)
  {
    hide PowerOn, RunAll, Run, Kept;
    hide Settled, JamsOf, CalmReset, Behind, Fetches, Calls, Unstopped, Finished;
    var m := RunAll(b, PowerOn(dev), as_);
    ReachedCalm(b, dev, as_);
    SplitsAreTransparent(b, m, gs);
  }

  lemma AlarmsCatchUp(b: Bus, m: Machine)
    requires Settled(b)
    ensures var r := ProcessAlarms(b, m);
      CaughtUp(b, r.dev, r.time.clk) && (m.lines.global.reset == r.lines.global.reset)
  {
    AlarmsKeepQuiet(b, m);
    assert CaughtUp(b, b.drain(b.alarms(m.dev, m.time.clk)).0, m.time.clk);
  }
}
