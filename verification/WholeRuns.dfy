/**
 Properties of every run: any bus, any number of calls under any debugger gates, and between two
 calls whatever the host does to the lines, to the speed and to the devices.
 */
module WholeRuns {
  import opened Bytes
  import opened Interrupts
  import opened Machine
  import opened Instructions
  import opened Dispatch

  /** What the host does: call the core; restamp the interrupt lines at a boundary; take over the
      speed registers, with a restart of the sub-PHI2 phase when they were written; let the drive catch
      up, step the expansion port, or touch the devices in any other way. */
  datatype Action =
    | Call(g: Gates)
    | Lines(changes: seq<LineChange>)
    | Speed(div: nat, stalls: bool, restart: bool)
    | Touch(dev: Device)

  predicate Legal(a: Action) { a.Speed? ==> 0 < a.div }

  predicate AllLegal(as_: seq<Action>) { forall i :: 0 <= i < |as_| ==> Legal(as_[i]) }

  function Act(b: Bus, m: Machine, a: Action): Machine {
    match a
    case Call(g) => Run(b, m, g)
    case Lines(changes) => m.(lines := Report(m.lines, changes, m.time.clk))
    case Speed(div, stalls, restart) =>
      var m1 := m.(time := m.time.(pendingDiv := div, badline := stalls));
      if restart then m1.(time := m1.time.(phase := 0), log := m1.log.(lost := m1.log.lost + m.time.phase)) else m1
    case Touch(dev) => m.(dev := dev)
  }

  function RunAll(b: Bus, m: Machine, as_: seq<Action>): Machine
    decreases |as_|
  {
    if as_ == [] then m else RunAll(b, Act(b, m, as_[0]), as_[1..])
  }

  /** The JAM opcodes a run executes. */
  function JamCount(b: Bus, m: Machine, as_: seq<Action>): nat
    decreases |as_|
  {
    if as_ == [] then 0
    else (if as_[0].Call? then JamsOf(b, m, as_[0].g) else 0) + JamCount(b, Act(b, m, as_[0]), as_[1..])
  }

  /** The CPU cycles the phase restarts of a run throw away. */
  function RestartLoss(b: Bus, m: Machine, as_: seq<Action>): nat
    decreases |as_|
  {
    if as_ == [] then 0
    else
      (if as_[0].Speed? && as_[0].restart then m.time.phase else 0) + RestartLoss(b, Act(b, m, as_[0]), as_[1..])
  }

  lemma {:induction false} RunAllOneMore(b: Bus, m: Machine, as_: seq<Action>, a: Action)
    ensures RunAll(b, m, as_ + [a]) == Act(b, RunAll(b, m, as_), a)
    decreases |as_|
  {
    hide Act;
    if as_ == [] {
      assert [a][1..] == [] && as_ + [a] == [a];
      assert RunAll(b, m, [a]) == RunAll(b, Act(b, m, a), []);
    } else {
      RunAllOneMore(b, Act(b, m, as_[0]), as_[1..], a);
      assert (as_ + [a])[1..] == as_[1..] + [a];
    }
  }

  // ---- The initial state ---------------------------------------------------------------------

  const EMPTY_LOG := Log([], 0, 0, 0, 0, 0, 0, [], 0, [], [], [])

  /** The core and its interrupt status as they are constructed. */
  function PowerOn(dev: Device): Machine {
    var none := [false, false, false, false, false];
    Machine(Regs(0, 0, 0, 0, 0, Flags(false, false, false, false, false, false, false)),
            Timing(6, 1, 0, 1, true), OpInfo(0, false, false, false),
            IntState(none, none, 0, CLOCK_MAX, 0, CLOCK_MAX, 0, 0, 0, CLOCK_MAX, NONE, FRESH),
            dev, EMPTY_LOG, false, false, 0)
  }

  /** `Ok`, with every acknowledged NMI fetched. */
  ghost predicate Inv(m: Machine) { Ok(m) && Owed(m) == 0 }

  lemma PowerOnInv(dev: Device)
    ensures var m := PowerOn(dev);
      && Inv(m) && OneMHz(m.time) && !m.lines.global.reset && Lost(m) == 0
      && Timely(m.lines, m.time.clk) && Exact(m.lines, m.time.clk) && AllLate(m.log.entries)
  {
    var s := [false, false, false, false, false];
    assert s[1..] == [false, false, false, false];
    assert s[1..][1..] == [false, false, false];
    assert s[1..][1..][1..] == [false, false];
    assert s[1..][1..][1..][1..] == [false];
    assert s[1..][1..][1..][1..][1..] == [];
    assert CountTrue(s) == 0;
  }

  // ---- Invariants of every run ---------------------------------------------------------------

  /** What one action keeps and counts. */
  ghost predicate Counted(b: Bus, m: Machine, m': Machine, jams: nat, lost: nat) {
    && (Inv(m) ==> Inv(m'))
    && Succeeds(m.lines, m'.lines)
    && (m'.lines.global.reset ==> m.lines.global.reset)
    && m'.log.jams == m.log.jams + jams
    && (0 < m.time.pendingDiv ==> 0 < m'.time.pendingDiv)
    && Lost(m') == Lost(m) + lost
    && m.log.vic <= m'.log.vic && m.log.stolen <= m'.log.stolen
    && (NeverSteals(b) ==> m'.log.stolen == m.log.stolen)
    && m'.time.clk - m.time.clk == (m'.log.vic - m.log.vic) + (m'.log.stolen - m.log.stolen)
    && (m'.log.vic == m.log.vic ==> m'.time.div == m.time.div)
  }

  lemma ActCounted(b: Bus, m: Machine, a: Action)
    requires Legal(a)
    ensures Counted(b, m, Act(b, m, a), if a.Call? then JamsOf(b, m, a.g) else 0,
                    if a.Speed? && a.restart then m.time.phase else 0)
  {
    hide Run, JamsOf, Valid, Spaced, VectorsRead, Stamped, Timely, AllLate, Exact, NeverSteals, LostIn, Taken, Report;
  }

  lemma {:induction false} RunCounted(b: Bus, m: Machine, as_: seq<Action>)
    requires AllLegal(as_)
    ensures Counted(b, m, RunAll(b, m, as_), JamCount(b, m, as_), RestartLoss(b, m, as_))
    decreases |as_|
  {
    hide Act, JamsOf, Inv, NeverSteals, LostIn;
    if as_ != [] {
      assert Legal(as_[0]);
      ActCounted(b, m, as_[0]);
      RunCounted(b, Act(b, m, as_[0]), as_[1..]);
    }
  }

  /** The invariant of all runs: line counts, phase, edges, the one-access account, the NMI account. */
  lemma RunAllKeepsInv(b: Bus, m: Machine, as_: seq<Action>)
    requires Inv(m) && AllLegal(as_)
    ensures Inv(RunAll(b, m, as_))
  {
    RunCounted(b, m, as_);
  }

  /** NMI conservation: after any run, the latch was set once for every NMI vector fetched, once
      for a request still pending, and once for each request a jammed CPU dropped; and the
      fetches are that many different reads of $FFFA. */
  lemma NmiConserved(b: Bus, m: Machine, as_: seq<Action>)
    requires Inv(m) && AllLegal(as_)
    ensures var r := RunAll(b, m, as_);
      && r.lines.tally.latched
           == |r.log.nmiVectors| + (if r.lines.global.nmi then 1 else 0) + r.lines.tally.dropped
      && VectorsRead(r.log.nmiVectors, r.log.accesses)
  {
    RunAllKeepsInv(b, m, as_);
  }

  /** One bus access per CPU cycle: the only cycles without one are the waits of turbo accesses and one
      cycle for each JAM opcode executed; the i-th access is made in the i-th of all the others. */
  lemma OneAccessPerCycle(b: Bus, m: Machine, as_: seq<Action>)
    requires Inv(m) && AllLegal(as_)
    ensures var r := RunAll(b, m, as_);
      && |r.log.accesses| + r.log.waits + r.log.jams == r.log.cycles
      && r.log.jams == m.log.jams + JamCount(b, m, as_)
      && forall i :: 0 <= i < |r.log.accesses| ==> r.log.accesses[i].cycle == i
  {
    RunCounted(b, m, as_);
  }

  lemma {:induction false} SpacedAt(edges: seq<Edge>, k: nat)
    requires Spaced(edges) && k < |edges|
    ensures edges[k].at == EdgeStart(edges, k) + edges[k].lost + edges[k].div
    decreases |edges|
  {
    if k < |edges| - 1 {
      SpacedAt(edges[..|edges| - 1], k);
    }
  }

  lemma {:induction false} LostAt(edges: seq<Edge>, k: nat)
    requires k < |edges|
    ensures edges[k].lost <= LostIn(edges)
    decreases |edges|
  {
    if k < |edges| - 1 {
      LostAt(edges[..|edges| - 1], k);
    }
  }

  /** Turbo accounting: one VIC tick per PHI2 edge; each PHI2 cycle lasted the divider that ran it plus
      what phase restarts took back, which over the run is what the restarts found on the counter. */
  lemma TurboAccounting(b: Bus, m: Machine, as_: seq<Action>)
    requires Inv(m) && AllLegal(as_)
    ensures var r := RunAll(b, m, as_);
      && r.time.phase < r.time.div
      && |r.log.edges| == r.log.vic
      && (forall k :: 0 <= k < r.log.vic ==>
            r.log.edges[k].at - EdgeStart(r.log.edges, k) == r.log.edges[k].div + r.log.edges[k].lost)
      && r.log.cycles == EdgeStart(r.log.edges, r.log.vic) + r.log.lost + r.time.phase
      && Lost(r) == Lost(m) + RestartLoss(b, m, as_)
  {
    RunCounted(b, m, as_);
    var r := RunAll(b, m, as_);
    hide RunAll, RestartLoss, JamCount;
    forall k | 0 <= k < r.log.vic
      ensures r.log.edges[k].at - EdgeStart(r.log.edges, k) == r.log.edges[k].div + r.log.edges[k].lost
    {
      SpacedAt(r.log.edges, k);
    }
  }

  /** Without a restart every PHI2 cycle lasts exactly its divider. */
  lemma DividerIsExact(b: Bus, m: Machine, as_: seq<Action>, k: nat)
    requires Inv(m) && AllLegal(as_) && Lost(m) == 0 && RestartLoss(b, m, as_) == 0
    requires k < |RunAll(b, m, as_).log.edges|
    ensures var edges := RunAll(b, m, as_).log.edges;
      edges[k].at - EdgeStart(edges, k) == edges[k].div
  {
    TurboAccounting(b, m, as_);
    RunAllKeepsInv(b, m, as_);
    LostAt(RunAll(b, m, as_).log.edges, k);
  }

  /** The clock moves once per VIC cycle and once per stolen cycle, and for no other reason. */
  lemma ClockAccounting(b: Bus, m: Machine, as_: seq<Action>)
    requires AllLegal(as_)
    ensures var r := RunAll(b, m, as_);
      && r.time.clk - m.time.clk == (r.log.vic - m.log.vic) + (r.log.stolen - m.log.stolen)
      && m.log.vic <= r.log.vic
      && (r.log.vic == m.log.vic ==> r.time.div == m.time.div)
  {
    RunCounted(b, m, as_);
  }

  // ---- Runs at 1 MHz -------------------------------------------------------------------------

  /** Nothing asks for another speed. */
  predicate Slow(as_: seq<Action>) { forall i :: 0 <= i < |as_| ==> as_[i].Speed? ==> as_[i].div == 1 }

  /** What one action keeps at 1 MHz. */
  ghost predicate SlowlyKept(m: Machine, m': Machine) {
    && OneMHz(m'.time) && AtOneMHz(m, m')
    && m'.log.waits == m.log.waits
    && m.log.stolen <= m'.log.stolen && m.lines.tally.past <= m'.lines.tally.past
  }

  lemma ActSlowly(b: Bus, m: Machine, a: Action)
    requires Inv(m) && OneMHz(m.time) && (a.Speed? ==> a.div == 1)
    ensures SlowlyKept(m, Act(b, m, a))
  {
    hide Run, JamsOf, Valid, Spaced, VectorsRead, Stamped, Timely, AllLate, Exact, NeverSteals, LostIn, Taken, Report;
  }

  lemma {:induction false} RunSlowly(b: Bus, m: Machine, as_: seq<Action>)
    requires Inv(m) && OneMHz(m.time) && Slow(as_)
    ensures SlowlyKept(m, RunAll(b, m, as_))
    decreases |as_|
  {
    hide Act, Inv, Timely, AllLate, Exact;
    if as_ != [] {
      var m1 := Act(b, m, as_[0]);
      assert as_[0].Speed? ==> as_[0].div == 1;
      ActSlowly(b, m, as_[0]);
      assert AllLegal(as_[..1]) && RunAll(b, m, as_[..1]) == m1 by {
        assert as_[..1][1..] == [];
        assert RunAll(b, m, as_[..1]) == RunAll(b, m1, []);
      }
      RunAllKeepsInv(b, m, as_[..1]);
      RunSlowly(b, m1, as_[1..]);
    }
  }

  /** At 1 MHz every clock is accounted for: one access, or a cycle stolen by the VIC, or a JAM. */
  lemma OneAccessPerClock(b: Bus, m: Machine, as_: seq<Action>)
    requires Inv(m) && OneMHz(m.time) && Slow(as_)
    ensures var r := RunAll(b, m, as_);
      r.time.clk - m.time.clk
        == (|r.log.accesses| - |m.log.accesses|) + JamCount(b, m, as_) + (r.log.stolen - m.log.stolen)
  {
    RunSlowly(b, m, as_);
    assert AllLegal(as_);
    RunCounted(b, m, as_);
  }

  /** On a bus that steals nothing, a run without a JAM makes exactly one access per clock. */
  lemma EveryClockHasItsAccess(b: Bus, m: Machine, as_: seq<Action>)
    requires Inv(m) && OneMHz(m.time) && Slow(as_)
    requires NeverSteals(b) && JamCount(b, m, as_) == 0
    ensures var r := RunAll(b, m, as_);
      r.time.clk - m.time.clk == |r.log.accesses| - |m.log.accesses|
  {
    hide NeverSteals;
    OneAccessPerClock(b, m, as_);
    assert AllLegal(as_);
    RunCounted(b, m, as_);
  }

  /** The latency rule, over every run at 1 MHz from power-on: each IRQ and NMI entry comes at
      least two clocks after its edge, three after a taken same-page branch; no IRQ right after
      the CLI or PLP that enabled it, no NMI right after a BRK. */
  lemma EveryEntryIsLate(b: Bus, dev: Device, as_: seq<Action>, k: nat)
    requires Slow(as_)
    requires k < |RunAll(b, PowerOn(dev), as_).log.entries|
    ensures Late(RunAll(b, PowerOn(dev), as_).log.entries[k])
  {
    PowerOnInv(dev);
    RunSlowly(b, PowerOn(dev), as_);
  }

  // ---- The tail of a released IRQ ------------------------------------------------------------

  /** An IRQ taken although no line asks for it any more was released less than three clocks ago. */
  lemma ReleasedIrqWindow(b: Bus, m: Machine)
    requires Valid(m.lines)
    ensures var m1 := Boundary(b, m);
      IrqDue(m1) && !m1.lines.global.irq ==> m1.time.clk < m1.lines.tally.lastRelease + 3
  {
    var m0 := JamHack(ProcessAlarms(b, m));
    var m1 := Boundary(b, m);
    assert m1 == ExpireTail(m0);
    hide Boundary, ProcessAlarms, JamHack;
  }

  /** After the call no tail is left but one released since the dispatch. */
  lemma TailAfterPrologue(b: Bus, m: Machine, g: Gates)
    requires !m.entryPaused && Dangling(Boundary(b, m).lines)
    ensures var r := Run(b, m, g);
      && r.lines.tally.releases >= Boundary(b, m).lines.tally.releases
      && (Dangling(r.lines) ==> r.lines.tally.releases > Boundary(b, m).lines.tally.releases)
  {
    hide Boundary, DoInterrupt, ProcessAlarms, FetchAndExecute, JamAt;
    hide Valid, Spaced, VectorsRead, Stamped, Timely, AllLate, Exact, NeverSteals, LostIn, Taken;
    assert m.(entryPaused := false) == m;
    var m1 := Boundary(b, m);
    assert m1.lines.global != NONE;
    var m2 := DoInterrupt(b, m1).0;
    var m3 := ClearTail(m2);
    assert !Dangling(m3.lines) && m3.lines.tally == m2.lines.tally;
    var m4 := ProcessAlarms(b, m3);
    assert Prologue(b, m).0 == m4;
    hide Prologue, ClearTail;
    var (m5, fetches) := UpToFetch(b, m, g);
    assert m5.lines == m4.lines;
    hide UpToFetch;
  }

  /** And a release is seen at one boundary only: after the call that saw its tail, no boundary of any
      run sees a tail that is not of a later release. */
  lemma TailSeenOnce(b: Bus, m: Machine, g: Gates, as_: seq<Action>)
    requires !m.entryPaused && AllLegal(as_) && Dangling(Boundary(b, m).lines)
    ensures var later := Boundary(b, RunAll(b, Run(b, m, g), as_));
      Dangling(later.lines) ==> later.lines.tally.releases > Boundary(b, m).lines.tally.releases
  {
    hide Boundary, Run, RunAll, JamCount, RestartLoss;
    hide Inv, Valid, Spaced, VectorsRead, Stamped, Timely, AllLate, Exact, NeverSteals, LostIn, Taken;
    TailAfterPrologue(b, m, g);
    RunCounted(b, Run(b, m, g), as_);
  }

  /** A tail begins with a release and with nothing else. */
  lemma TailBeginsWithRelease(s: IntState, c: LineChange)
    requires !Dangling(s) && Dangling(Apply(s, c))
    ensures !c.nmi && !c.level && s.nirq == 1
    ensures Apply(s, c).tally.lastRelease == c.clk && Apply(s, c).irqPendingClk == c.clk + 3
    ensures Apply(s, c).tally.releases == s.tally.releases + 1
  {
  }
}
