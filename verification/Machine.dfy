/**
 The cycle-stepped machine of the 6510 core: registers, the PHI2 clock with its turbo divider,
 the bus the core runs against, and the primitives every opcode is built from (one CPU cycle,
 the BA stall, the turbo wait, reads, writes, pushes and pulls).
 */
module Machine {
  import opened Bytes
  import opened Interrupts

  // ---- The bus -------------------------------------------------------------------------------

  /** The state of everything behind the bus: RAM, VIC, CIAs, cartridge. */
  type Device(!new, ==, 0)

  datatype Kind = Fetch | Real | Dummy | Write | DummyWrite

  /** What an access costs a turbo CPU. */
  datatype TurboKind = Memory | BusCycle | Fast | Sid | Io12

  /** `last_opcode_info`: the last opcode and its three interrupt-timing marks. */
  datatype OpInfo = OpInfo(number: byte, delays: bool, disables: bool, enables: bool)

  /** The hook surface of the core, one total function per hook. `shortCycle` stands for the table
      of turbo phases with fewer than two usable slots; a BA stall answers with the cycles it stole
      and whether it marks the last opcode as enabling the IRQ (the SH* and CLI steal signal). */
  datatype Bus = Bus(
    read: (Device, Kind, word) -> (Device, byte),
    write: (Device, Kind, word, byte) -> Device,
    accessKind: (Device, word) -> TurboKind,
    shortCycle: (nat, nat) -> bool,
    checkBa: (Device, OpInfo, bool) -> (Device, bool, nat),
    setTurboPhase: (Device, nat, nat) -> Device,
    vicCycle: (Device, nat) -> Device,
    alarms: (Device, nat) -> Device,
    delayAlarms: (Device, nat) -> Device,
    drain: Device -> (Device, seq<LineChange>),
    vicIrq: Device -> bool,
    expansionActive: Device -> bool,
    expansionIrq: Device -> bool,
    expansionNmi: Device -> bool,
    restorePress: (Device, nat) -> bool,
    nmiVectorFetch: Device -> Device,
    cpuReset: Device -> Device)

  // ---- State ---------------------------------------------------------------------------------

  datatype Flags = Flags(n: bool, v: bool, b: bool, d: bool, i: bool, z: bool, c: bool)

  function Bit(set_: bool): (r: int)
    ensures 0 <= r <= 1 && (r == 1 <==> set_)
  {
    if set_ then 1 else 0
  }

  /** `local_status`: the composite P, the unused bit always set. */
  function Status(f: Flags): byte {
    0x80 * Bit(f.n) + 0x40 * Bit(f.v) + 0x20 + 0x10 * Bit(f.b) +
    0x08 * Bit(f.d) + 0x04 * Bit(f.i) + 0x02 * Bit(f.z) + Bit(f.c)
  }

  /** `local_set_status`. */
  function FromStatus(p: byte): Flags {
    Flags(p / 0x80 == 1, p / 0x40 % 2 == 1, p / 0x10 % 2 == 1, p / 0x08 % 2 == 1,
          p / 0x04 % 2 == 1, p / 0x02 % 2 == 1, p % 2 == 1)
  }

  lemma SplitBits(p: int, n: int, v: int, b: int, d: int, i: int, z: int, c: int)
    requires 0 <= n <= 1 && 0 <= v <= 1 && 0 <= b <= 1 && 0 <= d <= 1
    requires 0 <= i <= 1 && 0 <= z <= 1 && 0 <= c <= 1
    requires p == 0x80 * n + 0x40 * v + 0x20 + 0x10 * b + 0x08 * d + 0x04 * i + 0x02 * z + c
    ensures p / 0x80 == n && p / 0x40 % 2 == v && p / 0x10 % 2 == b && p / 0x08 % 2 == d
    ensures p / 0x04 % 2 == i && p / 0x02 % 2 == z && p % 2 == c
  {
    assert p / 0x40 == 2 * n + v;
    assert p / 0x10 == 8 * n + 4 * v + 2 + b;
    assert p / 0x08 == 2 * (p / 0x10) + d;
    assert p / 0x04 == 2 * (p / 0x08) + i;
    assert p / 0x02 == 2 * (p / 0x04) + z;
  }

  lemma StatusRoundTrip(f: Flags)
    ensures FromStatus(Status(f)) == f
  {
    hide Bit;
    SplitBits(Status(f), Bit(f.n), Bit(f.v), Bit(f.b), Bit(f.d), Bit(f.i), Bit(f.z), Bit(f.c));
    hide Status;
  }

  datatype Regs = Regs(a: byte, x: byte, y: byte, sp: byte, pc: word, p: Flags)

  /** The PHI2 clock, the divider in effect, the position inside the PHI2 cycle, the divider the
      next PHI2 edge adopts, and whether the CPU waits out a BA stall at all. */
  datatype Timing = Timing(clk: nat, div: nat, phase: nat, pendingDiv: nat, badline: bool)

  /** One bus access; `cycle` is the ordinal of the non-idle CPU cycle it was made in. */
  datatype Access = Access(kind: Kind, addr: word, value: byte, cycle: int)

  /** One PHI2 edge: the divider that led up to it, the CPU-cycle count at the edge, and the CPU cycles
      that phase restarts took out of the divider's count on the way. */
  datatype Edge = Edge(div: nat, at: nat, lost: nat)

  /** One hardware interrupt entry: its vector, its clock, and what the latency rule reads. */
  datatype Entry = Entry(vector: word, clk: nat, edge: nat, info: OpInfo)

  /** What a recorder on the bus would have written down. Idle cycles are those the CPU spends
      without an access; `waits` counts what accesses were held back for at turbo, `jams` the JAM
      opcodes executed, `lost` what phase restarts took out of the running PHI2 cycle. The two vector
      reads of a reset happen outside the clock and are kept apart. */
  datatype Log = Log(
    accesses: seq<Access>,
    cycles: nat,
    idle: nat,
    waits: nat,
    jams: nat,
    stolen: nat,
    vic: nat,
    edges: seq<Edge>,
    lost: nat,
    nmiVectors: seq<nat>,
    entries: seq<Entry>,
    resets: seq<Access>)

  datatype Machine = Machine(
    regs: Regs,
    time: Timing,
    info: OpInfo,
    lines: IntState,
    dev: Device,
    log: Log,
    jammed: bool,
    entryPaused: bool,
    indAddr: word)

  // ---- What every cycle keeps ----------------------------------------------------------------

  /** How many accesses the CPU is ahead of its own cycles: 0 between cycles, 1 inside one. */
  function Lead(m: Machine): int { |m.log.accesses| - (m.log.cycles - m.log.idle) }

  /** The i-th access was made in the i-th non-idle cycle. */
  ghost predicate Stamped(accesses: seq<Access>) {
    forall i :: 0 <= i < |accesses| ==> accesses[i].cycle == i
  }

  /** The CPU-cycle count at which PHI2 cycle `k` began. */
  ghost function EdgeStart(edges: seq<Edge>, k: nat): nat
    requires k <= |edges|
  {
    if k == 0 then 0 else edges[k - 1].at
  }

  /** Every PHI2 cycle so far lasted as many CPU cycles as the divider that ran it, and those that phase
      restarts made it count anew. */
  ghost predicate Spaced(edges: seq<Edge>) {
    edges == [] ||
    var n := |edges| - 1;
    Spaced(edges[..n]) && edges[n].at == EdgeStart(edges, n) + edges[n].lost + edges[n].div
  }

  /** And the running one has lasted `phase` beyond its restarts. */
  ghost predicate Phased(div: nat, phase: nat, edges: seq<Edge>, cycles: nat, lost: nat) {
    phase < div && Spaced(edges) && cycles == EdgeStart(edges, |edges|) + lost + phase
  }

  /** The CPU cycles that phase restarts took out of the divider's count. */
  ghost function LostIn(edges: seq<Edge>): nat {
    if edges == [] then 0 else LostIn(edges[..|edges| - 1]) + edges[|edges| - 1].lost
  }

  ghost function Lost(m: Machine): nat { LostIn(m.log.edges) + m.log.lost }

  ghost predicate InPhase(m: Machine) {
    Phased(m.time.div, m.time.phase, m.log.edges, m.log.cycles, m.log.lost)
  }

  /** Each recorded NMI vector fetch is a real read of `$FFFA`, and no read is counted twice. */
  ghost predicate VectorsRead(vectors: seq<nat>, accesses: seq<Access>) {
    && (forall k :: 0 <= k < |vectors| ==>
          vectors[k] < |accesses| && accesses[vectors[k]].kind == Real && accesses[vectors[k]].addr == 0xFFFA)
    && (forall j, k :: 0 <= j < k < |vectors| ==> vectors[j] < vectors[k])
  }

  /** NMIs taken minus NMI vectors fetched: 0 outside an entry sequence. */
  ghost function Owed(m: Machine): int { Taken(m.lines) - |m.log.nmiVectors| }

  ghost predicate OneMHz(t: Timing) { t.div == 1 && t.pendingDiv == 1 }

  /** The 6502's latency rule, for one entry: two cycles after the edge, three after a taken
      same-page branch; an IRQ never right after the instruction that enabled it, an NMI never
      right after a BRK. */
  predicate Late(e: Entry) {
    && e.edge + INTERRUPT_DELAY + (if e.info.delays then 1 else 0) <= e.clk
    && (e.vector == 0xFFFE ==> !e.info.enables)
    && (e.vector == 0xFFFA ==> e.info.number != 0)
  }

  ghost predicate AllLate(entries: seq<Entry>) { forall k :: 0 <= k < |entries| ==> Late(entries[k]) }

  /** The invariant of the machine between two CPU cycles. */
  ghost predicate Ok(m: Machine) {
    && Valid(m.lines)
    && 0 < m.time.pendingDiv && |m.log.edges| == m.log.vic
    && InPhase(m)
    && VectorsRead(m.log.nmiVectors, m.log.accesses)
    && Lead(m) == 0 && Stamped(m.log.accesses)
    && m.log.idle == m.log.waits + m.log.jams
  }

  /** What one part of the core does to the clocks, whatever it computes. */
  ghost predicate Clocked(m: Machine, m': Machine) {
    && (Valid(m.lines) ==> Valid(m'.lines))
    && Succeeds(m.lines, m'.lines)
    && |m'.log.edges| - m'.log.vic == |m.log.edges| - m.log.vic
    && Lost(m') == Lost(m)
    && (0 < m.time.pendingDiv && InPhase(m) ==> InPhase(m'))
    && (VectorsRead(m.log.nmiVectors, m.log.accesses) ==> VectorsRead(m'.log.nmiVectors, m'.log.accesses))
    && m'.time.pendingDiv == m.time.pendingDiv
    && m'.entryPaused == m.entryPaused
    && (m'.lines.global.reset ==> m.lines.global.reset)
    && m'.time.clk - m.time.clk == (m'.log.vic - m.log.vic) + (m'.log.stolen - m.log.stolen)
    && m.log.vic <= m'.log.vic && m.log.stolen <= m'.log.stolen
    && (m'.log.vic == m.log.vic ==> m'.time.div == m.time.div)
    && (OneMHz(m.time) ==> OneMHz(m'.time) && AtOneMHz(m, m'))
  }

  /** At 1 MHz: each CPU cycle is a PHI2 cycle, the delays stay behind the clock and the entries late
      enough; and while nothing is stolen and no line change is reported late, the delays stay exact. */
  ghost predicate AtOneMHz(m: Machine, m': Machine) {
    && m'.log.cycles - m.log.cycles == m'.log.vic - m.log.vic
    && (Timely(m.lines, m.time.clk) ==> Timely(m'.lines, m'.time.clk))
    && (Timely(m.lines, m.time.clk) && AllLate(m.log.entries) ==> AllLate(m'.log.entries))
    && (Undisturbed(m, m') && Exact(m.lines, m.time.clk) ==> Exact(m'.lines, m'.time.clk))
  }

  /** From `m` to `m'` no cycle was stolen and every line change was reported in time. */
  ghost predicate Undisturbed(m: Machine, m': Machine) {
    m'.log.stolen == m.log.stolen && m'.lines.tally.past == m.lines.tally.past
  }

  /** Every cycle made exactly one access. */
  ghost predicate Paired(m: Machine, m': Machine) {
    && Lead(m') == Lead(m)
    && (Lead(m) == 0 && Stamped(m.log.accesses) ==> Stamped(m'.log.accesses))
  }

  /** Every idle cycle is the wait of a turbo access or one of the `jams` JAM opcodes; at 1 MHz no
      access waits. */
  ghost predicate Rested(m: Machine, m': Machine, jams: nat) {
    && m'.log.jams == m.log.jams + jams
    && m.log.waits <= m'.log.waits
    && m'.log.idle - m.log.idle == m'.log.waits - m.log.waits + jams
    && (OneMHz(m.time) ==> m'.log.waits == m.log.waits)
  }

  /** A bus whose VIC never steals a cycle. */
  ghost predicate NeverSteals(b: Bus) { forall d: Device, i: OpInfo, low: bool :: b.checkBa(d, i, low).2 == 0 }

  /** What one cycle keeps, whether an access was made in it or not: the clocks and the NMI account. */
  ghost predicate Steady(b: Bus, m: Machine, m': Machine) {
    var unstolen := NeverSteals(b) ==> m'.log.stolen == m.log.stolen;
    var kept := Clocked(m, m') && Owed(m') == Owed(m) && unstolen;
    kept
  }

  /** What instructions and interrupt entries keep when they execute `jams` JAM opcodes; one named fact,
      so that a contract is one obligation and not one for each of its parts. */
  ghost predicate Kept(b: Bus, m: Machine, m': Machine, jams: nat) {
    var kept := Steady(b, m, m') && Paired(m, m') && Rested(m, m', jams);
    kept
  }

  ghost predicate Sound(b: Bus, m: Machine, m': Machine) {
    var sound := Kept(b, m, m', 0);
    sound
  }

  /** What a step of the core that takes no time and touches no bus keeps; the NMI account moves by
      `owed`. */
  ghost predicate Instant(m: Machine, m': Machine, owed: int) {
    var still := m'.log.stolen == m.log.stolen && Owed(m') == Owed(m) + owed;
    var kept := Clocked(m, m') && Paired(m, m') && Rested(m, m', 0) && still;
    kept
  }

  /** The idle account is none of the clocks' business. */
  lemma CountsAside(m: Machine, m1: Machine, idle: nat, waits: nat, jams: nat)
    requires Clocked(m, m1)
    ensures var m2 := m1.(log := m1.log.(idle := idle, waits := waits, jams := jams));
      Clocked(m, m2) && Owed(m2) == Owed(m1)
  {
    hide Valid, Phased, VectorsRead, Timely, AllLate, Exact, LostIn, Succeeds, Taken;
  }

  lemma SoundThen(b: Bus, m: Machine, m1: Machine, m2: Machine)
    requires Sound(b, m, m1) && Sound(b, m1, m2)
    ensures Sound(b, m, m2)
  {
    hide Valid, Phased, VectorsRead, Timely, AllLate, Exact, NeverSteals, LostIn, Taken, Stamped;
  }

  // ---- One CPU cycle -------------------------------------------------------------------------

  /** What a cycle at `clk` samples after the CIAs' own changes: the VIC, the expansion port, and
      the RESTORE key as a pulse. */
  function Sampled(b: Bus, dev: Device, clk: nat): seq<LineChange> {
    [LineChange(false, SRC_VIC, b.vicIrq(dev), clk)] +
    (if b.expansionActive(dev)
     then [LineChange(false, SRC_EXPANSION, b.expansionIrq(dev), clk),
           LineChange(true, SRC_EXPANSION, b.expansionNmi(dev), clk)]
     else []) +
    (if b.restorePress(dev, clk)
     then [LineChange(true, SRC_RESTORE, true, clk), LineChange(true, SRC_RESTORE, false, clk)]
     else [])
  }

  function SampleLines(b: Bus, m: Machine): (r: Machine)
    ensures r == m.(lines := r.lines, dev := r.dev)
    ensures Advances(m.lines, r.lines, m.time.clk, m.time.clk)
  {
    var (dev, changes) := b.drain(m.dev);
    m.(lines := Report(m.lines, changes + Sampled(b, dev, m.time.clk), m.time.clk), dev := dev)
  }

  lemma EdgeKeepsPhase(div: nat, phase: nat, edges: seq<Edge>, cycles: nat, lost: nat, next: nat)
    requires Phased(div, phase, edges, cycles, lost) && phase + 1 >= div && 0 < next
    ensures Phased(next, 0, edges + [Edge(div, cycles + 1, lost)], cycles + 1, 0)
  {
    assert (edges + [Edge(div, cycles + 1, lost)])[..|edges|] == edges;
  }

  /** The phase across a PHI2 edge of a machine that was phased before it. */
  lemma PhaseAtEdge(t: Timing, edges: seq<Edge>, cycles: nat, lost: nat)
    requires t.div <= 1 || t.phase + 1 >= t.div
    ensures 0 < t.pendingDiv && Phased(t.div, t.phase, edges, cycles, lost) ==>
      Phased(t.pendingDiv, 0, edges + [Edge(t.div, cycles + 1, lost)], cycles + 1, 0)
    ensures Phased(t.div, t.phase, edges, cycles, lost) && t.div <= 1 ==> t.phase == 0
  {
    if 0 < t.pendingDiv && Phased(t.div, t.phase, edges, cycles, lost) {
      EdgeKeepsPhase(t.div, t.phase, edges, cycles, lost, t.pendingDiv);
    }
  }

  lemma LostAtEdge(edges: seq<Edge>, e: Edge)
    ensures LostIn(edges + [e]) == LostIn(edges) + e.lost
  {
    assert (edges + [e])[..|edges|] == edges;
  }

  /** How the CPU cycle that ends a PHI2 cycle begins: the phase starts over, the pending divider is
      adopted, here and nowhere else, and the alarms run. */
  function AdoptDivider(b: Bus, m: Machine): (r: Machine)
    requires m.time.div <= 1 || m.time.phase + 1 >= m.time.div
    ensures r == m.(time := r.time, dev := r.dev, log := r.log)
    ensures r.time == m.time.(phase := if m.time.div > 1 then 0 else m.time.phase, div := m.time.pendingDiv)
    ensures r.log == m.log.(cycles := m.log.cycles + 1, lost := 0,
                            edges := m.log.edges + [Edge(m.time.div, m.log.cycles + 1, m.log.lost)])
  {
    var dev := if m.time.div > 1 then b.setTurboPhase(m.dev, 0, m.time.div) else m.dev;
    var t := m.time.(phase := if m.time.div > 1 then 0 else m.time.phase, div := m.time.pendingDiv);
    var cycles := m.log.cycles + 1;
    var log := m.log.(cycles := cycles, lost := 0, edges := m.log.edges + [Edge(m.time.div, cycles, m.log.lost)]);
    m.(time := t, dev := b.delayAlarms(dev, t.clk), log := log)
  }

  function SampleAndBump(b: Bus, m: Machine): (r: Machine)
    ensures r == m.(lines := r.lines, dev := r.dev)
    ensures Advances(m.lines, r.lines, m.time.clk, m.time.clk + 1)
  {
    hide Valid, Timely, Exact, Taken, SampleLines, BumpDelays, Dangling;
    var m1 := SampleLines(b, m);
    m1.(lines := BumpDelays(m1.lines, m.time.clk))
  }

  /** A CPU cycle that ends no PHI2 cycle: `turbo_interrupt_cycle`. */
  function TurboCycle(b: Bus, m: Machine): (r: Machine)
    requires 1 < m.time.div && m.time.phase + 1 < m.time.div
    ensures Steady(b, m, r)
    ensures r.log == m.log.(cycles := m.log.cycles + 1)
    ensures r == m.(time := r.time, lines := r.lines, dev := r.dev, log := r.log)
  {
    hide Valid, VectorsRead, AllLate, Timely, Exact, Stamped, NeverSteals, LostIn, Taken, Succeeds, SampleAndBump;
    var t := m.time.(phase := m.time.phase + 1);
    SampleAndBump(b, m.(time := t, dev := b.setTurboPhase(m.dev, t.phase, t.div),
                        log := m.log.(cycles := m.log.cycles + 1)))
  }

  /** An edge of the clock with lines that advanced is steady. */
  lemma EdgeIsSteady(b: Bus, m: Machine, t: Timing, lines: IntState, dev: Device)
    requires m.time.div <= 1 || m.time.phase + 1 >= m.time.div
    requires t == m.time.(clk := m.time.clk + 1, phase := if m.time.div > 1 then 0 else m.time.phase, div := m.time.pendingDiv)
    requires Advances(m.lines, lines, m.time.clk, m.time.clk + 1)
    ensures var edge := Edge(m.time.div, m.log.cycles + 1, m.log.lost);
      Steady(b, m, m.(time := t, lines := lines, dev := dev,
                      log := m.log.(cycles := m.log.cycles + 1, vic := m.log.vic + 1, lost := 0, edges := m.log.edges + [edge])))
  {
    hide Valid, Phased, VectorsRead, AllLate, Timely, Exact, Stamped, NeverSteals, LostIn, Taken, Succeeds;
    PhaseAtEdge(m.time, m.log.edges, m.log.cycles, m.log.lost);
    LostAtEdge(m.log.edges, Edge(m.time.div, m.log.cycles + 1, m.log.lost));
  }

  /** A CPU cycle that ends a PHI2 cycle. */
  function EdgeCycle(b: Bus, m: Machine): (r: Machine)
    requires m.time.div <= 1 || m.time.phase + 1 >= m.time.div
    ensures Steady(b, m, r)
    ensures r.log == m.log.(cycles := m.log.cycles + 1, vic := m.log.vic + 1, lost := 0,
                            edges := m.log.edges + [Edge(m.time.div, m.log.cycles + 1, m.log.lost)])
    ensures r == m.(time := r.time, lines := r.lines, dev := r.dev, log := r.log)
  {
    hide Steady, Advances, AdoptDivider, SampleAndBump;
    var m1 := SampleAndBump(b, AdoptDivider(b, m));
    var clk := m.time.clk;
    var r := m.(lines := m1.lines, time := m1.time.(clk := clk + 1), dev := b.vicCycle(m1.dev, clk + 1),
                log := m1.log.(vic := m.log.vic + 1));
    EdgeIsSteady(b, m, r.time, r.lines, r.dev);
    r
  }

  function ClkInc(b: Bus, m: Machine): (r: Machine)
    ensures Steady(b, m, r)
    ensures Lead(r) == Lead(m) - 1
    ensures r.log == m.log.(cycles := m.log.cycles + 1, edges := r.log.edges, vic := r.log.vic, lost := r.log.lost)
    ensures r == m.(time := r.time, lines := r.lines, dev := r.dev, log := r.log)
  {
    if m.time.div > 1 && m.time.phase + 1 < m.time.div then TurboCycle(b, m) else EdgeCycle(b, m)
  }

  /** A cycle leaves the registers alone; a BA stall inside it may mark the last opcode. */
  ghost predicate SameCore(m: Machine, m': Machine) {
    m' == m.(time := m'.time, info := m.info.(enables := m'.info.enables), lines := m'.lines,
             dev := m'.dev, log := m'.log)
  }

  /** `Sound`, with nothing else of the core changed. */
  ghost predicate Cycled(b: Bus, m: Machine, m': Machine) {
    var kept := Sound(b, m, m') && SameCore(m, m');
    kept
  }

  // ---- Waits and stalls ----------------------------------------------------------------------

  /** `n` cycles without an access: neither waited for nor jammed, so far. */
  ghost predicate Idled(b: Bus, m: Machine, m': Machine, n: nat) {
    var kept := Steady(b, m, m') && Paired(m, m') && SameCore(m, m');
    var idle := m'.log.idle == m.log.idle + n && m'.log.waits == m.log.waits && m'.log.jams == m.log.jams;
    var silent := m'.log.accesses == m.log.accesses && m'.log.nmiVectors == m.log.nmiVectors;
    var idled := kept && idle && silent;
    idled
  }

  /** A CPU cycle in which the core makes no access. */
  function IdleCycle(b: Bus, m: Machine): (r: Machine)
    ensures Idled(b, m, r, 1)
  {
    hide Valid, Phased, VectorsRead, AllLate, Timely, Exact, Stamped, NeverSteals, LostIn, Taken, ClkInc, Clocked;
    var m1 := ClkInc(b, m);
    CountsAside(m, m1, m1.log.idle + 1, m1.log.waits, m1.log.jams);
    m1.(log := m1.log.(idle := m1.log.idle + 1))
  }

  function Idle(b: Bus, m: Machine, n: nat): (r: Machine)
    ensures Idled(b, m, r, n)
  {
    hide Valid, Phased, VectorsRead, AllLate, Timely, Exact, Stamped, NeverSteals, LostIn, Taken, IdleCycle;
    if n == 0 then m else IdleCycle(b, Idle(b, m, n - 1))
  }

  /** One more PHI2 cycle at a time until the notice fits. */
  function Stretch(wait: nat, div: nat, lead: nat): (w: nat)
    requires 0 < div
    ensures wait <= w
    decreases if wait < lead then lead - wait else 0
  {
    if wait < lead then Stretch(wait + div, div, lead) else wait
  }

  /** The cycles a turbo CPU at phase `p` holds a bus access back that needs `lead` cycles of
      notice: on to the next PHI2 edge, and further while the notice does not fit. */
  function WaitCycles(p: nat, div: nat, lead: nat): nat
    requires p < div
  {
    Stretch(if p == 0 then 0 else div - p, div, lead)
  }

  /** The notice of each kind of access in 1/63 of a PHI2 cycle; none for those that run fast. */
  function Lead63(kind: TurboKind, write: bool): nat {
    match kind
    case BusCycle => if write then 12 else 1
    case Io12 => if write then 42 else 30
    case _ => 0
  }

  /** The same in CPU cycles. */
  function Notice(kind: TurboKind, write: bool, div: nat): nat { Lead63(kind, write) * div / 63 }

  /** The CPU cycles an access to `a` is held back for. */
  function WaitFor(b: Bus, m: Machine, a: word, write: bool): (n: nat)
    ensures m.time.div <= 1 ==> n == 0
  {
    if m.time.div <= 1 then 0 else
    var kind := b.accessKind(m.dev, a);
    if kind.Sid? || (kind.Fast? && !write) then (if b.shortCycle(m.time.div, m.time.phase) then 1 else 0)
    else if (kind.BusCycle? || kind.Io12?) && m.time.phase < m.time.div then
      WaitCycles(m.time.phase, m.time.div, Notice(kind, write, m.time.div))
    else 0
  }

  /** `turbo_read` and `turbo_write`: what an access to `a` costs before it may happen. */
  function AccessWait(b: Bus, m: Machine, a: word, write: bool): (r: Machine)
    ensures Cycled(b, m, r)
    ensures r.log.waits == m.log.waits + WaitFor(b, m, a, write)
    ensures r.log.accesses == m.log.accesses && r.log.nmiVectors == m.log.nmiVectors
  {
    hide Valid, Phased, VectorsRead, AllLate, Timely, Exact, Stamped, NeverSteals, LostIn, Taken, WaitFor, Idle;
    var n := WaitFor(b, m, a, write);
    var m1 := Idle(b, m, n);
    CountsAside(m, m1, m1.log.idle, m1.log.waits + n, m1.log.jams);
    m1.(log := m1.log.(waits := m1.log.waits + n))
  }

  /** `check_ba`: the BA stall, at any speed, unless the badline stalls are off. */
  function CheckBa(b: Bus, m: Machine, low: bool): (r: Machine)
    ensures Cycled(b, m, r)
    ensures r.log.accesses == m.log.accesses && r.log.nmiVectors == m.log.nmiVectors
  {
    hide Valid, Phased, VectorsRead, AllLate, Exact, LostIn, Taken, Stamped;
    if !m.time.badline then m else
    var (dev, mark, stolen) := b.checkBa(m.dev, m.info, low);
    m.(dev := dev, info := m.info.(enables := m.info.enables || mark), time := m.time.(clk := m.time.clk + stolen),
       log := m.log.(stolen := m.log.stolen + stolen))
  }

  // ---- Accesses ------------------------------------------------------------------------------

  /** The accesses of `m'` are those of `m` and one more. */
  ghost predicate OneMore(m: Machine, m': Machine, kind: Kind, a: word, v: byte) {
    var one := m'.log.nmiVectors == m.log.nmiVectors
               && m'.log.accesses == m.log.accesses + [Access(kind, a, v, |m.log.accesses| - Lead(m))];
    one
  }

  /** A bare access: one access ahead of the cycles, everything else kept. */
  ghost predicate OneAhead(b: Bus, m: Machine, m': Machine, kind: Kind, a: word, v: byte) {
    var recorded := OneMore(m, m', kind, a, v) && Lead(m') == Lead(m) + 1;
    var stamped := Lead(m) == 0 && Stamped(m.log.accesses) ==> Stamped(m'.log.accesses);
    var ahead := Steady(b, m, m') && Rested(m, m', 0) && SameCore(m, m') && recorded && stamped;
    ahead
  }

  function Record(b: Bus, m: Machine, kind: Kind, a: word, v: byte): (r: Machine)
    ensures OneAhead(b, m, r, kind, a, v)
  {
    hide Valid, Phased, AllLate, Timely, Exact, NeverSteals, LostIn, Taken;
    m.(log := m.log.(accesses := m.log.accesses + [Access(kind, a, v, m.log.cycles - m.log.idle)]))
  }

  function ReadRaw(b: Bus, m: Machine, kind: Kind, a: word): (r: (Machine, byte))
    ensures OneAhead(b, m, r.0, kind, a, r.1)
  {
    hide Valid, Phased, VectorsRead, Timely, AllLate, Exact, NeverSteals, LostIn, Taken, Stamped, Record;
    var (dev, v) := b.read(m.dev, kind, a);
    (Record(b, m.(dev := dev), kind, a, v), v)
  }

  function WriteRaw(b: Bus, m: Machine, kind: Kind, a: word, v: byte): (r: Machine)
    ensures OneAhead(b, m, r, kind, a, v)
  {
    hide Valid, Phased, VectorsRead, Timely, AllLate, Exact, NeverSteals, LostIn, Taken, Stamped, Record;
    Record(b, m.(dev := b.write(m.dev, kind, a, v)), kind, a, v)
  }

  /** `load`, `load_fetch`, `load_dummy`: the turbo wait, the BA stall, then the bus. */
  function Load(b: Bus, m: Machine, kind: Kind, a: word): (r: (Machine, byte))
    ensures OneAhead(b, m, r.0, kind, a, r.1)
  {
    hide Valid, Phased, VectorsRead, Timely, AllLate, Exact, NeverSteals, LostIn, Taken, Stamped, ReadRaw,
         CheckBa, AccessWait;
    ReadRaw(b, CheckBa(b, AccessWait(b, m, a, false), false), kind, a)
  }

  /** `load_check_ba_low` and its dummy form, with the stall told that an SH* store asks. */
  function LoadBaLow(b: Bus, m: Machine, kind: Kind, a: word): (r: (Machine, byte))
    ensures OneAhead(b, m, r.0, kind, a, r.1)
  {
    hide Valid, Phased, VectorsRead, Timely, AllLate, Exact, NeverSteals, LostIn, Taken, Stamped, ReadRaw,
         CheckBa, AccessWait;
    ReadRaw(b, CheckBa(b, AccessWait(b, m, a, false), true), kind, a)
  }

  /** Zero-page and stack reads stall for BA but never wait for the turbo grid. */
  function LoadPage(b: Bus, m: Machine, kind: Kind, a: word): (r: (Machine, byte))
    ensures OneAhead(b, m, r.0, kind, a, r.1)
  {
    hide Valid, Phased, VectorsRead, Timely, AllLate, Exact, NeverSteals, LostIn, Taken, Stamped, ReadRaw,
         CheckBa, AccessWait;
    ReadRaw(b, CheckBa(b, m, false), kind, a)
  }

  /** `store` and `store_dummy`: writes never stall for BA. */
  function Store(b: Bus, m: Machine, kind: Kind, a: word, v: byte): (r: Machine)
    ensures OneAhead(b, m, r, kind, a, v)
  {
    hide Valid, Phased, VectorsRead, Timely, AllLate, Exact, NeverSteals, LostIn, Taken, Stamped, WriteRaw,
         AccessWait;
    WriteRaw(b, AccessWait(b, m, a, true), kind, a, v)
  }

  // ---- An access and the cycle it takes ------------------------------------------------------

  /** A cycle with exactly this access in it. */
  ghost predicate Accessed(b: Bus, m: Machine, m': Machine, kind: Kind, a: word, v: byte) {
    var accessed := Cycled(b, m, m') && OneMore(m, m', kind, a, v);
    accessed
  }

  function LoadCycle(b: Bus, m: Machine, kind: Kind, a: word): (r: (Machine, byte))
    ensures Accessed(b, m, r.0, kind, a, r.1)
  {
    hide Valid, Phased, VectorsRead, Timely, AllLate, Exact, NeverSteals, LostIn, Taken, Load, ClkInc;
    var (m1, v) := Load(b, m, kind, a);
    (ClkInc(b, m1), v)
  }

  function LoadBaLowCycle(b: Bus, m: Machine, kind: Kind, a: word): (r: Machine)
    ensures Cycled(b, m, r)
  {
    hide Valid, Phased, VectorsRead, Timely, AllLate, Exact, NeverSteals, LostIn, Taken, LoadBaLow, ClkInc;
    ClkInc(b, LoadBaLow(b, m, kind, a).0)
  }

  function LoadPageCycle(b: Bus, m: Machine, kind: Kind, a: word): (r: (Machine, byte))
    ensures Accessed(b, m, r.0, kind, a, r.1)
  {
    hide Valid, Phased, VectorsRead, Timely, AllLate, Exact, NeverSteals, LostIn, Taken, LoadPage, ClkInc;
    var (m1, v) := LoadPage(b, m, kind, a);
    (ClkInc(b, m1), v)
  }

  function StoreCycle(b: Bus, m: Machine, kind: Kind, a: word, v: byte): (r: Machine)
    ensures Accessed(b, m, r, kind, a, v)
  {
    hide Valid, Phased, VectorsRead, Timely, AllLate, Exact, NeverSteals, LostIn, Taken, Store, ClkInc;
    ClkInc(b, Store(b, m, kind, a, v))
  }

  function StorePageCycle(b: Bus, m: Machine, kind: Kind, a: word, v: byte): (r: Machine)
    ensures Accessed(b, m, r, kind, a, v)
  {
    hide Valid, Phased, VectorsRead, Timely, AllLate, Exact, NeverSteals, LostIn, Taken, WriteRaw, ClkInc;
    ClkInc(b, WriteRaw(b, m, kind, a, v))
  }

  /** One cycle with one access to the stack, at `0x100 + at`, that leaves the stack pointer at `sp`. */
  ghost predicate Stacked(b: Bus, m: Machine, m': Machine, sp: byte, kind: Kind, at: byte, v: byte) {
    var kept := Sound(b, m, m') && SameCore(m.(regs := m.regs.(sp := sp)), m');
    var stacked := kept && OneMore(m, m', kind, 0x100 + at, v);
    stacked
  }

  /** `push` and the cycle after it: the stack pointer wraps inside page one. */
  function PushCycle(b: Bus, m: Machine, v: byte): (r: Machine)
    ensures Stacked(b, m, r, Wrap8(m.regs.sp - 1), Write, m.regs.sp, v)
  {
    hide Valid, Phased, VectorsRead, Timely, AllLate, Exact, NeverSteals, LostIn, Taken, WriteRaw, ClkInc;
    var m1 := WriteRaw(b, m, Write, 0x100 + m.regs.sp, v);
    ClkInc(b, m1.(regs := m1.regs.(sp := Wrap8(m.regs.sp - 1))))
  }

  function PullCycle(b: Bus, m: Machine): (r: (Machine, byte))
    ensures Stacked(b, m, r.0, Wrap8(m.regs.sp + 1), Real, Wrap8(m.regs.sp + 1), r.1)
  {
    hide Valid, Phased, VectorsRead, Timely, AllLate, Exact, NeverSteals, LostIn, Taken, LoadPage, ClkInc;
    var sp := Wrap8(m.regs.sp + 1);
    var (m1, v) := LoadPage(b, m.(regs := m.regs.(sp := sp)), Real, 0x100 + sp);
    (ClkInc(b, m1), v)
  }

  function PeekCycle(b: Bus, m: Machine): (r: Machine)
    ensures Cycled(b, m, r)
  {
    LoadPageCycle(b, m, Dummy, 0x100 + m.regs.sp).0
  }
}
