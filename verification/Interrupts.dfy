/**
 The interrupt-line multiplexer of the 6510 core (`IntStatus`).

 Five sources share one IRQ and one NMI input. The IRQ is level sensitive with a short
 tail after its release; the NMI is a latch set by the rising edge of the wired-OR line.
 `IntState` is the abstract value and `IntStatus` the object that is updated in place.
 */
module Interrupts {

  const CLOCK_MAX: nat := 0xFFFF_FFFF_FFFF_FFFF
  const INTERRUPT_DELAY: nat := 2
  const NUM_SOURCES: nat := 5
  const SRC_VIC: nat := 0
  const SRC_RESTORE: nat := 3
  const SRC_EXPANSION: nat := 4

  /** `global_pending_int`, one field per bit the core consults. */
  datatype Pending = Pending(nmi: bool, irq: bool, irqPend: bool, reset: bool, trap: bool, monitor: bool)

  const NONE := Pending(false, false, false, false, false, false)

  /** Bookkeeping that exists for the proofs alone: how often the NMI latch was set, how often
      a jammed CPU threw a latched NMI away, when the IRQ line was last released and how often it
      was, and how many line changes were reported after the clock they are stamped with. */
  datatype Tally = Tally(latched: nat, dropped: nat, lastRelease: nat, releases: nat, past: nat)

  const FRESH := Tally(0, 0, 0, 0, 0)

  datatype IntState = IntState(
    pendingIrq: seq<bool>,
    pendingNmi: seq<bool>,
    nirq: int,
    irqClk: nat,
    nnmi: int,
    nmiClk: nat,
    irqDelay: nat,
    nmiDelay: nat,
    lastStolenClk: nat,
    irqPendingClk: nat,
    global: Pending,
    tally: Tally)

  /** One call of `set_irq` or `set_nmi`, as a chip makes it from inside its own callbacks. */
  datatype LineChange = LineChange(nmi: bool, source: nat, level: bool, clk: nat)

  function CountTrue(s: seq<bool>): nat {
    if s == [] then 0 else CountTrue(s[1..]) + (if s[0] then 1 else 0)
  }

  lemma {:induction false} CountUpdate(s: seq<bool>, i: nat, v: bool)
    requires i < |s|
    ensures CountTrue(s[i := v]) == CountTrue(s) - (if s[i] then 1 else 0) + (if v then 1 else 0)
  {
    if i == 0 {
      assert s[0 := v][1..] == s[1..];
    } else {
      CountUpdate(s[1..], i - 1, v);
      assert s[i := v][1..] == s[1..][i - 1 := v];
    }
  }

  lemma {:induction false} CountPositive(s: seq<bool>, i: nat)
    requires i < |s| && s[i]
    ensures CountTrue(s) > 0
  {
    if i > 0 {
      CountPositive(s[1..], i - 1);
    }
  }

  /** The line counters count the asserted sources; a globally pending IRQ has a source; an IRQ
      that is pending only as a tail was released three cycles before its expiry clock. */
  ghost predicate Valid(s: IntState) {
    var sources := |s.pendingIrq| == NUM_SOURCES && |s.pendingNmi| == NUM_SOURCES;
    var counts := s.nirq == CountTrue(s.pendingIrq) && s.nnmi == CountTrue(s.pendingNmi);
    && sources && counts
    && (s.global.irq ==> s.nirq > 0)
    && (s.global.irqPend && !s.global.irq ==> s.irqPendingClk == s.tally.lastRelease + 3)
  }

  /** An IRQ that is pending although no line asks for it: the tail of a release. */
  predicate Dangling(s: IntState) { s.global.irqPend && !s.global.irq }

  /** The history only grows, and a tail is the old one unless the line was released again. */
  ghost predicate Succeeds(s: IntState, s': IntState) {
    var grown := s.tally.releases <= s'.tally.releases && s.tally.past <= s'.tally.past;
    var sameTail := s'.tally.releases == s.tally.releases && Dangling(s') ==> Dangling(s);
    grown && sameTail
  }

  /** NMI latch settings that are neither pending nor thrown away: what was taken. */
  ghost function Taken(s: IntState): int {
    s.tally.latched - s.tally.dropped - (if s.global.nmi then 1 else 0)
  }

  /** What every change of the lines keeps: the invariant, the NMI account, the reset request. */
  ghost predicate Lawful(s: IntState, s': IntState) {
    var counted := (Valid(s) ==> Valid(s')) && Taken(s') == Taken(s) && Succeeds(s, s');
    var kept := counted && s'.global.reset == s.global.reset;
    kept
  }

  /** The clock an edge seen at `clk` is stamped with: `clk` itself, or the last steal when the
      steal is later (`fixup_int_clk` with no DMA recorded). */
  function EdgeClock(s: IntState, clk: nat): nat {
    if s.lastStolenClk <= clk then clk else s.lastStolenClk
  }

  function SetIrq(s: IntState, source: nat, level: bool, clk: nat): (r: IntState)
    ensures Lawful(s, r) && r.tally.past == s.tally.past
  {
    if source >= NUM_SOURCES || source >= |s.pendingIrq| then s
    else if level then
      if s.pendingIrq[source] then s
      else
        CountUpdate(s.pendingIrq, source, true);
        var edge := s.nirq == 0;
        var s' := if edge
          then s.(global := s.global.(irq := true, irqPend := true), irqPendingClk := CLOCK_MAX,
                  irqDelay := 0, irqClk := EdgeClock(s, clk))
          else s;
        s'.(pendingIrq := s.pendingIrq[source := true], nirq := s.nirq + 1)
    else if s.pendingIrq[source] && s.nirq > 0 then
      CountUpdate(s.pendingIrq, source, false);
      var s' := s.(pendingIrq := s.pendingIrq[source := false], nirq := s.nirq - 1);
      if s'.nirq == 0
      then s'.(global := s.global.(irq := false), irqPendingClk := clk + 3,
               tally := s.tally.(lastRelease := clk, releases := s.tally.releases + 1))
      else s'
    else s
  }

  function SetNmi(s: IntState, source: nat, level: bool, clk: nat): (r: IntState)
    ensures Lawful(s, r) && r.tally.past == s.tally.past
  {
    if source >= NUM_SOURCES || source >= |s.pendingNmi| then s
    else if level then
      if s.pendingNmi[source] then s
      else
        CountUpdate(s.pendingNmi, source, true);
        var s' := if s.nnmi == 0 && !s.global.nmi
          then s.(global := s.global.(nmi := true), nmiDelay := 0, nmiClk := EdgeClock(s, clk),
                  tally := s.tally.(latched := s.tally.latched + 1))
          else s;
        s'.(nnmi := s.nnmi + 1, pendingNmi := s.pendingNmi[source := true])
    else if s.pendingNmi[source] && s.nnmi > 0 then
      CountUpdate(s.pendingNmi, source, false);
      s.(nnmi := s.nnmi - 1, pendingNmi := s.pendingNmi[source := false])
    else s
  }

  function Apply(s: IntState, c: LineChange): (r: IntState)
    ensures Lawful(s, r) && r.tally.past == s.tally.past
  {
    if c.nmi then SetNmi(s, c.source, c.level, c.clk) else SetIrq(s, c.source, c.level, c.clk)
  }

  function Replay(s: IntState, changes: seq<LineChange>): (r: IntState)
    ensures Lawful(s, r) && r.tally.past == s.tally.past
    decreases |changes|
  {
    if changes == [] then s else Replay(Apply(s, changes[0]), changes[1..])
  }

  lemma {:induction false} ReplayConcat(s: IntState, xs: seq<LineChange>, ys: seq<LineChange>)
    ensures Replay(s, xs + ys) == Replay(Replay(s, xs), ys)
    decreases |xs|
  {
    hide Apply, Valid;
    if xs == [] {
      assert xs + ys == ys;
    } else {
      ReplayConcat(Apply(s, xs[0]), xs[1..], ys);
      assert (xs + ys)[1..] == xs[1..] + ys;
    }
  }

  /** The delay counters never run ahead of the clock. */
  ghost predicate Timely(s: IntState, clk: nat) {
    var irq := if s.irqClk <= clk then s.irqDelay <= clk - s.irqClk else s.irqDelay == 0;
    var nmi := if s.nmiClk <= clk then s.nmiDelay <= clk - s.nmiClk else s.nmiDelay == 0;
    var timely := irq && nmi;
    timely
  }

  // ---- Exact delays --------------------------------------------------------------------------

  /** Each delay counter is the time since its edge, or 0 while the edge is still to come. */
  ghost predicate Exact(s: IntState, clk: nat) {
    var irq := s.irqDelay == if s.irqClk <= clk then clk - s.irqClk else 0;
    var nmi := s.nmiDelay == if s.nmiClk <= clk then clk - s.nmiClk else 0;
    var exact := s.lastStolenClk <= clk && irq && nmi;
    exact
  }

  /** What the lines keep from one clock to another: the delays stay behind their edges, and exact while no
      change is reported too late. */
  ghost predicate Advances(s: IntState, s': IntState, clk: nat, clk': nat) {
    var timely := Timely(s, clk) ==> Timely(s', clk');
    var exact := Exact(s, clk) && s'.tally.past == s.tally.past ==> Exact(s', clk');
    var advanced := Lawful(s, s') && timely && exact;
    advanced
  }

  /** The changes stamped before `clk`. */
  function Past(changes: seq<LineChange>, clk: nat): nat
    decreases |changes|
  {
    if changes == [] then 0 else (if changes[0].clk < clk then 1 else 0) + Past(changes[1..], clk)
  }

  /** Replays the changes a chip reports at `clk` and notes those it reports too late. */
  function Report(s: IntState, changes: seq<LineChange>, clk: nat): (r: IntState)
    ensures Advances(s, r, clk, clk) && r.tally.past == s.tally.past + Past(changes, clk)
  {
    ReplayTimely(s, changes, clk);
    ReplayExact(s, changes, clk);
    var r := Replay(s, changes);
    r.(tally := r.tally.(past := r.tally.past + Past(changes, clk)))
  }

  /** Changes that are not reported too late keep the delays exact, an edge ahead of the clock
      included. */
  lemma {:induction false} ReplayExact(s: IntState, changes: seq<LineChange>, clk: nat)
    ensures Exact(s, clk) && Past(changes, clk) == 0 ==> Exact(Replay(s, changes), clk)
    decreases |changes|
  {
    if changes != [] {
      ReplayExact(Apply(s, changes[0]), changes[1..], clk);
    }
  }

  lemma {:induction false} ReplayTimely(s: IntState, changes: seq<LineChange>, clk: nat)
    ensures Timely(s, clk) ==> Timely(Replay(s, changes), clk)
    decreases |changes|
  {
    if changes != [] {
      ReplayTimely(Apply(s, changes[0]), changes[1..], clk);
    }
  }

  /** The delay counters advance while their line's edge lies in the past. */
  function BumpDelays(s: IntState, clk: nat): (r: IntState)
    ensures Advances(s, r, clk, clk + 1) && r.tally.past == s.tally.past
  {
    s.(irqDelay := if s.irqClk <= clk then s.irqDelay + 1 else s.irqDelay,
       nmiDelay := if s.nmiClk <= clk then s.nmiDelay + 1 else s.nmiDelay)
  }

  function AckNmi(s: IntState): IntState { s.(global := s.global.(nmi := false)) }

  /** An acknowledge takes the latched request, and only that. */
  lemma AckTakesOne(s: IntState)
    requires Valid(s)
    ensures Valid(AckNmi(s)) && !AckNmi(s).global.nmi
    ensures Taken(AckNmi(s)) == Taken(s) + (if s.global.nmi then 1 else 0)
    ensures Succeeds(s, AckNmi(s))
  {
  }

  function AckIrq(s: IntState): (r: IntState)
    ensures Lawful(s, r) && r.tally.past == s.tally.past
  {
    s.(global := s.global.(irqPend := false), irqPendingClk := CLOCK_MAX)
  }

  function AckReset(s: IntState): IntState { s.(global := s.global.(reset := false)) }

  /** What a jammed CPU does at every boundary: acknowledge the IRQ and drop both requests. */
  function DropRequests(s: IntState): (r: IntState)
    ensures Lawful(s, r) && r.tally.past == s.tally.past
  {
    var s' := AckIrq(s);
    s'.(global := s'.global.(irq := false, nmi := false),
        tally := if s.global.nmi then s.tally.(dropped := s.tally.dropped + 1) else s.tally)
  }

  // ---- Edge behaviour of the NMI latch ------------------------------------------------------

  /** Only a rise of the whole line sets the latch, and only when it is clear. */
  ghost predicate Latches(s: IntState, c: LineChange) {
    c.nmi && c.level && c.source < NUM_SOURCES && s.nnmi == 0 && !s.global.nmi
  }

  /** A line that is held: while some source holds the NMI, no other change of lines can set the
      latch again, so an acknowledged edge is not delivered twice. */
  ghost predicate HeldThroughout(s: IntState, changes: seq<LineChange>)
    decreases |changes|
  {
    s.nnmi > 0 && (changes == [] || HeldThroughout(Apply(s, changes[0]), changes[1..]))
  }

  lemma {:induction false} HeldLineFiresOnce(s: IntState, changes: seq<LineChange>)
    requires Valid(s) && HeldThroughout(s, changes)
    ensures Replay(s, changes).tally.latched == s.tally.latched
    ensures Replay(s, changes).global.nmi == s.global.nmi
    decreases |changes|
  {
    if changes != [] {
      HeldLineFiresOnce(Apply(s, changes[0]), changes[1..]);
    }
  }

  /** An acknowledged NMI whose line is still held is not delivered again. */
  lemma AcknowledgedIsNotRedelivered(s: IntState, changes: seq<LineChange>)
    requires Valid(s) && HeldThroughout(AckNmi(s), changes)
    ensures !Replay(AckNmi(s), changes).global.nmi
    ensures Taken(Replay(AckNmi(s), changes)) == Taken(s) + (if s.global.nmi then 1 else 0)
  {
    HeldLineFiresOnce(AckNmi(s), changes);
  }

  /** Exactly one latch setting per change that `Latches`; every other change leaves the count. */
  lemma LatchCountsEdges(s: IntState, c: LineChange)
    requires Valid(s)
    ensures Apply(s, c).tally.latched == s.tally.latched + (if Latches(s, c) then 1 else 0)
    ensures Latches(s, c) ==> Apply(s, c).global.nmi && Apply(s, c).nmiDelay == 0
  {
    if c.source < NUM_SOURCES && s.pendingNmi[c.source] {
      CountPositive(s.pendingNmi, c.source);
    }
  }

  /** The Lykia case: after the acknowledge of an NMI whose only source still holds the line, a
      release and a re-assert inside one instruction are a second NMI. */
  lemma ReleaseAndReassertFiresAgain(s: IntState, source: nat, c0: nat, c1: nat)
    requires Valid(s) && source < NUM_SOURCES
    requires s.pendingNmi[source] && s.nnmi == 1 && !s.global.nmi
    ensures var r := Replay(s, [LineChange(true, source, false, c0), LineChange(true, source, true, c1)]);
      r.global.nmi && r.tally.latched == s.tally.latched + 1 && r.nnmi == 1
  {
    var changes := [LineChange(true, source, false, c0), LineChange(true, source, true, c1)];
    assert changes[1..] == [changes[1]];
    assert changes[1..][1..] == [];
    var s1 := Apply(s, changes[0]);
    assert Replay(s, changes) == Replay(s1, changes[1..]);
    assert Replay(s1, changes[1..]) == Replay(Apply(s1, changes[1]), []);
  }

  // ---- What one change does to its line ------------------------------------------------------

  /** The clock an edge is stamped with: its own, or that of a later steal. */
  function Stamp(s: IntState, clk: nat): nat { if s.lastStolenClk > clk then s.lastStolenClk else clk }

  /** A change of an IRQ source: its level is what the change says; the first source to assert raises the line,
      stamps the edge and restarts the delay; the last to release lowers it and dates its tail; and nothing
      else is requested or taken back. */
  lemma IrqChange(s: IntState, source: nat, level: bool, clk: nat)
    requires Valid(s) && source < NUM_SOURCES
    ensures var r := SetIrq(s, source, level, clk);
      var rises, falls := level && s.nirq == 0, !level && s.pendingIrq[source] && s.nirq == 1;
      && r.pendingIrq == s.pendingIrq[source := level] && r.pendingNmi == s.pendingNmi
      && r.global == (if rises then s.global.(irq := true, irqPend := true)
                      else if falls then s.global.(irq := false) else s.global)
      && r.irqClk == (if rises then Stamp(s, clk) else s.irqClk)
      && r.irqDelay == (if rises then 0 else s.irqDelay)
      && r.irqPendingClk == (if rises then CLOCK_MAX else if falls then clk + 3 else s.irqPendingClk)
      && r.nmiClk == s.nmiClk && r.nmiDelay == s.nmiDelay
  {
    if s.pendingIrq[source] {
      CountPositive(s.pendingIrq, source);
    } else {
      assert s.pendingIrq[source := false] == s.pendingIrq;
    }
    if level && s.pendingIrq[source] {
      assert s.pendingIrq[source := true] == s.pendingIrq;
    }
  }

  /** A change of an NMI source: the line as a whole rising from no source is an edge, and it is latched,
      stamped and timed unless one is latched already. */
  lemma NmiChange(s: IntState, source: nat, level: bool, clk: nat)
    requires Valid(s) && source < NUM_SOURCES
    ensures var r := SetNmi(s, source, level, clk);
      var edge := level && s.nnmi == 0 && !s.global.nmi;
      && r.pendingNmi == s.pendingNmi[source := level] && r.pendingIrq == s.pendingIrq
      && r.global == (if edge then s.global.(nmi := true) else s.global)
      && r.nmiClk == (if edge then Stamp(s, clk) else s.nmiClk)
      && r.nmiDelay == (if edge then 0 else s.nmiDelay)
      && r.nnmi == s.nnmi + (if level && !s.pendingNmi[source] then 1 else 0)
                   - (if !level && s.pendingNmi[source] then 1 else 0)
      && r.irqClk == s.irqClk && r.irqDelay == s.irqDelay && r.irqPendingClk == s.irqPendingClk
  {
    if s.pendingNmi[source] {
      CountPositive(s.pendingNmi, source);
    } else {
      assert s.pendingNmi[source := false] == s.pendingNmi;
    }
    if level && s.pendingNmi[source] {
      assert s.pendingNmi[source := true] == s.pendingNmi;
    }
  }
}
