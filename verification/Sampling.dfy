/**
 What one cycle's sampling makes of the lines: behind the CIAs' own changes, every source ends at the level
 its device drives, the expansion port only while one is plugged in, and RESTORE as a pulse.
 */
module Sampling {
  import opened Interrupts
  import opened Machine

  /** The sources of the VIC and the expansion port stand at what the devices drive. */
  predicate Levels(b: Bus, d: Device, s: IntState)
    requires |s.pendingIrq| == NUM_SOURCES && |s.pendingNmi| == NUM_SOURCES
  {
    && s.pendingIrq[SRC_VIC] == b.vicIrq(d)
    && (b.expansionActive(d) ==>
          s.pendingIrq[SRC_EXPANSION] == b.expansionIrq(d) && s.pendingNmi[SRC_EXPANSION] == b.expansionNmi(d))
  }

  lemma ReplayOne(s: IntState, c: LineChange)
    ensures Replay(s, [c]) == Apply(s, c)
  {
    assert [c][1..] == [];
    assert Replay(s, [c]) == Replay(Apply(s, c), []);
  }

  lemma ReplayTwo(s: IntState, c: LineChange, d: LineChange)
    ensures Replay(s, [c, d]) == Apply(Apply(s, c), d)
  {
    assert [c, d][1..] == [d];
    ReplayOne(Apply(s, c), d);
  }

  /** The state behind the three samples, one after the other. */
  function Stepped(b: Bus, d: Device, clk: nat, s: IntState): IntState {
    var s1 := SetIrq(s, SRC_VIC, b.vicIrq(d), clk);
    var s2 := if b.expansionActive(d)
      then SetNmi(SetIrq(s1, SRC_EXPANSION, b.expansionIrq(d), clk), SRC_EXPANSION, b.expansionNmi(d), clk) else s1;
    if b.restorePress(d, clk) then SetNmi(SetNmi(s2, SRC_RESTORE, true, clk), SRC_RESTORE, false, clk) else s2
  }

  lemma SampledSteps(b: Bus, d: Device, clk: nat, s: IntState)
    ensures Replay(s, Sampled(b, d, clk)) == Stepped(b, d, clk, s)
  {
    hide SetIrq, SetNmi, Lawful;
    var vic := [LineChange(false, SRC_VIC, b.vicIrq(d), clk)];
    var port := if b.expansionActive(d)
      then [LineChange(false, SRC_EXPANSION, b.expansionIrq(d), clk), LineChange(true, SRC_EXPANSION, b.expansionNmi(d), clk)] else [];
    var key := if b.restorePress(d, clk)
      then [LineChange(true, SRC_RESTORE, true, clk), LineChange(true, SRC_RESTORE, false, clk)] else [];
    ReplayConcat(s, vic + port, key);
    ReplayConcat(s, vic, port);
    ReplayOne(s, vic[0]);
    var s1 := Replay(s, vic);
    if port != [] {
      ReplayTwo(s1, port[0], port[1]);
    }
    var s2 := Replay(s1, port);
    if key != [] {
      ReplayTwo(s2, key[0], key[1]);
    }
  }

  /** A RESTORE press: the source ends released, and the line's rise is latched if it is one. */
  lemma Pulse(s: IntState, clk: nat)
    requires Valid(s)
    ensures var r := SetNmi(SetNmi(s, SRC_RESTORE, true, clk), SRC_RESTORE, false, clk);
      && Valid(r) && r.pendingIrq == s.pendingIrq && r.pendingNmi == s.pendingNmi[SRC_RESTORE := false]
      && r.nnmi == s.nnmi - (if s.pendingNmi[SRC_RESTORE] then 1 else 0)
      && (!s.pendingNmi[SRC_RESTORE] && s.nnmi == 0 ==> r.global.nmi)
  {
    hide SetNmi, CountTrue, Dangling, Succeeds, Taken;
    NmiChange(s, SRC_RESTORE, true, clk);
    NmiChange(SetNmi(s, SRC_RESTORE, true, clk), SRC_RESTORE, false, clk);
    assert s.pendingNmi[SRC_RESTORE := true][SRC_RESTORE := false] == s.pendingNmi[SRC_RESTORE := false];
  }

  /** The two lines of the expansion port. */
  lemma PortSampled(b: Bus, d: Device, clk: nat, s: IntState)
    requires Valid(s)
    ensures var q := SetIrq(s, SRC_EXPANSION, b.expansionIrq(d), clk);
      var r := SetNmi(q, SRC_EXPANSION, b.expansionNmi(d), clk);
      && Valid(r) && r.pendingIrq == s.pendingIrq[SRC_EXPANSION := b.expansionIrq(d)]
      && r.pendingNmi == s.pendingNmi[SRC_EXPANSION := b.expansionNmi(d)]
  {
    hide SetIrq, SetNmi, CountTrue, Dangling, Succeeds, Taken;
    IrqChange(s, SRC_EXPANSION, b.expansionIrq(d), clk);
    NmiChange(SetIrq(s, SRC_EXPANSION, b.expansionIrq(d), clk), SRC_EXPANSION, b.expansionNmi(d), clk);
  }

  /** What sampling makes of the lines. A RESTORE press leaves its source released; it latches an NMI if no
      other source holds the line. */
  lemma SampleLevels(b: Bus, d: Device, clk: nat, s: IntState)
    requires Valid(s)
    ensures var r := Replay(s, Sampled(b, d, clk));
      && Valid(r) && Levels(b, d, r)
      && (b.restorePress(d, clk) ==> !r.pendingNmi[SRC_RESTORE])
      && (b.restorePress(d, clk) && !s.pendingNmi[SRC_RESTORE] && r.nnmi == 0 ==> r.global.nmi)
      && (forall i :: 0 <= i < NUM_SOURCES && i !in {SRC_VIC, SRC_EXPANSION} ==> r.pendingIrq[i] == s.pendingIrq[i])
      && (forall i :: 0 <= i < NUM_SOURCES && i !in {SRC_RESTORE, SRC_EXPANSION} ==> r.pendingNmi[i] == s.pendingNmi[i])
  {
    hide SetIrq, SetNmi, Sampled, Replay, CountTrue, Dangling, Succeeds, Taken;
    SampledSteps(b, d, clk, s);
    var s1 := SetIrq(s, SRC_VIC, b.vicIrq(d), clk);
    IrqChange(s, SRC_VIC, b.vicIrq(d), clk);
    var s2 := s1;
    if b.expansionActive(d) {
      PortSampled(b, d, clk, s1);
      s2 := SetNmi(SetIrq(s1, SRC_EXPANSION, b.expansionIrq(d), clk), SRC_EXPANSION, b.expansionNmi(d), clk);
    }
    if b.restorePress(d, clk) {
      Pulse(s2, clk);
    }
  }

  /** In the machine: after the sampling of any cycle. */
  lemma CycleSamples(b: Bus, m: Machine)
    requires Valid(m.lines)
    ensures var r := SampleLines(b, m);
      Valid(r.lines) && Levels(b, r.dev, r.lines)
  {
    hide Replay, Sampled, Valid, Timely, Exact;
    var (dev, changes) := b.drain(m.dev);
    var s := Replay(m.lines, changes);
    ReplayConcat(m.lines, changes, Sampled(b, dev, m.time.clk));
    SampleLevels(b, dev, m.time.clk, s);
  }
}
