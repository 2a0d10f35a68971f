/** The interrupt status as the object the chips and the core update in place. */
module IntStatusObject {
  import opened Interrupts

  lemma ApplyUnfolds(s: IntState, c: LineChange)
    ensures Apply(s, c) == if c.nmi then SetNmi(s, c.source, c.level, c.clk)
                           else SetIrq(s, c.source, c.level, c.clk)
  {
  }

  class IntStatus {
    var pendingIrq: seq<bool>
    var pendingNmi: seq<bool>
    var nirq: int
    var irqClk: nat
    var nnmi: int
    var nmiClk: nat
    var irqDelay: nat
    var nmiDelay: nat
    var lastStolenClk: nat
    var irqPendingClk: nat
    var global: Pending
    ghost var tally: Tally

    /** The value this object stands for. */
    ghost function Model(): IntState
      reads this
    {
      IntState(pendingIrq, pendingNmi, nirq, irqClk, nnmi, nmiClk, irqDelay, nmiDelay,
               lastStolenClk, irqPendingClk, global, tally)
    }

    constructor ()
      ensures Valid(Model())
      ensures nirq == 0 && nnmi == 0 && global == NONE && tally == FRESH
    {
      var none := [false, false, false, false, false];
      pendingIrq, pendingNmi := none, none;
      nirq, irqClk, nnmi, nmiClk := 0, CLOCK_MAX, 0, CLOCK_MAX;
      irqDelay, nmiDelay, lastStolenClk, irqPendingClk := 0, 0, 0, CLOCK_MAX;
      global, tally := NONE, FRESH;
      new;
      assert none[1..][1..][1..][1..][1..] == [];
    }

    method SetIrq(source: nat, level: bool, clk: nat)
      requires Valid(Model())
      modifies this
      ensures Model() == Interrupts.SetIrq(old(Model()), source, level, clk)
    {
      if source >= NUM_SOURCES {
        return;
      }
      if level {
        if !pendingIrq[source] {
          pendingIrq := pendingIrq[source := true];
          if nirq == 0 {
            global := global.(irq := true, irqPend := true);
            irqPendingClk := CLOCK_MAX;
            irqDelay := 0;
            irqClk := if lastStolenClk <= clk then clk else lastStolenClk;
          }
          nirq := nirq + 1;
        }
      } else if pendingIrq[source] {
        if nirq > 0 {
          pendingIrq := pendingIrq[source := false];
          nirq := nirq - 1;
          if nirq == 0 {
            global := global.(irq := false);
            irqPendingClk := clk + 3;
            tally := tally.(lastRelease := clk, releases := tally.releases + 1);
          }
        }
      }
    }

    method SetNmi(source: nat, level: bool, clk: nat)
      requires Valid(Model())
      modifies this
      ensures Model() == Interrupts.SetNmi(old(Model()), source, level, clk)
    {
      if source >= NUM_SOURCES {
        return;
      }
      if level {
        if !pendingNmi[source] {
          if nnmi == 0 && !global.nmi {
            global := global.(nmi := true);
            nmiDelay := 0;
            nmiClk := if lastStolenClk <= clk then clk else lastStolenClk;
            tally := tally.(latched := tally.latched + 1);
          }
          nnmi := nnmi + 1;
          pendingNmi := pendingNmi[source := true];
        }
      } else if pendingNmi[source] {
        if nnmi > 0 {
          nnmi := nnmi - 1;
          pendingNmi := pendingNmi[source := false];
        }
      }
    }

    /** The line changes the CIAs recorded, in order. */
    method ReplayAll(changes: seq<LineChange>)
      requires Valid(Model())
      modifies this
      ensures Model() == Replay(old(Model()), changes)
    {
      hide Valid, Apply, Interrupts.SetIrq, Interrupts.SetNmi;
      for i := 0 to |changes|
        invariant Valid(Model())
        invariant Model() == Replay(old(Model()), changes[..i])
      {
        var c := changes[i];
        ReplayConcat(old(Model()), changes[..i], [c]);
        assert changes[..i + 1] == changes[..i] + [c];
        assert [c][1..] == [];
        assert Replay(Model(), [c]) == Replay(Apply(Model(), c), []);
        ApplyUnfolds(Model(), c);
        if c.nmi {
          SetNmi(c.source, c.level, c.clk);
        } else {
          SetIrq(c.source, c.level, c.clk);
        }
      }
      assert changes[..|changes|] == changes;
    }

    /** The line changes a chip reports at `clk`. */
    method Report(changes: seq<LineChange>, clk: nat)
      requires Valid(Model())
      modifies this
      ensures Model() == Interrupts.Report(old(Model()), changes, clk)
    {
      hide Valid, Replay, Timely, Exact, Past;
      ReplayAll(changes);
      tally := tally.(past := tally.past + Past(changes, clk));
    }

    /** Takes the latched request: it is counted as taken, and no change of a line that is still held
        brings it back. */
    method AckNmi()
      requires Valid(Model())
      modifies this
      ensures Model() == Interrupts.AckNmi(old(Model())) && Valid(Model()) && !global.nmi
      ensures Taken(Model()) == old(Taken(Model())) + (if old(global.nmi) then 1 else 0)
    {
      AckTakesOne(Model());
      global := global.(nmi := false);
    }

    method AckIrq()
      modifies this
      ensures Model() == Interrupts.AckIrq(old(Model()))
    {
      global := global.(irqPend := false);
      irqPendingClk := CLOCK_MAX;
    }

    method AckReset()
      modifies this
      ensures Model() == Interrupts.AckReset(old(Model()))
    {
      global := global.(reset := false);
    }

    /** What a jammed CPU does to the requests at a boundary. */
    method DropRequests()
      modifies this
      ensures Model() == Interrupts.DropRequests(old(Model()))
    {
      AckIrq();
      tally := if global.nmi then tally.(dropped := tally.dropped + 1) else tally;
      global := global.(irq := false, nmi := false);
    }

    method BumpDelays(clk: nat)
      modifies this
      ensures Model() == Interrupts.BumpDelays(old(Model()), clk)
    {
      if irqClk <= clk {
        irqDelay := irqDelay + 1;
      }
      if nmiClk <= clk {
        nmiDelay := nmiDelay + 1;
      }
    }
  }
}
