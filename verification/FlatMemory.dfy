/** A bus that is flat RAM, and what every cycle of the core does to it. */
module FlatMemory {
  import opened Bytes
  import opened Interrupts
  import opened Machine
  import opened Instructions

  type Memory = word -> byte

  /** The bus is flat RAM as seen through `ram`: reads return it, writes change one byte of it, and
      nothing else touches it. */
  ghost predicate FlatRam(b: Bus, ram: Device -> Memory) {
    && (forall d, k, a :: b.read(d, k, a).1 == ram(d)(a) && ram(b.read(d, k, a).0) == ram(d))
    && (forall d, k, a, v: byte, x: word :: ram(b.write(d, k, a, v))(x) == if x == a then v else ram(d)(x))
    && (forall d, i, low :: ram(b.checkBa(d, i, low).0) == ram(d))
    && (forall d, p, n :: ram(b.setTurboPhase(d, p, n)) == ram(d))
    && (forall d, c :: ram(b.vicCycle(d, c)) == ram(d))
    && (forall d, c :: ram(b.alarms(d, c)) == ram(d))
    && (forall d, c :: ram(b.delayAlarms(d, c)) == ram(d))
    && (forall d :: ram(b.drain(d).0) == ram(d))
    && (forall d :: ram(b.nmiVectorFetch(d)) == ram(d))
  }

  ghost predicate SameRam(ram: Device -> Memory, m: Machine, m': Machine) { ram(m'.dev) == ram(m.dev) }

  /** `mem'` is `mem` with one byte stored. */
  ghost predicate Stored(mem: Memory, mem': Memory, a: int, v: byte) {
    forall x: word :: mem'(x) == if x == a then v else mem(x)
  }

  // ---- What each primitive does to RAM -------------------------------------------------------

  lemma ClkIncKeepsRam(b: Bus, ram: Device -> Memory, m: Machine)
    requires FlatRam(b, ram)
    ensures SameRam(ram, m, ClkInc(b, m))
  {
    hide Valid, Phased, VectorsRead, Timely, AllLate, Exact, NeverSteals, LostIn, Taken, Stamped, Replay;
  }

  lemma {:induction false} IdleKeepsRam(b: Bus, ram: Device -> Memory, m: Machine, n: nat)
    requires FlatRam(b, ram)
    ensures SameRam(ram, m, Idle(b, m, n))
    decreases n
  {
    hide FlatRam, ClkInc;
    if n > 0 {
      IdleKeepsRam(b, ram, m, n - 1);
      ClkIncKeepsRam(b, ram, Idle(b, m, n - 1));
    }
  }

  lemma WaitKeepsRam(b: Bus, ram: Device -> Memory, m: Machine, a: word, write: bool)
    requires FlatRam(b, ram)
    ensures SameRam(ram, m, AccessWait(b, m, a, write))
  {
    hide FlatRam, ClkInc, Idle, WaitCycles;
    ClkIncKeepsRam(b, ram, m);
    forall n: nat ensures SameRam(ram, m, Idle(b, m, n)) { IdleKeepsRam(b, ram, m, n); }
  }

  lemma LoadIsRam(b: Bus, ram: Device -> Memory, m: Machine, kind: Kind, a: word)
    requires FlatRam(b, ram)
    ensures var (m1, v) := LoadCycle(b, m, kind, a);
      SameRam(ram, m, m1) && v == ram(m.dev)(a)
  {
    hide ClkInc, AccessWait;
    WaitKeepsRam(b, ram, m, a, false);
    ClkIncKeepsRam(b, ram, Load(b, m, kind, a).0);
  }

  lemma PullIsRam(b: Bus, ram: Device -> Memory, m: Machine)
    requires FlatRam(b, ram)
    ensures var (m1, v) := PullCycle(b, m);
      SameRam(ram, m, m1) && v == ram(m.dev)(0x100 + Wrap8(m.regs.sp + 1))
  {
    hide ClkInc, Valid, Phased, VectorsRead, Timely, AllLate, Exact, NeverSteals, LostIn, Taken, Stamped,
         Steady, Paired, Clocked;
    var sp: int := Wrap8(m.regs.sp + 1);
    ClkIncKeepsRam(b, ram, LoadPage(b, m.(regs := m.regs.(sp := sp)), Real, 0x100 + sp).0);
  }

  lemma PeekKeepsRam(b: Bus, ram: Device -> Memory, m: Machine)
    requires FlatRam(b, ram)
    ensures SameRam(ram, m, PeekCycle(b, m))
  {
    hide ClkInc;
    ClkIncKeepsRam(b, ram, LoadPage(b, m, Dummy, 0x100 + m.regs.sp).0);
  }

  lemma PushIsRam(b: Bus, ram: Device -> Memory, m: Machine, v: byte)
    requires FlatRam(b, ram)
    ensures var m1 := PushCycle(b, m, v);
      forall x: word :: ram(m1.dev)(x) == if x == 0x100 + m.regs.sp then v else ram(m.dev)(x)
  {
    hide ClkInc;
    var m1 := WriteRaw(b, m, Write, 0x100 + m.regs.sp, v);
    ClkIncKeepsRam(b, ram, m1.(regs := m1.regs.(sp := Wrap8(m.regs.sp - 1))));
  }
}
