/**
 Read-modify-write opcodes: the old value is read, written back, and replaced, at one address and
 in that order. The ($nn,X) forms do so only when their target is address 0: the write-back goes
 through `pending_ind_addr`, which only the ($nn),Y form sets.
 */
module ReadModifyWrite {
  import opened Bytes
  import opened Interrupts
  import opened Machine
  import opened Alu
  import opened Instructions
  import opened Dispatch
  import opened BusTrace

  predicate RmwMode(gf: GetFn) { gf in {Zero, ZeroX, Abs, AbsXRmw, AbsYRmw, IndX, IndYRmw} }

  predicate Indirect(gf: GetFn) { gf in {IndX, IndYRmw} }

  /** The address a read-modify-write means, given the accesses its addressing mode made: the
      direct modes compute it from the operand, the indirect ones from the pointer they read. */
  predicate IsTarget(t: word, gf: GetFn, r: Regs, p1: byte, p2: word, acc: seq<Access>)
    requires RmwMode(gf)
  {
    var n := |acc|;
    if gf == IndX then
      var at := Wrap8(p1 + r.x);
      n >= 3 && IsRead(acc[n - 3], at) && IsRead(acc[n - 2], Wrap8(at + 1))
      && t == MakeWord(acc[n - 2].value, acc[n - 3].value)
    else if gf == IndYRmw then
      n >= 4 && IsRead(acc[n - 4], p1) && IsRead(acc[n - 3], Wrap8(p1 + 1))
      && t == Wrap16(MakeWord(acc[n - 3].value, acc[n - 4].value) + r.y)
    else t == Target(gf, r, p1, p2, 0)
  }

  predicate IsRead(a: Access, at: word) { a.kind == Real && a.addr == at }

  /** What a get left on the bus: its last access read `v` at the target `t`. */
  ghost predicate ReadAt(m: Machine, m1: Machine, v: byte, t: word, gf: GetFn, p1: byte, p2: word)
    requires RmwMode(gf)
  {
    var acc := m1.log.accesses;
    && |m.log.accesses| < |acc| && m.log.accesses <= acc
    && acc[|acc| - 1] == Access(Real, t, v, |acc| - 1)
    && IsTarget(t, gf, m.regs, p1, p2, acc)
  }

  lemma IndexedReads(b: Bus, m: Machine, base: word, index: byte)
    requires Lead(m) == 0
    ensures var (m1, v) := GetIndexedRmw(b, m, base, index);
      var acc := m1.log.accesses;
      && |m.log.accesses| < |acc| && m.log.accesses <= acc
      && acc[|acc| - 1] == Access(Real, Wrap16(base + index), v, |acc| - 1)
  {
    hide Valid, Phased, VectorsRead, Timely, AllLate, Exact, NeverSteals, LostIn, Taken, Stamped, LoadCycle,
         Uncarried;
  }

  lemma ZeroIndexedReads(b: Bus, m: Machine, p1: byte, index: byte)
    requires Lead(m) == 0
    ensures var (m1, v) := GetZeroIndexed(b, m, Real, p1, index);
      var acc := m1.log.accesses;
      && |m.log.accesses| < |acc| && m.log.accesses <= acc
      && acc[|acc| - 1] == Access(Real, Wrap8(p1 + index), v, |acc| - 1)
  {
    hide Valid, Phased, VectorsRead, Timely, AllLate, Exact, NeverSteals, LostIn, Taken, Stamped, LoadPageCycle;
  }

  lemma DirectReadsTarget(b: Bus, m: Machine, gf: GetFn, p1: byte, p2: word) returns (t: word)
    requires Lead(m) == 0 && RmwMode(gf) && !Indirect(gf)
    ensures var (m1, v) := CallGet(b, m, gf, p1, p2);
      ReadAt(m, m1, v, t, gf, p1, p2) && m1.indAddr == m.indAddr
  {
    hide Valid, Phased, VectorsRead, Timely, AllLate, Exact, NeverSteals, LostIn, Taken, Stamped, LoadCycle,
         LoadPageCycle;
    hide GetIndexedRmw, GetZeroIndexed;
    match gf {
      case Zero => t := p1;
      case ZeroX => t := Wrap8(p1 + m.regs.x); ZeroIndexedReads(b, m, p1, m.regs.x);
      case Abs => t := p2;
      case AbsXRmw => t := Wrap16(p2 + m.regs.x); IndexedReads(b, m, p2, m.regs.x);
      case _ => t := Wrap16(p2 + m.regs.y); IndexedReads(b, m, p2, m.regs.y);
    }
  }

  lemma PointerReads(b: Bus, m: Machine, at: byte)
    requires Lead(m) == 0
    ensures var (m1, t) := ReadPointer(b, m, at);
      var acc := m1.log.accesses;
      && |acc| == |m.log.accesses| + 2 && m.log.accesses <= acc
      && IsRead(acc[|acc| - 2], at) && IsRead(acc[|acc| - 1], Wrap8(at + 1))
      && t == MakeWord(acc[|acc| - 1].value, acc[|acc| - 2].value)
  {
    hide Valid, Phased, VectorsRead, Timely, AllLate, Exact, NeverSteals, LostIn, Taken, Stamped, LoadPageCycle,
         MakeWord;
  }

  lemma IndXReadsTarget(b: Bus, m: Machine, p1: byte, p2: word) returns (t: word)
    requires Lead(m) == 0
    ensures var (m1, v) := CallGet(b, m, IndX, p1, p2);
      ReadAt(m, m1, v, t, IndX, p1, p2) && m1.indAddr == m.indAddr
    ensures t == PointerX(b, m, p1).1
  {
    hide Valid, Phased, VectorsRead, Timely, AllLate, Exact, NeverSteals, LostIn, Taken, Stamped, LoadCycle,
         LoadPageCycle, MakeWord;
    hide ReadPointer;
    t := PointerX(b, m, p1).1;
    PointerReads(b, LoadPageCycle(b, m, Dummy, p1).0, Wrap8(p1 + m.regs.x));
  }

  lemma IndYReadsTarget(b: Bus, m: Machine, p1: byte, p2: word) returns (t: word)
    requires Lead(m) == 0
    ensures var (m1, v) := CallGet(b, m, IndYRmw, p1, p2);
      ReadAt(m, m1, v, t, IndYRmw, p1, p2) && m1.indAddr == t
  {
    hide Valid, Phased, VectorsRead, Timely, AllLate, Exact, NeverSteals, LostIn, Taken, Stamped, LoadCycle,
         LoadPageCycle, MakeWord;
    hide ReadPointer, Clocked, Rested;
    t := PointerY(b, m, p1, true).1;
    PointerReads(b, m, p1);
  }

  /** The addressing half of every read-modify-write. */
  lemma GetReadsTarget(b: Bus, m: Machine, gf: GetFn, p1: byte, p2: word) returns (t: word)
    requires Lead(m) == 0 && RmwMode(gf)
    ensures var (m1, v) := CallGet(b, m, gf, p1, p2);
      ReadAt(m, m1, v, t, gf, p1, p2) && m1.indAddr == (if gf == IndYRmw then t else m.indAddr)
    ensures gf == IndX ==> t == PointerX(b, m, p1).1
  {
    hide CallGet, PointerX;
    match gf {
      case IndX => t := IndXReadsTarget(b, m, p1, p2);
      case IndYRmw => t := IndYReadsTarget(b, m, p1, p2);
      case _ => t := DirectReadsTarget(b, m, gf, p1, p2);
    }
  }

  lemma RmwKeepsIndex(op: RmwOp, r: Regs, old_: byte)
    ensures var r' := RmwOperation(op, r, old_).0;
      r'.x == r.x && r'.y == r.y
  {
  }

  /** The writing half: a store of the old value and a store of the new one at one address. */
  lemma SetWritesTarget(b: Bus, m: Machine, gf: GetFn, sf: SetFn, p1: byte, p2: word, old_: byte, new_: byte)
      returns (w: word)
    requires Lead(m) == 0 && RmwMode(gf) && WritesBackWhereItReads(gf, sf)
    ensures CallSet(b, m, sf, p1, p2, old_, new_).log.accesses == m.log.accesses
        + [Access(DummyWrite, w, old_, |m.log.accesses|), Access(Write, w, new_, |m.log.accesses| + 1)]
    ensures w == if Indirect(gf) then m.indAddr else Target(gf, m.regs, p1, p2, 0)
  {
    hide WriteBack, WriteBackPage, Cycled, Lead;
    match sf {
      case SZeroRmw => w := p1;
      case SZeroXRmw => w := Wrap8(p1 + m.regs.x);
      case SAbsRmw => w := p2;
      case SAbsXRmw => w := Wrap16(p2 + m.regs.x);
      case SAbsYRmw => w := Wrap16(p2 + m.regs.y);
      case SIndRmw => w := m.indAddr;
    }
  }

  /** The last three accesses of a read-modify-write: `t` is what it read, `w` where it wrote. */
  predicate Triple(acc: seq<Access>, t: word, w: word, old_: byte, new_: byte) {
    var n := |acc|;
    && n >= 3
    && acc[n - 3] == Access(Real, t, old_, n - 3)
    && acc[n - 2] == Access(DummyWrite, w, old_, n - 2)
    && acc[n - 1] == Access(Write, w, new_, n - 1)
  }

  /** The instruction: it reads the target, writes the old value back, then the new one, in the
      three last cycles. It writes where it read in every mode but ($nn,X); there it writes to
      address 0, so that it is right if and only if its target is address 0. */
  lemma RmwOneAddress(b: Bus, m: Machine, i: Instr, p1: byte, p2: word) returns (t: word, w: word, old_: byte)
    requires Lead(m) == 0 && m.indAddr == 0
    requires i.Rmw? && WritesBackWhereItReads(i.gf, i.sf)
    ensures var acc := Execute(b, m, i, p1, p2).log.accesses;
      && Triple(acc, t, w, old_, RmwOperation(i.mop, m.regs, old_).1)
      && IsTarget(t, i.gf, m.regs, p1, p2, acc[..|acc| - 2])
      && (i.gf == IndX ==> w == 0)
      && (w == t <==> i.gf != IndX || t == 0)
    ensures old_ == CallGet(b, m, i.gf, p1, p2).1
    ensures i.gf == IndX ==> t == PointerX(b, m, p1).1
  {
    hide Valid, Phased, VectorsRead, Timely, AllLate, Exact, NeverSteals, LostIn, Taken, Stamped, PointerX,
         CallGet, CallSet, RmwOperation, Steady;
    t := GetReadsTarget(b, m, i.gf, p1, p2);
    var (m1, v) := CallGet(b, m, i.gf, p1, p2);
    var (regs, new_) := RmwOperation(i.mop, m1.regs, v);
    RmwKeepsIndex(i.mop, m1.regs, v);
    old_ := v;
    var m2 := SetRegs(m1, IncPc(regs, i.length));
    w := SetWritesTarget(b, m2, i.gf, i.sf, p1, p2, v, new_);
    var acc := Execute(b, m, i, p1, p2).log.accesses;
    assert acc[..|acc| - 2] == m1.log.accesses;
  }

  /** Every read-modify-write opcode the core fetches, from any state between two cycles. */
  lemma EveryRmwOpcode(b: Bus, m: Machine)
    returns (t: word, w: word, old_: byte)
    requires Lead(m) == 0
    requires Decode(FetchOpcode(b, m.(indAddr := 0)).1).Rmw?
    ensures var (m1, op, p1, p2) := FetchOpcode(b, m.(indAddr := 0));
      var i := Decode(op);
      var acc := FetchAndExecute(b, m).log.accesses;
      && Triple(acc, t, w, old_, RmwOperation(i.mop, m.regs, old_).1)
      && IsTarget(t, i.gf, m.regs, p1, p2, acc[..|acc| - 2])
      && (w == t <==> i.gf != IndX || t == 0)
  {
    hide Valid, Phased, VectorsRead, Timely, AllLate, Exact, NeverSteals, LostIn, Taken, Stamped, FetchOpcode,
         Execute, Decode, RmwOperation;
    hide CallGet, PointerX, IsTarget;
    var (m1, op, p1, p2) := FetchOpcode(b, m.(indAddr := 0));
    t, w, old_ := RmwOneAddress(b, m1, Decode(op), p1, p2);
  }

  /** A bus that answers every read with the same byte. */
  ghost predicate Constant(b: Bus, v: byte) { forall d, k, a :: b.read(d, k, a).1 == v }

  /** SLO ($nn,X) with every byte $10: it reads $1010 and writes to $0000. */
  lemma IndXWritesElsewhere(b: Bus, m: Machine, p1: byte, p2: word)
    requires Lead(m) == 0 && m.indAddr == 0 && Constant(b, 0x10)
    ensures var acc := Execute(b, m, Rmw(Slo, IndX, SIndRmw, 2), p1, p2).log.accesses;
      Triple(acc, 0x1010, 0x0000, 0x10, 0x20)
  {
    hide CallGet, PointerX, Execute, IsTarget, Constant, Lead, Kept, JamsIn;
    var i := Rmw(Slo, IndX, SIndRmw, 2);
    ConstantGet(b, m, p1, p2);
    var t, w, v := RmwOneAddress(b, m, i, p1, p2);
  }

  lemma ConstantGet(b: Bus, m: Machine, p1: byte, p2: word)
    requires Constant(b, 0x10)
    ensures PointerX(b, m, p1).1 == 0x1010 && CallGet(b, m, IndX, p1, p2).1 == 0x10
  {
    hide Constant, PointerX, LoadCycle;
    ConstantPointer(b, m, p1);
    ConstantCycle(b, PointerX(b, m, p1).0, 0x1010);
  }

  lemma ConstantCycle(b: Bus, m: Machine, a: word)
    requires Constant(b, 0x10)
    ensures LoadCycle(b, m, Real, a).1 == 0x10
  {
  }

  lemma ConstantPointer(b: Bus, m: Machine, p1: byte)
    requires Constant(b, 0x10)
    ensures PointerX(b, m, p1).1 == 0x1010
  {
    hide ClkInc, CheckBa, Record;
  }
}
