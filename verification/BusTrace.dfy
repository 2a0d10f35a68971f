/**
 The bus trace of every instruction, cycle by cycle, as a table written from the operands alone: which
 address each access goes to, in which order, what is written, where the program counter and the stack
 pointer end up. The cycle-stepped opcode bodies are proved to follow it on any bus.
 */
module BusTrace {
  import opened Bytes
  import opened Interrupts
  import opened Machine
  import opened Alu
  import opened Instructions
  import opened Dispatch
  import opened Vectors

  /** One access: read from an address, written to one, or written to wherever an unstable store goes. */
  datatype Cycle = In(kind: Kind, addr: int) | Out(kind: Kind, addr: int, value: int) | Stray

  predicate Fits(a: Access, c: Cycle) {
    match c
    case In(kind, addr) => a.kind == kind && a.addr == addr
    case Out(kind, addr, value) => a.kind == kind && a.addr == addr && a.value == value
    case Stray => a.kind == Write
  }

  /** From `m` to `m'` exactly the accesses of `tr` were made. */
  ghost predicate Traced(m: Machine, m': Machine, tr: seq<Cycle>) {
    var acc, n := m'.log.accesses, |m.log.accesses|;
    var traced := |acc| == n + |tr| && m.log.accesses <= acc && forall i :: 0 <= i < |tr| ==> Fits(acc[n + i], tr[i]);
    traced
  }

  lemma TracedThen(m: Machine, m1: Machine, m2: Machine, tr: seq<Cycle>, tr': seq<Cycle>)
    requires Traced(m, m1, tr) && Traced(m1, m2, tr')
    ensures Traced(m, m2, tr + tr')
  {
    var acc, n := m2.log.accesses, |m.log.accesses|;
    forall i | 0 <= i < |tr + tr'|
      ensures Fits(acc[n + i], (tr + tr')[i])
    {
      if i < |tr| {
        assert acc[n + i] == m1.log.accesses[n + i];
      } else {
        assert acc[n + i] == acc[|m1.log.accesses| + (i - |tr|)];
      }
    }
  }

  lemma TracedNothing(m: Machine, m': Machine)
    requires m'.log.accesses == m.log.accesses
    ensures Traced(m, m', [])
  {
  }

  lemma TracedRead(m: Machine, m': Machine, kind: Kind, a: word, v: byte)
    requires OneMore(m, m', kind, a, v)
    ensures Traced(m, m', [In(kind, a)])
    ensures m'.log.accesses[|m.log.accesses|].value == v && |m'.log.accesses| == |m.log.accesses| + 1
  {
  }

  lemma TracedWrite(m: Machine, m': Machine, kind: Kind, a: word, v: byte)
    requires OneMore(m, m', kind, a, v)
    ensures Traced(m, m', [Out(kind, a, v)])
  {
  }

  // ---- Addressing modes ----------------------------------------------------------------------

  /** The address with the carry into its high byte lost. */
  function WithoutCarry(base: int, index: int): int { base / 0x100 * 0x100 + (base + index) % 0x100 }

  function Crossing(base: int, index: int): seq<Cycle> {
    if base % 0x100 + index >= 0x100 then [In(Dummy, WithoutCarry(base, index))] else []
  }

  /** What a mode does before it reaches its target; `ptr` is the pointer an indirect mode has read. */
  function Prelude(gf: GetFn, r: Regs, p1: int, p2: int, ptr: int): seq<Cycle> {
    match gf
    case Imm | Zero | Abs => []
    case ZeroX | ZeroY => [In(Dummy, p1)]
    case AbsX => Crossing(p2, r.x)
    case AbsY => Crossing(p2, r.y)
    case AbsXRmw => [In(Dummy, WithoutCarry(p2, r.x))]
    case AbsYRmw => [In(Dummy, WithoutCarry(p2, r.y))]
    case IndX => [In(Dummy, p1), In(Real, (p1 + r.x) % 0x100), In(Real, (p1 + r.x + 1) % 0x100)]
    case IndY => [In(Real, p1), In(Real, (p1 + 1) % 0x100)] + Crossing(ptr, r.y)
    case IndYRmw => [In(Real, p1), In(Real, (p1 + 1) % 0x100)] + [In(Dummy, WithoutCarry(ptr, r.y))]
  }

  /** The effective address. */
  function Target(gf: GetFn, r: Regs, p1: int, p2: int, ptr: int): int {
    match gf
    case Imm => -1
    case Zero => p1
    case ZeroX => (p1 + r.x) % 0x100
    case ZeroY => (p1 + r.y) % 0x100
    case Abs => p2
    case AbsX | AbsXRmw => (p2 + r.x) % 0x1_0000
    case AbsY | AbsYRmw => (p2 + r.y) % 0x1_0000
    case IndX => ptr
    case IndY | IndYRmw => (ptr + r.y) % 0x1_0000
  }

  /** The pointer an indirect mode reads, from the two accesses that read it. */
  function Pointer(gf: GetFn, acc: seq<Access>, n: nat): int {
    var at := if gf.IndX? then n + 1 else n;
    if at + 1 < |acc| then acc[at].value + 0x100 * acc[at + 1].value else 0
  }

  /** The access a mode ends with: a read of a kind, or the write of a value. */
  datatype Last = Reading(kind: Kind) | Writing(value: int)

  function At(l: Last, a: int): Cycle { if l.Reading? then In(l.kind, a) else Out(Write, a, l.value) }

  function ModeTrace(gf: GetFn, r: Regs, p1: int, p2: int, ptr: int, last: Last): seq<Cycle> {
    Prelude(gf, r, p1, p2, ptr) + [At(last, Target(gf, r, p1, p2, ptr))]
  }

  /** From `m` to `m'` the mode was followed to its target. */
  ghost predicate Follows(m: Machine, m': Machine, gf: GetFn, p1: int, p2: int, last: Last) {
    Traced(m, m', ModeTrace(gf, m.regs, p1, p2, Pointer(gf, m'.log.accesses, |m.log.accesses|), last))
  }

  // ---- The parts of the modes ----------------------------------------------------------------

  lemma CarryLost(base: word, index: byte)
    ensures Uncarried(base, index) == WithoutCarry(base, index)
  {
    var lo, hi := base % 0x100, base / 0x100;
    assert base + index == 0x100 * hi + (lo + index);
  }

  lemma LoadTraced(b: Bus, m: Machine, kind: Kind, a: word)
    ensures var (m1, v) := LoadCycle(b, m, kind, a);
      && Traced(m, m1, [In(kind, a)]) && m1.regs == m.regs
      && |m1.log.accesses| == |m.log.accesses| + 1 && m1.log.accesses[|m.log.accesses|].value == v
  {
    hide LoadCycle, Sound, OneMore, Traced;
    var (m1, v) := LoadCycle(b, m, kind, a);
    TracedRead(m, m1, kind, a, v);
  }

  lemma LoadPageTraced(b: Bus, m: Machine, kind: Kind, a: word)
    ensures var (m1, v) := LoadPageCycle(b, m, kind, a);
      && Traced(m, m1, [In(kind, a)]) && m1.regs == m.regs
      && |m1.log.accesses| == |m.log.accesses| + 1 && m1.log.accesses[|m.log.accesses|].value == v
  {
    hide LoadPageCycle, Sound, OneMore, Traced;
    var (m1, v) := LoadPageCycle(b, m, kind, a);
    TracedRead(m, m1, kind, a, v);
  }

  lemma StoreTraced(b: Bus, m: Machine, kind: Kind, a: word, v: byte)
    ensures var m1 := StoreCycle(b, m, kind, a, v);
      Traced(m, m1, [Out(kind, a, v)]) && m1.regs == m.regs
  {
    hide StoreCycle, Sound, OneMore, Traced;
    TracedWrite(m, StoreCycle(b, m, kind, a, v), kind, a, v);
  }

  lemma StorePageTraced(b: Bus, m: Machine, kind: Kind, a: word, v: byte)
    ensures var m1 := StorePageCycle(b, m, kind, a, v);
      Traced(m, m1, [Out(kind, a, v)]) && m1.regs == m.regs
  {
    hide StorePageCycle, Sound, OneMore, Traced;
    TracedWrite(m, StorePageCycle(b, m, kind, a, v), kind, a, v);
  }

  /** A read of the carry that a page crossing needs, or that a write always makes. */
  lemma CrossTraced(b: Bus, m: Machine, base: word, index: byte)
    ensures Traced(m, CrossRead(b, m, base, index), Crossing(base, index))
    ensures Traced(m, AlwaysRead(b, m, base, index), [In(Dummy, WithoutCarry(base, index))])
    ensures CrossRead(b, m, base, index).regs == m.regs && AlwaysRead(b, m, base, index).regs == m.regs
  {
    hide LoadCycle, Traced, Cycled, OneMore;
    CarryLost(base, index);
    LoadTraced(b, m, Dummy, Uncarried(base, index));
    TracedNothing(m, m);
    hide Uncarried;
  }

  lemma PointerTraced(b: Bus, m: Machine, at: byte)
    ensures var (m1, p) := ReadPointer(b, m, at);
      var acc, n := m1.log.accesses, |m.log.accesses|;
      && Traced(m, m1, [In(Real, at), In(Real, (at + 1) % 0x100)]) && m1.regs == m.regs
      && |acc| == n + 2 && p == acc[n].value + 0x100 * acc[n + 1].value
  {
    hide LoadPageCycle, Traced, Cycled, OneMore;
    LoadPageTraced(b, m, Real, at);
    var (m1, lo) := LoadPageCycle(b, m, Real, at);
    LoadPageTraced(b, m1, Real, Wrap8(at + 1));
    var (m2, hi) := LoadPageCycle(b, m1, Real, Wrap8(at + 1));
    TracedThen(m, m1, m2, [In(Real, at)], [In(Real, (at + 1) % 0x100)]);
    StaysRecorded(m1, m2, [In(Real, (at + 1) % 0x100)]);
    assert [In(Real, at as int)] + [In(Real, (at + 1) % 0x100)] == [In(Real, at), In(Real, (at + 1) % 0x100)];
  }

  /** Recorded accesses stay recorded. */
  lemma StaysRecorded(m: Machine, m': Machine, tr: seq<Cycle>)
    requires Traced(m, m', tr)
    ensures |m.log.accesses| + |tr| == |m'.log.accesses|
    ensures forall i :: 0 <= i < |m.log.accesses| ==> m'.log.accesses[i] == m.log.accesses[i]
  {
  }

  /** The last of the accesses made from `m` to `m'` read `v`. */
  predicate LastReads(m: Machine, m': Machine, v: byte) {
    |m'.log.accesses| > |m.log.accesses| && m'.log.accesses[|m'.log.accesses| - 1].value == v
  }

  /** A read behind a prelude. */
  lemma ReadBehind(b: Bus, m: Machine, m1: Machine, kind: Kind, a: word, pre: seq<Cycle>)
    requires Traced(m, m1, pre)
    ensures var (m2, v) := LoadCycle(b, m1, kind, a);
      Traced(m, m2, pre + [In(kind, a)]) && LastReads(m, m2, v) && m2.regs == m1.regs
      && |m1.log.accesses| < |m2.log.accesses| && m1.log.accesses <= m2.log.accesses
  {
    hide LoadCycle, Cycled, OneMore;
    LoadTraced(b, m1, kind, a);
    TracedThen(m, m1, LoadCycle(b, m1, kind, a).0, pre, [In(kind, a)]);
  }

  lemma PageReadBehind(b: Bus, m: Machine, m1: Machine, kind: Kind, a: word, pre: seq<Cycle>)
    requires Traced(m, m1, pre)
    ensures var (m2, v) := LoadPageCycle(b, m1, kind, a);
      Traced(m, m2, pre + [In(kind, a)]) && LastReads(m, m2, v) && m2.regs == m1.regs
  {
    hide LoadPageCycle, Cycled, OneMore;
    LoadPageTraced(b, m1, kind, a);
    TracedThen(m, m1, LoadPageCycle(b, m1, kind, a).0, pre, [In(kind, a)]);
  }

  lemma WriteBehind(b: Bus, m: Machine, m1: Machine, kind: Kind, a: word, v: byte, pre: seq<Cycle>)
    requires Traced(m, m1, pre)
    ensures var m2 := StoreCycle(b, m1, kind, a, v);
      Traced(m, m2, pre + [Out(kind, a, v)]) && m2.regs == m1.regs
      && |m1.log.accesses| < |m2.log.accesses| && m1.log.accesses <= m2.log.accesses
  {
    hide StoreCycle, Cycled, OneMore;
    StoreTraced(b, m1, kind, a, v);
    TracedThen(m, m1, StoreCycle(b, m1, kind, a, v), pre, [Out(kind, a, v)]);
  }

  lemma PageWriteBehind(b: Bus, m: Machine, m1: Machine, kind: Kind, a: word, v: byte, pre: seq<Cycle>)
    requires Traced(m, m1, pre)
    ensures var m2 := StorePageCycle(b, m1, kind, a, v);
      Traced(m, m2, pre + [Out(kind, a, v)]) && m2.regs == m1.regs
  {
    hide StorePageCycle, Cycled, OneMore;
    StorePageTraced(b, m1, kind, a, v);
    TracedThen(m, m1, StorePageCycle(b, m1, kind, a, v), pre, [Out(kind, a, v)]);
  }

  lemma GetIndexedTraced(b: Bus, m: Machine, kind: Kind, base: word, index: byte)
    ensures var (m1, v) := GetIndexed(b, m, kind, base, index);
      Traced(m, m1, Crossing(base, index) + [In(kind, (base + index) % 0x1_0000)]) && LastReads(m, m1, v)
  {
    hide LoadCycle, CrossRead, AlwaysRead, Traced, Crossing, Cycled, LastReads;
    CrossTraced(b, m, base, index);
    ReadBehind(b, m, CrossRead(b, m, base, index), kind, Indexed(base, index), Crossing(base, index));
  }

  lemma GetIndexedRmwTraced(b: Bus, m: Machine, base: word, index: byte)
    ensures var (m1, v) := GetIndexedRmw(b, m, base, index);
      Traced(m, m1, [In(Dummy, WithoutCarry(base, index))] + [In(Real, (base + index) % 0x1_0000)]) && LastReads(m, m1, v)
  {
    hide LoadCycle, CrossRead, AlwaysRead, Traced, WithoutCarry, Cycled, LastReads;
    CrossTraced(b, m, base, index);
    ReadBehind(b, m, AlwaysRead(b, m, base, index), Real, Indexed(base, index), [In(Dummy, WithoutCarry(base, index))]);
  }

  lemma SetIndexedTraced(b: Bus, m: Machine, base: word, index: byte, v: byte)
    ensures Traced(m, SetIndexed(b, m, base, index, v),
                   [In(Dummy, WithoutCarry(base, index))] + [Out(Write, (base + index) % 0x1_0000, v)])
  {
    hide StoreCycle, CrossRead, AlwaysRead, Traced, WithoutCarry, Cycled;
    CrossTraced(b, m, base, index);
    WriteBehind(b, m, AlwaysRead(b, m, base, index), Write, Indexed(base, index), v,
                [In(Dummy, WithoutCarry(base, index))]);
  }

  lemma GetZeroIndexedTraced(b: Bus, m: Machine, kind: Kind, p1: byte, index: byte)
    ensures var (m1, v) := GetZeroIndexed(b, m, kind, p1, index);
      Traced(m, m1, [In(Dummy, p1)] + [In(kind, (p1 + index) % 0x100)]) && LastReads(m, m1, v)
  {
    hide LoadPageCycle, Traced, Cycled, LastReads;
    LoadPageTraced(b, m, Dummy, p1);
    PageReadBehind(b, m, LoadPageCycle(b, m, Dummy, p1).0, kind, Wrap8(p1 + index), [In(Dummy, p1)]);
  }

  lemma SetZeroIndexedTraced(b: Bus, m: Machine, p1: byte, index: byte, v: byte)
    ensures Traced(m, SetZeroIndexed(b, m, p1, index, v), [In(Dummy, p1)] + [Out(Write, (p1 + index) % 0x100, v)])
  {
    hide LoadPageCycle, StorePageCycle, Traced, Cycled;
    LoadPageTraced(b, m, Dummy, p1);
    PageWriteBehind(b, m, LoadPageCycle(b, m, Dummy, p1).0, Write, Wrap8(p1 + index), v, [In(Dummy, p1)]);
  }

  lemma PointerXTraced(b: Bus, m: Machine, p1: byte, p2: word)
    ensures var (m1, a) := PointerX(b, m, p1);
      Traced(m, m1, Prelude(IndX, m.regs, p1, p2, a)) && a == Pointer(IndX, m1.log.accesses, |m.log.accesses|)
      && |m1.log.accesses| == |m.log.accesses| + 3
  {
    hide LoadPageCycle, ReadPointer, Traced, Cycled, OneMore;
    var m0 := LoadPageCycle(b, m, Dummy, p1).0;
    var at: int := Wrap8(p1 + m.regs.x);
    LoadPageTraced(b, m, Dummy, p1);
    PointerTraced(b, m0, at);
    TracedThen(m, m0, ReadPointer(b, m0, at).0, [In(Dummy, p1)], [In(Real, at), In(Real, (at + 1) % 0x100)]);
    assert [In(Dummy, p1 as int)] + [In(Real, at), In(Real, (at + 1) % 0x100)]
           == [In(Dummy, p1), In(Real, at), In(Real, (at + 1) % 0x100)];
    assert (at + 1) % 0x100 == (p1 + m.regs.x + 1) % 0x100;
  }

  lemma PointerYTraced(b: Bus, m: Machine, p1: byte, p2: word, always: bool)
    ensures var (m1, a) := PointerY(b, m, p1, always);
      var gf, ptr := if always then IndYRmw else IndY, Pointer(IndY, m1.log.accesses, |m.log.accesses|);
      Traced(m, m1, Prelude(gf, m.regs, p1, p2, ptr)) && a == (ptr + m.regs.y) % 0x1_0000
      && |m1.log.accesses| >= |m.log.accesses| + 2
  {
    hide ReadPointer, CrossRead, AlwaysRead, Traced, Crossing, WithoutCarry, Cycled;
    PointerTraced(b, m, p1);
    var (m1, base) := ReadPointer(b, m, p1);
    var y := m.regs.y;
    var two := [In(Real, p1), In(Real, (p1 + 1) % 0x100)];
    CrossTraced(b, m1, base, y);
    if always {
      StaysRecorded(m1, AlwaysRead(b, m1, base, y), [In(Dummy, WithoutCarry(base, y))]);
      TracedThen(m, m1, AlwaysRead(b, m1, base, y), two, [In(Dummy, WithoutCarry(base, y))]);
    } else {
      StaysRecorded(m1, CrossRead(b, m1, base, y), Crossing(base, y));
      TracedThen(m, m1, CrossRead(b, m1, base, y), two, Crossing(base, y));
    }
  }

  // ---- The modes -----------------------------------------------------------------------------

  /** Accesses that come later change no pointer that has been read. */
  lemma PointerStays(gf: GetFn, m: Machine, m1: Machine, m2: Machine)
    requires m1.log.accesses <= m2.log.accesses
    requires gf in {IndX, IndY, IndYRmw} ==>
      |m.log.accesses| + (if gf.IndX? then 3 else 2) <= |m1.log.accesses|
    ensures gf in {IndX, IndY, IndYRmw} ==>
      Pointer(gf, m1.log.accesses, |m.log.accesses|) == Pointer(gf, m2.log.accesses, |m.log.accesses|)
  {
  }

  /** Every get mode but the immediate one follows its trace to its target, reads there what it returns, and
      hands its target on only where a write-back through a pointer needs it. */
  lemma GetFollows(b: Bus, m: Machine, gf: GetFn, p1: byte, p2: word)
    requires !gf.Imm?
    ensures var (m1, v) := CallGet(b, m, gf, p1, p2);
      && Follows(m, m1, gf, p1, p2, Reading(Real)) && LastReads(m, m1, v)
      && m1.indAddr == if gf.IndYRmw? then Target(gf, m.regs, p1, p2, Pointer(gf, m1.log.accesses, |m.log.accesses|))
                       else m.indAddr
  {
    hide Cycled, Sound, OneMore, Traced, Crossing, WithoutCarry, LastReads;
    match gf {
      case IndX => IndirectXGet(b, m, p1, p2);
      case IndY => IndirectYGet(b, m, p1, p2);
      case IndYRmw => IndirectYRmwGet(b, m, p1, p2);
      case _ => DirectGet(b, m, gf, p1, p2);
    }
  }

  lemma Alone(c: Cycle)
    ensures [] + [c] == [c]
  {
  }

  lemma DirectGet(b: Bus, m: Machine, gf: GetFn, p1: byte, p2: word)
    requires gf !in {Imm, IndX, IndY, IndYRmw}
    ensures var (m1, v) := CallGet(b, m, gf, p1, p2);
      Follows(m, m1, gf, p1, p2, Reading(Real)) && LastReads(m, m1, v) && m1.indAddr == m.indAddr
  {
    hide Cycled, Sound, OneMore, Traced, Crossing, WithoutCarry;
    hide LoadCycle, LoadPageCycle, GetIndexed, GetIndexedRmw, GetZeroIndexed;
    match gf {
      case Zero => LoadPageTraced(b, m, Real, p1); Alone(In(Real, p1));
      case ZeroX => GetZeroIndexedTraced(b, m, Real, p1, m.regs.x);
      case ZeroY => GetZeroIndexedTraced(b, m, Real, p1, m.regs.y);
      case Abs => LoadTraced(b, m, Real, p2); Alone(In(Real, p2));
      case AbsX => GetIndexedTraced(b, m, Real, p2, m.regs.x);
      case AbsY => GetIndexedTraced(b, m, Real, p2, m.regs.y);
      case AbsXRmw => GetIndexedRmwTraced(b, m, p2, m.regs.x);
      case AbsYRmw => GetIndexedRmwTraced(b, m, p2, m.regs.y);
    }
  }

  lemma IndirectXGet(b: Bus, m: Machine, p1: byte, p2: word)
    ensures var (m1, v) := CallGet(b, m, IndX, p1, p2);
      Follows(m, m1, IndX, p1, p2, Reading(Real)) && LastReads(m, m1, v) && m1.indAddr == m.indAddr
  {
    hide Cycled, Sound, OneMore, Traced, Prelude, LoadCycle, PointerX, Pointer, LastReads;
    PointerXTraced(b, m, p1, p2);
    var (m1, a) := PointerX(b, m, p1);
    ReadBehind(b, m, m1, Real, a, Prelude(IndX, m.regs, p1, p2, a));
    PointerStays(IndX, m, m1, LoadCycle(b, m1, Real, a).0);
  }

  lemma IndirectYGet(b: Bus, m: Machine, p1: byte, p2: word)
    ensures var (m1, v) := CallGet(b, m, IndY, p1, p2);
      Follows(m, m1, IndY, p1, p2, Reading(Real)) && LastReads(m, m1, v) && m1.indAddr == m.indAddr
  {
    hide Cycled, Sound, OneMore, Traced, Prelude, LoadCycle, PointerY, Pointer, LastReads;
    PointerYTraced(b, m, p1, p2, false);
    var (m1, a) := PointerY(b, m, p1, false);
    ReadBehind(b, m, m1, Real, a, Prelude(IndY, m.regs, p1, p2, Pointer(IndY, m1.log.accesses, |m.log.accesses|)));
    PointerStays(IndY, m, m1, LoadCycle(b, m1, Real, a).0);
  }

  lemma SamePointer(acc: seq<Access>, n: nat)
    ensures Pointer(IndYRmw, acc, n) == Pointer(IndY, acc, n)
  {
  }

  lemma IndirectYRmwGet(b: Bus, m: Machine, p1: byte, p2: word)
    ensures var (m1, v) := CallGet(b, m, IndYRmw, p1, p2);
      Follows(m, m1, IndYRmw, p1, p2, Reading(Real)) && LastReads(m, m1, v)
      && m1.indAddr == Target(IndYRmw, m.regs, p1, p2, Pointer(IndYRmw, m1.log.accesses, |m.log.accesses|))
  {
    hide Cycled, Sound, OneMore, Traced, Prelude, LoadCycle, PointerY, Pointer, LastReads;
    PointerYTraced(b, m, p1, p2, true);
    var (m1, a) := PointerY(b, m, p1, true);
    SamePointer(m1.log.accesses, |m.log.accesses|);
    ReadBehind(b, m, m1, Real, a, Prelude(IndYRmw, m.regs, p1, p2, Pointer(IndYRmw, m1.log.accesses, |m.log.accesses|)));
    PointerStays(IndYRmw, m, m1, LoadCycle(b, m1, Real, a).0);
    SameTrace(m, LoadCycle(b, m1, Real, a).0, a, IndYRmw, p1, p2, Reading(Real));
  }

  /** The register for an indirect write-back is no access. */
  lemma SameTrace(m: Machine, m1: Machine, a: word, gf: GetFn, p1: byte, p2: word, last: Last)
    ensures Follows(m, m1, gf, p1, p2, last) ==> Follows(m, m1.(indAddr := a), gf, p1, p2, last)
    ensures forall v :: LastReads(m, m1, v) ==> LastReads(m, m1.(indAddr := a), v)
  {
  }

  /** What a NOP with an operand reads and throws away. */
  lemma DummyFollows(b: Bus, m: Machine, gf: GetFn, p1: byte, p2: word)
    requires gf in {Zero, ZeroX, Abs, AbsX}
    ensures Follows(m, CallGetDummy(b, m, gf, p1, p2), gf, p1, p2, Reading(Dummy))
  {
    hide Cycled, Sound, OneMore, Traced, Crossing, WithoutCarry, LastReads;
    hide LoadCycle, LoadPageCycle, GetIndexed, GetZeroIndexed;
    match gf {
      case Zero => LoadPageTraced(b, m, Dummy, p1); Alone(In(Dummy, p1));
      case ZeroX => GetZeroIndexedTraced(b, m, Dummy, p1, m.regs.x);
      case Abs => LoadTraced(b, m, Dummy, p2); Alone(In(Dummy, p2));
      case AbsX => GetIndexedTraced(b, m, Dummy, p2, m.regs.x);
    }
  }

  /** The mode of a plain store; an indexed one makes its dummy read in any case. */
  function ModeOf(sf: SetFn): (gf: GetFn)
    requires Plain(sf)
    ensures gf in {Zero, ZeroX, ZeroY, Abs, AbsXRmw, AbsYRmw, IndX, IndYRmw}
  {
    match sf
    case SZero => Zero
    case SZeroX => ZeroX
    case SZeroY => ZeroY
    case SAbs => Abs
    case SAbsX => AbsXRmw
    case SAbsY => AbsYRmw
    case SIndX => IndX
    case SIndY => IndYRmw
  }

  /** Every plain store follows the trace of its mode and ends with the write of its value at the target. */
  lemma StoreFollows(b: Bus, m: Machine, sf: SetFn, p1: byte, p2: word, v: byte)
    requires Plain(sf)
    ensures Follows(m, CallSetStore(b, m, sf, p1, p2, v), ModeOf(sf), p1, p2, Writing(v))
  {
    hide Cycled, Sound, OneMore, Traced, Crossing, WithoutCarry;
    match sf {
      case SIndX => IndirectXSet(b, m, p1, p2, v);
      case SIndY => IndirectYSet(b, m, p1, p2, v);
      case _ => DirectSet(b, m, sf, p1, p2, v);
    }
  }

  lemma DirectSet(b: Bus, m: Machine, sf: SetFn, p1: byte, p2: word, v: byte)
    requires Plain(sf) && sf !in {SIndX, SIndY}
    ensures Follows(m, CallSetStore(b, m, sf, p1, p2, v), ModeOf(sf), p1, p2, Writing(v))
  {
    hide Cycled, Sound, OneMore, Traced, WithoutCarry;
    hide StoreCycle, StorePageCycle, SetIndexed, SetZeroIndexed;
    match sf {
      case SZero => StorePageTraced(b, m, Write, p1, v); Alone(Out(Write, p1, v));
      case SZeroX => SetZeroIndexedTraced(b, m, p1, m.regs.x, v);
      case SZeroY => SetZeroIndexedTraced(b, m, p1, m.regs.y, v);
      case SAbs => StoreTraced(b, m, Write, p2, v); Alone(Out(Write, p2, v));
      case SAbsX => SetIndexedTraced(b, m, p2, m.regs.x, v);
      case SAbsY => SetIndexedTraced(b, m, p2, m.regs.y, v);
    }
  }

  lemma IndirectXSet(b: Bus, m: Machine, p1: byte, p2: word, v: byte)
    ensures Follows(m, CallSetStore(b, m, SIndX, p1, p2, v), IndX, p1, p2, Writing(v))
  {
    hide Cycled, Sound, OneMore, Traced, Prelude, StoreCycle, PointerX, Pointer;
    PointerXTraced(b, m, p1, p2);
    var (m1, a) := PointerX(b, m, p1);
    WriteBehind(b, m, m1, Write, a, v, Prelude(IndX, m.regs, p1, p2, a));
    PointerStays(IndX, m, m1, StoreCycle(b, m1, Write, a, v));
  }

  lemma IndirectYSet(b: Bus, m: Machine, p1: byte, p2: word, v: byte)
    ensures Follows(m, CallSetStore(b, m, SIndY, p1, p2, v), IndYRmw, p1, p2, Writing(v))
  {
    hide Cycled, Sound, OneMore, Traced, Prelude, StoreCycle, PointerY, Pointer;
    PointerYTraced(b, m, p1, p2, true);
    var (m1, a) := PointerY(b, m, p1, true);
    SamePointer(m1.log.accesses, |m.log.accesses|);
    var ptr := Pointer(IndYRmw, m1.log.accesses, |m.log.accesses|);
    WriteBehind(b, m, m1, Write, a, v, Prelude(IndYRmw, m.regs, p1, p2, ptr));
    PointerStays(IndYRmw, m, m1, StoreCycle(b, m1, Write, a, v));
  }

  // ---- The table -----------------------------------------------------------------------------

  /** A byte of the stack page. */
  function Stack(sp: int): word { 0x100 + sp % 0x100 }

  function Next(pc: int, n: int): word { (pc + n) % 0x1_0000 }

  /** What the access at `at` carried. */
  function Carried(acc: seq<Access>, at: nat): int { if at < |acc| then acc[at].value else 0 }

  function WordAt(acc: seq<Access>, at: nat): int { Carried(acc, at) + 0x100 * Carried(acc, at + 1) }

  /** The flag a condition asks for, and the state it asks for. */
  predicate Holds(p: Flags, cond: Condition) {
    match cond
    case Plus | Minus => p.n == cond.Minus?
    case OverflowClear | OverflowSet => p.v == cond.OverflowSet?
    case CarryClear | CarrySet => p.c == cond.CarrySet?
    case NotZero | IsZero => p.z == cond.IsZero?
  }

  /** Where a branch goes: its offset is signed and counts from the next instruction. */
  function Destination(r: Regs, p1: int): int { Next(r.pc, 2 + (if p1 >= 0x80 then p1 - 0x100 else p1)) }

  function BranchTrace(r: Regs, p1: int): seq<Cycle> {
    var next, to := Next(r.pc, 2), Destination(r, p1);
    [In(Dummy, next)] +
    (if next / 0x100 != to / 0x100 then [In(Dummy, next / 0x100 * 0x100 + to % 0x100)] else [])
  }

  /** The address a read-modify-write writes back to: its target, but for ($nn,X) what the core keeps for it. */
  function BackTo(gf: GetFn, target: int, kept: int): int { if gf.IndX? then kept else target }

  function RmwTrace(op: RmwOp, gf: GetFn, r: Regs, kept: int, p1: int, p2: int, acc: seq<Access>, n: nat): seq<Cycle> {
    var get := ModeTrace(gf, r, p1, p2, Pointer(gf, acc, n), Reading(Real));
    var at := n + |get| - 1;
    var w := BackTo(gf, Target(gf, r, p1, p2, Pointer(gf, acc, n)), kept);
    if at < |acc| then
      get + [Out(DummyWrite, w, acc[at].value), Out(Write, w, RmwOperation(op, r, acc[at].value).1)]
    else get
  }

  /** P as a push stores it, the unused bit set. */
  function Packed(f: Flags): int {
    (if f.n then 0x80 else 0) + (if f.v then 0x40 else 0) + 0x20 + (if f.b then 0x10 else 0) +
    (if f.d then 0x08 else 0) + (if f.i then 0x04 else 0) + (if f.z then 0x02 else 0) + (if f.c then 0x01 else 0)
  }

  function BrkTrace(r: Regs, v: int): seq<Cycle> {
    var pc, sp := Next(r.pc, 2), r.sp;
    [Out(Write, Stack(sp), pc / 0x100), Out(Write, Stack(sp - 1), pc % 0x100),
     Out(Write, Stack(sp - 2), Packed(r.p.(b := true))), In(Real, v), In(Real, v + 1)]
  }

  function StoredReg(r: Regs, reg: Reg): int {
    if reg == A then r.a else if reg == X then r.x else if reg == Y then r.y else And(r.a, r.x)
  }

  /** The accesses of an instruction behind its fetch, from the registers before it, its operands, and what
      its own reads returned (the accesses from `n` on); `v` is the vector a BRK is sent through. */
  function TraceOf(i: Instr, r: Regs, kept: int, p1: int, p2: int, acc: seq<Access>, n: nat, v: int): seq<Cycle> {
    match i
    case Read(_, gf, _) => if gf.Imm? then [] else ModeTrace(gf, r, p1, p2, Pointer(gf, acc, n), Reading(Real))
    case Noop(gf, _) =>
      if gf in {Zero, ZeroX, Abs, AbsX} then ModeTrace(gf, r, p1, p2, Pointer(gf, acc, n), Reading(Dummy)) else []
    case Rmw(op, gf, _, _) => RmwTrace(op, gf, r, kept, p1, p2, acc, n)
    case StoreReg(reg, sf, _) =>
      if Plain(sf) then ModeTrace(ModeOf(sf), r, p1, p2, Pointer(ModeOf(sf), acc, n), Writing(StoredReg(r, reg))) else []
    case Branch(cond) => if Holds(r.p, cond) then BranchTrace(r, p1) else []
    case JmpInd => [In(Real, p2), In(Real, p2 / 0x100 * 0x100 + (p2 + 1) % 0x100)]
    case Jsr =>
      [In(Dummy, Stack(r.sp)), Out(Write, Stack(r.sp), Next(r.pc, 2) / 0x100),
       Out(Write, Stack(r.sp - 1), Next(r.pc, 2) % 0x100), In(Fetch, Next(r.pc, 2))]
    case Rts =>
      [In(Dummy, Stack(r.sp)), In(Real, Stack(r.sp + 1)), In(Real, Stack(r.sp + 2)), In(Dummy, WordAt(acc, n + 1))]
    case Rti => [In(Dummy, Stack(r.sp)), In(Real, Stack(r.sp + 1)), In(Real, Stack(r.sp + 2)), In(Real, Stack(r.sp + 3))]
    case Brk => BrkTrace(r, v)
    case Pha => [Out(Write, Stack(r.sp), r.a)]
    case Php => [Out(Write, Stack(r.sp), Packed(r.p.(b := true)))]
    case Pla | Plp => [In(Dummy, Stack(r.sp)), In(Real, Stack(r.sp + 1))]
    case Las => ModeTrace(AbsY, r, p1, p2, 0, Reading(Real))
    case ShaIndY =>
      [In(Real, p1), In(Real, (p1 + 1) % 0x100), In(Real, WithoutCarry(WordAt(acc, n), r.y)), Stray]
    case ShAbs(_, index) => [In(Dummy, WithoutCarry(p2, StoredReg(r, index))), Stray]
    case ShsAbsY => [In(Dummy, WithoutCarry(p2, r.y)), Stray]
    case _ => []
  }

  /** Where the program goes on. */
  function PcAfter(i: Instr, r: Regs, p1: int, p2: int, acc: seq<Access>, n: nat, v: int): int {
    match i
    case Read(_, _, length) => Next(r.pc, length)
    case Noop(_, length) => Next(r.pc, length)
    case Rmw(_, _, _, length) => Next(r.pc, length)
    case StoreReg(_, _, length) => Next(r.pc, length)
    case Implied(_) | Cli | Sei | Pha | Php | Pla | Plp => Next(r.pc, 1)
    case Immediate(_) | Ane | Lxa | ShaIndY => Next(r.pc, 2)
    case Las | ShAbs(_, _) | ShsAbsY => Next(r.pc, 3)
    case Branch(cond) => if Holds(r.p, cond) then Destination(r, p1) else Next(r.pc, 2)
    case Jmp => p2
    case JmpInd => WordAt(acc, n)
    case Jsr => p1 + 0x100 * Carried(acc, n + 3)
    case Rts => Next(WordAt(acc, n + 1), 1)
    case Rti => WordAt(acc, n + 2)
    case Brk => WordAt(acc, n + 3)
    case Jam => r.pc
  }

  predicate MovesStack(i: Instr) { i in {Implied(Txs), Las, ShsAbsY} }

  /** How far the stack pointer moves, wrapping in its page, where it is not loaded. */
  function StackMove(i: Instr): int {
    match i
    case Pha | Php => -1
    case Pla | Plp => 1
    case Jsr => -2
    case Rts => 2
    case Brk => -3
    case Rti => 3
    case _ => 0
  }

  /** The opcode body did what the table says. */
  ghost predicate Performs(m: Machine, r: Machine, i: Instr, p1: int, p2: int, v: int) {
    var acc, n := r.log.accesses, |m.log.accesses|;
    var traced := Traced(m, r, TraceOf(i, m.regs, m.indAddr, p1, p2, acc, n, v));
    var moved := MovesStack(i) || r.regs.sp == (m.regs.sp + StackMove(i)) % 0x100;
    var performs := traced && moved && r.regs.pc == PcAfter(i, m.regs, p1, p2, acc, n, v);
    performs
  }

  // ---- The instructions that follow a mode ---------------------------------------------------

  /** No operation moves the program counter or the stack pointer. */
  lemma OperationsStay(r: Regs, v: byte, op: ReadOp, op': RmwOp, op'': ImmediateOp)
    ensures ReadOperation(op, r, v).pc == r.pc && ReadOperation(op, r, v).sp == r.sp
    ensures RmwOperation(op', r, v).0.pc == r.pc && RmwOperation(op', r, v).0.sp == r.sp
    ensures ImmediateOperation(op'', r, v).pc == r.pc && ImmediateOperation(op'', r, v).sp == r.sp
  {
  }

  lemma ImpliedStays(r: Regs, op: ImpliedOp)
    ensures ImpliedOperation(op, r).pc == r.pc && (op != Txs ==> ImpliedOperation(op, r).sp == r.sp)
  {
  }

  /** What is done to registers and marks is no access. */
  lemma SameLog(m: Machine, m1: Machine, m2: Machine, tr: seq<Cycle>)
    requires Traced(m, m1, tr) && m2.log == m1.log
    ensures Traced(m, m2, tr)
  {
  }

  lemma ReadPerforms(b: Bus, m: Machine, op: ReadOp, gf: GetFn, n: nat, p1: byte, p2: word)
    ensures Performs(m, ReadInstr(b, m, op, gf, n, p1, p2), Read(op, gf, n), p1, p2, 0)
  {
    hide CallGet, ReadOperation, Sound, Traced, Prelude, Target, Pointer, LastReads;
    var (m1, v) := CallGet(b, m, gf, p1, p2);
    OperationsStay(m1.regs, v, op, Asl, Anc);
    var r := ReadInstr(b, m, op, gf, n, p1, p2);
    if gf.Imm? {
      ImmediateIsOperand(b, m, p1, p2);
      TracedNothing(m, r);
    } else {
      GetFollows(b, m, gf, p1, p2);
      SameLog(m, m1, r, ModeTrace(gf, m.regs, p1, p2, Pointer(gf, m1.log.accesses, |m.log.accesses|), Reading(Real)));
    }
  }

  lemma ImmediateIsOperand(b: Bus, m: Machine, p1: byte, p2: word)
    ensures CallGet(b, m, Imm, p1, p2) == (m, p1)
  {
  }

  lemma NoopPerforms(b: Bus, m: Machine, gf: GetFn, n: nat, p1: byte, p2: word)
    ensures Performs(m, Execute(b, m, Noop(gf, n), p1, p2), Noop(gf, n), p1, p2, 0)
  {
    hide CallGetDummy, Sound, Kept, Traced, Prelude, Target, Pointer, LastReads;
    var m1 := CallGetDummy(b, m, gf, p1, p2);
    var r := Execute(b, m, Noop(gf, n), p1, p2);
    if gf in {Zero, ZeroX, Abs, AbsX} {
      DummyFollows(b, m, gf, p1, p2);
      SameLog(m, m1, r, ModeTrace(gf, m.regs, p1, p2, Pointer(gf, m1.log.accesses, |m.log.accesses|), Reading(Dummy)));
    } else {
      NothingToRead(b, m, gf, p1, p2);
      TracedNothing(m, r);
    }
  }

  lemma NothingToRead(b: Bus, m: Machine, gf: GetFn, p1: byte, p2: word)
    requires gf !in {Zero, ZeroX, Abs, AbsX}
    ensures CallGetDummy(b, m, gf, p1, p2) == m
  {
  }

  lemma StorePerforms(b: Bus, m: Machine, reg: Reg, sf: SetFn, n: nat, p1: byte, p2: word)
    requires Plain(sf)
    ensures Performs(m, Execute(b, m, StoreReg(reg, sf, n), p1, p2), StoreReg(reg, sf, n), p1, p2, 0)
  {
    hide CallSetStore, Sound, Kept, Traced, Pointer, And;
    var m0 := SetRegs(m, IncPc(m.regs, n));
    StoreFollows(b, m0, sf, p1, p2, RegValue(m.regs, reg));
    var r := CallSetStore(b, m0, sf, p1, p2, RegValue(m.regs, reg));
    var ptr := Pointer(ModeOf(sf), r.log.accesses, |m.log.accesses|);
    PreludeReadsIndexes(ModeOf(sf), m.regs, m0.regs, p1, p2, ptr);
    hide Prelude, Target, ModeOf;
    FromSameLog(m, m0, r);
  }

  /** Modes read the index registers only. */
  lemma PreludeReadsIndexes(gf: GetFn, r: Regs, r': Regs, p1: int, p2: int, ptr: int)
    requires r'.x == r.x && r'.y == r.y
    ensures Prelude(gf, r', p1, p2, ptr) == Prelude(gf, r, p1, p2, ptr)
    ensures Target(gf, r', p1, p2, ptr) == Target(gf, r, p1, p2, ptr)
  {
  }

  lemma FromSameLog(m: Machine, m0: Machine, r: Machine)
    requires m0.log == m.log
    ensures forall tr :: Traced(m0, r, tr) <==> Traced(m, r, tr)
  {
  }

  lemma WriteBackTraced(b: Bus, m: Machine, a: word, old_: byte, new_: byte)
    ensures Traced(m, WriteBack(b, m, a, old_, new_), [Out(DummyWrite, a, old_), Out(Write, a, new_)])
    ensures WriteBack(b, m, a, old_, new_).regs == m.regs
  {
    hide StoreCycle, Traced, Cycled;
    StoreTraced(b, m, DummyWrite, a, old_);
    WriteBehind(b, m, StoreCycle(b, m, DummyWrite, a, old_), Write, a, new_, [Out(DummyWrite, a, old_)]);
    assert [Out(DummyWrite, a as int, old_ as int)] + [Out(Write, a as int, new_ as int)]
           == [Out(DummyWrite, a, old_), Out(Write, a, new_)];
  }

  lemma WriteBackPageTraced(b: Bus, m: Machine, a: byte, old_: byte, new_: byte)
    ensures Traced(m, WriteBackPage(b, m, a, old_, new_), [Out(DummyWrite, a, old_), Out(Write, a, new_)])
    ensures WriteBackPage(b, m, a, old_, new_).regs == m.regs
  {
    hide StorePageCycle, Traced, Cycled;
    StorePageTraced(b, m, DummyWrite, a, old_);
    PageWriteBehind(b, m, StorePageCycle(b, m, DummyWrite, a, old_), Write, a, new_, [Out(DummyWrite, a, old_)]);
    assert [Out(DummyWrite, a as int, old_ as int)] + [Out(Write, a as int, new_ as int)]
           == [Out(DummyWrite, a, old_), Out(Write, a, new_)];
  }

  /** The write-back of a read-modify-write: where the mode reads, or at what the core keeps for it. */
  lemma SetTraced(b: Bus, m: Machine, gf: GetFn, sf: SetFn, p1: byte, p2: word, old_: byte, new_: byte, ptr: int)
    requires WritesBackWhereItReads(gf, sf)
    requires gf.IndYRmw? ==> m.indAddr == Target(gf, m.regs, p1, p2, ptr)
    ensures var w := BackTo(gf, Target(gf, m.regs, p1, p2, ptr), m.indAddr);
      && Traced(m, CallSet(b, m, sf, p1, p2, old_, new_), [Out(DummyWrite, w, old_), Out(Write, w, new_)])
      && CallSet(b, m, sf, p1, p2, old_, new_).regs == m.regs
  {
    hide WriteBack, WriteBackPage, Traced, Cycled, Lead;
    match sf {
      case SZeroRmw => WriteBackPageTraced(b, m, p1, old_, new_);
      case SZeroXRmw => WriteBackPageTraced(b, m, Wrap8(p1 + m.regs.x), old_, new_);
      case SAbsRmw => WriteBackTraced(b, m, p2, old_, new_);
      case SAbsXRmw => WriteBackTraced(b, m, Indexed(p2, m.regs.x), old_, new_);
      case SAbsYRmw => WriteBackTraced(b, m, Indexed(p2, m.regs.y), old_, new_);
      case SIndRmw => WriteBackTraced(b, m, m.indAddr, old_, new_);
    }
  }

  lemma RmwKeepsIndexes(op: RmwOp, r: Regs, v: byte)
    ensures RmwOperation(op, r, v).0.x == r.x && RmwOperation(op, r, v).0.y == r.y
  {
  }

  lemma RmwPerforms(b: Bus, m: Machine, op: RmwOp, gf: GetFn, sf: SetFn, n: nat, p1: byte, p2: word)
    requires !gf.Imm? && WritesBackWhereItReads(gf, sf)
    ensures Performs(m, RmwInstr(b, m, op, gf, sf, n, p1, p2), Rmw(op, gf, sf, n), p1, p2, 0)
  {
    hide CallGet, CallSet, RmwOperation, Sound, Cycled, Prelude, Target, Pointer, WritesBackWhereItReads;
    GetFollows(b, m, gf, p1, p2);
    var (m1, old_) := CallGet(b, m, gf, p1, p2);
    var (regs, new_) := RmwOperation(op, m1.regs, old_);
    OperationsStay(m1.regs, old_, Lda, op, Anc);
    RmwKeepsIndexes(op, m1.regs, old_);
    var m2 := SetRegs(m1, IncPc(regs, n));
    var k := |m.log.accesses|;
    var ptr := Pointer(gf, m1.log.accesses, k);
    PreludeReadsIndexes(gf, m.regs, m2.regs, p1, p2, ptr);
    SetTraced(b, m2, gf, sf, p1, p2, old_, new_, ptr);
    var r := CallSet(b, m2, sf, p1, p2, old_, new_);
    RmwTraces(m, m1, m2, r, op, gf, p1, p2, old_, new_);
  }

  /** The get and the write-back behind it. */
  lemma RmwTraces(m: Machine, m1: Machine, m2: Machine, r: Machine, op: RmwOp, gf: GetFn, p1: byte, p2: word,
                  old_: byte, new_: byte)
    requires !gf.Imm? && Follows(m, m1, gf, p1, p2, Reading(Real)) && LastReads(m, m1, old_) && m2.log == m1.log
    requires new_ == RmwOperation(op, m.regs, old_).1
    requires m2.indAddr == m.indAddr || !gf.IndX?
    requires var w := BackTo(gf, Target(gf, m.regs, p1, p2, Pointer(gf, m1.log.accesses, |m.log.accesses|)), m.indAddr);
      Traced(m2, r, [Out(DummyWrite, w, old_), Out(Write, w, new_)])
    ensures Traced(m, r, RmwTrace(op, gf, m.regs, m.indAddr, p1, p2, r.log.accesses, |m.log.accesses|))
  {
    hide RmwOperation;
    var k, acc := |m.log.accesses|, r.log.accesses;
    var ptr := Pointer(gf, m1.log.accesses, k);
    var get := ModeTrace(gf, m.regs, p1, p2, ptr, Reading(Real));
    var w := BackTo(gf, Target(gf, m.regs, p1, p2, ptr), m.indAddr);
    EnoughForPointer(gf, m.regs, p1, p2, ptr);
    hide Prelude, Target;
    PointerStays(gf, m, m1, r);
    hide Pointer;
    TracedThen(m, m1, r, get, [Out(DummyWrite, w, old_), Out(Write, w, new_)]);
    assert acc[k + |get| - 1] == m1.log.accesses[k + |get| - 1];
  }

  lemma EnoughForPointer(gf: GetFn, r: Regs, p1: int, p2: int, ptr: int)
    ensures gf.IndX? ==> |Prelude(gf, r, p1, p2, ptr)| == 3
    ensures gf.IndY? || gf.IndYRmw? ==> |Prelude(gf, r, p1, p2, ptr)| >= 2
  {
  }

  // ---- The other instructions ----------------------------------------------------------------

  lemma PeekTraced(b: Bus, m: Machine)
    ensures var r := PeekCycle(b, m);
      Traced(m, r, [In(Dummy, Stack(m.regs.sp))]) && r.regs == m.regs
  {
    hide LoadPageCycle, Traced;
    LoadPageTraced(b, m, Dummy, 0x100 + m.regs.sp);
  }

  lemma PushTraced(b: Bus, m: Machine, v: byte)
    ensures var r := PushCycle(b, m, v);
      && Traced(m, r, [Out(Write, Stack(m.regs.sp), v)])
      && r.regs == m.regs.(sp := (m.regs.sp - 1) % 0x100)
  {
    hide PushCycle, Traced, OneMore, Sound;
    TracedWrite(m, PushCycle(b, m, v), Write, 0x100 + m.regs.sp, v);
  }

  lemma PullTraced(b: Bus, m: Machine)
    ensures var (r, v) := PullCycle(b, m);
      && Traced(m, r, [In(Real, Stack(m.regs.sp + 1))]) && LastReads(m, r, v)
      && |r.log.accesses| == |m.log.accesses| + 1
      && r.regs == m.regs.(sp := (m.regs.sp + 1) % 0x100)
  {
    hide PullCycle, Traced, OneMore, Sound;
    var (r, v) := PullCycle(b, m);
    TracedRead(m, r, Real, 0x100 + Wrap8(m.regs.sp + 1), v);
  }

  lemma StackWraps(sp: int, k: int)
    ensures Stack(sp % 0x100 + k) == Stack(sp + k) && (sp % 0x100 + k) % 0x100 == (sp + k) % 0x100
  {
  }

  lemma Two(c: Cycle, d: Cycle)
    ensures [c] + [d] == [c, d]
  {
  }

  lemma Three(c: Cycle, d: Cycle, e: Cycle)
    ensures [c, d] + [e] == [c, d, e]
  {
  }

  lemma Four(c: Cycle, d: Cycle, e: Cycle, f: Cycle)
    ensures [c, d, e] + [f] == [c, d, e, f]
  {
  }

  lemma ConditionHolds(p: Flags, cond: Condition)
    ensures CondHolds(p, cond) <==> Holds(p, cond)
  {
  }

  lemma DestinationIs(r: Regs, p1: byte)
    ensures Wrap16(IncPc(r, 2).pc + SignExtend(p1)) == Destination(r, p1)
  {
  }

  /** The accesses of a taken branch, from the program counter behind it. */
  lemma TakenTraced(b: Bus, m: Machine, to: word)
    ensures var next, m1 := m.regs.pc, LoadCycle(b, m, Dummy, m.regs.pc).0;
      var m2 := LoadCycle(b, m1, Dummy, MakeWord(Hi(next), Lo(to))).0;
      && Traced(m, m1, [In(Dummy, next)]) && m1.regs == m.regs && m2.regs == m.regs
      && Traced(m, m2, [In(Dummy, next), In(Dummy, next / 0x100 * 0x100 + to % 0x100)])
  {
    hide LoadCycle, Traced, Cycled;
    var next := m.regs.pc;
    LoadTraced(b, m, Dummy, next);
    var m1 := LoadCycle(b, m, Dummy, next).0;
    var a := MakeWord(Hi(next), Lo(to));
    LoadTraced(b, m1, Dummy, a);
    TracedThen(m, m1, LoadCycle(b, m1, Dummy, a).0, [In(Dummy, next)], [In(Dummy, a)]);
    Two(In(Dummy, next), In(Dummy, a));
  }

  lemma BranchPerforms(b: Bus, m: Machine, cond: Condition, p1: byte, p2: word)
    ensures Performs(m, BranchInstr(b, m, cond, p1), Branch(cond), p1, p2, 0)
  {
    hide LoadCycle, Traced, Cycled, CondHolds, Holds, MakeWord, Destination, SignExtend, Sound, Accessed;
    ConditionHolds(m.regs.p, cond);
    var m0 := SetRegs(m, IncPc(m.regs, 2));
    var r := BranchInstr(b, m, cond, p1);
    FromSameLog(m, m0, r);
    if Holds(m.regs.p, cond) {
      var next: int := m0.regs.pc;
      DestinationIs(m.regs, p1);
      var to := Destination(m.regs, p1);
      TakenTraced(b, m0, to);
      var m1 := LoadCycle(b, m0, Dummy, next).0;
      if next / 0x100 != to / 0x100 {
        Two(In(Dummy, next), In(Dummy, next / 0x100 * 0x100 + to % 0x100));
        SameLog(m0, LoadCycle(b, m1, Dummy, MakeWord(Hi(next), Lo(to))).0, r, BranchTrace(m.regs, p1));
      } else {
        assert BranchTrace(m.regs, p1) == [In(Dummy, next)];
        SameLog(m0, m1, r, BranchTrace(m.regs, p1));
      }
    } else {
      TracedNothing(m, r);
    }
  }

  lemma WordIs(hi: byte, lo: byte)
    ensures MakeWord(hi, lo) == lo + 0x100 * hi
  {
  }

  /** The second byte of an indirect jump's pointer stays in the page of the first. */
  lemma SamePage(p: word)
    ensures MakeWord(Hi(p), Wrap8(Lo(p) + 1)) == p / 0x100 * 0x100 + (p + 1) % 0x100
  {
  }

  lemma JmpIndPerforms(b: Bus, m: Machine, p1: byte, p2: word)
    ensures Performs(m, JmpIndInstr(b, m, p2), JmpInd, p1, p2, 0)
  {
    hide LoadCycle, Traced, Cycled, MakeWord, Hi, Lo, Wrap8, Accessed, Sound;
    LoadTraced(b, m, Real, p2);
    var (m1, lo) := LoadCycle(b, m, Real, p2);
    var a := MakeWord(Hi(p2), Wrap8(Lo(p2) + 1));
    SamePage(p2);
    LoadTraced(b, m1, Real, a);
    var (m2, hi) := LoadCycle(b, m1, Real, a);
    WordIs(hi, lo);
    TracedThen(m, m1, m2, [In(Real, p2)], [In(Real, a)]);
    StaysRecorded(m1, m2, [In(Real, a)]);
    Two(In(Real, p2), In(Real, a));
    SameLog(m, m2, JmpIndInstr(b, m, p2), [In(Real, p2), In(Real, a)]);
  }

  lemma JsrPerforms(b: Bus, m: Machine, p1: byte, p2: word)
    ensures Performs(m, JsrInstr(b, m, p1), Jsr, p1, p2, 0)
  {
    hide LoadCycle, PushCycle, PeekCycle, Traced, Cycled, Stacked, Accessed, Sound, Stack;
    PeekTraced(b, m);
    var m1 := PeekCycle(b, m);
    var m2 := SetRegs(m1, IncPc(m1.regs, 2));
    PushTraced(b, m2, Hi(m2.regs.pc));
    var m3 := PushCycle(b, m2, Hi(m2.regs.pc));
    PushTraced(b, m3, Lo(m3.regs.pc));
    var m4 := PushCycle(b, m3, Lo(m3.regs.pc));
    LoadTraced(b, m4, Fetch, m4.regs.pc);
    var m5 := LoadCycle(b, m4, Fetch, m4.regs.pc).0;
    var pc: int, sp: int := m2.regs.pc, m.regs.sp;
    StackWraps(sp - 1, 0);
    StackWraps(sp - 1, -1);
    var c, f := In(Dummy, Stack(sp)), In(Fetch, pc);
    var d, e := Out(Write, Stack(sp), pc / 0x100), Out(Write, Stack(sp - 1), pc % 0x100);
    SameLog(m, m1, m2, [c]);
    TracedThen(m, m2, m3, [c], [d]);
    Two(c, d);
    TracedThen(m, m3, m4, [c, d], [e]);
    Three(c, d, e);
    TracedThen(m, m4, m5, [c, d, e], [f]);
    Four(c, d, e, f);
    StaysRecorded(m, m4, [c, d, e]);
    SameLog(m, m5, JsrInstr(b, m, p1), [c, d, e, f]);
  }

  lemma RtsPerforms(b: Bus, m: Machine, p1: byte, p2: word)
    ensures Performs(m, RtsInstr(b, m), Rts, p1, p2, 0)
  {
    hide LoadCycle, PullCycle, PeekCycle, Traced, Cycled, Stacked, Accessed, Sound, Stack, MakeWord, Wrap8;
    PeekTraced(b, m);
    var m0 := PeekCycle(b, m);
    PullTraced(b, m0);
    var (m1, lo) := PullCycle(b, m0);
    PullTraced(b, m1);
    var (m2, hi) := PullCycle(b, m1);
    var a := MakeWord(hi, lo);
    WordIs(hi, lo);
    LoadTraced(b, m2, Dummy, a);
    var m3 := LoadCycle(b, m2, Dummy, a).0;
    var sp: int := m.regs.sp;
    StackWraps(sp + 1, 1);
    var c, d, e, f := In(Dummy, Stack(sp)), In(Real, Stack(sp + 1)), In(Real, Stack(sp + 2)), In(Dummy, a);
    TracedThen(m, m0, m1, [c], [d]);
    Two(c, d);
    TracedThen(m, m1, m2, [c, d], [e]);
    Three(c, d, e);
    TracedThen(m, m2, m3, [c, d, e], [f]);
    Four(c, d, e, f);
    StaysRecorded(m, m0, [c]);
    StaysRecorded(m1, m2, [e]);
    StaysRecorded(m2, m3, [f]);
    SameLog(m, m3, RtsInstr(b, m), [c, d, e, f]);
  }

  lemma RtiPerforms(b: Bus, m: Machine, p1: byte, p2: word)
    ensures Performs(m, RtiInstr(b, m), Rti, p1, p2, 0)
  {
    hide PullCycle, PeekCycle, Traced, Cycled, Stacked, FromStatus, Stack, Sound, MakeWord, Wrap8;
    PeekTraced(b, m);
    var m0 := PeekCycle(b, m);
    PullTraced(b, m0);
    var (m1, p) := PullCycle(b, m0);
    var m1' := SetRegs(m1, m1.regs.(p := FromStatus(p)));
    PullTraced(b, m1');
    var (m2, lo) := PullCycle(b, m1');
    PullTraced(b, m2);
    var (m3, hi) := PullCycle(b, m2);
    WordIs(hi, lo);
    var sp: int := m.regs.sp;
    StackWraps(sp + 1, 1);
    StackWraps(sp + 2, 1);
    var c, d, e, f := In(Dummy, Stack(sp)), In(Real, Stack(sp + 1)), In(Real, Stack(sp + 2)), In(Real, Stack(sp + 3));
    TracedThen(m, m0, m1, [c], [d]);
    Two(c, d);
    SameLog(m, m1, m1', [c, d]);
    TracedThen(m, m1', m2, [c, d], [e]);
    Three(c, d, e);
    TracedThen(m, m2, m3, [c, d, e], [f]);
    Four(c, d, e, f);
    StaysRecorded(m, m1', [c, d]);
    StaysRecorded(m2, m3, [f]);
    SameLog(m, m3, RtiInstr(b, m), [c, d, e, f]);
  }

  lemma PullOnlyPerforms(b: Bus, m: Machine, p1: byte, p2: word)
    ensures Performs(m, PlaInstr(b, m), Pla, p1, p2, 0) && Performs(m, PlpInstr(b, m), Plp, p1, p2, 0)
  {
    hide PullCycle, PeekCycle, Traced, Cycled, Stacked, FromStatus;
    PeekTraced(b, m);
    var m0 := PeekCycle(b, m);
    PullTraced(b, m0);
    var m1 := PullCycle(b, m0).0;
    var c, d := In(Dummy, Stack(m.regs.sp)), In(Real, Stack(m.regs.sp + 1));
    TracedThen(m, m0, m1, [c], [d]);
    Two(c, d);
    SameLog(m, m1, PlaInstr(b, m), [c, d]);
    SameLog(m, m1, PlpInstr(b, m), [c, d]);
  }

  lemma StatusPacks(f: Flags)
    ensures Status(f) == Packed(f)
  {
  }

  lemma PushOnlyPerforms(b: Bus, m: Machine, p1: byte, p2: word)
    ensures Performs(m, Execute(b, m, Pha, p1, p2), Pha, p1, p2, 0)
    ensures Performs(m, Execute(b, m, Php, p1, p2), Php, p1, p2, 0)
  {
    hide PushCycle, Traced, Stacked, Status, Packed, Kept;
    StatusPacks(m.regs.p.(b := true));
    var v := Status(m.regs.p.(b := true));
    PushTraced(b, m, m.regs.a);
    PushTraced(b, m, v);
    SameLog(m, PushCycle(b, m, m.regs.a), Execute(b, m, Pha, p1, p2), [Out(Write, Stack(m.regs.sp), m.regs.a)]);
    SameLog(m, PushCycle(b, m, v), Execute(b, m, Php, p1, p2), [Out(Write, Stack(m.regs.sp), v)]);
  }

  lemma PushStateTraced(b: Bus, m: Machine)
    ensures var pc, sp := m.regs.pc, m.regs.sp;
      Traced(m, PushState(b, m), [Out(Write, Stack(sp), pc / 0x100), Out(Write, Stack(sp - 1), pc % 0x100),
                                  Out(Write, Stack(sp - 2), Packed(m.regs.p))])
  {
    hide PushCycle, Traced, Stacked, Sound, Stack, Status, Packed;
    var pc: int, sp: int := m.regs.pc, m.regs.sp;
    PushTraced(b, m, Hi(m.regs.pc));
    var m1 := PushCycle(b, m, Hi(m.regs.pc));
    PushTraced(b, m1, Lo(m1.regs.pc));
    var m2 := PushCycle(b, m1, Lo(m1.regs.pc));
    PushTraced(b, m2, Status(m2.regs.p));
    var m3 := PushCycle(b, m2, Status(m2.regs.p));
    StatusPacks(m.regs.p);
    StackWraps(sp - 1, 0);
    StackWraps(sp - 1, -1);
    StackWraps(sp - 2, 0);
    var c, d := Out(Write, Stack(sp), pc / 0x100), Out(Write, Stack(sp - 1), pc % 0x100);
    var e := Out(Write, Stack(sp - 2), Packed(m.regs.p));
    TracedThen(m, m1, m2, [c], [d]);
    Two(c, d);
    TracedThen(m, m2, m3, [c, d], [e]);
    Three(c, d, e);
  }

  lemma VectorTraced(b: Bus, m: Machine, vector: word)
    requires vector < 0xFFFF
    ensures var r := FetchVector(b, m, vector);
      && Traced(m, r, [In(Real, vector), In(Real, vector + 1)])
      && r.regs.pc == WordAt(r.log.accesses, |m.log.accesses|)
  {
    hide LoadCycle, Traced, Cycled, Accessed, Sound, MakeWord, NextAccess, Spells;
    var v: int := vector;
    LoadTraced(b, m, Real, v);
    var (m1, lo) := LoadCycle(b, m, Real, v);
    LoadTraced(b, m1, Real, v + 1);
    var (m2, hi) := LoadCycle(b, m1, Real, v + 1);
    TracedThen(m, m1, m2, [In(Real, v)], [In(Real, v + 1)]);
    Two(In(Real, v), In(Real, v + 1));
    StaysRecorded(m1, m2, [In(Real, v + 1)]);
    WordIs(hi, lo);
    SameLog(m, m2, FetchVector(b, m, v), [In(Real, v), In(Real, v + 1)]);
  }

  lemma NmiVectorTraced(b: Bus, m: Machine)
    ensures var r := FetchNmiVector(b, m);
      && Traced(m, r, [In(Real, 0xFFFA), In(Real, 0xFFFB)])
      && r.regs.pc == WordAt(r.log.accesses, |m.log.accesses|)
  {
    hide FetchVector, Traced, Sound, PaysOne, NextAccess, Spells;
    var m0 := m.(dev := b.nmiVectorFetch(m.dev));
    VectorTraced(b, m0, 0xFFFA);
    FromSameLog(m, m0, FetchVector(b, m0, 0xFFFA));
    SameAccesses(m, FetchVector(b, m0, 0xFFFA), FetchNmiVector(b, m), [In(Real, 0xFFFA), In(Real, 0xFFFB)]);
  }

  lemma SameAccesses(m: Machine, m1: Machine, m2: Machine, tr: seq<Cycle>)
    requires Traced(m, m1, tr) && m2.log.accesses == m1.log.accesses
    ensures Traced(m, m2, tr)
  {
  }

  /** The sequence that IRQ and BRK share: three pushes, then the vector. */
  lemma IrqBrkTraced(b: Bus, m: Machine)
    ensures var r, pc, sp, v := IrqBrk(b, m), m.regs.pc, m.regs.sp, BreakVector(b, m);
      && Traced(m, r, [Out(Write, Stack(sp), pc / 0x100), Out(Write, Stack(sp - 1), pc % 0x100),
                       Out(Write, Stack(sp - 2), Packed(m.regs.p)), In(Real, v), In(Real, v + 1)])
      && r.regs.pc == WordAt(r.log.accesses, |m.log.accesses| + 3)
      && r.regs.sp == (sp - 3) % 0x100
  {
    hide FetchVector, FetchNmiVector, PushState, ProcessAlarms, Sound, PaysOne, NextAccess, Spells, Instant, Traced;
    hide Stack, Packed;
    PushStateTraced(b, m);
    var s := PushState(b, m);
    var m1 := ProcessAlarms(b, s);
    var m2 := if NmiTakesOver(m1) then AckNmiOf(m1) else m1;
    var m3 := m2.(regs := m2.regs.(p := m2.regs.p.(i := true)));
    NmiVectorTraced(b, m3);
    VectorTraced(b, m3, 0xFFFE);
    var r, v := IrqBrk(b, m), BreakVector(b, m);
    var pc: int, sp: int := m.regs.pc, m.regs.sp;
    var c, d := Out(Write, Stack(sp), pc / 0x100), Out(Write, Stack(sp - 1), pc % 0x100);
    var e := Out(Write, Stack(sp - 2), Packed(m.regs.p));
    FromSameLog(s, m3, r);
    assert Traced(s, r, [In(Real, v), In(Real, v + 1)]);
    TracedThen(m, s, r, [c, d, e], [In(Real, v), In(Real, v + 1)]);
    assert [c, d, e] + [In(Real, v), In(Real, v + 1)] == [c, d, e, In(Real, v), In(Real, v + 1)];
    StaysRecorded(m, s, [c, d, e]);
  }

  /** What a BRK hands to it. */
  function BeforeBrk(m: Machine): Machine { SetRegs(m, IncPc(m.regs, 2).(p := m.regs.p.(b := true))) }

  lemma BrkPerforms(b: Bus, m: Machine, p1: byte, p2: word)
    ensures Performs(m, BrkInstr(b, m), Brk, p1, p2, BreakVector(b, BeforeBrk(m)))
  {
    hide IrqBrk, Sound, Traced, Stack, Packed, BreakVector;
    var s := BeforeBrk(m);
    IrqBrkTraced(b, s);
    FromSameLog(m, s, IrqBrk(b, s));
  }

  // ---- The unstable stores -------------------------------------------------------------------

  lemma BaLowTraced(b: Bus, m: Machine, kind: Kind, a: word)
    ensures var r := LoadBaLowCycle(b, m, kind, a);
      Traced(m, r, [In(kind, a)]) && r.regs == m.regs
  {
    hide LoadBaLow, ClkInc, Steady, Traced, Sound;
    var (m1, v) := LoadBaLow(b, m, kind, a);
    assert OneMore(m, m1, kind, a, v);
    TracedRead(m, m1, kind, a, v);
    SameAccesses(m, m1, ClkInc(b, m1), [In(kind, a)]);
  }

  lemma UnstableTraced(b: Bus, m: Machine, base: word, value: byte, index: byte)
    ensures var r := StoreUnstable(b, m, base, value, index);
      Traced(m, r, [Stray]) && r.regs == m.regs
  {
    hide StoreCycle, Sound, Steady, And;
    var masked := And(value, Wrap8(Hi(base) + 1));
    var a := Indexed(base, index);
    var a' := if Lo(base) + index > 0xFF then MakeWord(masked, Lo(a)) else a;
    StoreTraced(b, m.(info := m.info.(enables := false)), Write, a', if m.info.enables then value else masked);
  }

  lemma LasPerforms(b: Bus, m: Machine, p1: byte, p2: word)
    ensures Performs(m, LasInstr(b, m, p2), Las, p1, p2, 0)
  {
    hide GetIndexed, Traced, Sound, Crossing, And;
    GetIndexedTraced(b, m, Real, p2, m.regs.y);
    SameLog(m, GetIndexed(b, m, Real, p2, m.regs.y).0, LasInstr(b, m, p2),
            Crossing(p2, m.regs.y) + [In(Real, (p2 + m.regs.y) % 0x1_0000)]);
  }

  lemma ShaPerforms(b: Bus, m: Machine, p1: byte, p2: word)
    ensures Performs(m, ShaIndYInstr(b, m, p1), ShaIndY, p1, p2, 0)
  {
    hide LoadBaLowCycle, ReadPointer, StoreUnstable, Traced, Sound, Cycled, WithoutCarry, Uncarried, RegValue,
         SameCore;
    PointerTraced(b, m, p1);
    var (m1, base) := ReadPointer(b, m, p1);
    CarryLost(base, m.regs.y);
    BaLowTraced(b, m1, Real, Uncarried(base, m.regs.y));
    var m2 := LoadBaLowCycle(b, m1, Real, Uncarried(base, m.regs.y));
    UnstableTraced(b, m2, base, RegValue(m2.regs, AX), m2.regs.y);
    var m3 := StoreUnstable(b, m2, base, RegValue(m2.regs, AX), m2.regs.y);
    var c, d, e := In(Real, p1), In(Real, (p1 + 1) % 0x100), In(Real, WithoutCarry(base, m.regs.y));
    TracedThen(m, m1, m2, [c, d], [e]);
    Three(c, d, e);
    TracedThen(m, m2, m3, [c, d, e], [Stray]);
    Four(c, d, e, Stray);
    StaysRecorded(m1, m2, [e]);
    StaysRecorded(m2, m3, [Stray]);
    SameLog(m, m3, ShaIndYInstr(b, m, p1), [c, d, e, Stray]);
  }

  lemma RegIs(r: Regs, reg: Reg)
    ensures RegValue(r, reg) == StoredReg(r, reg)
  {
  }

  lemma ShAbsTraced(b: Bus, m: Machine, p2: word, value: byte, index: byte)
    ensures var r := ShAbsInstr(b, m, p2, value, index);
      && Traced(m, r, [In(Dummy, WithoutCarry(p2, index)), Stray])
      && r.regs == m.regs.(pc := Next(m.regs.pc, 3))
  {
    hide LoadBaLowCycle, StoreUnstable, Traced, Sound, Cycled, WithoutCarry, Uncarried;
    CarryLost(p2, index);
    BaLowTraced(b, m, Dummy, Uncarried(p2, index));
    var m1 := LoadBaLowCycle(b, m, Dummy, Uncarried(p2, index));
    UnstableTraced(b, m1, p2, value, index);
    var m2 := StoreUnstable(b, m1, p2, value, index);
    TracedThen(m, m1, m2, [In(Dummy, WithoutCarry(p2, index))], [Stray]);
    Two(In(Dummy, WithoutCarry(p2, index)), Stray);
    SameLog(m, m2, ShAbsInstr(b, m, p2, value, index), [In(Dummy, WithoutCarry(p2, index)), Stray]);
  }

  lemma ShAbsPerforms(b: Bus, m: Machine, reg: Reg, index: Reg, p1: byte, p2: word)
    ensures Performs(m, ShAbsInstr(b, m, p2, RegValue(m.regs, reg), RegValue(m.regs, index)), ShAbs(reg, index), p1, p2, 0)
  {
    hide ShAbsInstr, Traced, Sound, WithoutCarry, RegValue, StoredReg;
    RegIs(m.regs, index);
    ShAbsTraced(b, m, p2, RegValue(m.regs, reg), RegValue(m.regs, index));
  }

  lemma ShsPerforms(b: Bus, m: Machine, p1: byte, p2: word)
    ensures Performs(m, ShsInstr(b, m, p2), ShsAbsY, p1, p2, 0)
  {
    hide ShAbsInstr, Traced, Sound, WithoutCarry, RegValue;
    ShAbsTraced(b, m, p2, RegValue(m.regs, AX), m.regs.y);
    SameLog(m, ShAbsInstr(b, m, p2, RegValue(m.regs, AX), m.regs.y), ShsInstr(b, m, p2),
            [In(Dummy, WithoutCarry(p2, m.regs.y)), Stray]);
  }

  lemma JamPerforms(b: Bus, m: Machine, p1: byte, p2: word)
    ensures Performs(m, JamInstr(b, m), Jam, p1, p2, 0)
  {
    hide IdleCycle, Kept, Steady, Traced;
    TracedNothing(m, JamInstr(b, m));
  }

  // ---- Every instruction ---------------------------------------------------------------------

  /** The forms the decoder makes: stores are plain and write-backs go where the get reads. */
  predicate Decodable(i: Instr) {
    match i
    case Rmw(_, gf, sf, _) => WritesBackWhereItReads(gf, sf)
    case StoreReg(_, sf, _) => Plain(sf)
    case _ => true
  }

  lemma ImpliedPerforms(b: Bus, m: Machine, op: ImpliedOp, p1: byte, p2: word)
    ensures Performs(m, Execute(b, m, Implied(op), p1, p2), Implied(op), p1, p2, 0)
  {
    hide ImpliedOperation, Traced, Kept;
    ImpliedStays(m.regs, op);
    TracedNothing(m, Execute(b, m, Implied(op), p1, p2));
  }

  lemma ImmediatePerforms(b: Bus, m: Machine, op: ImmediateOp, p1: byte, p2: word)
    ensures Performs(m, Execute(b, m, Immediate(op), p1, p2), Immediate(op), p1, p2, 0)
  {
    hide ImmediateOperation, Traced, Kept;
    OperationsStay(m.regs, p1, Lda, Asl, op);
    TracedNothing(m, Execute(b, m, Immediate(op), p1, p2));
  }

  lemma LoadStays(r: Regs)
    ensures forall v: byte :: LoadA(r, v).pc == r.pc && LoadA(r, v).sp == r.sp
  {
  }

  /** The others that make no access of their own. */
  lemma SilentPerforms(b: Bus, m: Machine, i: Instr, p1: byte, p2: word)
    requires i in {Cli, Sei, Jmp}
    ensures Performs(m, Execute(b, m, i, p1, p2), i, p1, p2, 0)
  {
    hide Traced, Kept;
    TracedNothing(m, Execute(b, m, i, p1, p2));
  }

  lemma MagicPerforms(b: Bus, m: Machine, i: Instr, p1: byte, p2: word)
    requires i in {Ane, Lxa}
    ensures Performs(m, Execute(b, m, i, p1, p2), i, p1, p2, 0)
  {
    hide Traced, Kept, And, Or, LoadA;
    TracedNothing(m, Execute(b, m, i, p1, p2));
    LoadStays(m.regs);
  }

  function VectorFor(b: Bus, m: Machine, i: Instr): int { if i.Brk? then BreakVector(b, BeforeBrk(m)) else 0 }

  /** On any bus, every instruction makes exactly the accesses of the table, in its order, and leaves the
      program counter and the stack pointer where the table says. */
  lemma ExecutePerforms(b: Bus, m: Machine, i: Instr, p1: byte, p2: word)
    requires Decodable(i)
    ensures Performs(m, Execute(b, m, i, p1, p2), i, p1, p2, VectorFor(b, m, i))
  {
    hide Performs, Kept, CallGetDummy, CallSetStore, ReadInstr, RmwInstr, BranchInstr, AneInstr, LxaInstr, CliInstr,
         SeiInstr, JmpIndInstr, JsrInstr, RtsInstr, RtiInstr, BrkInstr, PlaInstr, PlpInstr, LasInstr,
         ShaIndYInstr, ShAbsInstr, ShsInstr, JamInstr, Sound, BreakVector, BeforeBrk, RegValue, WritesBackWhereItReads, Plain;
    match i {
      case Read(op, gf, n) => ReadPerforms(b, m, op, gf, n, p1, p2);
      case Noop(gf, n) => NoopPerforms(b, m, gf, n, p1, p2);
      case Rmw(op, gf, sf, n) => NoImmediate(gf, sf); RmwPerforms(b, m, op, gf, sf, n, p1, p2);
      case StoreReg(reg, sf, n) => StorePerforms(b, m, reg, sf, n, p1, p2);
      case Implied(op) => ImpliedPerforms(b, m, op, p1, p2);
      case Immediate(op) => ImmediatePerforms(b, m, op, p1, p2);
      case Branch(cond) => BranchPerforms(b, m, cond, p1, p2);
      case JmpInd => JmpIndPerforms(b, m, p1, p2);
      case Jsr => JsrPerforms(b, m, p1, p2);
      case Rts => RtsPerforms(b, m, p1, p2);
      case Rti => RtiPerforms(b, m, p1, p2);
      case Brk => BrkPerforms(b, m, p1, p2);
      case Pha => PushOnlyPerforms(b, m, p1, p2);
      case Php => PushOnlyPerforms(b, m, p1, p2);
      case Pla => PullOnlyPerforms(b, m, p1, p2);
      case Plp => PullOnlyPerforms(b, m, p1, p2);
      case Las => LasPerforms(b, m, p1, p2);
      case ShaIndY => ShaPerforms(b, m, p1, p2);
      case ShAbs(reg, index) => ShAbsPerforms(b, m, reg, index, p1, p2);
      case ShsAbsY => ShsPerforms(b, m, p1, p2);
      case Jam => JamPerforms(b, m, p1, p2);
      case Ane => MagicPerforms(b, m, i, p1, p2);
      case Lxa => MagicPerforms(b, m, i, p1, p2);
      case _ => SilentPerforms(b, m, i, p1, p2);
    }
  }

  lemma NoImmediate(gf: GetFn, sf: SetFn)
    requires WritesBackWhereItReads(gf, sf)
    ensures !gf.Imm?
  {
  }

  // ---- The fetch -----------------------------------------------------------------------------

  /** The fetch reads two bytes at the program counter, or three. */
  function FetchTrace(pc: int, three: bool): seq<Cycle> {
    [In(Fetch, pc), In(Fetch, Next(pc, 1))] + (if three then [In(Fetch, Next(pc, 2))] else [])
  }

  lemma FetchFirstTraced(b: Bus, m: Machine)
    ensures var (m1, op) := FetchFirst(b, m);
      && Traced(m, m1, [In(Fetch, m.regs.pc)]) && m1.regs == m.regs && m1.indAddr == m.indAddr
      && |m1.log.accesses| == |m.log.accesses| + 1 && m1.log.accesses[|m.log.accesses|].value == op
  {
    hide Load, ClkInc, Traced, Sound, Steady;
    var (m1, op) := Load(b, m, Fetch, m.regs.pc);
    assert OneMore(m, m1, Fetch, m.regs.pc, op);
    TracedRead(m, m1, Fetch, m.regs.pc, op);
    SameAccesses(m, m1, FetchFirst(b, m).0, [In(Fetch, m.regs.pc)]);
  }

  /** What it returns are the bytes those reads carried. */
  lemma FetchPerforms(b: Bus, m: Machine)
    ensures var (m1, op, p1, p2) := FetchOpcode(b, m);
      var acc, n := m1.log.accesses, |m.log.accesses|;
      && Traced(m, m1, FetchTrace(m.regs.pc, ThreeBytes(op))) && m1.regs == m.regs && m1.indAddr == m.indAddr
      && op == Carried(acc, n) && p1 == Carried(acc, n + 1)
      && p2 == if ThreeBytes(op) then WordAt(acc, n + 1) else p1
  {
    hide FetchFirst, LoadCycle, Traced, Sound, Accessed, MakeWord, ThreeBytes;
    var pc: int := m.regs.pc;
    FetchFirstTraced(b, m);
    var (m1, op) := FetchFirst(b, m);
    LoadTraced(b, m1, Fetch, Next(pc, 1));
    var (m2, lo) := LoadCycle(b, m1, Fetch, Next(pc, 1));
    var c, d, e := In(Fetch, pc), In(Fetch, Next(pc, 1)), In(Fetch, Next(pc, 2));
    TracedThen(m, m1, m2, [c], [d]);
    Two(c, d);
    StaysRecorded(m1, m2, [d]);
    if ThreeBytes(op) {
      LoadTraced(b, m2, Fetch, Next(pc, 2));
      var (m3, hi) := LoadCycle(b, m2, Fetch, Next(pc, 2));
      TracedThen(m, m2, m3, [c, d], [e]);
      Three(c, d, e);
      StaysRecorded(m2, m3, [e]);
      WordIs(hi, lo);
    } else {
      assert [c, d] + [] == [c, d];
    }
  }

  /** The operands, as the fetch carried them. */
  function Operand(acc: seq<Access>, n: nat, three: bool): int {
    if three then WordAt(acc, n + 1) else Carried(acc, n + 1)
  }

  /** From `m` to `r` the instruction of opcode `op` was fetched and executed; its body begins at access `k`. */
  ghost predicate Instructed(m: Machine, r: Machine, op: byte, k: nat, v: int) {
    var i, three, pc := Decode(op), ThreeBytes(op), m.regs.pc;
    var acc, n := r.log.accesses, |m.log.accesses|;
    var p1, p2 := Carried(acc, n + 1), Operand(acc, n, three);
    var fetched := op == Carried(acc, n) && k == n + |FetchTrace(pc, three)|;
    var traced := Traced(m, r, FetchTrace(pc, three) + TraceOf(i, m.regs, 0, p1, p2, acc, k, v));
    var moved := MovesStack(i) || r.regs.sp == (m.regs.sp + StackMove(i)) % 0x100;
    fetched && traced && moved && r.regs.pc == PcAfter(i, m.regs, p1, p2, acc, k, v)
  }

  /** A whole instruction from any state between two cycles: the fetch, then what the table says of the
      opcode it fetched, with the operands it fetched. */
  lemma InstructionPerforms(b: Bus, m: Machine)
    ensures var (m1, op, p1, p2) := FetchOpcode(b, m.(indAddr := 0));
      Instructed(m, FetchAndExecute(b, m), op, |m1.log.accesses|, VectorFor(b, m1, Decode(op)))
  {
    hide FetchOpcode, Execute, Decode, Kept, Fetching, Traced, TraceOf, PcAfter, MovesStack, StackMove,
         ThreeBytes, VectorFor;
    var m0 := m.(indAddr := 0);
    FetchPerforms(b, m0);
    var (m1, op, p1, p2) := FetchOpcode(b, m0);
    var i, three := Decode(op), ThreeBytes(op);
    DecodesDecodable(op);
    ExecutePerforms(b, m1, i, p1, p2);
    var r := FetchAndExecute(b, m);
    var acc, n, k := r.log.accesses, |m.log.accesses|, |m1.log.accesses|;
    var tr := TraceOf(i, m.regs, 0, p1, p2, acc, k, VectorFor(b, m1, i));
    StaysRecorded(m0, m1, FetchTrace(m.regs.pc, three));
    StaysRecorded(m1, r, tr);
    TracedThen(m0, m1, r, FetchTrace(m.regs.pc, three), tr);
    FromSameLog(m, m0, r);
  }

  lemma DecodesDecodable(op: byte)
    ensures Decodable(Decode(op))
  {
    hide Decode, ThreeBytes;
  }
}
