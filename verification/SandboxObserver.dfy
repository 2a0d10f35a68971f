/**
 The sandbox write observer: from the records of a run it must tell, for every address, whether the
 routine's stores reached RAM or an I/O chip, although an I/O store is also a plain write record and a
 chip's port re-push looks like one more store.
 */
module SandboxObserver {
  import opened Bytes
  import opened Runs

  const IO_BASE := 0xd000
  const IO_END := 0xe000
  const PORT_A := 0xdd00
  const COUNT_MAX := 0xffff_ffff

  datatype Option<T> = None | Some(value: T)

  predicate InIo(a: nat) { IO_BASE <= a < IO_END }

  // ---- The observer's state ------------------------------------------------------------------

  /** `SandboxObs`, as a value; each table has one entry per address. */
  datatype Obs = Obs(
    armed: bool,
    span: Option<(word, word)>,
    written: seq<bool>,
    ioLast: seq<byte>,
    ioSeen: seq<bool>,
    busWrites: seq<nat>,
    ioStores: seq<nat>,
    lastWrite: Option<(word, nat)>)

  predicate Sized(o: Obs) {
    var whole := |o.written| == 0x1_0000 && |o.busWrites| == 0x1_0000;
    var io := |o.ioLast| == 0x1000 && |o.ioSeen| == 0x1000 && |o.ioStores| == 0x1000;
    whole && io
  }

  function Arm(o: Obs, entry: word, pc: word): Obs { o.(armed := o.armed || pc == entry) }

  function Increment(n: nat): nat { if n < COUNT_MAX then n + 1 else n }

  function Decrement(n: nat): nat { if n > 0 then n - 1 else 0 }

  function Widen(span: Option<(word, word)>, addr: word): Option<(word, word)> {
    match span
    case None => Some((addr, addr))
    case Some(s) => Some((if addr < s.0 then addr else s.0, if addr > s.1 then addr else s.1))
  }

  /** The count table after a write record: a previous record of the same clock is taken back. */
  function Counted(busWrites: seq<nat>, lastWrite: Option<(word, nat)>, addr: word, clk: nat): (r: seq<nat>)
    requires |busWrites| == 0x1_0000
    ensures |r| == 0x1_0000
  {
    var kept := if lastWrite.Some? && lastWrite.value.1 == clk
                then busWrites[lastWrite.value.0 := Decrement(busWrites[lastWrite.value.0])] else busWrites;
    kept[addr := Increment(kept[addr])]
  }

  /** `on_bus`. */
  function AfterBus(o: Obs, entry: word, write: bool, addr: word, pc: word, clk: nat): (r: Obs)
    requires Sized(o)
    ensures Sized(r)
  {
    var o := Arm(o, entry, pc);
    if o.armed && write then
      o.(span := Widen(o.span, addr),
         written := o.written[addr := true],
         busWrites := Counted(o.busWrites, o.lastWrite, addr, clk),
         lastWrite := Some((addr, clk)))
    else o
  }

  /** `on_io_store`. */
  function AfterIoStore(o: Obs, entry: word, addr: word, value: byte, pc: word): (r: Obs)
    requires Sized(o)
    ensures Sized(r)
  {
    var o := Arm(o, entry, pc);
    if o.armed && InIo(addr) then
      var i := addr - IO_BASE;
      o.(ioLast := o.ioLast[i := value],
         ioSeen := o.ioSeen[i := true],
         ioStores := o.ioStores[i := Increment(o.ioStores[i])])
    else o
  }

  // ---- The observer as the object the bus calls ----------------------------------------------

  class Observer {
    const entry: word
    var armed: bool
    var span: Option<(word, word)>
    const written: array<bool>
    const ioLast: array<byte>
    const ioSeen: array<bool>
    const busWrites: array<nat>
    const ioStores: array<nat>
    var lastWrite: Option<(word, nat)>

    ghost predicate Valid()
      reads this
    {
      && written.Length == 0x1_0000 && busWrites.Length == 0x1_0000
      && ioLast.Length == 0x1000 && ioSeen.Length == 0x1000 && ioStores.Length == 0x1000
      && written != ioSeen && busWrites != ioStores
    }

    ghost function Model(): (o: Obs)
      requires Valid()
      reads this, written, ioLast, ioSeen, busWrites, ioStores
      ensures Sized(o)
    {
      Obs(armed, span, written[..], ioLast[..], ioSeen[..], busWrites[..], ioStores[..], lastWrite)
    }

    constructor (entry: word)
      ensures Valid() && this.entry == entry && Model() == Fresh()
      ensures fresh(written) && fresh(ioLast) && fresh(ioSeen) && fresh(busWrites) && fresh(ioStores)
    {
      this.entry := entry;
      armed, span, lastWrite := false, None, None;
      written, busWrites := new bool[0x1_0000](_ => false), new nat[0x1_0000](_ => 0);
      ioLast, ioSeen := new byte[0x1000](_ => 0), new bool[0x1000](_ => false);
      ioStores := new nat[0x1000](_ => 0);
      new;
      assert written[..] == Fresh().written && busWrites[..] == Fresh().busWrites;
      assert ioLast[..] == Fresh().ioLast && ioSeen[..] == Fresh().ioSeen && ioStores[..] == Fresh().ioStores;
    }

    method OnBus(write: bool, addr: word, pc: word, clk: nat)
      requires Valid()
      modifies this, written, busWrites
      ensures Valid() && Model() == AfterBus(old(Model()), entry, write, addr, pc, clk)
    {
      if pc == entry {
        armed := true;
      }
      if armed && write {
        span := Widen(span, addr);
        written[addr] := true;
        if lastWrite.Some? && lastWrite.value.1 == clk {
          var prev := lastWrite.value.0;
          busWrites[prev] := Decrement(busWrites[prev]);
        }
        lastWrite := Some((addr, clk));
        busWrites[addr] := Increment(busWrites[addr]);
      }
    }

    method OnIoStore(addr: word, value: byte, pc: word)
      requires Valid()
      modifies this, ioLast, ioSeen, ioStores
      ensures Valid() && Model() == AfterIoStore(old(Model()), entry, addr, value, pc)
    {
      if pc == entry {
        armed := true;
      }
      if armed && InIo(addr) {
        var i := addr - IO_BASE;
        ioLast[i] := value;
        ioSeen[i] := true;
        ioStores[i] := Increment(ioStores[i]);
      }
    }

    /** The raw bytes of a range with the last I/O stores laid over them, and the overlaid runs. */
    method Harvest(ram: seq<byte>, addr: word, len: nat) returns (bytes: seq<byte>, hit: seq<Run>)
      requires Valid() && |ram| == 0x1_0000
      ensures |bytes| == HarvestEnd(addr, len) - addr
      ensures forall a :: addr <= a < HarvestEnd(addr, len) ==> bytes[a - addr] == Overlaid(Model(), ram, a)
      ensures IsRunsOf(hit, set a: nat | addr <= a < HarvestEnd(addr, len) && Overlays(Model(), a))
    {
      var end := HarvestEnd(addr, len);
      bytes := ram[addr..end];
      var hits: seq<word> := [];
      var first, last := if addr > IO_BASE then addr else IO_BASE, if end < IO_END then end else IO_END;
      var a := first;
      while a < last
        invariant first <= a && (a <= last || a == first)
        invariant |bytes| == end - addr && Increasing(hits)
        invariant forall i :: 0 <= i < |hits| ==> hits[i] < a
        invariant forall x: nat :: x in hits <==> first <= x < a && addr <= x < end && Overlays(Model(), x)
        invariant forall x :: addr <= x < end ==>
          bytes[x - addr] == if x < a then Overlaid(Model(), ram, x) else ram[x]
      {
        if ioSeen[a - IO_BASE] {
          bytes := bytes[a - addr := if 0xd800 <= a < 0xdc00 then ioLast[a - IO_BASE] % 0x10 else ioLast[a - IO_BASE]];
          hits := hits + [a];
        }
        a := a + 1;
      }
      hit := ContiguousRuns(hits);
      assert (set x | x in hits) == set x: nat | addr <= x < end && Overlays(Model(), x);
    }

    /** The runs of every written address. */
    method WrittenRuns() returns (runs: seq<Run>)
      requires Valid()
      ensures IsRunsOf(runs, set a: nat | a < 0x1_0000 && written[a])
    {
      var addrs: seq<word> := [];
      for a := 0 to 0x1_0000
        invariant Increasing(addrs) && forall i :: 0 <= i < |addrs| ==> addrs[i] < a
        invariant forall x: nat :: x in addrs <==> x < a && written[x]
      {
        if written[a] {
          addrs := addrs + [a];
        }
      }
      runs := ContiguousRuns(addrs);
      assert (set x | x in addrs) == set a: nat | a < 0x1_0000 && written[a];
    }

    /** The runs without the addresses only ever stored to in I/O space. */
    method RamRuns() returns (runs: seq<Run>)
      requires Valid()
      ensures IsRunsOf(runs, set a: nat | a < 0x1_0000 && ReachedRam(Model(), a))
    {
      var addrs: seq<word> := [];
      for a := 0 to 0x1_0000
        invariant Increasing(addrs) && forall i :: 0 <= i < |addrs| ==> addrs[i] < a
        invariant forall x: nat :: x in addrs <==> x < a && ReachedRam(Model(), x)
      {
        if written[a] && (!InIo(a) || busWrites[a] > ioStores[a - IO_BASE]) {
          addrs := addrs + [a];
        }
      }
      runs := ContiguousRuns(addrs);
      assert (set x | x in addrs) == set a: nat | a < 0x1_0000 && ReachedRam(Model(), a);
    }
  }

  function Fresh(): (o: Obs)
    ensures Sized(o)
  {
    Obs(false, None, seq(0x1_0000, _ => false), seq(0x1000, _ => 0), seq(0x1000, _ => false),
        seq(0x1_0000, _ => 0), seq(0x1000, _ => 0), None)
  }

  function HarvestEnd(addr: word, len: nat): (end: nat)
    ensures addr <= end <= 0x1_0000
  {
    if addr + len < 0x1_0000 then addr + len else 0x1_0000
  }

  predicate Overlays(o: Obs, a: nat)
    requires Sized(o)
  {
    InIo(a) && o.ioSeen[a - IO_BASE]
  }

  /** Colour RAM keeps the low nibble. */
  function Nibble(a: nat, v: byte): byte { if 0xd800 <= a < 0xdc00 then v % 0x10 else v }

  function Overlaid(o: Obs, ram: seq<byte>, a: nat): byte
    requires Sized(o) && |ram| == 0x1_0000 && a < 0x1_0000
  {
    if Overlays(o, a) then Nibble(a, o.ioLast[a - IO_BASE]) else ram[a]
  }

  /** The test by which `ram_runs` keeps an address. */
  predicate ReachedRam(o: Obs, a: nat)
    requires Sized(o) && a < 0x1_0000
  {
    o.written[a] && (InIo(a) ==> o.busWrites[a] > o.ioStores[a - IO_BASE])
  }

  predicate Increasing(s: seq<word>) { forall i, j :: 0 <= i < j < |s| ==> s[i] < s[j] }

  lemma Consecutive(s: seq<word>, lo: nat)
    requires s != [] && forall k :: 0 <= k < |s| ==> s[k] == lo + k
    ensures forall x: nat :: x in s <==> In(x, Run(lo, lo + |s| - 1))
  {
    forall x: nat | lo <= x < lo + |s|
      ensures x in s
    {
      assert s[x - lo] == x;
    }
  }

  /** Collapses sorted addresses into their maximal runs. */
  method ContiguousRuns(addrs: seq<word>) returns (runs: seq<Run>)
    requires Increasing(addrs)
    ensures IsRunsOf(runs, set a | a in addrs)
  {
    runs := [];
    var i := 0;
    assert forall x: nat :: !Covered(x, runs);
    hide Covered;
    while i < |addrs|
      invariant 0 <= i <= |addrs| && Separated(runs)
      invariant forall x: nat :: x in addrs[..i] <==> Covered(x, runs)
      invariant runs != [] && i < |addrs| ==> runs[|runs| - 1].hi + 1 < addrs[i]
    {
      var first := i;
      var lo := addrs[i];
      var hi := lo;
      while i + 1 < |addrs| && hi < 0xffff && hi + 1 == addrs[i + 1]
        invariant first <= i < |addrs| && hi == addrs[i] && lo <= hi
        invariant forall k :: first <= k <= i ==> addrs[k] == lo + (k - first)
      {
        hi := addrs[i + 1];
        i := i + 1;
      }
      CoveredAppend(runs, Run(lo, hi));
      Consecutive(addrs[first..i + 1], lo);
      assert addrs[..i + 1] == addrs[..first] + addrs[first..i + 1];
      runs := runs + [Run(lo, hi)];
      i := i + 1;
    }
    assert addrs[..|addrs|] == addrs;
  }

  // ---- Event streams -------------------------------------------------------------------------

  /** What the bus reports. A store is one write record, preceded at its own clock by the port
      re-pushes it caused and followed by an I/O store if it landed in I/O. */
  datatype Event =
    | Access(pc: word)
    | Store(addr: word, value: byte, pc: word, clk: nat, io: bool, repushes: nat)

  predicate WellFormed(es: seq<Event>) {
    forall i :: 0 <= i < |es| ==> es[i].Store? && es[i].io ==> InIo(es[i].addr)
  }

  function Repushed(o: Obs, entry: word, pc: word, clk: nat, n: nat): (r: Obs)
    requires Sized(o)
    ensures Sized(r)
  {
    if n == 0 then o else AfterBus(Repushed(o, entry, pc, clk, n - 1), entry, true, PORT_A, pc, clk)
  }

  function Step(o: Obs, entry: word, e: Event): (r: Obs)
    requires Sized(o)
    ensures Sized(r)
  {
    match e
    case Access(pc) => AfterBus(o, entry, false, 0, pc, 0)
    case Store(addr, value, pc, clk, io, n) =>
      var o := AfterBus(Repushed(o, entry, pc, clk, n), entry, true, addr, pc, clk);
      if io then AfterIoStore(o, entry, addr, value, pc) else o
  }

  function Replay(entry: word, es: seq<Event>): (o: Obs)
    ensures Sized(o)
  {
    if es == [] then Fresh() else Step(Replay(entry, es[..|es| - 1]), entry, es[|es| - 1])
  }

  // ---- What the run really did ---------------------------------------------------------------

  predicate Armed(entry: word, es: seq<Event>) { exists i :: 0 <= i < |es| && es[i].pc == entry }

  /** The last event is a store of the armed routine to `a`. */
  predicate StoresTo(entry: word, es: seq<Event>, a: nat) {
    es != [] && es[|es| - 1].Store? && es[|es| - 1].addr == a && Armed(entry, es)
  }

  /** Armed stores to `a` that did not land in I/O. */
  function RamStores(entry: word, es: seq<Event>, a: nat): nat {
    if es == [] then 0
    else
      RamStores(entry, es[..|es| - 1], a) + (if StoresTo(entry, es, a) && !es[|es| - 1].io then 1 else 0)
  }

  function IoStores(entry: word, es: seq<Event>, a: nat): nat {
    if es == [] then 0
    else
      IoStores(entry, es[..|es| - 1], a) + (if StoresTo(entry, es, a) && es[|es| - 1].io then 1 else 0)
  }

  /** The value of the last I/O store to `a`. */
  function LastIo(entry: word, es: seq<Event>, a: nat): byte
    requires IoStores(entry, es, a) > 0
  {
    if StoresTo(entry, es, a) && es[|es| - 1].io then es[|es| - 1].value
    else LastIo(entry, es[..|es| - 1], a)
  }

  /** The last armed store, with its clock. */
  function LastStore(entry: word, es: seq<Event>): Option<(word, nat)> {
    if es == [] then None
    else
      var e := es[|es| - 1];
      if e.Store? && Armed(entry, es) then Some((e.addr, e.clk)) else LastStore(entry, es[..|es| - 1])
  }

  /** Armed stores to `a` followed by another armed store of the same clock. */
  function Shadowed(entry: word, es: seq<Event>, a: nat): nat {
    if es == [] then 0
    else
      var front, e := es[..|es| - 1], es[|es| - 1];
      var before := LastStore(entry, front);
      Shadowed(entry, front, a)
      + (if e.Store? && Armed(entry, es) && before.Some? && before.value.0 == a && before.value.1 == e.clk then 1 else 0)
  }

  // ---- The accounting ------------------------------------------------------------------------

  /** Armed stores to `a`. */
  function Stores(entry: word, es: seq<Event>, a: nat): nat { RamStores(entry, es, a) + IoStores(entry, es, a) }

  /** The marks agree with the run for address `a`; the re-pushed port may be marked without a store. */
  predicate Marks(entry: word, es: seq<Event>, o: Obs, a: nat)
    requires Sized(o) && a < 0x1_0000
  {
    var written := (Stores(entry, es, a) > 0 ==> o.written[a])
                   && (o.written[a] && a != PORT_A ==> Stores(entry, es, a) > 0);
    var overlay := if InIo(a)
      then && (o.ioSeen[a - IO_BASE] <==> IoStores(entry, es, a) > 0)
           && (o.ioSeen[a - IO_BASE] ==> o.ioLast[a - IO_BASE] == LastIo(entry, es, a))
      else IoStores(entry, es, a) == 0;
    var marked := written && overlay;
    marked
  }

  function Capped(n: nat): nat { if n < COUNT_MAX then n else COUNT_MAX }

  /** The stores of `a` do not run into the end of its counter, or none of them is hidden and no re-push
      can disturb the count there. */
  predicate Countable(entry: word, es: seq<Event>, a: nat) {
    Stores(entry, es, a) < COUNT_MAX || (a != PORT_A && Shadowed(entry, es, a) == 0)
  }

  /** The write count agrees with the run for address `a`. */
  predicate Counts(entry: word, es: seq<Event>, o: Obs, a: nat)
    requires Sized(o) && a < 0x1_0000
  {
    o.busWrites[a] + Shadowed(entry, es, a) == Capped(Stores(entry, es, a))
  }

  /** What holds of the counters of address `a` in any case. */
  predicate Stays(entry: word, es: seq<Event>, o: Obs, a: nat)
    requires Sized(o) && a < 0x1_0000
  {
    var counted := o.lastWrite.Some? && o.lastWrite.value.0 == a ==> o.busWrites[a] >= 1;
    var io := InIo(a) ==> o.ioStores[a - IO_BASE] == Capped(IoStores(entry, es, a));
    var stays := o.busWrites[a] <= COUNT_MAX && counted && io;
    stays
  }

  predicate Tracks(entry: word, es: seq<Event>, o: Obs) {
    var tracks := (o.armed <==> Armed(entry, es)) && o.lastWrite == LastStore(entry, es);
    tracks
  }

  lemma ArmedStep(entry: word, es: seq<Event>)
    requires es != []
    ensures Armed(entry, es) <==> Armed(entry, es[..|es| - 1]) || es[|es| - 1].pc == entry
  {
    var front := es[..|es| - 1];
    if Armed(entry, front) {
      var i :| 0 <= i < |front| && front[i].pc == entry;
      assert es[i].pc == entry;
    }
    if Armed(entry, es) && es[|es| - 1].pc != entry {
      var i :| 0 <= i < |es| && es[i].pc == entry;
      assert front[i].pc == entry;
    }
  }

  /** What `n` re-pushes and the store's own record do to the counts: the previous store is taken back
      if it has the same clock, the re-pushes cancel, and the store counts once. */
  function Settled(busWrites: seq<nat>, lastWrite: Option<(word, nat)>, clk: nat): (r: seq<nat>)
    requires |busWrites| == 0x1_0000
    ensures |r| == 0x1_0000
  {
    if lastWrite.Some? && lastWrite.value.1 == clk
    then busWrites[lastWrite.value.0 := Decrement(busWrites[lastWrite.value.0])] else busWrites
  }

  lemma {:induction false} RepushesCancel(o: Obs, entry: word, pc: word, clk: nat, n: nat, a: nat)
    requires Sized(o) && Arm(o, entry, pc).armed && a < 0x1_0000
    requires a == PORT_A ==> Settled(o.busWrites, o.lastWrite, clk)[PORT_A] < COUNT_MAX
    ensures var r := Repushed(o, entry, pc, clk, n);
      var kept := (n == 0 ==> r == o) && (n > 0 ==> r.armed) && r.ioStores == o.ioStores;
      Settled(r.busWrites, r.lastWrite, clk)[a] == Settled(o.busWrites, o.lastWrite, clk)[a] && kept
  {
    if n > 0 {
      RepushesCancel(o, entry, pc, clk, n - 1, a);
    }
  }

  /** A counter never exceeds its width. */
  lemma {:induction false} RepushesBounded(o: Obs, entry: word, pc: word, clk: nat, n: nat, a: nat)
    requires Sized(o) && Arm(o, entry, pc).armed && a < 0x1_0000 && o.busWrites[a] <= COUNT_MAX
    ensures var r := Repushed(o, entry, pc, clk, n);
      var kept := r.ioStores == o.ioStores && r.armed == (o.armed || n > 0) && (n == 0 ==> r == o);
      r.busWrites[a] <= COUNT_MAX && kept
  {
    if n > 0 {
      RepushesBounded(o, entry, pc, clk, n - 1, a);
    }
  }

  /** Without arming the re-pushes leave nothing. */
  lemma {:induction false} RepushesUnarmed(o: Obs, entry: word, pc: word, clk: nat, n: nat)
    requires Sized(o) && !Arm(o, entry, pc).armed
    ensures Repushed(o, entry, pc, clk, n) == o
  {
    if n > 0 {
      RepushesUnarmed(o, entry, pc, clk, n - 1);
    }
  }

  /** The write count of `a` after one store of an armed routine. */
  lemma StepArmed(o: Obs, entry: word, e: Event, a: nat)
    requires Sized(o) && e.Store? && Arm(o, entry, e.pc).armed && a < 0x1_0000
    requires a == PORT_A ==> Settled(o.busWrites, o.lastWrite, e.clk)[PORT_A] < COUNT_MAX
    ensures var r, kept := Step(o, entry, e), Settled(o.busWrites, o.lastWrite, e.clk);
      r.busWrites[a] == if e.addr == a then Increment(kept[a]) else kept[a]
  {
    RepushesCancel(o, entry, e.pc, e.clk, e.repushes, a);
  }

  /** And what holds of it and of the I/O count in any case. */
  lemma StepBounded(o: Obs, entry: word, e: Event, a: nat)
    requires Sized(o) && e.Store? && Arm(o, entry, e.pc).armed && a < 0x1_0000 && o.busWrites[a] <= COUNT_MAX
    requires e.io ==> InIo(e.addr)
    ensures var r := Step(o, entry, e);
      && r.busWrites[a] <= COUNT_MAX && (e.addr == a ==> r.busWrites[a] >= 1)
      && r.ioStores == (if e.io then o.ioStores[e.addr - IO_BASE := Increment(o.ioStores[e.addr - IO_BASE])]
                        else o.ioStores)
  {
    RepushesBounded(o, entry, e.pc, e.clk, e.repushes, a);
  }

  /** What an event that records nothing leaves: the tables, and the arming. */
  lemma StepIdle(o: Obs, entry: word, e: Event)
    requires Sized(o) && (e.Store? ==> !Arm(o, entry, e.pc).armed)
    ensures Step(o, entry, e) == Arm(o, entry, e.pc)
  {
    if e.Store? {
      RepushesUnarmed(o, entry, e.pc, e.clk, e.repushes);
    }
  }

  lemma {:induction false} RepushesMark(o: Obs, entry: word, pc: word, clk: nat, n: nat)
    requires Sized(o) && Arm(o, entry, pc).armed
    ensures var r := Repushed(o, entry, pc, clk, n);
      var marked := if n == 0 then r == o else r.armed && r.written == o.written[PORT_A := true];
      marked && r.ioLast == o.ioLast && r.ioSeen == o.ioSeen
  {
    if n > 0 {
      RepushesMark(o, entry, pc, clk, n - 1);
    }
  }

  /** The marks after a store of an armed routine. */
  lemma StepMarks(o: Obs, entry: word, e: Event)
    requires Sized(o) && e.Store? && Arm(o, entry, e.pc).armed && (e.io ==> InIo(e.addr))
    ensures var r := Step(o, entry, e);
      var noted := r.armed && r.lastWrite == Some((e.addr, e.clk));
      var written := r.written == (if e.repushes > 0 then o.written[PORT_A := true] else o.written)[e.addr := true];
      var i := e.addr - IO_BASE;
      var overlay := if e.io then r.ioLast == o.ioLast[i := e.value] && r.ioSeen == o.ioSeen[i := true]
                     else r.ioLast == o.ioLast && r.ioSeen == o.ioSeen;
      noted && written && overlay
  {
    RepushesMark(o, entry, e.pc, e.clk, e.repushes);
  }

  /** The marks of one address after one event. */
  lemma EventMarks(entry: word, es: seq<Event>, o: Obs, a: nat)
    requires WellFormed(es) && es != [] && a < 0x1_0000
    requires Sized(o) && Tracks(entry, es[..|es| - 1], o) && Marks(entry, es[..|es| - 1], o, a)
    ensures Marks(entry, es, Step(o, entry, es[|es| - 1]), a)
  {
    hide Step;
    var e := es[|es| - 1];
    ArmedStep(entry, es);
    if e.Store? && Arm(o, entry, e.pc).armed {
      StepMarks(o, entry, e);
    } else {
      StepIdle(o, entry, e);
    }
  }

  lemma EventTracks(entry: word, es: seq<Event>, o: Obs)
    requires WellFormed(es) && es != [] && Sized(o) && Tracks(entry, es[..|es| - 1], o)
    ensures Tracks(entry, es, Step(o, entry, es[|es| - 1]))
  {
    hide Step, Armed;
    var e := es[|es| - 1];
    ArmedStep(entry, es);
    if e.Store? && Arm(o, entry, e.pc).armed {
      StepMarks(o, entry, e);
    } else {
      StepIdle(o, entry, e);
    }
  }

  /** For every stream of records the marks are what the run did. */
  lemma {:induction false} MarksExact(entry: word, es: seq<Event>)
    requires WellFormed(es)
    ensures Tracks(entry, es, Replay(entry, es))
    ensures forall a: nat :: a < 0x1_0000 ==> Marks(entry, es, Replay(entry, es), a)
    decreases |es|
  {
    if es != [] {
      hide Marks, Step, Armed;
      var front := es[..|es| - 1];
      MarksExact(entry, front);
      EventTracks(entry, es, Replay(entry, front));
      forall a: nat | a < 0x1_0000
        ensures Marks(entry, es, Replay(entry, es), a)
      {
        EventMarks(entry, es, Replay(entry, front), a);
      }
    }
  }

  /** The write count of one address after one event. */
  lemma EventCounts(entry: word, es: seq<Event>, o: Obs, a: nat)
    requires WellFormed(es) && es != [] && a < 0x1_0000 && Countable(entry, es, a)
    requires Sized(o) && Tracks(entry, es[..|es| - 1], o)
    requires Stays(entry, es[..|es| - 1], o, a) && Counts(entry, es[..|es| - 1], o, a)
    ensures Counts(entry, es, Step(o, entry, es[|es| - 1]), a)
  {
    hide Step;
    var e := es[|es| - 1];
    ArmedStep(entry, es);
    if e.Store? && Arm(o, entry, e.pc).armed {
      StepArmed(o, entry, e, a);
    } else {
      StepIdle(o, entry, e);
    }
  }

  lemma EventStays(entry: word, es: seq<Event>, o: Obs, a: nat)
    requires WellFormed(es) && es != [] && a < 0x1_0000
    requires Sized(o) && Tracks(entry, es[..|es| - 1], o) && Stays(entry, es[..|es| - 1], o, a)
    ensures Stays(entry, es, Step(o, entry, es[|es| - 1]), a)
  {
    hide Step;
    var e := es[|es| - 1];
    ArmedStep(entry, es);
    if e.Store? && Arm(o, entry, e.pc).armed {
      StepBounded(o, entry, e, a);
      StepMarks(o, entry, e);
    } else {
      StepIdle(o, entry, e);
    }
  }

  /** For every stream of records: the I/O count is the number of I/O stores, until it stands still. */
  lemma {:induction false} IoAccounting(entry: word, es: seq<Event>, a: nat)
    requires WellFormed(es) && a < 0x1_0000
    ensures Stays(entry, es, Replay(entry, es), a)
    decreases |es|
  {
    if es != [] {
      var front := es[..|es| - 1];
      IoAccounting(entry, front, a);
      MarksExact(entry, front);
      hide Stays, Step;
      EventStays(entry, es, Replay(entry, front), a);
    }
  }

  lemma {:induction false} StoresBounded(entry: word, es: seq<Event>, a: nat)
    ensures Stores(entry, es, a) <= |es|
  {
    if es != [] {
      StoresBounded(entry, es[..|es| - 1], a);
    }
  }

  /** For every stream of records: a store is missing from the write count exactly when another armed store
      follows at its clock. */
  lemma {:induction false} Accounting(entry: word, es: seq<Event>, a: nat)
    requires WellFormed(es) && a < 0x1_0000 && Countable(entry, es, a)
    ensures Counts(entry, es, Replay(entry, es), a)
    decreases |es|
  {
    if es != [] {
      var front := es[..|es| - 1];
      assert Countable(entry, front, a);
      Accounting(entry, front, a);
      IoAccounting(entry, front, a);
      MarksExact(entry, front);
      hide Counts, Countable, Stays, Marks, Step, Stores;
      EventCounts(entry, es, Replay(entry, front), a);
    }
  }

  // ---- What the reports say ------------------------------------------------------------------

  /** The addresses with at least one store that did not land in I/O. */
  ghost function RamAddresses(entry: word, es: seq<Event>): set<nat> {
    set a: nat | a < 0x1_0000 && RamStores(entry, es, a) > 0
  }

  ghost function Reported(o: Obs): set<nat>
    requires Sized(o)
  {
    set a: nat | a < 0x1_0000 && ReachedRam(o, a)
  }

  /** What the report says of `a` can be told from the run alone: always outside I/O, and inside it unless
      hidden stores or re-pushes meet a write counter that stands still before the I/O counter does. */
  predicate Tellable(entry: word, es: seq<Event>, a: nat) {
    InIo(a) ==> Countable(entry, es, a) || IoStores(entry, es, a) >= COUNT_MAX
  }

  /** An address has a store beside I/O that survives in the counts. */
  predicate Surplus(entry: word, es: seq<Event>, a: nat) {
    RamStores(entry, es, a) > Shadowed(entry, es, a) && IoStores(entry, es, a) < COUNT_MAX
  }

  /** An address outside I/O is reported if and only if it was stored to, one inside if and only if it has
      more stores beside I/O than stores hidden by a successor of the same clock. */
  lemma ReportedAt(entry: word, es: seq<Event>, a: nat)
    requires WellFormed(es) && a < 0x1_0000 && Tellable(entry, es, a)
    ensures a in Reported(Replay(entry, es)) <==>
            if InIo(a) then Surplus(entry, es, a) else RamStores(entry, es, a) > 0
  {
    MarksExact(entry, es);
    IoAccounting(entry, es, a);
    assert Marks(entry, es, Replay(entry, es), a);
    if Countable(entry, es, a) {
      Accounting(entry, es, a);
    }
  }

  /** No two consecutive armed stores share a clock. */
  predicate ClocksDistinct(entry: word, es: seq<Event>) {
    forall i :: 0 <= i < |es| && es[i].Store? && Armed(entry, es[..i + 1]) ==>
      var before := LastStore(entry, es[..i]);
      before.Some? ==> before.value.1 != es[i].clk
  }

  lemma {:induction false} NothingShadowed(entry: word, es: seq<Event>, a: nat)
    requires ClocksDistinct(entry, es)
    ensures Shadowed(entry, es, a) == 0
    decreases |es|
  {
    if es != [] {
      var front := es[..|es| - 1];
      assert es[..|es| - 1 + 1] == es;
      forall i | 0 <= i < |front| && front[i].Store? && Armed(entry, front[..i + 1])
        ensures var before := LastStore(entry, front[..i]);
          before.Some? ==> before.value.1 != front[i].clk
      {
        assert front[..i + 1] == es[..i + 1] && front[..i] == es[..i] && front[i] == es[i];
      }
      NothingShadowed(entry, front, a);
    }
  }

  /** While every store has a clock of its own, the report is the set of addresses the routine stored
      to outside I/O, if and only if no I/O counter of such an address stands still. */
  lemma RamRunsExact(entry: word, es: seq<Event>)
    requires WellFormed(es) && ClocksDistinct(entry, es) && Tellable(entry, es, PORT_A)
    ensures Reported(Replay(entry, es)) == RamAddresses(entry, es) <==>
            forall a: nat :: InIo(a) && RamStores(entry, es, a) > 0 ==> IoStores(entry, es, a) < COUNT_MAX
  {
    forall a: nat | InIo(a)
      ensures Tellable(entry, es, a) && Shadowed(entry, es, a) == 0
    {
      NothingShadowed(entry, es, a);
    }
    hide Tellable, Reported, RamAddresses;
    RamRunsExactIff(entry, es);
  }

  /** For any clocks: the report is right if and only if every address of the I/O range with a store
      beside I/O has one that no successor hides and no counter at its end. */
  lemma RamRunsExactIff(entry: word, es: seq<Event>)
    requires WellFormed(es) && forall a: nat :: InIo(a) ==> Tellable(entry, es, a)
    ensures Reported(Replay(entry, es)) == RamAddresses(entry, es) <==>
            forall a: nat :: InIo(a) && RamStores(entry, es, a) > 0 ==> Surplus(entry, es, a)
  {
    var reported, actual := Reported(Replay(entry, es)), RamAddresses(entry, es);
    forall a: nat | a < 0x1_0000
      ensures a in reported <==> if InIo(a) then Surplus(entry, es, a) else RamStores(entry, es, a) > 0
    {
      assert Tellable(entry, es, a);
      ReportedAt(entry, es, a);
    }
    if reported == actual {
      forall a: nat | InIo(a) && RamStores(entry, es, a) > 0
        ensures Surplus(entry, es, a)
      {
        assert a in reported <==> a in actual;
      }
    }
  }

  /** At a turbo divider two stores can share a clock; then the first is lost from the report. */
  lemma TurboStoreLost()
    ensures var es := [Store(0xd000, 1, 0x1000, 7, false, 0), Store(0xd001, 2, 0x1003, 7, false, 0)];
      && WellFormed(es)
      && 0xd000 in RamAddresses(0x1000, es) && 0xd000 !in Reported(Replay(0x1000, es))
  {
    var first, second := Store(0xd000, 1, 0x1000, 7, false, 0), Store(0xd001, 2, 0x1003, 7, false, 0);
    var es := [first, second];
    assert es[..1] == [first] && [first][..0] == [];
    ArmedStep(0x1000, es);
    ArmedStep(0x1000, [first]);
    assert RamStores(0x1000, [first], 0xd000) == 1 && LastStore(0x1000, [first]) == Some((0xd000, 7));
    assert es[0].pc == 0x1000 && es[|es| - 1] == second && es[..|es| - 1] == [first];
    assert Shadowed(0x1000, es, 0xd000) == Shadowed(0x1000, [first], 0xd000) + 1;
    StoresBounded(0x1000, es, 0xd000);
    ReportedAt(0x1000, es, 0xd000);
  }

  /** A harvested byte is the routine's last I/O store to the address if there is one, and raw RAM
      otherwise. */
  lemma HarvestExact(entry: word, es: seq<Event>, ram: seq<byte>, a: nat)
    requires WellFormed(es) && |ram| == 0x1_0000 && a < 0x1_0000
    ensures Overlays(Replay(entry, es), a) <==> IoStores(entry, es, a) > 0
    ensures Overlaid(Replay(entry, es), ram, a) ==
            if IoStores(entry, es, a) > 0 then Nibble(a, LastIo(entry, es, a)) else ram[a]
  {
    MarksExact(entry, es);
    assert Marks(entry, es, Replay(entry, es), a);
  }

  /** The plain report holds every stored address and beyond them at most the re-pushed port. */
  lemma WrittenExact(entry: word, es: seq<Event>, a: nat)
    requires WellFormed(es) && a < 0x1_0000 && a != PORT_A
    ensures Replay(entry, es).written[a] <==> Stores(entry, es, a) > 0
  {
    MarksExact(entry, es);
    assert Marks(entry, es, Replay(entry, es), a);
  }
}
