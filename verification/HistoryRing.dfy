/**
 The CPU-history ring: a fixed slab overwritten in place that answers every query as a plain log of
 the retired instructions would, and the flat byte payload it is dumped to and rebuilt from.
 */
module HistoryRing {
  import opened Bytes

  type u64 = x: int | 0 <= x < 0x1_0000_0000_0000_0000
  type u32 = x: int | 0 <= x < 0x1_0000_0000

  datatype Option<T> = None | Some(value: T)

  /** One retired instruction. */
  datatype Entry = Entry(cycle: u64, pc: word, opcode: byte, b1: byte, b2: byte,
                         a: byte, x: byte, y: byte, sp: byte, p: byte)

  const BLANK := Entry(0, 0, 0, 0, 0, 0, 0, 0, 0, 0)

  // ---- The log -------------------------------------------------------------------------------

  function Min(i: nat, j: nat): nat { if i < j then i else j }

  function Max1(n: nat): (r: nat)
    ensures r >= 1
  {
    if n == 0 then 1 else n
  }

  /** The last `n` entries, oldest first; all of them when there are fewer. */
  function Last(log: seq<Entry>, n: nat): seq<Entry> { log[|log| - Min(n, |log|)..] }

  /** The entries stamped in `[lo, hi]`, in order. */
  function Window(log: seq<Entry>, lo: nat, hi: nat): seq<Entry> {
    if log == [] then []
    else
      var e := log[|log| - 1];
      Window(log[..|log| - 1], lo, hi) + (if lo <= e.cycle <= hi then [e] else [])
  }

  /** The oldest and the newest stamp. */
  function Span(log: seq<Entry>): Option<(nat, nat)> {
    if log == [] then None else Some((log[0].cycle, log[|log| - 1].cycle))
  }

  // ---- Slots ---------------------------------------------------------------------------------

  /** The slot of the `k`-th entry pushed. */
  function Slot(k: nat, cap: nat): (s: nat)
    requires cap >= 1
    ensures s < cap
  {
    k % cap
  }

  /** Entries less than a capacity apart never share a slot. */
  lemma SlotsDistinct(j: nat, k: nat, cap: nat)
    requires cap >= 1 && j < k < j + cap
    ensures Slot(j, cap) != Slot(k, cap)
  {
    if j % cap == k % cap {
      var d := k / cap - j / cap;
      assert k - j == cap * d by {
        assert k == cap * (k / cap) + k % cap && j == cap * (j / cap) + j % cap;
      }
      MultipleTooFar(cap, d);
    }
  }

  lemma MultipleTooFar(cap: nat, d: int)
    ensures 0 < cap * d ==> cap * d >= cap
  {
    if d >= 1 {
      assert cap * d == cap + cap * (d - 1);
    } else {
      assert cap * d <= 0;
    }
  }

  // ---- The ring ------------------------------------------------------------------------------

  class Ring {
    var slab: array<Entry>
    var head: nat
    var enabled: bool
    /** Every entry recorded since the ring was made, cleared or resized. */
    ghost var log: seq<Entry>

    ghost predicate Valid()
      reads this, slab
    {
      && slab.Length >= 1
      && head == |log|
      && forall k :: 0 <= k < |log| && |log| <= k + slab.Length ==> slab[Slot(k, slab.Length)] == log[k]
    }

    constructor (capacity: nat, armed: bool)
      ensures Valid() && fresh(slab)
      ensures slab.Length == Max1(capacity) && log == [] && enabled == armed
    {
      slab := new Entry[Max1(capacity)](_ => BLANK);
      head, enabled, log := 0, armed, [];
    }

    /** `clone`: an empty ring of the same size. */
    constructor Clone(other: Ring)
      requires other.Valid()
      ensures Valid() && fresh(slab)
      ensures slab.Length == other.slab.Length && log == [] && enabled == other.enabled
    {
      slab := new Entry[other.slab.Length](_ => BLANK);
      head, enabled, log := 0, other.enabled, [];
    }

    method Resize(capacity: nat)
      requires Valid()
      modifies this
      ensures Valid() && fresh(slab)
      ensures slab.Length == Max1(capacity) && log == [] && enabled == old(enabled)
    {
      slab := new Entry[Max1(capacity)](_ => BLANK);
      head, log := 0, [];
    }

    method Clear()
      requires Valid()
      modifies this`head, this`log
      ensures Valid() && log == []
    {
      head, log := 0, [];
    }

    method SetEnabled(on: bool)
      requires Valid()
      modifies this`enabled
      ensures Valid() && enabled == on
    {
      enabled := on;
    }

    /** Overwrites the oldest slot once the ring is full. */
    method Append(e: Entry)
      requires Valid()
      modifies this`head, this`log, slab
      ensures Valid() && slab == old(slab)
      ensures log == old(log) + [e]
    {
      hide Slot;
      var cap := slab.Length;
      forall k: nat | k < head && head < k + cap
        ensures Slot(k, cap) != Slot(head, cap)
      {
        SlotsDistinct(k, head, cap);
      }
      slab[Slot(head, cap)] := e;
      head := head + 1;
      log := log + [e];
    }

    /** Does nothing while disabled. */
    method Push(e: Entry)
      requires Valid()
      modifies this`head, this`log, slab
      ensures Valid() && slab == old(slab)
      ensures log == if enabled then old(log) + [e] else old(log)
    {
      if enabled {
        Append(e);
      }
    }

    method Len() returns (n: nat)
      requires Valid()
      ensures n == Min(|log|, slab.Length)
    {
      n := Min(head, slab.Length);
    }

    method LastN(n: nat) returns (out: seq<Entry>)
      requires Valid()
      ensures out == Last(log, Min(n, slab.Length))
    {
      hide Slot;
      var len := Len();
      var take := Min(n, len);
      out := [];
      if take == 0 {
        return;
      }
      var cap := slab.Length;
      var start := head - take;
      for k := 0 to take
        invariant out == log[start..start + k]
      {
        out := out + [slab[Slot(start + k, cap)]];
      }
    }

    method WindowByCycle(lo: nat, hi: nat) returns (out: seq<Entry>, count: nat)
      requires Valid()
      ensures out == Window(Last(log, slab.Length), lo, hi) && count == |out|
    {
      hide Slot;
      out, count := [], 0;
      var len := Len();
      if len == 0 {
        return;
      }
      var cap := slab.Length;
      var start := head - len;
      for k := 0 to len
        invariant out == Window(log[start..start + k], lo, hi)
      {
        var e := slab[Slot(start + k, cap)];
        var seen := log[start..start + k + 1];
        assert seen[..k] == log[start..start + k] && seen[k] == e;
        if e.cycle >= lo && e.cycle <= hi {
          out := out + [e];
        }
      }
      assert log[start..start + len] == Last(log, cap);
      count := |out|;
    }

    method CycleSpan() returns (span: Option<(nat, nat)>)
      requires Valid()
      ensures span == Span(Last(log, slab.Length))
    {
      hide Slot;
      var len := Len();
      if len == 0 {
        return None;
      }
      var cap := slab.Length;
      var oldest, newest := slab[Slot(head - len, cap)], slab[Slot(head - 1, cap)];
      span := Some((oldest.cycle, newest.cycle));
    }

    // ---- Dump and restore --------------------------------------------------------------------

    /** The valid window, the capacity cut to 32 bits, and the armed flag. */
    method ToDump() returns (d: Dump)
      requires Valid()
      ensures d == Dump(slab.Length % 0x1_0000_0000, enabled, Encode(Last(log, slab.Length)))
    {
      hide Slot;
      var len := Len();
      var out := LastN(len);
      var bytes: seq<byte> := [];
      for i := 0 to |out|
        invariant bytes == Encode(out[..i])
      {
        assert out[..i + 1][..i] == out[..i];
        bytes := bytes + ToLe(out[i]);
      }
      assert out[..|out|] == out;
      d := Dump(slab.Length % 0x1_0000_0000, enabled, bytes);
    }

    /** Lays every whole record of the payload into a fresh slab; a rest shorter than a record is
        ignored. */
    constructor FromDump(d: Dump)
      ensures Valid() && fresh(slab)
      ensures slab.Length == Max1(d.capacity) && enabled == d.enabled
      ensures log == Decode(d.entries)
    {
      hide Slot, FromLe;
      var cap := Max1(d.capacity);
      slab := new Entry[cap](_ => BLANK);
      head, enabled, log := 0, d.enabled, [];
      new;
      var rest := d.entries;
      while |rest| >= RECORD
        invariant Valid() && slab.Length == cap && fresh(slab) && enabled == d.enabled
        invariant log + Decode(rest) == Decode(d.entries)
        decreases |rest|
      {
        var e := FromLe(rest[..RECORD]);
        Append(e);
        rest := rest[RECORD..];
      }
    }
  }

  // ---- The payload ---------------------------------------------------------------------------

  /** Bytes of one record: the stamp, the address, eight registers and operands, and one byte that is
      never written. */
  const RECORD: nat := 19

  datatype Dump = Dump(capacity: u32, enabled: bool, entries: seq<byte>)

  lemma Powers()
    ensures Power256(8) == 0x1_0000_0000_0000_0000
  {
    assert Power256(4) == 0x1_0000_0000;
  }

  function ToLe(e: Entry): (r: seq<byte>)
    ensures |r| == RECORD
  {
    LittleEndian(e.cycle, 8) + [Lo(e.pc), Hi(e.pc), e.opcode, e.b1, e.b2, e.a, e.x, e.y, e.sp, e.p, 0]
  }

  function FromLe(b: seq<byte>): Entry
    requires |b| == RECORD
  {
    Powers();
    FromLittleEndianBound(b[..8]);
    Entry(FromLittleEndian(b[..8]), MakeWord(b[9], b[8]), b[10], b[11], b[12], b[13], b[14], b[15], b[16], b[17])
  }

  function Encode(es: seq<Entry>): seq<byte> {
    if es == [] then [] else Encode(es[..|es| - 1]) + ToLe(es[|es| - 1])
  }

  function Decode(bs: seq<byte>): seq<Entry> {
    if |bs| < RECORD then [] else [FromLe(bs[..RECORD])] + Decode(bs[RECORD..])
  }

  lemma RecordRoundTrip(e: Entry)
    ensures FromLe(ToLe(e)) == e
  {
    Powers();
    LittleEndianRoundTrip(e.cycle, 8);
    assert ToLe(e)[..8] == LittleEndian(e.cycle, 8);
  }

  /** A record appended to whole records decodes to one more entry. */
  lemma {:induction false} DecodeAppend(bs: seq<byte>, e: Entry)
    requires |bs| % RECORD == 0
    ensures Decode(bs + ToLe(e)) == Decode(bs) + [e]
    decreases |bs|
  {
    hide ToLe, FromLe;
    var all := bs + ToLe(e);
    if bs == [] {
      RecordRoundTrip(e);
      assert all[..RECORD] == ToLe(e) && all[RECORD..] == [];
    } else {
      assert all[..RECORD] == bs[..RECORD] && all[RECORD..] == bs[RECORD..] + ToLe(e);
      DecodeAppend(bs[RECORD..], e);
    }
  }

  lemma {:induction false} PayloadRoundTrip(es: seq<Entry>)
    ensures |Encode(es)| % RECORD == 0 && Decode(Encode(es)) == es
    decreases |es|
  {
    if es != [] {
      PayloadRoundTrip(es[..|es| - 1]);
      DecodeAppend(Encode(es[..|es| - 1]), es[|es| - 1]);
    }
  }

  // ---- What a restored ring answers ----------------------------------------------------------

  /** What a ring dumped with log `log` and capacity `cap` retains once restored. */
  function RestoredWindow(log: seq<Entry>, cap: nat): seq<Entry>
    requires cap >= 1
  {
    Last(Decode(Encode(Last(log, cap))), Max1(cap % 0x1_0000_0000))
  }

  /** All queries of a ring read its retained window only; the restored ring retains the same window
      if and only if the capacity that went through 32 bits still holds it. */
  lemma RestoreIsTransparent(log: seq<Entry>, cap: nat)
    requires cap >= 1
    ensures RestoredWindow(log, cap) == Last(log, cap) <==>
            Min(|log|, cap) <= Max1(cap % 0x1_0000_0000)
  {
    PayloadRoundTrip(Last(log, cap));
  }

  /** Within 32 bits of capacity the restored ring has the same size and the same window. */
  lemma RestoreExact(log: seq<Entry>, cap: nat)
    requires 1 <= cap < 0x1_0000_0000
    ensures Max1(cap % 0x1_0000_0000) == cap && RestoredWindow(log, cap) == Last(log, cap)
  {
    RestoreIsTransparent(log, cap);
  }

  /** A ring of 2^32 slots is dumped as one of capacity 0 and restored with a single slot. */
  lemma LargeRingForgets(older: Entry, newer: Entry)
    ensures RestoredWindow([older, newer], 0x1_0000_0000) != Last([older, newer], 0x1_0000_0000)
  {
    RestoreIsTransparent([older, newer], 0x1_0000_0000);
  }

  /** A query for `n` entries reads the retained window only. */
  lemma LastOfRetained(log: seq<Entry>, cap: nat, n: nat)
    ensures Last(log, Min(n, cap)) == Last(Last(log, cap), n)
  {
  }

  /** Dumping and restoring a ring changes no answer if and only if the restored capacity still holds
      what the ring retains. */
  method DumpAndRestore(r: Ring) returns (c: Ring)
    requires r.Valid()
    ensures fresh(c) && c.Valid() && c.enabled == r.enabled
    ensures c.slab.Length == Max1(r.slab.Length % 0x1_0000_0000)
    ensures Last(c.log, c.slab.Length) == Last(r.log, r.slab.Length) <==>
            Min(|r.log|, r.slab.Length) <= c.slab.Length
  {
    var d := r.ToDump();
    c := new Ring.FromDump(d);
    RestoreIsTransparent(r.log, r.slab.Length);
  }

  /** The window query picks exactly the stamped entries: what it returns is in range, and everything
      in range is returned. */
  lemma {:induction false} WindowExact(log: seq<Entry>, lo: nat, hi: nat, e: Entry)
    ensures multiset(Window(log, lo, hi))[e] == if lo <= e.cycle <= hi then multiset(log)[e] else 0
    decreases |log|
  {
    if log != [] {
      WindowExact(log[..|log| - 1], lo, hi, e);
      assert log == log[..|log| - 1] + [log[|log| - 1]];
    }
  }
}
