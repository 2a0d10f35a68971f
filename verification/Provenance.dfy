/**
 VIC provenance in a checkpoint: the per-line register record is written as a list of changes and
 expanded again on restore.
 */
module Provenance {

  /** `ProvenanceRegs`: what drew one raster line, and whether the beam passed it this frame. */
  datatype Regs = Regs(d011: nat, d016: nat, d018: nat, vbank: nat, captured: bool)

  const DEFAULT := Regs(0, 0, 0, 0, false)

  /** One entry of the change list. */
  datatype Change = Change(line: nat, d011: nat, d016: nat, d018: nat, bank: nat)

  datatype Option<T> = None | Some(value: T)

  predicate SameRegs(p: Regs, q: Regs) {
    var mode := p.d011 == q.d011 && p.d016 == q.d016;
    var same := mode && p.d018 == q.d018 && p.vbank == q.vbank;
    same
  }

  function ToChange(line: nat, p: Regs): Change { Change(line, p.d011, p.d016, p.d018, p.vbank) }

  function ToRegs(c: Change): Regs { Regs(c.d011, c.d016, c.d018, c.bank, true) }

  // ---- Capture -------------------------------------------------------------------------------

  /** The last captured line before `n`, if any. */
  function LastCaptured(prov: seq<Regs>, n: nat): Option<Regs>
    requires n <= |prov|
  {
    if n == 0 then None else if prov[n - 1].captured then Some(prov[n - 1]) else LastCaptured(prov, n - 1)
  }

  /** Line `i` is captured and its registers are not those of the captured line before it. */
  predicate IsChange(prov: seq<Regs>, i: nat)
    requires i < |prov|
  {
    && prov[i].captured
    && (LastCaptured(prov, i).Some? ==> !SameRegs(LastCaptured(prov, i).value, prov[i]))
  }

  /** The change list of the first `n` lines. */
  function Changes(prov: seq<Regs>, n: nat): seq<Change>
    requires n <= |prov|
  {
    if n == 0 then []
    else Changes(prov, n - 1) + (if IsChange(prov, n - 1) then [ToChange(n - 1, prov[n - 1])] else [])
  }

  /** `capture_vic_provenance`: null when nothing was captured. */
  method Capture(prov: seq<Regs>) returns (lines: Option<seq<Change>>)
    ensures lines == if Changes(prov, |prov|) == [] then None else Some(Changes(prov, |prov|))
  {
    var prev: Option<Regs> := None;
    var out: seq<Change> := [];
    for i := 0 to |prov|
      invariant out == Changes(prov, i)
      invariant prev.Some? <==> LastCaptured(prov, i).Some?
      invariant prev.Some? ==> SameRegs(prev.value, LastCaptured(prov, i).value)
    {
      var p := prov[i];
      if p.captured {
        var changed := prev.None? || !SameRegs(prev.value, p);
        if changed {
          prev := Some(p);
          out := out + [ToChange(i, p)];
        }
      }
    }
    lines := if out == [] then None else Some(out);
  }

  // ---- Restore -------------------------------------------------------------------------------

  predicate Sorted(es: seq<Change>) { forall i, j :: 0 <= i < j < |es| ==> es[i].line <= es[j].line }

  /** Insertion after every entry of the same line. */
  function Insert(es: seq<Change>, e: Change): seq<Change> {
    if es == [] || es[|es| - 1].line <= e.line then es + [e]
    else Insert(es[..|es| - 1], e) + [es[|es| - 1]]
  }

  /** `sort_by_key`: stable. */
  function SortByLine(es: seq<Change>): seq<Change> {
    if es == [] then [] else Insert(SortByLine(es[..|es| - 1]), es[|es| - 1])
  }

  /** The entry a line takes, from any list: the one with the greatest line not beyond it, the later
      one of two for the same line. */
  function EntryFor(es: seq<Change>, line: nat): Option<Change> {
    if es == [] then None
    else
      var before, e := EntryFor(es[..|es| - 1], line), es[|es| - 1];
      if e.line <= line && (before.None? || before.value.line <= e.line) then Some(e) else before
  }

  function RestoredLine(es: seq<Change>, line: nat): Regs {
    match EntryFor(es, line)
    case None => DEFAULT
    case Some(e) => ToRegs(e)
  }

  lemma {:induction false} InsertSorted(es: seq<Change>, e: Change)
    requires Sorted(es)
    ensures var r := Insert(es, e);
      && Sorted(r) && |r| == |es| + 1
      && (forall i :: 0 <= i < |r| ==> r[i] == e || r[i] in es)
    decreases |es|
  {
    if es != [] && es[|es| - 1].line > e.line {
      InsertSorted(es[..|es| - 1], e);
    }
  }

  lemma {:induction false} SortSorted(es: seq<Change>)
    ensures Sorted(SortByLine(es)) && |SortByLine(es)| == |es|
    decreases |es|
  {
    if es != [] {
      SortSorted(es[..|es| - 1]);
      InsertSorted(SortByLine(es[..|es| - 1]), es[|es| - 1]);
    }
  }

  /** In a sorted list the entry for a line is the last one not beyond it. */
  lemma {:induction false} EntryInSorted(es: seq<Change>, line: nat, n: nat)
    requires Sorted(es) && n <= |es|
    requires forall i :: 0 <= i < n ==> es[i].line <= line
    requires forall i :: n <= i < |es| ==> es[i].line > line
    ensures EntryFor(es, line) == if n == 0 then None else Some(es[n - 1])
    decreases |es|
  {
    if es != [] {
      var front := es[..|es| - 1];
      if n == |es| {
        EntryAt(front, line);
      } else {
        EntryInSorted(front, line, n);
      }
    }
  }

  /** The entry for a line comes from the list and is not beyond the line. */
  lemma {:induction false} EntryAt(es: seq<Change>, line: nat)
    ensures EntryFor(es, line).Some? ==> EntryFor(es, line).value in es && EntryFor(es, line).value.line <= line
    decreases |es|
  {
    if es != [] {
      EntryAt(es[..|es| - 1], line);
    }
  }

  /** Insertion acts on the entry for a line as appending does. */
  lemma {:induction false} EntryAfterInsert(es: seq<Change>, e: Change, line: nat)
    requires Sorted(es)
    ensures EntryFor(Insert(es, e), line) == EntryFor(es + [e], line)
    decreases |es|
  {
    assert (es + [e])[..|es|] == es;
    if es != [] && es[|es| - 1].line > e.line {
      var front, last := es[..|es| - 1], es[|es| - 1];
      EntryAfterInsert(front, e, line);
      assert (front + [e])[..|front|] == front;
      var ins := Insert(front, e);
      assert (ins + [last])[..|ins|] == ins;
      EntryAt(front, line);
    }
  }

  lemma {:induction false} EntryAfterSort(es: seq<Change>, line: nat)
    ensures EntryFor(SortByLine(es), line) == EntryFor(es, line)
    decreases |es|
  {
    if es != [] {
      var front, last := es[..|es| - 1], es[|es| - 1];
      EntryAfterSort(front, line);
      SortSorted(front);
      EntryAfterInsert(SortByLine(front), last, line);
      var s := SortByLine(front);
      assert (s + [last])[..|s|] == s;
    }
  }

  /** What the first `n` sorted entries, all not beyond the line, leave for it. */
  lemma LineFromSorted(es: seq<Change>, line: nat, n: nat)
    requires n <= |SortByLine(es)|
    requires forall i :: 0 <= i < n ==> SortByLine(es)[i].line <= line
    requires forall i :: n <= i < |SortByLine(es)| ==> SortByLine(es)[i].line > line
    ensures RestoredLine(es, line) == if n == 0 then DEFAULT else ToRegs(SortByLine(es)[n - 1])
  {
    SortSorted(es);
    EntryInSorted(SortByLine(es), line, n);
    EntryAfterSort(es, line);
  }

  /** `restore_vic_provenance`: one pass over the lines and the sorted entries together. */
  method Restore(prov: array<Regs>, lines: Option<seq<Change>>)
    modifies prov
    ensures var es := if lines.None? then [] else lines.value;
      forall l :: 0 <= l < prov.Length ==> prov[l] == RestoredLine(es, l)
  {
    hide SortByLine, RestoredLine, ToRegs;
    var es := if lines.None? then [] else lines.value;
    var entries := SortByLine(es);
    SortSorted(es);
    var cur: Option<Regs> := None;
    var next := 0;
    for line := 0 to prov.Length
      invariant 0 <= next <= |entries|
      invariant forall i :: 0 <= i < next ==> entries[i].line < line
      invariant forall i :: next <= i < |entries| ==> entries[i].line >= line
      invariant cur == if next == 0 then None else Some(ToRegs(entries[next - 1]))
      invariant forall l :: 0 <= l < line ==> prov[l] == RestoredLine(es, l)
    {
      while next < |entries| && entries[next].line <= line
        invariant 0 <= next <= |entries|
        invariant forall i :: 0 <= i < next ==> entries[i].line <= line
        invariant forall i :: next <= i < |entries| ==> entries[i].line >= line
        invariant cur == if next == 0 then None else Some(ToRegs(entries[next - 1]))
      {
        cur := Some(ToRegs(entries[next]));
        next := next + 1;
      }
      prov[line] := if cur.None? then DEFAULT else cur.value;
      LineFromSorted(es, line, next);
    }
  }

  // ---- The round trip ------------------------------------------------------------------------

  /** The record a restore of the change list produces. */
  function Restored(prov: seq<Regs>): (r: seq<Regs>)
    ensures |r| == |prov|
  {
    seq(|prov|, l requires 0 <= l < |prov| => RestoredLine(Changes(prov, |prov|), l))
  }

  lemma {:induction false} ChangesBelow(prov: seq<Regs>, n: nat)
    requires n <= |prov|
    ensures Sorted(Changes(prov, n))
    ensures forall i :: 0 <= i < |Changes(prov, n)| ==> Changes(prov, n)[i].line < n
    decreases n
  {
    if n > 0 {
      ChangesBelow(prov, n - 1);
    }
  }

  lemma {:induction false} ChangesPrefix(prov: seq<Regs>, n: nat, k: nat)
    requires n <= k <= |prov|
    ensures Changes(prov, n) <= Changes(prov, k)
    ensures forall i :: |Changes(prov, n)| <= i < |Changes(prov, k)| ==> Changes(prov, k)[i].line >= n
    decreases k
  {
    if n < k {
      ChangesPrefix(prov, n, k - 1);
    }
  }

  /** The last change before `n` has the registers of the last captured line before `n`. */
  lemma {:induction false} LastChange(prov: seq<Regs>, n: nat)
    requires n <= |prov|
    ensures LastCaptured(prov, n).None? <==> Changes(prov, n) == []
    ensures LastCaptured(prov, n).Some? ==>
      SameRegs(LastCaptured(prov, n).value, ToRegs(Changes(prov, n)[|Changes(prov, n)| - 1]))
    decreases n
  {
    if n > 0 {
      LastChange(prov, n - 1);
    }
  }

  /** A restored line holds the registers of the last captured line at or before it. */
  lemma RestoredIsLastCaptured(prov: seq<Regs>, l: nat)
    requires l < |prov|
    ensures LastCaptured(prov, l + 1).None? ==> Restored(prov)[l] == DEFAULT
    ensures LastCaptured(prov, l + 1).Some? ==>
      Restored(prov)[l].captured && SameRegs(Restored(prov)[l], LastCaptured(prov, l + 1).value)
  {
    var all, upTo := Changes(prov, |prov|), Changes(prov, l + 1);
    ChangesBelow(prov, |prov|);
    ChangesBelow(prov, l + 1);
    ChangesPrefix(prov, l + 1, |prov|);
    EntryInSorted(all, l, |upTo|);
    LastChange(prov, l + 1);
  }

  /** Restoring a captured record gives every captured line back. */
  lemma RestoreAgrees(prov: seq<Regs>, l: nat)
    requires l < |prov| && prov[l].captured
    ensures Restored(prov)[l] == prov[l]
  {
    RestoredIsLastCaptured(prov, l);
  }

  /** Capturing the restored record again yields the same change list. */
  lemma {:induction false} CaptureAgain(prov: seq<Regs>, n: nat)
    requires n <= |prov|
    ensures Changes(Restored(prov), n) == Changes(prov, n)
    ensures LastCaptured(Restored(prov), n).None? <==> LastCaptured(prov, n).None?
    ensures LastCaptured(prov, n).Some? ==>
      SameRegs(LastCaptured(Restored(prov), n).value, LastCaptured(prov, n).value)
    decreases n
  {
    if n > 0 {
      CaptureAgain(prov, n - 1);
      RestoredIsLastCaptured(prov, n - 1);
    }
  }

  /** The checkpoint round-trips: the list of the restored record is the list it came from. */
  lemma RoundTrip(prov: seq<Regs>)
    ensures Changes(Restored(prov), |prov|) == Changes(prov, |prov|)
  {
    CaptureAgain(prov, |prov|);
  }

  /** The list is as short as it can be: neighbouring entries differ. */
  lemma {:induction false} NeighboursDiffer(prov: seq<Regs>, n: nat, i: nat)
    requires n <= |prov| && i + 1 < |Changes(prov, n)|
    ensures !SameRegs(ToRegs(Changes(prov, n)[i]), ToRegs(Changes(prov, n)[i + 1]))
    decreases n
  {
    if i + 1 < |Changes(prov, n - 1)| {
      NeighboursDiffer(prov, n - 1, i);
    } else {
      LastChange(prov, n - 1);
    }
  }
}
