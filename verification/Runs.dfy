/** Maximal runs: a set of positions written as sorted, disjoint, non-touching intervals. */
module Runs {

  /** An inclusive interval. */
  datatype Run = Run(lo: nat, hi: nat)

  predicate In(x: nat, r: Run) { r.lo <= x <= r.hi }

  predicate Covered(x: nat, rs: seq<Run>) { exists k :: 0 <= k < |rs| && In(x, rs[k]) }

  /** Sorted, non-empty, and with a gap between neighbours, so that no run can be extended. */
  predicate Separated(rs: seq<Run>) {
    && (forall k :: 0 <= k < |rs| ==> rs[k].lo <= rs[k].hi)
    && (forall j, k :: 0 <= j < k < |rs| ==> rs[j].hi + 1 < rs[k].lo)
  }

  /** `rs` is the list of maximal runs of the positions in `s`. */
  ghost predicate IsRunsOf(rs: seq<Run>, s: set<nat>) {
    Separated(rs) && forall x: nat :: x in s <==> Covered(x, rs)
  }

  /** Appending a run that starts after a gap. */
  lemma CoveredAppend(rs: seq<Run>, r: Run)
    ensures forall x: nat :: Covered(x, rs + [r]) <==> Covered(x, rs) || In(x, r)
  {
    forall x: nat
      ensures Covered(x, rs + [r]) <==> Covered(x, rs) || In(x, r)
    {
      if Covered(x, rs) {
        var k :| 0 <= k < |rs| && In(x, rs[k]);
        assert In(x, (rs + [r])[k]);
      }
      if In(x, r) {
        assert In(x, (rs + [r])[|rs|]);
      }
    }
  }

  lemma GapAfterFirst(rs: seq<Run>)
    requires Separated(rs) && rs != []
    ensures !Covered(rs[0].hi + 1, rs)
  {
  }

  /** The first run of a set is decided by the set. */
  lemma FirstRun(rs: seq<Run>, qs: seq<Run>, s: set<nat>)
    requires IsRunsOf(rs, s) && IsRunsOf(qs, s) && rs != []
    ensures qs != [] && rs[0].lo >= qs[0].lo
    ensures rs[0].lo == qs[0].lo ==> rs[0].hi <= qs[0].hi
  {
    assert In(rs[0].lo, rs[0]) && Covered(rs[0].lo, rs);
    var k :| 0 <= k < |qs| && In(rs[0].lo, qs[k]);
    if rs[0].lo == qs[0].lo {
      var x := qs[0].hi + 1;
      GapAfterFirst(qs);
      assert !Covered(x, rs);
      assert !In(x, rs[0]);
    }
  }

  /** There is only one such list, so that the description fixes the result completely. */
  lemma {:induction false} RunsUnique(rs: seq<Run>, qs: seq<Run>, s: set<nat>)
    requires IsRunsOf(rs, s) && IsRunsOf(qs, s)
    ensures rs == qs
    decreases |rs|
  {
    if rs == [] {
      if qs != [] {
        FirstRun(qs, rs, s);
      }
    } else {
      FirstRun(rs, qs, s);
      FirstRun(qs, rs, s);
      var t := set x | x in s && x > rs[0].hi;
      TailRuns(rs, s, t);
      TailRuns(qs, s, t);
      RunsUnique(rs[1..], qs[1..], t);
      assert rs == [rs[0]] + rs[1..] && qs == [qs[0]] + qs[1..];
    }
  }

  lemma TailRuns(rs: seq<Run>, s: set<nat>, t: set<nat>)
    requires IsRunsOf(rs, s) && rs != []
    requires forall x: nat :: x in t <==> x in s && x > rs[0].hi
    ensures IsRunsOf(rs[1..], t)
  {
    forall x: nat
      ensures x in t <==> Covered(x, rs[1..])
    {
      if x in t {
        var k :| 0 <= k < |rs| && In(x, rs[k]);
        assert In(x, rs[1..][k - 1]);
      }
      if Covered(x, rs[1..]) {
        var k :| 0 <= k < |rs[1..]| && In(x, rs[1..][k]);
        assert In(x, rs[k + 1]);
        assert Covered(x, rs);
      }
    }
  }
}
