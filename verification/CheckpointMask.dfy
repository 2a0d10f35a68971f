/**
 The exclusion mask of the checkpoint diff: whole components, volatile lanes, and address windows
 are taken out of the deltas, and every mask entry is told whether it removed anything.
 */
module CheckpointMask {
  import opened Bytes
  import opened Runs
  import opened CheckpointTree
  import opened DriveBlob

  /** An address window (inclusive) within one component. */
  datatype Window = Window(component: nat, from: nat, to: nat)

  /** Components and lanes stand for their names. */
  datatype Mask = Mask(components: seq<nat>, lanes: seq<nat>, ranges: seq<Window>)

  /** `component_of` and `lane_of`: the classification tables. */
  datatype Classifier = Classifier(component: Path -> nat, lane: Path -> Option<nat>)

  predicate Within(x: nat, w: Window) { w.from <= x <= w.to }

  // ---- Interval subtraction ------------------------------------------------------------------

  /** `subtract`: what is left of a run, and whether the window met it. */
  function Subtract(r: Run, w: Window): (seq<Run>, bool) {
    if w.to < r.lo || w.from > r.hi then ([r], false)
    else
      ((if w.from > r.lo then [Run(r.lo, w.from - 1)] else []) +
       (if w.to < r.hi then [Run(w.to + 1, r.hi)] else []), true)
  }

  /** The run holds both ends of an inverted window. */
  predicate Straddles(r: Run, w: Window) { r.lo <= w.to < w.from <= r.hi }

  lemma CoveredOne(x: nat, r: Run)
    ensures Covered(x, [r]) <==> In(x, r)
  {
    if In(x, r) {
      assert In(x, [r][0]);
    }
  }

  lemma CoveredConcat(x: nat, rs: seq<Run>, qs: seq<Run>)
    ensures Covered(x, rs + qs) <==> Covered(x, rs) || Covered(x, qs)
  {
    if k :| 0 <= k < |rs| && In(x, rs[k]) {
      assert In(x, (rs + qs)[k]);
    }
    if k :| 0 <= k < |qs| && In(x, qs[k]) {
      assert In(x, (rs + qs)[|rs| + k]);
    }
    if k :| 0 <= k < |rs + qs| && In(x, (rs + qs)[k]) {
      if k < |rs| {
        assert In(x, rs[k]);
      } else {
        assert In(x, qs[k - |rs|]);
      }
    }
  }

  /** Subtraction is set difference for every window, an inverted one included. The pieces are
      separated runs, and a hit means that something went, if and only if the run does not hold both
      ends of an inverted window. */
  lemma SubtractExact(r: Run, w: Window)
    requires r.lo <= r.hi
    ensures forall x: nat :: Covered(x, Subtract(r, w).0) <==> In(x, r) && !Within(x, w)
    ensures Separated(Subtract(r, w).0) <==> !Straddles(r, w)
    ensures (Subtract(r, w).1 <==> exists x: nat :: In(x, r) && Within(x, w)) <==> !Straddles(r, w)
  {
    var pieces := Subtract(r, w).0;
    var left := if w.from > r.lo then [Run(r.lo, w.from - 1)] else [];
    var right := if w.to < r.hi then [Run(w.to + 1, r.hi)] else [];
    forall x: nat
      ensures Covered(x, pieces) <==> In(x, r) && !Within(x, w)
    {
      CoveredOne(x, r);
      CoveredConcat(x, left, right);
      if w.from > r.lo {
        CoveredOne(x, Run(r.lo, w.from - 1));
      }
      if w.to < r.hi {
        CoveredOne(x, Run(w.to + 1, r.hi));
      }
    }
    if w.from <= w.to && Subtract(r, w).1 {
      var x := if w.from < r.lo then r.lo else w.from;
      assert In(x, r) && Within(x, w);
    }
    if Subtract(r, w).1 && w.to < w.from {
      assert pieces[0].hi + 1 >= pieces[1].lo;
    }
  }

  /** One window over every segment. */
  function SubtractEach(segments: seq<Run>, w: Window): seq<Run> {
    var n := |segments|;
    if n == 0 then [] else SubtractEach(segments[..n - 1], w) + Subtract(segments[n - 1], w).0
  }

  predicate Meets(segments: seq<Run>, w: Window) {
    exists k :: 0 <= k < |segments| && Subtract(segments[k], w).1
  }

  /** A run after the first `n` windows of the mask that belong to its component. */
  function SubtractFirst(r: Run, comp: nat, ranges: seq<Window>, n: nat): seq<Run>
    requires n <= |ranges|
  {
    if n == 0 then [r]
    else
      var before := SubtractFirst(r, comp, ranges, n - 1);
      if ranges[n - 1].component == comp then SubtractEach(before, ranges[n - 1]) else before
  }

  predicate NonEmpty(rs: seq<Run>) { forall k :: 0 <= k < |rs| ==> rs[k].lo <= rs[k].hi }

  lemma {:induction false} SubtractEachExact(segments: seq<Run>, w: Window)
    requires NonEmpty(segments)
    ensures NonEmpty(SubtractEach(segments, w))
    ensures forall x: nat :: Covered(x, SubtractEach(segments, w)) <==> Covered(x, segments) && !Within(x, w)
    decreases |segments|
  {
    if segments != [] {
      var front, last := segments[..|segments| - 1], segments[|segments| - 1];
      SubtractEachExact(front, w);
      SubtractExact(last, w);
      forall x: nat
        ensures Covered(x, SubtractEach(segments, w)) <==> Covered(x, segments) && !Within(x, w)
      {
        CoveredConcat(x, SubtractEach(front, w), Subtract(last, w).0);
        CoveredOne(x, last);
        CoveredConcat(x, front, [last]);
        assert front + [last] == segments;
      }
    }
  }

  /** No window of the first `n` for this component holds `x`. */
  ghost predicate Unmasked(x: nat, comp: nat, ranges: seq<Window>, n: nat)
    requires n <= |ranges|
  {
    forall i :: 0 <= i < n && ranges[i].component == comp ==> !Within(x, ranges[i])
  }

  /** What is left of a run is its positions outside the union of the windows. */
  lemma {:induction false} SubtractFirstExact(r: Run, comp: nat, ranges: seq<Window>, n: nat)
    requires r.lo <= r.hi && n <= |ranges|
    ensures NonEmpty(SubtractFirst(r, comp, ranges, n))
    ensures forall x: nat :: Covered(x, SubtractFirst(r, comp, ranges, n)) <==>
                               In(x, r) && Unmasked(x, comp, ranges, n)
    decreases n
  {
    if n == 0 {
      forall x: nat ensures Covered(x, [r]) <==> In(x, r) { CoveredOne(x, r); }
    } else {
      SubtractFirstExact(r, comp, ranges, n - 1);
      if ranges[n - 1].component == comp {
        SubtractEachExact(SubtractFirst(r, comp, ranges, n - 1), ranges[n - 1]);
      }
    }
  }

  /** Window `i` removes something of a run that the windows before it left. */
  ghost predicate Removes(r: Run, comp: nat, ranges: seq<Window>, i: nat)
    requires i < |ranges|
  {
    ranges[i].component == comp
    && exists x: nat :: In(x, r) && Unmasked(x, comp, ranges, i) && Within(x, ranges[i])
  }

  /** Whether the loop flags window `i` for a run. */
  predicate Flags(r: Run, comp: nat, ranges: seq<Window>, i: nat)
    requires i < |ranges|
  {
    ranges[i].component == comp && Meets(SubtractFirst(r, comp, ranges, i), ranges[i])
  }

  lemma FlagsExact(r: Run, comp: nat, ranges: seq<Window>, i: nat)
    requires r.lo <= r.hi && i < |ranges| && ranges[i].from <= ranges[i].to
    ensures Flags(r, comp, ranges, i) <==> Removes(r, comp, ranges, i)
  {
    var segments := SubtractFirst(r, comp, ranges, i);
    SubtractFirstExact(r, comp, ranges, i);
    if ranges[i].component == comp {
      if k :| 0 <= k < |segments| && Subtract(segments[k], ranges[i]).1 {
        SubtractExact(segments[k], ranges[i]);
        var x: nat :| In(x, segments[k]) && Within(x, ranges[i]);
        assert Covered(x, segments);
      }
      if x: nat :| In(x, r) && Unmasked(x, comp, ranges, i) && Within(x, ranges[i]) {
        assert Covered(x, segments);
        var k :| 0 <= k < |segments| && In(x, segments[k]);
        SubtractExact(segments[k], ranges[i]);
      }
    }
  }

  /** Window `i` comes to a run of its component while one of the pieces left holds both its inverted
      ends. */
  predicate Misreads(r: Run, comp: nat, ranges: seq<Window>, i: nat)
    requires i < |ranges|
  {
    ranges[i].component == comp
    && var left := SubtractFirst(r, comp, ranges, i);
       exists k :: 0 <= k < |left| && Straddles(left[k], ranges[i])
  }

  /** For any window: the flag is right if and only if no piece left holds both its inverted ends. */
  lemma FlagsRightIff(r: Run, comp: nat, ranges: seq<Window>, i: nat)
    requires r.lo <= r.hi && i < |ranges|
    ensures (Flags(r, comp, ranges, i) <==> Removes(r, comp, ranges, i)) <==> !Misreads(r, comp, ranges, i)
    ensures ranges[i].to < ranges[i].from ==>
      !Removes(r, comp, ranges, i) && (Flags(r, comp, ranges, i) <==> Misreads(r, comp, ranges, i))
  {
    var w := ranges[i];
    if w.from <= w.to {
      FlagsExact(r, comp, ranges, i);
    } else {
      var left := SubtractFirst(r, comp, ranges, i);
      assert forall k :: 0 <= k < |left| ==> (Subtract(left[k], w).1 <==> Straddles(left[k], w));
    }
  }

  // ---- Deltas --------------------------------------------------------------------------------

  /** A delta as the diff emits it. */
  predicate Emitted(d: Delta) { d.Range? ==> d.start <= d.end }

  predicate ByComponent(c: Classifier, m: Mask, d: Delta) { c.component(d.path) in m.components }

  predicate ByLane(c: Classifier, m: Mask, d: Delta) {
    c.lane(d.path).Some? && c.lane(d.path).value in m.lanes
  }

  predicate Dropped(c: Classifier, m: Mask, d: Delta) { ByComponent(c, m, d) || ByLane(c, m, d) }

  /** `samples.filter(index in [lo, hi])`. */
  function SamplesIn(samples: seq<Sample>, r: Run): seq<Sample> {
    if samples == [] then []
    else (if In(samples[0].index, r) then [samples[0]] else []) + SamplesIn(samples[1..], r)
  }

  function Piece(d: Delta, r: Run): Delta
    requires d.Range? && r.lo <= r.hi
  {
    Range(d.path, r.lo, r.hi, r.hi - r.lo + 1, SamplesIn(d.sample, r))
  }

  function Pieces(d: Delta, rs: seq<Run>): (ds: seq<Delta>)
    requires d.Range? && NonEmpty(rs)
    ensures |ds| == |rs|
    ensures forall k :: 0 <= k < |rs| ==> ds[k] == Piece(d, rs[k])
  {
    seq(|rs|, k requires 0 <= k < |rs| => Piece(d, rs[k]))
  }

  predicate Relevant(comp: nat, ranges: seq<Window>) {
    exists i :: 0 <= i < |ranges| && ranges[i].component == comp
  }

  /** What the mask keeps of one delta. */
  function KeptOf(c: Classifier, m: Mask, d: Delta): seq<Delta>
    requires Emitted(d)
  {
    if Dropped(c, m, d) then []
    else if d.Scalar? then [d]
    else
      var comp := c.component(d.path);
      if !Relevant(comp, m.ranges) then [d.(count := d.end - d.start + 1)]
      else
        SubtractFirstExact(Run(d.start, d.end), comp, m.ranges, |m.ranges|);
        Pieces(d, SubtractFirst(Run(d.start, d.end), comp, m.ranges, |m.ranges|))
  }

  predicate AllEmitted(ds: seq<Delta>) { forall i :: 0 <= i < |ds| ==> Emitted(ds[i]) }

  function Kept(c: Classifier, m: Mask, ds: seq<Delta>): seq<Delta>
    requires AllEmitted(ds)
  {
    if ds == [] then [] else Kept(c, m, ds[..|ds| - 1]) + KeptOf(c, m, ds[|ds| - 1])
  }

  /** The first entry of a list that equals `x`: the one `position` finds. */
  predicate FirstAt(xs: seq<nat>, i: nat, x: nat) { i < |xs| && xs[i] == x && x !in xs[..i] }

  predicate ComponentHit(c: Classifier, m: Mask, ds: seq<Delta>, i: nat) {
    exists k :: 0 <= k < |ds| && FirstAt(m.components, i, c.component(ds[k].path))
  }

  predicate LaneHit(c: Classifier, m: Mask, ds: seq<Delta>, i: nat) {
    exists k :: 0 <= k < |ds| && !ByComponent(c, m, ds[k]) && ByLane(c, m, ds[k])
                && FirstAt(m.lanes, i, c.lane(ds[k].path).value)
  }

  predicate RangeHit(c: Classifier, m: Mask, ds: seq<Delta>, i: nat)
    requires i < |m.ranges|
  {
    exists k :: 0 <= k < |ds| && ds[k].Range? && !Dropped(c, m, ds[k])
                && Flags(Run(ds[k].start, ds[k].end), c.component(ds[k].path), m.ranges, i)
  }

  /** `position`. */
  method Position(xs: seq<nat>, x: nat) returns (i: nat)
    ensures x in xs ==> FirstAt(xs, i, x)
    ensures x !in xs ==> i == |xs|
  {
    i := 0;
    while i < |xs|
      invariant i <= |xs| && x !in xs[..i]
    {
      if xs[i] == x {
        return;
      }
      i := i + 1;
    }
  }

  /** One window over the segments of a run. */
  method CutSegments(segments: seq<Run>, w: Window) returns (next: seq<Run>, met: bool)
    ensures next == SubtractEach(segments, w)
    ensures met <==> Meets(segments, w)
  {
    hide Subtract;
    next, met := [], false;
    for s := 0 to |segments|
      invariant next == SubtractEach(segments[..s], w)
      invariant met <==> exists k :: 0 <= k < s && Subtract(segments[k], w).1
    {
      var (residual, hit) := Subtract(segments[s], w);
      assert segments[..s + 1][..s] == segments[..s];
      met := met || hit;
      next := next + residual;
    }
    assert segments[..|segments|] == segments;
  }

  /** The windows of the mask over one run: the pieces left, and the flags of the windows that met
      something. */
  method CutRun(r: Run, comp: nat, ranges: seq<Window>, hit: seq<bool>) returns (segments: seq<Run>, hit': seq<bool>)
    requires r.lo <= r.hi && |hit| == |ranges|
    ensures segments == SubtractFirst(r, comp, ranges, |ranges|)
    ensures |hit'| == |ranges|
    ensures forall i :: 0 <= i < |ranges| ==> (hit'[i] <==> hit[i] || Flags(r, comp, ranges, i))
  {
    hide Meets, SubtractEach;
    segments, hit' := [r], hit;
    for ri := 0 to |ranges|
      invariant |hit'| == |ranges|
      invariant segments == SubtractFirst(r, comp, ranges, ri)
      invariant forall i :: 0 <= i < ri ==> (hit'[i] <==> hit[i] || Flags(r, comp, ranges, i))
      invariant forall i :: ri <= i < |ranges| ==> hit'[i] == hit[i]
    {
      if ranges[ri].component == comp {
        var met: bool;
        segments, met := CutSegments(segments, ranges[ri]);
        if met {
          hit' := hit'[ri := true];
        }
      }
    }
  }

  /** `apply_mask`: the deltas kept, and for every mask entry whether it removed anything. */
  method ApplyMask(c: Classifier, m: Mask, ds: seq<Delta>)
    returns (kept: seq<Delta>, compHit: seq<bool>, laneHit: seq<bool>, rangeHit: seq<bool>)
    requires AllEmitted(ds)
    ensures kept == Kept(c, m, ds)
    ensures |compHit| == |m.components| && |laneHit| == |m.lanes| && |rangeHit| == |m.ranges|
    ensures forall i :: 0 <= i < |compHit| ==> (compHit[i] <==> ComponentHit(c, m, ds, i))
    ensures forall i :: 0 <= i < |laneHit| ==> (laneHit[i] <==> LaneHit(c, m, ds, i))
    ensures forall i :: 0 <= i < |rangeHit| ==> (rangeHit[i] <==> RangeHit(c, m, ds, i))
  {
    hide Flags, Kept, ComponentHit, LaneHit, RangeHit, SubtractFirst;
    KeptNone(c, m);
    kept := [];
    compHit := seq(|m.components|, i => false);
    laneHit := seq(|m.lanes|, i => false);
    rangeHit := seq(|m.ranges|, i => false);
    for n := 0 to |ds|
      invariant kept == Kept(c, m, ds[..n])
      invariant |compHit| == |m.components| && |laneHit| == |m.lanes| && |rangeHit| == |m.ranges|
      invariant forall i :: 0 <= i < |compHit| ==> (compHit[i] <==> ComponentHit(c, m, ds[..n], i))
      invariant forall i :: 0 <= i < |laneHit| ==> (laneHit[i] <==> LaneHit(c, m, ds[..n], i))
      invariant forall i :: 0 <= i < |rangeHit| ==> (rangeHit[i] <==> RangeHit(c, m, ds[..n], i))
    {
      var d := ds[n];
      KeptOneMore(c, m, ds, n);
      HitsOneMore(c, m, ds, n);
      var comp := c.component(d.path);
      var lane := c.lane(d.path);
      var ci := Position(m.components, comp);
      if ci < |m.components| {
        compHit := compHit[ci := true];
      } else {
        var li := |m.lanes|;
        if lane.Some? {
          li := Position(m.lanes, lane.value);
        }
        if li < |m.lanes| {
          laneHit := laneHit[li := true];
        } else if d.Scalar? {
          kept := kept + [d];
        } else {
          var segments: seq<Run>;
          segments, rangeHit := CutRun(Run(d.start, d.end), comp, m.ranges, rangeHit);
          if Relevant(comp, m.ranges) {
            SubtractFirstExact(Run(d.start, d.end), comp, m.ranges, |m.ranges|);
            kept := kept + Pieces(d, segments);
          } else {
            kept := kept + [d.(count := d.end - d.start + 1)];
          }
        }
      }
    }
    assert ds[..|ds|] == ds;
  }

  lemma KeptNone(c: Classifier, m: Mask)
    ensures Kept(c, m, []) == []
    ensures forall i :: !ComponentHit(c, m, [], i) && !LaneHit(c, m, [], i)
    ensures forall i: nat :: i < |m.ranges| ==> !RangeHit(c, m, [], i)
  {
  }

  lemma KeptOneMore(c: Classifier, m: Mask, ds: seq<Delta>, n: nat)
    requires AllEmitted(ds) && n < |ds|
    ensures Kept(c, m, ds[..n + 1]) == Kept(c, m, ds[..n]) + KeptOf(c, m, ds[n])
  {
    hide KeptOf;
    assert ds[..n + 1][..n] == ds[..n];
  }

  lemma ComponentHitOneMore(c: Classifier, m: Mask, ds: seq<Delta>, n: nat)
    requires n < |ds|
    ensures forall i: nat :: ComponentHit(c, m, ds[..n + 1], i) <==>
                               ComponentHit(c, m, ds[..n], i) || FirstAt(m.components, i, c.component(ds[n].path))
  {
    hide FirstAt;
    var more := ds[..n + 1];
    assert more[n] == ds[n] && forall k :: 0 <= k < n ==> more[k] == ds[..n][k];
  }

  lemma LaneHitOneMore(c: Classifier, m: Mask, ds: seq<Delta>, n: nat)
    requires n < |ds|
    ensures forall i: nat :: LaneHit(c, m, ds[..n + 1], i) <==>
                               (LaneHit(c, m, ds[..n], i)
                                || (!ByComponent(c, m, ds[n]) && ByLane(c, m, ds[n])
                                    && FirstAt(m.lanes, i, c.lane(ds[n].path).value)))
  {
    hide FirstAt, ByComponent;
    var more := ds[..n + 1];
    assert more[n] == ds[n] && forall k :: 0 <= k < n ==> more[k] == ds[..n][k];
  }

  lemma RangeHitOneMore(c: Classifier, m: Mask, ds: seq<Delta>, n: nat)
    requires n < |ds|
    ensures forall i: nat :: i < |m.ranges| ==>
                               (RangeHit(c, m, ds[..n + 1], i) <==>
                                  (RangeHit(c, m, ds[..n], i)
                                   || (ds[n].Range? && !Dropped(c, m, ds[n])
                                       && Flags(Run(ds[n].start, ds[n].end), c.component(ds[n].path), m.ranges, i))))
  {
    hide Flags, Dropped;
    var more := ds[..n + 1];
    assert more[n] == ds[n] && forall k :: 0 <= k < n ==> more[k] == ds[..n][k];
  }

  /** One more delta: what it adds to the hits. */
  lemma HitsOneMore(c: Classifier, m: Mask, ds: seq<Delta>, n: nat)
    requires n < |ds|
    ensures forall i: nat :: ComponentHit(c, m, ds[..n + 1], i) <==>
                               ComponentHit(c, m, ds[..n], i) || FirstAt(m.components, i, c.component(ds[n].path))
    ensures forall i: nat :: LaneHit(c, m, ds[..n + 1], i) <==>
                               (LaneHit(c, m, ds[..n], i)
                                || (!ByComponent(c, m, ds[n]) && ByLane(c, m, ds[n])
                                    && FirstAt(m.lanes, i, c.lane(ds[n].path).value)))
    ensures forall i: nat :: i < |m.ranges| ==>
                               (RangeHit(c, m, ds[..n + 1], i) <==>
                                  (RangeHit(c, m, ds[..n], i)
                                   || (ds[n].Range? && !Dropped(c, m, ds[n])
                                       && Flags(Run(ds[n].start, ds[n].end), c.component(ds[n].path), m.ranges, i))))
  {
    ComponentHitOneMore(c, m, ds, n);
    LaneHitOneMore(c, m, ds, n);
    RangeHitOneMore(c, m, ds, n);
    hide ComponentHit, LaneHit, RangeHit, FirstAt, ByComponent, ByLane, Dropped, Flags;
  }

  // ---- What the mask keeps -------------------------------------------------------------------

  /** A position of an array in the tree, as some delta reports it. */
  ghost predicate Reported(ds: seq<Delta>, path: Path, x: nat) {
    exists k :: 0 <= k < |ds| && ds[k].Range? && ds[k].path == path && ds[k].start <= x <= ds[k].end
  }

  /** The mask lets position `x` of the array at `path` through. */
  ghost predicate Open(c: Classifier, m: Mask, path: Path, x: nat) {
    && c.component(path) !in m.components
    && !(c.lane(path).Some? && c.lane(path).value in m.lanes)
    && Unmasked(x, c.component(path), m.ranges, |m.ranges|)
  }

  lemma ReportedConcat(xs: seq<Delta>, ys: seq<Delta>, path: Path, x: nat)
    ensures Reported(xs + ys, path, x) <==> Reported(xs, path, x) || Reported(ys, path, x)
  {
    var all := xs + ys;
    assert forall k :: 0 <= k < |xs| ==> all[k] == xs[k];
    assert forall k :: 0 <= k < |ys| ==> all[|xs| + k] == ys[k];
    if k :| 0 <= k < |all| && all[k].Range? && all[k].path == path && all[k].start <= x <= all[k].end {
      assert all[k] == if k < |xs| then xs[k] else ys[k - |xs|];
    }
  }

  lemma KeptOfExact(c: Classifier, m: Mask, d: Delta, path: Path, x: nat)
    requires Emitted(d)
    ensures Reported(KeptOf(c, m, d), path, x) <==> Reported([d], path, x) && Open(c, m, path, x)
  {
    assert [d][0] == d;
    if d.Range? && !Dropped(c, m, d) {
      var comp, r := c.component(d.path), Run(d.start, d.end);
      var kept := KeptOf(c, m, d);
      if Relevant(comp, m.ranges) {
        SubtractFirstExact(r, comp, m.ranges, |m.ranges|);
        var rs := SubtractFirst(r, comp, m.ranges, |m.ranges|);
        assert kept == Pieces(d, rs);
        hide SubtractFirst, KeptOf;
        assert Covered(x, rs) <==> In(x, r) && Unmasked(x, comp, m.ranges, |m.ranges|);
        if k :| 0 <= k < |rs| && In(x, rs[k]) {
          assert kept[k] == Piece(d, rs[k]);
        }
      } else {
        assert kept[0] == d.(count := d.end - d.start + 1);
        assert Unmasked(x, comp, m.ranges, |m.ranges|);
      }
    }
  }

  /** Masking is set difference: the positions kept are the reported positions minus everything the
      mask names, for any mask, any deltas and any order of either. */
  lemma {:induction false} KeptIsDifference(c: Classifier, m: Mask, ds: seq<Delta>, path: Path, x: nat)
    requires AllEmitted(ds)
    ensures Reported(Kept(c, m, ds), path, x) <==> Reported(ds, path, x) && Open(c, m, path, x)
    decreases |ds|
  {
    hide KeptOf, Open;
    if ds != [] {
      var rest, d := ds[..|ds| - 1], ds[|ds| - 1];
      KeptIsDifference(c, m, rest, path, x);
      KeptOfExact(c, m, d, path, x);
      ReportedConcat(Kept(c, m, rest), KeptOf(c, m, d), path, x);
      ReportedConcat(rest, [d], path, x);
      assert rest + [d] == ds;
    }
  }

  /** The windows may be listed in any order. */
  lemma WindowOrderIsIrrelevant(c: Classifier, m: Mask, m': Mask, ds: seq<Delta>, path: Path, x: nat)
    requires AllEmitted(ds) && m'.components == m.components && m'.lanes == m.lanes
    requires forall w :: w in m.ranges <==> w in m'.ranges
    ensures Reported(Kept(c, m, ds), path, x) <==> Reported(Kept(c, m', ds), path, x)
  {
    KeptIsDifference(c, m, ds, path, x);
    KeptIsDifference(c, m', ds, path, x);
    hide Kept, Reported;
    var comp := c.component(path);
    if Unmasked(x, comp, m.ranges, |m.ranges|) {
      forall i | 0 <= i < |m'.ranges| && m'.ranges[i].component == comp
        ensures !Within(x, m'.ranges[i])
      {
        assert m'.ranges[i] in m.ranges;
      }
    }
    if Unmasked(x, comp, m'.ranges, |m'.ranges|) {
      forall i | 0 <= i < |m.ranges| && m.ranges[i].component == comp
        ensures !Within(x, m.ranges[i])
      {
        assert m.ranges[i] in m'.ranges;
      }
    }
  }

  // ---- The verdict ---------------------------------------------------------------------------

  /** `verdict.identical`: no component has a delta left. */
  predicate Identical(kept: seq<Delta>) { kept == [] }

  /** Something of a delta survives: the delta of a scalar, or a position of a range. */
  ghost predicate Survives(c: Classifier, m: Mask, d: Delta) {
    && !Dropped(c, m, d)
    && (d.Range? ==> exists x: nat :: d.start <= x <= d.end
                                      && Unmasked(x, c.component(d.path), m.ranges, |m.ranges|))
  }

  lemma KeptOfEmpty(c: Classifier, m: Mask, d: Delta)
    requires Emitted(d)
    ensures KeptOf(c, m, d) != [] <==> Survives(c, m, d)
  {
    if d.Range? && !Dropped(c, m, d) {
      var comp, r := c.component(d.path), Run(d.start, d.end);
      var rs := SubtractFirst(r, comp, m.ranges, |m.ranges|);
      SubtractFirstExact(r, comp, m.ranges, |m.ranges|);
      if rs != [] {
        assert In(rs[0].lo, rs[0]) && Covered(rs[0].lo, rs);
      }
      if !Relevant(comp, m.ranges) {
        assert Unmasked(d.start, comp, m.ranges, |m.ranges|);
      }
    }
  }

  /** The masked verdict is identical exactly when no delta survives the mask. */
  lemma {:induction false} VerdictExact(c: Classifier, m: Mask, ds: seq<Delta>)
    requires AllEmitted(ds)
    ensures Identical(Kept(c, m, ds)) <==> forall k :: 0 <= k < |ds| ==> !Survives(c, m, ds[k])
    decreases |ds|
  {
    hide KeptOf, Survives;
    if ds != [] {
      var rest, d := ds[..|ds| - 1], ds[|ds| - 1];
      VerdictExact(c, m, rest);
      KeptOfEmpty(c, m, d);
      assert forall k :: 0 <= k < |rest| ==> ds[k] == rest[k];
    }
  }

  lemma StaysMasked(x: nat, comp: nat, ws: seq<Window>, ws': seq<Window>)
    requires !Unmasked(x, comp, ws, |ws|) && forall w :: w in ws ==> w in ws'
    ensures !Unmasked(x, comp, ws', |ws'|)
  {
    var i :| 0 <= i < |ws| && ws[i].component == comp && Within(x, ws[i]);
    assert ws[i] in ws';
  }

  /** Adding entries to a mask never turns an identical verdict into a differing one. */
  lemma MoreMaskKeepsIdentical(c: Classifier, m: Mask, m': Mask, ds: seq<Delta>)
    requires AllEmitted(ds) && Identical(Kept(c, m, ds))
    requires forall k :: k in m.components ==> k in m'.components
    requires forall l :: l in m.lanes ==> l in m'.lanes
    requires forall w :: w in m.ranges ==> w in m'.ranges
    ensures Identical(Kept(c, m', ds))
  {
    VerdictExact(c, m, ds);
    VerdictExact(c, m', ds);
    hide Kept;
    forall k | 0 <= k < |ds|
      ensures !Survives(c, m', ds[k])
    {
      var d := ds[k];
      assert !Survives(c, m, d);
      if d.Range? && !Dropped(c, m', d) {
        forall x: nat | d.start <= x <= d.end
          ensures !Unmasked(x, c.component(d.path), m'.ranges, |m'.ranges|)
        {
          StaysMasked(x, c.component(d.path), m.ranges, m'.ranges);
        }
        hide Unmasked;
      }
    }
  }

  /** The echo of a proper window says "matched 0" exactly when it removed nothing that earlier
      entries had left. */
  lemma EchoExact(c: Classifier, m: Mask, ds: seq<Delta>, i: nat)
    requires AllEmitted(ds) && i < |m.ranges| && m.ranges[i].from <= m.ranges[i].to
    ensures RangeHit(c, m, ds, i) <==>
      exists k :: 0 <= k < |ds| && ds[k].Range? && !Dropped(c, m, ds[k])
        && Removes(Run(ds[k].start, ds[k].end), c.component(ds[k].path), m.ranges, i)
  {
    forall k | 0 <= k < |ds| && ds[k].Range?
      ensures Flags(Run(ds[k].start, ds[k].end), c.component(ds[k].path), m.ranges, i)
        <==> Removes(Run(ds[k].start, ds[k].end), c.component(ds[k].path), m.ranges, i)
    {
      assert Emitted(ds[k]);
      FlagsExact(Run(ds[k].start, ds[k].end), c.component(ds[k].path), m.ranges, i);
    }
    hide Flags, Removes, Dropped;
  }

  /** Some delta that components and lanes let through loses a position to window `i`. */
  ghost predicate RemovesSome(c: Classifier, m: Mask, ds: seq<Delta>, i: nat)
    requires i < |m.ranges|
  {
    exists k :: 0 <= k < |ds| && ds[k].Range? && !Dropped(c, m, ds[k])
                && Removes(Run(ds[k].start, ds[k].end), c.component(ds[k].path), m.ranges, i)
  }

  predicate MisreadsSome(c: Classifier, m: Mask, ds: seq<Delta>, i: nat)
    requires i < |m.ranges|
  {
    exists k :: 0 <= k < |ds| && ds[k].Range? && !Dropped(c, m, ds[k])
                && Misreads(Run(ds[k].start, ds[k].end), c.component(ds[k].path), m.ranges, i)
  }

  /** For any window: the echo is right if and only if the window is proper or no piece left of any
      delta holds both its ends. */
  lemma EchoRightIff(c: Classifier, m: Mask, ds: seq<Delta>, i: nat)
    requires AllEmitted(ds) && i < |m.ranges|
    ensures (RangeHit(c, m, ds, i) <==> RemovesSome(c, m, ds, i)) <==>
            m.ranges[i].from <= m.ranges[i].to || !MisreadsSome(c, m, ds, i)
  {
    if m.ranges[i].from <= m.ranges[i].to {
      EchoExact(c, m, ds, i);
    } else {
      forall k | 0 <= k < |ds| && ds[k].Range?
        ensures var r, comp := Run(ds[k].start, ds[k].end), c.component(ds[k].path);
          && !Removes(r, comp, m.ranges, i)
          && (Flags(r, comp, m.ranges, i) <==> Misreads(r, comp, m.ranges, i))
      {
        assert Emitted(ds[k]);
        FlagsRightIff(Run(ds[k].start, ds[k].end), c.component(ds[k].path), m.ranges, i);
      }
      hide Flags, Removes, Misreads, Dropped;
    }
  }

  /** An inverted window is echoed as a match although it can remove nothing. */
  lemma InvertedWindowIsEchoed()
    ensures var r, w := Run(0, 10), Window(0, 6, 3);
      Flags(r, 0, [w], 0) && !Removes(r, 0, [w], 0)
  {
    var r, w := Run(0, 10), Window(0, 6, 3);
    assert SubtractFirst(r, 0, [w], 0) == [r];
    assert Subtract([r][0], w).1;
  }

  // ---- From the trees to the verdict ---------------------------------------------------------

  lemma SeqDeltasEmitted(a: seq<int>, b: seq<int>, path: Path)
    ensures AllEmitted(SeqDeltas(a, b, path))
  {
    RunsFromExact(a, b, 0);
  }

  /** The walk emits nothing but proper ranges and scalars. */
  lemma {:induction false} WalkEmits(a: Value, b: Value, path: Path)
    ensures AllEmitted(Walk(a, b, path))
    decreases Size(a) + Size(b), 0
  {
    hide SeqDeltas;
    if (a.Obj? || a.Typed?) && (b.Obj? || b.Typed?) {
      if a.Obj? && b.Obj? {
        WalkFieldsEmit(a.fields, b.fields, path);
      } else if BytesOf(a).Some? && BytesOf(b).Some? {
        SeqDeltasEmitted(BytesOf(a).value, BytesOf(b).value, path);
      }
    } else if a.Arr? && b.Arr? {
      if Numeric(a.items) && Numeric(b.items) {
        SeqDeltasEmitted(Ints(a.items), Ints(b.items), path);
      } else {
        WalkItemsEmit(a.items, b.items, 0, path);
      }
    }
  }

  lemma {:induction false} WalkItemsEmit(xs: seq<Value>, ys: seq<Value>, i: nat, path: Path)
    ensures AllEmitted(WalkItems(xs, ys, i, path))
    decreases SizeItems(xs) + SizeItems(ys) + 1, |xs| + |ys| + 1
  {
    hide Walk;
    if xs != [] || ys != [] {
      WalkEmits(Head(xs), Head(ys), path + [Index(i)]);
      WalkItemsEmit(Tail(xs), Tail(ys), i + 1, path);
    }
  }

  lemma {:induction false} WalkFieldsEmit(fs: seq<Field>, gs: seq<Field>, path: Path)
    ensures AllEmitted(WalkFields(fs, gs, path))
    decreases SizeFields(fs) + SizeFields(gs) + 1, |fs| + |gs| + 1
  {
    hide Walk;
    if fs == [] && gs == [] {
    } else if gs == [] || (fs != [] && fs[0].key < gs[0].key) {
      WalkEmits(fs[0].value, Null, path + [Key(fs[0].key)]);
      WalkFieldsEmit(fs[1..], gs, path);
    } else if fs == [] || gs[0].key < fs[0].key {
      WalkEmits(Null, gs[0].value, path + [Key(gs[0].key)]);
      WalkFieldsEmit(fs, gs[1..], path);
    } else {
      WalkEmits(fs[0].value, gs[0].value, path + [Key(fs[0].key)]);
      WalkFieldsEmit(fs[1..], gs[1..], path);
    }
  }

  /** The bytes of a checkpoint's drive blob, if it has one that decodes. */
  function DriveOf(v: Value): Option<seq<byte>> {
    if v.Obj? then BytesOf(Get(v.fields, DRIVE_KEY)) else None
  }

  lemma {:induction false} DriveEmits(a: seq<byte>, b: seq<byte>, n: nat)
    requires n <= |PARTS|
    ensures AllEmitted(FirstParts(a, b, n))
  {
    if n > 0 {
      DriveEmits(a, b, n - 1);
      var x, y := Slice(a, PARTS[n - 1]), Slice(b, PARTS[n - 1]);
      if x.Some? && y.Some? {
        SeqDeltasEmitted(x.value, y.value, [Drive(PARTS[n - 1])]);
      }
      hide Slice, SeqDeltas;
    }
  }

  /** The deltas of two whole checkpoints: the walk's, and then the drives'. */
  function Deltas(a: Value, b: Value): (ds: seq<Delta>)
    ensures AllEmitted(ds)
  {
    WalkEmits(a, b, []);
    var x, y := DriveOf(a), DriveOf(b);
    if x.Some? && y.Some? then
      DriveEmits(x.value, y.value, |PARTS|);
      Walk(a, b, []) + DriveDeltas(x, y)
    else Walk(a, b, []) + DriveDeltas(x, y)
  }

  const NO_MASK := Mask([], [], [])

  /** Nothing is lost to an empty mask. */
  lemma EmptyMaskIsStrict(c: Classifier, ds: seq<Delta>)
    requires AllEmitted(ds)
    ensures Identical(Kept(c, NO_MASK, ds)) <==> ds == []
  {
    VerdictExact(c, NO_MASK, ds);
    if ds != [] {
      var d := ds[0];
      assert Emitted(d);
      assert d.Range? ==> Unmasked(d.start, c.component(d.path), NO_MASK.ranges, 0);
      assert Survives(c, NO_MASK, d);
    }
  }

  lemma {:induction false} NoDriveOf(fs: seq<Field>)
    requires forall i :: 0 <= i < |fs| ==> fs[i].key != DRIVE_KEY
    ensures Get(fs, DRIVE_KEY) == Null
    decreases |fs|
  {
    if fs != [] {
      NoDriveOf(fs[1..]);
    }
  }

  /** The strict verdict, trees to answer: comparable checkpoints of machines without a drive are reported
      identical if and only if they are equal. */
  lemma StrictVerdict(c: Classifier, a: Value, b: Value)
    requires Comparable(a, b) && NoDriveBlob(a, [])
    ensures Identical(Kept(c, NO_MASK, Deltas(a, b))) <==> a == b
  {
    EmptyMaskIsStrict(c, Deltas(a, b));
    WalkExact(a, b, []);
    if a.Obj? {
      NoDriveOf(a.fields);
    }
    assert DriveOf(a) == None;
  }

  /** And for any two parsed checkpoints: if and only if their trees agree up to what the walk cannot see,
      and their drives part by part. */
  lemma StrictVerdictOfAny(c: Classifier, a: Value, b: Value)
    requires Parsed(a) && Parsed(b)
    ensures Identical(Kept(c, NO_MASK, Deltas(a, b))) <==>
            Agree(a, b, []) && DrivesAgree(DriveOf(a), DriveOf(b))
  {
    EmptyMaskIsStrict(c, Deltas(a, b));
    WalkSilent(a, b, []);
    DriveSilent(DriveOf(a), DriveOf(b));
    hide Kept, Identical, Agree, DrivesAgree, Walk, DriveDeltas;
  }

  /** A blob that does not decode on one side only gives no delta at all. */
  lemma UndecodedDriveIsBlind(bytes: seq<byte>)
    ensures Deltas(Obj([Field(DRIVE_KEY, Typed(0, None))]), Obj([Field(DRIVE_KEY, Typed(0, Some(bytes)))])) == []
  {
    var x, y := Typed(0, None), Typed(0, Some(bytes));
    var fs, gs := [Field(DRIVE_KEY, x)], [Field(DRIVE_KEY, y)];
    assert Walk(x, y, DRIVE) == [];
    assert fs[1..] == [] && gs[1..] == [] && [] + DRIVE == DRIVE;
    assert WalkFields(fs, gs, []) == Walk(x, y, [] + DRIVE) + WalkFields([], [], []);
  }
}
