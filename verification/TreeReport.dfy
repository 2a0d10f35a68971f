/**
 What the checkpoint diff says about two trees, path by path: which positions and which scalars it
 reports where, with which bytes, and what the masked verdict therefore means for the trees themselves.
 */
module TreeReport {
  import opened Bytes
  import opened Runs
  import opened CheckpointTree
  import opened DriveBlob
  import opened CheckpointMask

  // ---- Looking a path up ---------------------------------------------------------------------

  /** One step down: a missing key, a missing index and everything below a leaf read as null. */
  function Child(v: Value, s: Step): Value {
    match (v, s)
    case (Obj(fields), Key(k)) => Get(fields, k)
    case (Arr(items), Index(i)) => Item(items, i)
    case _ => Null
  }

  function NodeAt(v: Value, path: Path): Value
    decreases |path|
  {
    if path == [] then v else NodeAt(Child(v, path[0]), path[1..])
  }

  predicate Objects(a: Value, b: Value) { (a.Obj? || a.Typed?) && (b.Obj? || b.Typed?) }

  predicate NumberArrays(a: Value, b: Value) { a.Arr? && b.Arr? && Numeric(a.items) && Numeric(b.items) }

  /** The two nodes are opened: objects key by key, arrays that are not both of numbers index by index. */
  predicate Opened(a: Value, b: Value, s: Step) {
    || (a.Obj? && b.Obj? && s.Key?)
    || (a.Arr? && b.Arr? && !NumberArrays(a, b) && s.Index?)
  }

  predicate Reached(a: Value, b: Value, path: Path)
    decreases |path|
  {
    path == [] || (Opened(a, b, path[0]) && Reached(Child(a, path[0]), Child(b, path[0]), path[1..]))
  }

  /** The path leads to, or into, the drive blob at the top of the tree. */
  predicate InBlob(a: Value, b: Value, path: Path) {
    path != [] && path[0] == Key(DRIVE_KEY) && Objects(Child(a, path[0]), Child(b, path[0]))
  }

  /** The same for a walk that has already come down `prefix`. */
  predicate Hidden(a: Value, b: Value, prefix: Path, path: Path) {
    (prefix == DRIVE && Objects(a, b)) || (prefix == [] && InBlob(a, b, path))
  }

  // ---- What a pair of nodes says itself ------------------------------------------------------

  /** The numbers a node is compared by, if it is an array of bytes or of numbers. */
  function NumbersOf(v: Value): Option<seq<int>> {
    if v.Typed? && v.bytes.Some? then Some(v.bytes.value)
    else if v.Arr? && Numeric(v.items) then Some(Ints(v.items))
    else None
  }

  /** Both are arrays of bytes, or both arrays of numbers. */
  predicate Alike(u: Value, v: Value) { NumbersOf(u).Some? && NumbersOf(v).Some? && u.Arr? == v.Arr? }

  predicate ArraysDiffer(u: Value, v: Value, x: nat) {
    Alike(u, v) && Differs(NumbersOf(u).value, NumbersOf(v).value, x)
  }

  /** The two nodes differ and are neither objects, nor arrays, nor decoded typed arrays both. */
  predicate ScalarsDiffer(u: Value, v: Value) {
    u != v && !(u.Obj? && v.Obj?) && !(u.Arr? && v.Arr?) && !Alike(u, v)
  }

  function Direct(u: Value, v: Value, path: Path): seq<Delta> {
    if u == v then []
    else if Alike(u, v) then SeqDeltas(NumbersOf(u).value, NumbersOf(v).value, path)
    else if ScalarsDiffer(u, v) then [Scalar(path, u, v)]
    else []
  }

  lemma DirectPaths(u: Value, v: Value, path: Path)
    ensures forall d :: d in Direct(u, v, path) ==> d.path == path
  {
  }

  // ---- Where the deltas of a walk lie --------------------------------------------------------

  predicate AllUnder(ds: seq<Delta>, prefix: Path) { forall d :: d in ds ==> prefix <= d.path }

  lemma UnderLonger(ds: seq<Delta>, prefix: Path, s: Step)
    requires AllUnder(ds, prefix + [s])
    ensures AllUnder(ds, prefix)
    ensures forall d :: d in ds ==> |d.path| > |prefix| && d.path[|prefix|] == s
  {
    forall d | d in ds
      ensures prefix <= d.path && |d.path| > |prefix| && d.path[|prefix|] == s
    {
      assert prefix + [s] <= d.path;
      assert (prefix + [s])[|prefix|] == s;
      assert d.path[..|prefix|] == (prefix + [s])[..|prefix|] == prefix;
    }
  }

  lemma SeqDeltasUnder(a: seq<int>, b: seq<int>, path: Path)
    ensures forall d :: d in SeqDeltas(a, b, path) ==> d.path == path
  {
  }

  /** Every delta of a walk lies under the path the walk began at. */
  lemma {:induction false} WalkUnder(a: Value, b: Value, path: Path)
    ensures AllUnder(Walk(a, b, path), path)
    decreases Size(a) + Size(b), 0
  {
    hide SeqDeltas;
    if Objects(a, b) {
      if a.Obj? && b.Obj? {
        FieldsUnder(a.fields, b.fields, path);
      } else if BytesOf(a).Some? && BytesOf(b).Some? {
        SeqDeltasUnder(BytesOf(a).value, BytesOf(b).value, path);
      }
    } else if a.Arr? && b.Arr? {
      if Numeric(a.items) && Numeric(b.items) {
        SeqDeltasUnder(Ints(a.items), Ints(b.items), path);
      } else {
        ItemsUnder(a.items, b.items, 0, path);
      }
    }
  }

  lemma {:induction false} ItemsUnder(xs: seq<Value>, ys: seq<Value>, i: nat, path: Path)
    ensures AllUnder(WalkItems(xs, ys, i, path), path)
    ensures forall d :: d in WalkItems(xs, ys, i, path) ==>
              |d.path| > |path| && d.path[|path|].Index? && d.path[|path|].i >= i
    decreases SizeItems(xs) + SizeItems(ys) + 1, |xs| + |ys| + 1
  {
    hide Walk;
    if xs != [] || ys != [] {
      var first := Walk(Head(xs), Head(ys), path + [Index(i)]);
      WalkUnder(Head(xs), Head(ys), path + [Index(i)]);
      UnderLonger(first, path, Index(i));
      ItemsUnder(Tail(xs), Tail(ys), i + 1, path);
    }
  }

  lemma {:induction false} FieldsUnder(fs: seq<Field>, gs: seq<Field>, path: Path)
    ensures AllUnder(WalkFields(fs, gs, path), path)
    ensures forall d :: d in WalkFields(fs, gs, path) ==> |d.path| > |path| && d.path[|path|].Key?
    decreases SizeFields(fs) + SizeFields(gs) + 1, |fs| + |gs| + 1
  {
    hide Walk;
    if fs == [] && gs == [] {
    } else if gs == [] || (fs != [] && fs[0].key < gs[0].key) {
      WalkUnder(fs[0].value, Null, path + [Key(fs[0].key)]);
      UnderLonger(Walk(fs[0].value, Null, path + [Key(fs[0].key)]), path, Key(fs[0].key));
      FieldsUnder(fs[1..], gs, path);
    } else if fs == [] || gs[0].key < fs[0].key {
      WalkUnder(Null, gs[0].value, path + [Key(gs[0].key)]);
      UnderLonger(Walk(Null, gs[0].value, path + [Key(gs[0].key)]), path, Key(gs[0].key));
      FieldsUnder(fs, gs[1..], path);
    } else {
      WalkUnder(fs[0].value, gs[0].value, path + [Key(fs[0].key)]);
      UnderLonger(Walk(fs[0].value, gs[0].value, path + [Key(fs[0].key)]), path, Key(fs[0].key));
      FieldsUnder(fs[1..], gs[1..], path);
    }
  }

  // ---- One step down -------------------------------------------------------------------------

  /** Below key `k`, the walk over the fields reports what the walk over the two values of `k` reports. */
  lemma {:induction false} FieldsAt(fs: seq<Field>, gs: seq<Field>, path: Path, k: nat, d: Delta)
    requires SortedKeys(fs) && SortedKeys(gs)
    requires |d.path| > |path| && d.path[|path|] == Key(k)
    ensures d in WalkFields(fs, gs, path) <==> d in Walk(Get(fs, k), Get(gs, k), path + [Key(k)])
    decreases |fs| + |gs|
  {
    hide Walk, WalkFields, Get;
    if fs == [] && gs == [] {
      NothingBelow(path, k);
    } else {
      var j := MergeKey(fs, gs);
      MergeStep(fs, gs, path);
      MergeShrinks(fs, gs);
      BeyondKeeps(fs, j, k);
      BeyondKeeps(gs, j, k);
      WalkUnder(Get(fs, j), Get(gs, j), path + [Key(j)]);
      UnderLonger(Walk(Get(fs, j), Get(gs, j), path + [Key(j)]), path, Key(j));
      FieldsAt(Beyond(fs, j), Beyond(gs, j), path, k, d);
      NothingInNull(path + [Key(k)]);
    }
  }

  lemma NothingInNull(path: Path)
    ensures Walk(Null, Null, path) == []
  {
  }

  lemma NothingBelow(path: Path, k: nat)
    ensures WalkFields([], [], path) == [] && Walk(Get([], k), Get([], k), path + [Key(k)]) == []
  {
  }

  /** And below index `i` what the walk over the two items reports. */
  lemma {:induction false} ItemsAt(xs: seq<Value>, ys: seq<Value>, from: nat, path: Path, i: nat, d: Delta)
    requires |d.path| > |path| && d.path[|path|] == Index(from + i)
    ensures d in WalkItems(xs, ys, from, path) <==> d in Walk(Item(xs, i), Item(ys, i), path + [Index(from + i)])
    decreases |xs| + |ys|
  {
    hide Walk;
    if xs == [] && ys == [] {
      NothingInNull(path + [Index(from + i)]);
    } else {
      var first := Walk(Head(xs), Head(ys), path + [Index(from)]);
      WalkUnder(Head(xs), Head(ys), path + [Index(from)]);
      UnderLonger(first, path, Index(from));
      if i == 0 {
        ItemsUnder(Tail(xs), Tail(ys), from + 1, path);
      } else {
        ItemTail(xs, i - 1);
        ItemTail(ys, i - 1);
        ItemsAt(Tail(xs), Tail(ys), from + 1, path, i - 1, d);
      }
    }
  }

  // ---- The deltas at a path ------------------------------------------------------------------

  lemma {:induction false} NothingUnderNull(path: Path)
    ensures NodeAt(Null, path) == Null
    decreases |path|
  {
    if path != [] {
      NothingUnderNull(path[1..]);
    }
  }

  lemma SameSaysNothing(v: Value, path: Path)
    ensures Direct(v, v, path) == []
  {
  }

  lemma ChildParsed(v: Value, s: Step)
    requires Parsed(v)
    ensures Parsed(Child(v, s))
  {
    if v.Obj? && s.Key? {
      GetParsed(v.fields, s.k);
    } else if v.Arr? && s.Index? {
      ItemParsed(v.items, s.i);
    }
  }

  lemma {:induction false} ItemParsed(vs: seq<Value>, i: nat)
    requires forall k :: 0 <= k < |vs| ==> Parsed(vs[k])
    ensures Parsed(Item(vs, i))
    decreases |vs|
  {
    if vs != [] && i > 0 {
      ItemParsed(vs[1..], i - 1);
    }
  }

  /** Where the walk opens two nodes, the deltas below a step are those of the two children. */
  lemma StepDown(a: Value, b: Value, prefix: Path, s: Step, d: Delta)
    requires Parsed(a) && Parsed(b) && a != b && Opened(a, b, s) && !(prefix == DRIVE && Objects(a, b))
    requires |d.path| > |prefix| && d.path[|prefix|] == s
    ensures d in Walk(a, b, prefix) <==> d in Walk(Child(a, s), Child(b, s), prefix + [s])
  {
    hide WalkFields, WalkItems, Get, Item;
    if a.Obj? {
      FieldsAt(a.fields, b.fields, prefix, s.k, d);
      assert Walk(a, b, prefix) == WalkFields(a.fields, b.fields, prefix);
    } else {
      ItemsAt(a.items, b.items, 0, prefix, s.i, d);
      assert Walk(a, b, prefix) == WalkItems(a.items, b.items, 0, prefix);
    }
  }

  /** Where it does not, there are none. */
  lemma StopsHere(a: Value, b: Value, prefix: Path, s: Step, d: Delta)
    requires !Opened(a, b, s) && |d.path| > |prefix| && d.path[|prefix|] == s
    ensures d !in Walk(a, b, prefix)
  {
    hide SeqDeltas;
    if a != b && Objects(a, b) {
      if a.Obj? && b.Obj? {
        FieldsUnder(a.fields, b.fields, prefix);
      } else if BytesOf(a).Some? && BytesOf(b).Some? {
        SeqDeltasUnder(BytesOf(a).value, BytesOf(b).value, prefix);
      }
    } else if a != b && a.Arr? && b.Arr? {
      if Numeric(a.items) && Numeric(b.items) {
        SeqDeltasUnder(Ints(a.items), Ints(b.items), prefix);
      } else {
        ItemsUnder(a.items, b.items, 0, prefix);
      }
    }
  }

  /** At the path where the walk began only the pair of nodes itself is reported. */
  lemma AtTheTop(a: Value, b: Value, prefix: Path, d: Delta)
    requires d.path == prefix && !(prefix == DRIVE && Objects(a, b))
    ensures d in Walk(a, b, prefix) <==> d in Direct(a, b, prefix)
  {
    hide SeqDeltas;
    if a != b && a.Obj? && b.Obj? {
      FieldsUnder(a.fields, b.fields, prefix);
    } else if a != b && a.Arr? && b.Arr? && !NumberArrays(a, b) {
      ItemsUnder(a.items, b.items, 0, prefix);
    }
  }

  /** The deltas a walk reports at a path are those of the two nodes there, if the walk gets there. */
  lemma {:induction false} WalkAt(a: Value, b: Value, prefix: Path, rest: Path, d: Delta)
    requires Parsed(a) && Parsed(b) && d.path == prefix + rest
    ensures d in Walk(a, b, prefix) <==>
            !Hidden(a, b, prefix, rest) && Reached(a, b, rest) && d in Direct(NodeAt(a, rest), NodeAt(b, rest), d.path)
    decreases |rest|
  {
    hide Walk, Direct, Parsed;
    if a == b {
      assert Walk(a, b, prefix) == [] by { SameIsSilent(a, prefix); }
      SameSaysNothing(NodeAt(a, rest), d.path);
    } else if prefix == DRIVE && Objects(a, b) {
      assert Walk(a, b, prefix) == [] by { BlobIsSilent(a, b); }
    } else if rest == [] {
      assert d.path == prefix;
      AtTheTop(a, b, prefix, d);
    } else {
      var s := rest[0];
      assert d.path[|prefix|] == s;
      if Opened(a, b, s) {
        StepDown(a, b, prefix, s, d);
        ChildParsed(a, s);
        ChildParsed(b, s);
        assert d.path == (prefix + [s]) + rest[1..];
        WalkAt(Child(a, s), Child(b, s), prefix + [s], rest[1..], d);
        assert prefix + [s] == DRIVE <==> prefix == [] && s == Key(DRIVE_KEY) by {
          assert (prefix + [s])[|prefix|] == s;
        }
        assert prefix + [s] != [];
      } else {
        StopsHere(a, b, prefix, s, d);
      }
    }
  }

  lemma SameIsSilent(a: Value, path: Path)
    ensures Walk(a, a, path) == []
  {
  }

  lemma BlobIsSilent(a: Value, b: Value)
    requires Objects(a, b)
    ensures Walk(a, b, DRIVE) == []
  {
  }

  // ---- What is reported where ----------------------------------------------------------------

  /** Position `x` of the arrays at `path` differs, outside the drive blob. */
  predicate PositionDiffers(a: Value, b: Value, path: Path, x: nat) {
    !InBlob(a, b, path) && ArraysDiffer(NodeAt(a, path), NodeAt(b, path), x)
  }

  /** `u` and `v` are what the trees hold at `path`, the walk gets there, and they differ as scalars do. */
  predicate ScalarDiffers(a: Value, b: Value, path: Path, u: Value, v: Value) {
    && !InBlob(a, b, path) && Reached(a, b, path)
    && u == NodeAt(a, path) && v == NodeAt(b, path) && ScalarsDiffer(u, v)
  }

  /** Two arrays on one path are always reached: everything above them is opened. */
  lemma {:induction false} ArraysAreReached(a: Value, b: Value, path: Path)
    requires Alike(NodeAt(a, path), NodeAt(b, path))
    ensures Reached(a, b, path)
    decreases |path|
  {
    if path != [] {
      var s := path[0];
      var u, v := Child(a, s), Child(b, s);
      NothingUnderNull(path[1..]);
      if NumberArrays(a, b) && s.Index? {
        NumbersAreLeaves(a.items, s.i, path[1..]);
      } else {
        assert Opened(a, b, s);
      }
      ArraysAreReached(u, v, path[1..]);
    }
  }

  lemma NumbersAreLeaves(vs: seq<Value>, i: nat, path: Path)
    requires forall k :: 0 <= k < |vs| ==> vs[k].Num?
    ensures NumbersOf(NodeAt(Item(vs, i), path)) == None
  {
    ItemIsNumber(vs, i);
    if path != [] {
      NothingUnderNull(path[1..]);
    }
  }

  lemma {:induction false} ItemIsNumber(vs: seq<Value>, i: nat)
    requires forall k :: 0 <= k < |vs| ==> vs[k].Num?
    ensures Item(vs, i).Num? || Item(vs, i) == Null
    decreases |vs|
  {
    if vs != [] && i > 0 {
      ItemIsNumber(vs[1..], i - 1);
    }
  }

  lemma DirectPositions(u: Value, v: Value, path: Path, x: nat)
    ensures Reported(Direct(u, v, path), path, x) <==> ArraysDiffer(u, v, x)
  {
    if u != v && Alike(u, v) {
      hide SeqDeltas;
      var a, b := NumbersOf(u).value, NumbersOf(v).value;
      SeqDeltasReport(a, b, path, x);
      SeqDeltasUnder(a, b, path);
    }
  }

  lemma OnlyDifferences(a: Value, b: Value, path: Path, x: nat)
    requires Parsed(a) && Parsed(b) && Reported(Walk(a, b, []), path, x)
    ensures PositionDiffers(a, b, path, x)
  {
    hide Walk, Direct, Parsed, ArraysDiffer, Reached;
    var ds, here := Walk(a, b, []), Direct(NodeAt(a, path), NodeAt(b, path), path);
    DirectPositions(NodeAt(a, path), NodeAt(b, path), path, x);
    assert [] + path == path;
    var k :| 0 <= k < |ds| && ds[k].Range? && ds[k].path == path && ds[k].start <= x <= ds[k].end;
    WalkAt(a, b, [], path, ds[k]);
    var j :| 0 <= j < |here| && here[j] == ds[k];
  }

  lemma EveryDifference(a: Value, b: Value, path: Path, x: nat)
    requires Parsed(a) && Parsed(b) && PositionDiffers(a, b, path, x)
    ensures Reported(Walk(a, b, []), path, x)
  {
    hide Walk, Direct, Parsed, ArraysDiffer, Reached, Alike;
    var ds, here := Walk(a, b, []), Direct(NodeAt(a, path), NodeAt(b, path), path);
    DirectPositions(NodeAt(a, path), NodeAt(b, path), path, x);
    assert [] + path == path;
    DifferAlike(NodeAt(a, path), NodeAt(b, path), x);
    ArraysAreReached(a, b, path);
    var k :| 0 <= k < |here| && here[k].Range? && here[k].path == path && here[k].start <= x <= here[k].end;
    WalkAt(a, b, [], path, here[k]);
    var j :| 0 <= j < |ds| && ds[j] == here[k];
  }

  /** Position `x` is reported under `path` if and only if both trees have arrays of bytes or of numbers
      there, outside the drive blob, that differ at `x`. */
  lemma PositionReported(a: Value, b: Value, path: Path, x: nat)
    requires Parsed(a) && Parsed(b)
    ensures Reported(Walk(a, b, []), path, x) <==> PositionDiffers(a, b, path, x)
  {
    hide Walk, Parsed, PositionDiffers, Reported;
    if Reported(Walk(a, b, []), path, x) {
      OnlyDifferences(a, b, path, x);
    }
    if PositionDiffers(a, b, path, x) {
      EveryDifference(a, b, path, x);
    }
  }

  lemma DifferAlike(u: Value, v: Value, x: nat)
    requires ArraysDiffer(u, v, x)
    ensures Alike(u, v)
  {
  }

  lemma DirectScalars(u: Value, v: Value, path: Path, u': Value, v': Value)
    ensures Scalar(path, u', v') in Direct(u, v, path) <==> u' == u && v' == v && ScalarsDiffer(u, v)
  {
    if u != v && Alike(u, v) {
      RangesOnly(NumbersOf(u).value, NumbersOf(v).value, path);
    }
  }

  lemma RangesOnly(a: seq<int>, b: seq<int>, path: Path)
    ensures forall d :: d in SeqDeltas(a, b, path) ==> d.Range?
  {
  }

  /** A scalar is reported under `path` if and only if it is the pair of nodes the trees hold there, the walk
      gets there, and the two differ in a way that is not compared further. */
  lemma ScalarReported(a: Value, b: Value, path: Path, u: Value, v: Value)
    requires Parsed(a) && Parsed(b)
    ensures Scalar(path, u, v) in Walk(a, b, []) <==> ScalarDiffers(a, b, path, u, v)
  {
    hide Walk, Direct, Parsed;
    assert [] + path == path;
    WalkAt(a, b, [], path, Scalar(path, u, v));
    DirectScalars(NodeAt(a, path), NodeAt(b, path), path, u, v);
  }

  /** The samples of a range: the first eight of its positions, each with the number either tree holds. */
  predicate SamplesTrue(d: Delta, before: seq<int>, after: seq<int>)
    requires d.Range?
  {
    && d.start <= d.end && d.count == d.end - d.start + 1
    && |d.sample| == (if d.count < 8 then d.count else 8)
    && forall k :: 0 <= k < |d.sample| ==>
         && d.sample[k].index == d.start + k
         && d.sample[k].before == (if d.start + k < |before| then before[d.start + k] else 0)
         && d.sample[k].after == (if d.start + k < |after| then after[d.start + k] else 0)
  }

  lemma SeqSamples(a: seq<int>, b: seq<int>, path: Path)
    ensures forall d :: d in SeqDeltas(a, b, path) ==> d.Range? && SamplesTrue(d, a, b)
  {
    RunsFromExact(a, b, 0);
    var rs, ds := RunsFrom(a, b, 0), SeqDeltas(a, b, path);
    forall d | d in ds
      ensures d.Range? && SamplesTrue(d, a, b)
    {
      var k :| 0 <= k < |ds| && ds[k] == d;
      var r := rs[k];
      assert d == RangeDelta(a, b, path, r);
      forall i | 0 <= i < |d.sample|
        ensures d.sample[i] == Sample(r.lo + i, At(a, r.lo + i), At(b, r.lo + i))
      {
      }
    }
  }

  /** Every range the walk reports shows the numbers of the two trees at its path, before and after in that
      order. */
  lemma SamplesReported(a: Value, b: Value, d: Delta)
    requires Parsed(a) && Parsed(b) && d in Walk(a, b, []) && d.Range?
    ensures var u, v := NodeAt(a, d.path), NodeAt(b, d.path);
      Alike(u, v) && SamplesTrue(d, NumbersOf(u).value, NumbersOf(v).value)
  {
    hide Walk, Parsed, SeqDeltas, SamplesTrue;
    assert [] + d.path == d.path;
    WalkAt(a, b, [], d.path, d);
    var u, v := NodeAt(a, d.path), NodeAt(b, d.path);
    if Alike(u, v) {
      SeqSamples(NumbersOf(u).value, NumbersOf(v).value, d.path);
    }
  }

  // ---- The masked verdict, in terms of the trees ---------------------------------------------

  /** The mask lets the scalar at `path` through. */
  predicate Passes(c: Classifier, m: Mask, path: Path) {
    c.component(path) !in m.components && !(c.lane(path).Some? && c.lane(path).value in m.lanes)
  }

  /** Byte `x` of a part that both drives hold differs. */
  predicate DrivesDiffer(a: Value, b: Value, part: DrivePart, x: nat) {
    && DriveOf(a).Some? && DriveOf(b).Some?
    && Slice(DriveOf(a).value, part).Some? && Slice(DriveOf(b).value, part).Some?
    && Differs(Slice(DriveOf(a).value, part).value, Slice(DriveOf(b).value, part).value, x)
  }

  lemma DroppedOrPasses(c: Classifier, m: Mask, d: Delta)
    ensures Dropped(c, m, d) <==> !Passes(c, m, d.path)
  {
  }

  lemma RangeSurvives(c: Classifier, m: Mask, d: Delta)
    requires d.Range?
    ensures Survives(c, m, d) <==> exists x: nat :: d.start <= x <= d.end && Open(c, m, d.path, x)
  {
    DroppedOrPasses(c, m, d);
    var comp := c.component(d.path);
    if Passes(c, m, d.path) {
      assert forall x: nat :: Open(c, m, d.path, x) <==> Unmasked(x, comp, m.ranges, |m.ranges|);
    } else {
      assert forall x: nat :: !Open(c, m, d.path, x);
    }
    hide Unmasked, Open;
  }

  /** Some difference of the trees is let through. */
  ghost predicate TreesShow(c: Classifier, m: Mask, a: Value, b: Value) {
    || (exists path: Path, u: Value, v: Value :: ScalarDiffers(a, b, path, u, v) && Passes(c, m, path))
    || (exists path: Path, x: nat :: PositionDiffers(a, b, path, x) && Open(c, m, path, x))
  }

  /** Some difference of the drives is let through. */
  ghost predicate DrivesShow(c: Classifier, m: Mask, a: Value, b: Value) {
    exists part: DrivePart, x: nat :: DrivesDiffer(a, b, part, x) && Open(c, m, [Drive(part)], x)
  }

  ghost predicate SomeSurvives(c: Classifier, m: Mask, ds: seq<Delta>) {
    exists k :: 0 <= k < |ds| && Survives(c, m, ds[k])
  }

  lemma WalkShows(c: Classifier, m: Mask, a: Value, b: Value)
    requires Parsed(a) && Parsed(b)
    ensures SomeSurvives(c, m, Walk(a, b, [])) <==> TreesShow(c, m, a, b)
  {
    hide Walk, Parsed, Survives, Open, Passes, PositionDiffers, ScalarDiffers;
    var ds := Walk(a, b, []);
    if k :| 0 <= k < |ds| && Survives(c, m, ds[k]) {
      var d := ds[k];
      DroppedOrPasses(c, m, d);
      if d.Range? {
        RangeSurvives(c, m, d);
        var x: nat :| d.start <= x <= d.end && Open(c, m, d.path, x);
        PositionReported(a, b, d.path, x);
      } else {
        assert Passes(c, m, d.path) by { SurvivorPasses(c, m, d); }
        ScalarReported(a, b, d.path, d.before, d.after);
      }
    }
    if path: Path, u: Value, v: Value :| ScalarDiffers(a, b, path, u, v) && Passes(c, m, path) {
      ScalarReported(a, b, path, u, v);
      var k :| 0 <= k < |ds| && ds[k] == Scalar(path, u, v);
      assert Survives(c, m, ds[k]) by { SurvivorPasses(c, m, ds[k]); }
    }
    if path: Path, x: nat :| PositionDiffers(a, b, path, x) && Open(c, m, path, x) {
      PositionReported(a, b, path, x);
      var k :| 0 <= k < |ds| && ds[k].Range? && ds[k].path == path && ds[k].start <= x <= ds[k].end;
      RangeSurvives(c, m, ds[k]);
    }
  }

  lemma SurvivorPasses(c: Classifier, m: Mask, d: Delta)
    requires d.Scalar?
    ensures Survives(c, m, d) <==> Passes(c, m, d.path)
  {
  }

  lemma PartShows(c: Classifier, m: Mask, x: Option<seq<byte>>, y: Option<seq<byte>>, part: DrivePart)
    ensures SomeSurvives(c, m, Compared(x, y, part)) <==>
            x.Some? && y.Some? && exists i: nat :: Differs(x.value, y.value, i) && Open(c, m, [Drive(part)], i)
  {
    if x.Some? && y.Some? {
      hide SeqDeltas, Survives, Open, Differs;
      var path, ds := [Drive(part)], SeqDeltas(x.value, y.value, [Drive(part)]);
      RangesOnly(x.value, y.value, path);
      SeqDeltasUnder(x.value, y.value, path);
      if k :| 0 <= k < |ds| && Survives(c, m, ds[k]) {
        assert ds[k] in ds;
        RangeSurvives(c, m, ds[k]);
        var i: nat :| ds[k].start <= i <= ds[k].end && Open(c, m, path, i);
        SeqDeltasReport(x.value, y.value, path, i);
      }
      if i: nat :| Differs(x.value, y.value, i) && Open(c, m, path, i) {
        SeqDeltasReport(x.value, y.value, path, i);
        var k :| 0 <= k < |ds| && ds[k].Range? && ds[k].start <= i <= ds[k].end;
        assert ds[k] in ds;
        RangeSurvives(c, m, ds[k]);
      }
    }
  }

  lemma SurvivesConcat(c: Classifier, m: Mask, xs: seq<Delta>, ys: seq<Delta>)
    ensures SomeSurvives(c, m, xs + ys) <==> SomeSurvives(c, m, xs) || SomeSurvives(c, m, ys)
  {
    hide Survives;
    var all := xs + ys;
    assert forall k :: 0 <= k < |xs| ==> all[k] == xs[k];
    assert forall k :: 0 <= k < |ys| ==> all[|xs| + k] == ys[k];
    if k :| 0 <= k < |all| && Survives(c, m, all[k]) {
      assert all[k] == if k < |xs| then xs[k] else ys[k - |xs|];
    }
  }

  lemma {:induction false} FirstPartsShow(c: Classifier, m: Mask, a: seq<byte>, b: seq<byte>, n: nat)
    requires n <= |PARTS|
    ensures SomeSurvives(c, m, FirstParts(a, b, n)) <==>
            exists i :: 0 <= i < n && SomeSurvives(c, m, PartDeltas(a, b, PARTS[i]))
  {
    hide PartDeltas, Survives;
    if n > 0 {
      FirstPartsShow(c, m, a, b, n - 1);
      SurvivesConcat(c, m, FirstParts(a, b, n - 1), PartDeltas(a, b, PARTS[n - 1]));
      hide SomeSurvives;
    }
  }

  lemma PartNumber(part: DrivePart)
    ensures exists i :: 0 <= i < |PARTS| && PARTS[i] == part
  {
    assert PARTS[0] == Rotation && PARTS[1] == Via1 && PARTS[2] == Via2;
    assert PARTS[3] == DriveCpu && PARTS[4] == DriveRam;
  }

  lemma DriveShows(c: Classifier, m: Mask, a: Value, b: Value)
    ensures SomeSurvives(c, m, DriveDeltas(DriveOf(a), DriveOf(b))) <==> DrivesShow(c, m, a, b)
  {
    hide Survives, Open, Differs, Slice, DriveOf;
    var p, q := DriveOf(a), DriveOf(b);
    if p.Some? && q.Some? {
      FirstPartsShow(c, m, p.value, q.value, |PARTS|);
      forall part: DrivePart
        ensures SomeSurvives(c, m, PartDeltas(p.value, q.value, part)) <==>
                exists x: nat :: DrivesDiffer(a, b, part, x) && Open(c, m, [Drive(part)], x)
      {
        PartShows(c, m, Slice(p.value, part), Slice(q.value, part), part);
        hide SomeSurvives, Compared;
      }
      hide SomeSurvives, PartDeltas, DrivesDiffer, FirstParts;
      if part: DrivePart, x: nat :| DrivesDiffer(a, b, part, x) && Open(c, m, [Drive(part)], x) {
        PartNumber(part);
      }
    }
  }

  /** The masked verdict of two parsed checkpoints: identical if and only if no scalar the trees differ in,
      no array position, and no byte of a drive part they differ in is let through by the mask. */
  lemma MaskedVerdict(c: Classifier, m: Mask, a: Value, b: Value)
    requires Parsed(a) && Parsed(b)
    ensures Identical(Kept(c, m, Deltas(a, b))) <==> !TreesShow(c, m, a, b) && !DrivesShow(c, m, a, b)
  {
    var ds := Deltas(a, b);
    VerdictExact(c, m, ds);
    assert Identical(Kept(c, m, ds)) <==> !SomeSurvives(c, m, ds);
    WalkShows(c, m, a, b);
    DriveShows(c, m, a, b);
    SurvivesConcat(c, m, Walk(a, b, []), DriveDeltas(DriveOf(a), DriveOf(b)));
    hide Kept, Identical, SomeSurvives, TreesShow, DrivesShow, Walk, DriveDeltas;
  }
}
