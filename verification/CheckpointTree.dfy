/**
 The checkpoint diff's walk over two JSON trees, and the element-wise diff of the byte and number
 arrays in them.
 */
module CheckpointTree {
  import opened Bytes
  import opened Runs

  // ---- Sequences -----------------------------------------------------------------------------

  /** `byte_at`: sequences are read as if zero-padded. */
  function At(s: seq<int>, i: nat): int { if i < |s| then s[i] else 0 }

  function Longer(a: seq<int>, b: seq<int>): nat { if |a| < |b| then |b| else |a| }

  predicate Differs(a: seq<int>, b: seq<int>, i: nat) { At(a, i) != At(b, i) }

  ghost function Differing(a: seq<int>, b: seq<int>): set<nat> {
    set i: nat | i < Longer(a, b) && Differs(a, b, i)
  }

  /** The first position from `i` on at which the sequences agree again. */
  function RunEnd(a: seq<int>, b: seq<int>, i: nat): (e: nat)
    requires i <= Longer(a, b)
    ensures i <= e <= Longer(a, b)
    ensures forall k: nat :: i <= k < e ==> Differs(a, b, k)
    ensures e < Longer(a, b) ==> !Differs(a, b, e)
    decreases Longer(a, b) - i
  {
    if i < Longer(a, b) && Differs(a, b, i) then RunEnd(a, b, i + 1) else i
  }

  /** The runs of differing positions from `i` on. */
  function RunsFrom(a: seq<int>, b: seq<int>, i: nat): seq<Run>
    requires i <= Longer(a, b)
    decreases Longer(a, b) - i
  {
    if i == Longer(a, b) then []
    else if Differs(a, b, i) then
      var e := RunEnd(a, b, i + 1);
      [Run(i, e - 1)] + RunsFrom(a, b, e)
    else RunsFrom(a, b, i + 1)
  }

  lemma CoveredPrepend(r: Run, rs: seq<Run>)
    ensures forall x: nat :: Covered(x, [r] + rs) <==> In(x, r) || Covered(x, rs)
  {
    forall x: nat
      ensures Covered(x, [r] + rs) <==> In(x, r) || Covered(x, rs)
    {
      if In(x, r) {
        assert In(x, ([r] + rs)[0]);
      }
      if k :| 0 <= k < |rs| && In(x, rs[k]) {
        assert In(x, ([r] + rs)[k + 1]);
      }
    }
  }

  lemma PrependRun(r: Run, rest: seq<Run>)
    requires r.lo <= r.hi && Separated(rest)
    requires forall k :: 0 <= k < |rest| ==> r.hi + 1 < rest[k].lo
    ensures Separated([r] + rest)
  {
  }

  lemma {:induction false} RunsFromExact(a: seq<int>, b: seq<int>, i: nat)
    requires i <= Longer(a, b)
    ensures var rs := RunsFrom(a, b, i);
      && Separated(rs)
      && (forall k :: 0 <= k < |rs| ==> i <= rs[k].lo)
      && (forall x: nat :: Covered(x, rs) <==> i <= x < Longer(a, b) && Differs(a, b, x))
    decreases Longer(a, b) - i
  {
    hide Differs, Separated;
    if i < Longer(a, b) {
      if Differs(a, b, i) {
        var e := RunEnd(a, b, i + 1);
        var rest := RunsFrom(a, b, e);
        RunsFromExact(a, b, e);
        CoveredPrepend(Run(i, e - 1), rest);
        forall k | 0 <= k < |rest|
          ensures e < rest[k].lo
        {
          SeparatedAt(rest, k);
        }
        PrependRun(Run(i, e - 1), rest);
        hide Covered;
      } else {
        RunsFromExact(a, b, i + 1);
      }
    } else {
      SeparatedEmpty();
    }
  }

  lemma SeparatedEmpty()
    ensures Separated([])
  {
  }

  lemma SeparatedAt(rs: seq<Run>, k: nat)
    requires Separated(rs) && k < |rs|
    ensures Covered(rs[k].lo, rs)
  {
    assert In(rs[k].lo, rs[k]);
  }

  /** The emitted ranges are the maximal runs of the differing positions, padding included. */
  lemma RangesAreRuns(a: seq<int>, b: seq<int>)
    ensures IsRunsOf(RunsFrom(a, b, 0), Differing(a, b))
  {
    RunsFromExact(a, b, 0);
  }

  // ---- Trees ---------------------------------------------------------------------------------

  datatype Option<T> = None | Some(value: T)

  /** A JSON number: one that `as_i64` reads, or any other (a fraction, or too large). */
  datatype Number = Int(i: int) | Other(id: nat)

  datatype Field = Field(key: nat, value: Value)

  /** A JSON value. Object keys stand for strings in their sort order. `Typed` is a `$ta` node: its
      decoded bytes, if it decodes, and everything else about it as a label. */
  datatype Value =
    | Null
    | Bool(b: bool)
    | Text(id: nat)
    | Num(n: Number)
    | Typed(form: nat, bytes: Option<seq<byte>>)
    | Arr(items: seq<Value>)
    | Obj(fields: seq<Field>)

  /** The parts of a drive blob that are reported as components of their own. */
  datatype DrivePart = Rotation | Via1 | Via2 | DriveCpu | DriveRam

  datatype Step = Key(k: nat) | Index(i: nat) | Drive(part: DrivePart)

  type Path = seq<Step>

  /** The key of the drive blob, which the walk leaves to the drive decoder. */
  const DRIVE_KEY: nat := 0
  const DRIVE: Path := [Key(DRIVE_KEY)]

  datatype Sample = Sample(index: nat, before: int, after: int)

  datatype Delta =
    | Scalar(path: Path, before: Value, after: Value)
    | Range(path: Path, start: nat, end: nat, count: nat, sample: seq<Sample>)

  /** At most eight samples, from the start of the run. */
  function Samples(a: seq<int>, b: seq<int>, lo: nat, n: nat): seq<Sample> {
    seq(if n < 8 then n else 8, k requires 0 <= k => Sample(lo + k, At(a, lo + k), At(b, lo + k)))
  }

  function RangeDelta(a: seq<int>, b: seq<int>, path: Path, r: Run): Delta
    requires r.lo <= r.hi
  {
    Range(path, r.lo, r.hi, r.hi - r.lo + 1, Samples(a, b, r.lo, r.hi - r.lo + 1))
  }

  function RangeDeltas(a: seq<int>, b: seq<int>, path: Path, rs: seq<Run>): (ds: seq<Delta>)
    requires forall k :: 0 <= k < |rs| ==> rs[k].lo <= rs[k].hi
    ensures |ds| == |rs|
    ensures forall k :: 0 <= k < |rs| ==> ds[k] == RangeDelta(a, b, path, rs[k])
  {
    seq(|rs|, k requires 0 <= k < |rs| => RangeDelta(a, b, path, rs[k]))
  }

  /** What `diff_bytes` and `diff_numeric_seq` push. */
  function SeqDeltas(a: seq<int>, b: seq<int>, path: Path): seq<Delta> {
    RunsFromExact(a, b, 0);
    RangeDeltas(a, b, path, RunsFrom(a, b, 0))
  }

  /** `diff_bytes` and `diff_numeric_seq`: two nested scans that push one range per run. */
  method DiffSeq(a: seq<int>, b: seq<int>, path: Path) returns (out: seq<Delta>)
    ensures out == SeqDeltas(a, b, path)
  {
    out := [];
    var n := if |a| < |b| then |b| else |a|;
    var i := 0;
    ghost var runs: seq<Run> := [];
    while i < n
      invariant 0 <= i <= n
      invariant forall k :: 0 <= k < |runs| ==> runs[k].lo <= runs[k].hi
      invariant runs + RunsFrom(a, b, i) == RunsFrom(a, b, 0)
      invariant out == RangeDeltas(a, b, path, runs)
    {
      if At(a, i) != At(b, i) {
        var start := i;
        var sample: seq<Sample> := [];
        var count := 0;
        ghost var end := RunEnd(a, b, i);
        while i < n && At(a, i) != At(b, i)
          invariant start <= i <= end <= n
          invariant end == RunEnd(a, b, i)
          invariant count == i - start
          invariant sample == Samples(a, b, start, count)
        {
          if |sample| < 8 {
            sample := sample + [Sample(i, At(a, i), At(b, i))];
          }
          count := count + 1;
          i := i + 1;
        }
        out := out + [Range(path, start, i - 1, count, sample)];
        assert RunsFrom(a, b, start) == [Run(start, i - 1)] + RunsFrom(a, b, i);
        runs := runs + [Run(start, i - 1)];
      } else {
        i := i + 1;
      }
    }
    assert runs == RunsFrom(a, b, 0);
  }

  // ---- The walk ------------------------------------------------------------------------------

  function Size(v: Value): nat {
    match v
    case Arr(items) => 2 + SizeItems(items)
    case Obj(fields) => 2 + SizeFields(fields)
    case _ => 1
  }

  function SizeItems(vs: seq<Value>): nat { if vs == [] then 0 else Size(vs[0]) + SizeItems(vs[1..]) }

  function SizeFields(fs: seq<Field>): nat {
    if fs == [] then 0 else SizeField(fs[0]) + SizeFields(fs[1..])
  }

  function SizeField(f: Field): (n: nat)
    ensures n == Size(f.value)
  {
    Size(f.value)
  }

  predicate Numeric(vs: seq<Value>) { vs != [] && forall i :: 0 <= i < |vs| ==> vs[i].Num? }

  /** `as_i64().unwrap_or(0)`. */
  function AsInt(v: Value): int { if v.Num? && v.n.Int? then v.n.i else 0 }

  function Ints(vs: seq<Value>): (s: seq<int>)
    ensures |s| == |vs|
  {
    seq(|vs|, i requires 0 <= i < |vs| => AsInt(vs[i]))
  }

  function Head(vs: seq<Value>): Value { if vs == [] then Null else vs[0] }

  function Tail(vs: seq<Value>): (t: seq<Value>)
    ensures SizeItems(t) <= SizeItems(vs) && (vs != [] ==> SizeItems(t) + Size(vs[0]) == SizeItems(vs))
  {
    if vs == [] then [] else vs[1..]
  }

  function BytesOf(v: Value): Option<seq<byte>> { if v.Typed? then v.bytes else None }

  /** `walk`: nothing for equal nodes; objects key by key, a missing key read as null; arrays of
      numbers and `$ta` nodes element-wise; other arrays index by index; anything else a scalar. */
  function Walk(a: Value, b: Value, path: Path): seq<Delta>
    decreases Size(a) + Size(b), 0
  {
    if a == b then []
    else if (a.Obj? || a.Typed?) && (b.Obj? || b.Typed?) then
      if path == DRIVE then []
      else if a.Obj? && b.Obj? then WalkFields(a.fields, b.fields, path)
      else if BytesOf(a).Some? && BytesOf(b).Some? then SeqDeltas(BytesOf(a).value, BytesOf(b).value, path)
      else [Scalar(path, a, b)]
    else if a.Arr? && b.Arr? then
      if Numeric(a.items) && Numeric(b.items) then SeqDeltas(Ints(a.items), Ints(b.items), path)
      else WalkItems(a.items, b.items, 0, path)
    else [Scalar(path, a, b)]
  }

  function WalkItems(xs: seq<Value>, ys: seq<Value>, i: nat, path: Path): seq<Delta>
    decreases SizeItems(xs) + SizeItems(ys) + 1, |xs| + |ys| + 1
  {
    if xs == [] && ys == [] then [] else
    Walk(Head(xs), Head(ys), path + [Index(i)]) + WalkItems(Tail(xs), Tail(ys), i + 1, path)
  }

  /** The sorted union of both key lists. */
  function WalkFields(fs: seq<Field>, gs: seq<Field>, path: Path): seq<Delta>
    decreases SizeFields(fs) + SizeFields(gs) + 1, |fs| + |gs| + 1
  {
    if fs == [] && gs == [] then []
    else if gs == [] || (fs != [] && fs[0].key < gs[0].key) then
      Walk(fs[0].value, Null, path + [Key(fs[0].key)]) + WalkFields(fs[1..], gs, path)
    else if fs == [] || gs[0].key < fs[0].key then
      Walk(Null, gs[0].value, path + [Key(gs[0].key)]) + WalkFields(fs, gs[1..], path)
    else
      Walk(fs[0].value, gs[0].value, path + [Key(fs[0].key)]) + WalkFields(fs[1..], gs[1..], path)
  }

  // ---- What an empty diff means --------------------------------------------------------------

  /** Two nodes the walk tells apart whenever they differ: arrays of one length, number arrays of
      integers only, `$ta` nodes that decode to one length and differ in nothing but their bytes,
      objects with the same keys, all of this recursively. Nodes of different kinds always qualify. */
  predicate Comparable(a: Value, b: Value)
    decreases a
  {
    match (a, b)
    case (Typed(f, Some(x)), Typed(g, Some(y))) => f == g && |x| == |y|
    case (Arr(xs), Arr(ys)) =>
      && |xs| == |ys|
      && (Numeric(xs) && Numeric(ys) ==> Integers(xs) && Integers(ys))
      && forall i :: 0 <= i < |xs| ==> Comparable(xs[i], ys[i])
    case (Obj(fs), Obj(gs)) =>
      && |fs| == |gs|
      && (forall i :: 0 <= i < |fs| ==> fs[i].key == gs[i].key)
      && forall i :: 0 <= i < |fs| ==> ComparableFields(fs[i], gs[i])
    case _ => true
  }

  predicate ComparableFields(f: Field, g: Field)
    decreases f
  {
    Comparable(f.value, g.value)
  }

  predicate Integers(vs: seq<Value>) { forall i :: 0 <= i < |vs| ==> vs[i].Num? && vs[i].n.Int? }

  /** Sequences of one length have an empty diff only if they are equal. */
  lemma SeqDeltasEmpty(a: seq<int>, b: seq<int>, path: Path)
    requires |a| == |b|
    ensures SeqDeltas(a, b, path) == [] <==> a == b
  {
    RunsFromExact(a, b, 0);
    if a != b {
      var i :| 0 <= i < |a| && a[i] != b[i];
      assert Differs(a, b, i);
      assert Covered(i, RunsFrom(a, b, 0));
    } else {
      var rs := RunsFrom(a, b, 0);
      if rs != [] {
        SeparatedAt(rs, 0);
      }
    }
  }

  lemma IntsInjective(xs: seq<Value>, ys: seq<Value>)
    requires |xs| == |ys| && Integers(xs) && Integers(ys)
    ensures Ints(xs) == Ints(ys) <==> xs == ys
  {
    if Ints(xs) == Ints(ys) {
      forall i | 0 <= i < |xs|
        ensures xs[i] == ys[i]
      {
        assert Ints(xs)[i] == Ints(ys)[i];
      }
    }
  }

  /** The node at `path` is not, and does not directly hold, the drive blob of the whole tree. */
  predicate NoDriveBlob(a: Value, path: Path) {
    path != DRIVE && (path == [] && a.Obj? ==> forall i :: 0 <= i < |a.fields| ==> a.fields[i].key != DRIVE_KEY)
  }

  /** The strict verdict: for comparable trees the walk is silent if and only if they are equal. */
  lemma {:induction false} WalkExact(a: Value, b: Value, path: Path)
    requires Comparable(a, b) && NoDriveBlob(a, path)
    ensures Walk(a, b, path) == [] <==> a == b
    decreases Size(a) + Size(b), 0
  {
    if a != b {
      match (a, b)
      case (Typed(f, Some(x)), Typed(g, Some(y))) => SeqDeltasEmpty(x, y, path);
      case (Arr(xs), Arr(ys)) =>
        if Numeric(xs) && Numeric(ys) {
          IntsInjective(xs, ys);
          SeqDeltasEmpty(Ints(xs), Ints(ys), path);
        } else {
          WalkItemsExact(xs, ys, 0, path);
        }
      case (Obj(fs), Obj(gs)) => WalkFieldsExact(fs, gs, path);
      case _ =>
    }
  }

  lemma {:induction false} WalkItemsExact(xs: seq<Value>, ys: seq<Value>, i: nat, path: Path)
    requires |xs| == |ys| && forall k :: 0 <= k < |xs| ==> Comparable(xs[k], ys[k])
    ensures WalkItems(xs, ys, i, path) == [] <==> xs == ys
    decreases SizeItems(xs) + SizeItems(ys) + 1, |xs| + |ys| + 1
  {
    if xs != [] {
      var p := path + [Index(i)];
      assert p[|p| - 1] == Index(i) && p != DRIVE && p != [];
      WalkExact(xs[0], ys[0], p);
      WalkItemsExact(Tail(xs), Tail(ys), i + 1, path);
      assert xs == [xs[0]] + xs[1..] && ys == [ys[0]] + ys[1..];
    }
  }

  lemma {:induction false} WalkFieldsExact(fs: seq<Field>, gs: seq<Field>, path: Path)
    requires |fs| == |gs|
    requires forall k :: 0 <= k < |fs| ==> fs[k].key == gs[k].key && (path == [] ==> fs[k].key != DRIVE_KEY)
    requires forall k :: 0 <= k < |fs| ==> ComparableFields(fs[k], gs[k])
    ensures WalkFields(fs, gs, path) == [] <==> fs == gs
    decreases SizeFields(fs) + SizeFields(gs) + 1, |fs| + |gs| + 1
  {
    if fs != [] {
      var p := path + [Key(fs[0].key)];
      assert p[|p| - 1] == Key(fs[0].key) && |p| == |path| + 1;
      assert p != DRIVE && p != [] by {
        assert path != [] ==> |p| > |DRIVE|;
      }
      assert ComparableFields(fs[0], gs[0]);
      WalkExact(fs[0].value, gs[0].value, p);
      WalkFieldsExact(fs[1..], gs[1..], path);
      assert fs == [fs[0]] + fs[1..] && gs == [gs[0]] + gs[1..];
    }
  }

  // ---- What an empty diff means for any two trees --------------------------------------------

  /** Object keys as a parser leaves them: sorted, each once. */
  predicate SortedKeys(fs: seq<Field>) {
    forall i, j :: 0 <= i < j < |fs| ==> fs[i].key < fs[j].key
  }

  predicate Parsed(v: Value)
    decreases v
  {
    match v
    case Arr(items) => forall i :: 0 <= i < |items| ==> Parsed(items[i])
    case Obj(fields) => SortedKeys(fields) && forall i :: 0 <= i < |fields| ==> ParsedField(fields[i])
    case _ => true
  }

  predicate ParsedField(f: Field)
    decreases f
  {
    Parsed(f.value)
  }

  /** `get(k)`, a missing key read as null. */
  function Get(fs: seq<Field>, k: nat): (v: Value)
    ensures Size(v) <= SizeFields(fs) || v == Null
  {
    if fs == [] then Null else if fs[0].key == k then fs[0].value else Get(fs[1..], k)
  }

  function Item(vs: seq<Value>, i: nat): (v: Value)
    ensures Size(v) <= SizeItems(vs) || v == Null
    decreases |vs|
  {
    if vs == [] then Null else if i == 0 then vs[0] else Item(vs[1..], i - 1)
  }

  /** The differences the walk cannot see: padding zeros at the end of byte and number arrays,
      numbers that `as_i64` does not read, the form of a `$ta` node, a null against nothing, and
      the drive blob. Everything else must be equal, key by key and index by index. */
  ghost predicate Agree(a: Value, b: Value, path: Path)
    decreases Size(a) + Size(b)
  {
    || a == b
    || ((a.Obj? || a.Typed?) && (b.Obj? || b.Typed?) && path == DRIVE)
    || (a.Typed? && b.Typed? && a.bytes.Some? && b.bytes.Some?
        && forall i: nat :: !Differs(a.bytes.value, b.bytes.value, i))
    || (a.Arr? && b.Arr? && Numeric(a.items) && Numeric(b.items)
        && forall i: nat :: !Differs(Ints(a.items), Ints(b.items), i))
    || (a.Arr? && b.Arr? && !(Numeric(a.items) && Numeric(b.items))
        && forall i: nat :: Agree(Item(a.items, i), Item(b.items, i), path + [Index(i)]))
    || (a.Obj? && b.Obj?
        && forall k: nat :: Agree(Get(a.fields, k), Get(b.fields, k), path + [Key(k)]))
  }

  lemma SeqDeltasAgree(a: seq<int>, b: seq<int>, path: Path)
    ensures SeqDeltas(a, b, path) == [] <==> forall i: nat :: !Differs(a, b, i)
  {
    RunsFromExact(a, b, 0);
    var rs := RunsFrom(a, b, 0);
    if i: nat :| Differs(a, b, i) {
      assert i < Longer(a, b);
      assert Covered(i, rs);
    }
    if rs != [] {
      SeparatedAt(rs, 0);
    }
  }

  /** For any two parsed trees: the walk is silent if and only if they agree. */
  lemma {:induction false} WalkSilent(a: Value, b: Value, path: Path)
    requires Parsed(a) && Parsed(b)
    ensures Walk(a, b, path) == [] <==> Agree(a, b, path)
    decreases Size(a) + Size(b), 0
  {
    hide SeqDeltas, Differs, WalkItems, WalkFields, Get, Item, Numeric, Ints;
    if a != b {
      if a.Typed? && b.Typed? && a.bytes.Some? && b.bytes.Some? {
        SeqDeltasAgree(a.bytes.value, b.bytes.value, path);
      } else if a.Arr? && b.Arr? {
        if Numeric(a.items) && Numeric(b.items) {
          SeqDeltasAgree(Ints(a.items), Ints(b.items), path);
        } else {
          WalkItemsSilent(a.items, b.items, 0, path);
          assert forall i: nat :: path + [Index(0 + i)] == path + [Index(i)];
        }
      } else if a.Obj? && b.Obj? {
        WalkFieldsSilent(a.fields, b.fields, path);
      }
    }
  }

  ghost predicate AgreeItems(xs: seq<Value>, ys: seq<Value>, i: nat, path: Path) {
    forall k: nat :: Agree(Item(xs, k), Item(ys, k), path + [Index(i + k)])
  }

  lemma AgreeItemsStep(xs: seq<Value>, ys: seq<Value>, i: nat, path: Path)
    ensures AgreeItems(xs, ys, i, path) <==>
      Agree(Head(xs), Head(ys), path + [Index(i)]) && AgreeItems(Tail(xs), Tail(ys), i + 1, path)
  {
    hide Agree;
    assert Item(xs, 0) == Head(xs) && Item(ys, 0) == Head(ys);
    if AgreeItems(xs, ys, i, path) {
      assert Agree(Item(xs, 0), Item(ys, 0), path + [Index(i + 0)]);
      forall k: nat
        ensures Agree(Item(Tail(xs), k), Item(Tail(ys), k), path + [Index(i + 1 + k)])
      {
        ItemTail(xs, k);
        ItemTail(ys, k);
        assert Agree(Item(xs, k + 1), Item(ys, k + 1), path + [Index(i + (k + 1))]);
      }
    }
    if Agree(Head(xs), Head(ys), path + [Index(i)]) && AgreeItems(Tail(xs), Tail(ys), i + 1, path) {
      forall k: nat
        ensures Agree(Item(xs, k), Item(ys, k), path + [Index(i + k)])
      {
        if k > 0 {
          ItemTail(xs, k - 1);
          ItemTail(ys, k - 1);
          assert Agree(Item(Tail(xs), k - 1), Item(Tail(ys), k - 1), path + [Index(i + 1 + (k - 1))]);
        }
      }
    }
  }

  lemma ItemTail(vs: seq<Value>, k: nat)
    ensures Item(vs, k + 1) == Item(Tail(vs), k)
  {
  }

  lemma {:induction false} WalkItemsSilent(xs: seq<Value>, ys: seq<Value>, i: nat, path: Path)
    requires forall k :: 0 <= k < |xs| ==> Parsed(xs[k])
    requires forall k :: 0 <= k < |ys| ==> Parsed(ys[k])
    ensures WalkItems(xs, ys, i, path) == [] <==> AgreeItems(xs, ys, i, path)
    decreases SizeItems(xs) + SizeItems(ys) + 1, |xs| + |ys| + 1
  {
    if xs != [] || ys != [] {
      WalkSilent(Head(xs), Head(ys), path + [Index(i)]);
      WalkItemsSilent(Tail(xs), Tail(ys), i + 1, path);
      AgreeItemsStep(xs, ys, i, path);
      hide AgreeItems, Agree, Walk;
    }
  }

  lemma {:induction false} GetBelow(fs: seq<Field>, k: nat)
    requires forall i :: 0 <= i < |fs| ==> k < fs[i].key
    ensures Get(fs, k) == Null
    decreases |fs|
  {
    if fs != [] {
      GetBelow(fs[1..], k);
    }
  }

  /** The smaller of the two first keys. */
  function MergeKey(fs: seq<Field>, gs: seq<Field>): nat
    requires fs != [] || gs != []
  {
    if gs == [] || (fs != [] && fs[0].key < gs[0].key) then fs[0].key else gs[0].key
  }

  /** The fields after the one with the merge key, if it is there. */
  function Beyond(fs: seq<Field>, k: nat): seq<Field> {
    if fs != [] && fs[0].key == k then fs[1..] else fs
  }

  /** A step of the merge on one side: it removes the merge key and keeps every other one. */
  lemma BeyondKeeps(fs: seq<Field>, k: nat, j: nat)
    requires SortedKeys(fs) && (fs != [] ==> k <= fs[0].key)
    ensures SortedKeys(Beyond(fs, k)) && Get(Beyond(fs, k), k) == Null
    ensures j != k ==> Get(Beyond(fs, k), j) == Get(fs, j)
  {
    GetBelow(Beyond(fs, k), k);
  }

  /** One step of the merge looks its key up on both sides. */
  lemma MergeStep(fs: seq<Field>, gs: seq<Field>, path: Path)
    requires SortedKeys(fs) && SortedKeys(gs) && (fs != [] || gs != [])
    ensures var k := MergeKey(fs, gs);
      && (fs != [] ==> k <= fs[0].key) && (gs != [] ==> k <= gs[0].key)
      && WalkFields(fs, gs, path) ==
           Walk(Get(fs, k), Get(gs, k), path + [Key(k)]) + WalkFields(Beyond(fs, k), Beyond(gs, k), path)
  {
    var k := MergeKey(fs, gs);
    if fs != [] && fs[0].key != k {
      GetBelow(fs, k);
    }
    if gs != [] && gs[0].key != k {
      GetBelow(gs, k);
    }
  }

  /** A step of the merge takes something off. */
  lemma MergeShrinks(fs: seq<Field>, gs: seq<Field>)
    requires fs != [] || gs != []
    ensures var k := MergeKey(fs, gs);
      && SizeFields(Beyond(fs, k)) <= SizeFields(fs) && SizeFields(Beyond(gs, k)) <= SizeFields(gs)
      && |Beyond(fs, k)| + |Beyond(gs, k)| < |fs| + |gs|
      && Size(Get(fs, k)) + Size(Get(gs, k)) <= SizeFields(fs) + SizeFields(gs) + 1
  {
  }

  ghost predicate AgreeFields(fs: seq<Field>, gs: seq<Field>, path: Path) {
    forall k: nat :: Agree(Get(fs, k), Get(gs, k), path + [Key(k)])
  }

  /** Fields that differ in one key only, which the second pair lacks. */
  lemma AgreeWithout(fs: seq<Field>, gs: seq<Field>, fs': seq<Field>, gs': seq<Field>, k: nat, path: Path)
    requires forall j: nat :: j != k ==> Get(fs', j) == Get(fs, j) && Get(gs', j) == Get(gs, j)
    requires Get(fs', k) == Null && Get(gs', k) == Null
    ensures AgreeFields(fs, gs, path) <==>
      Agree(Get(fs, k), Get(gs, k), path + [Key(k)]) && AgreeFields(fs', gs', path)
  {
    hide Agree, Get;
    NullAgrees(path + [Key(k)]);
    if AgreeFields(fs, gs, path) {
      forall j: nat
        ensures Agree(Get(fs', j), Get(gs', j), path + [Key(j)])
      {
        assert Agree(Get(fs, j), Get(gs, j), path + [Key(j)]);
      }
    }
    if Agree(Get(fs, k), Get(gs, k), path + [Key(k)]) && AgreeFields(fs', gs', path) {
      forall j: nat
        ensures Agree(Get(fs, j), Get(gs, j), path + [Key(j)])
      {
        assert Agree(Get(fs', j), Get(gs', j), path + [Key(j)]);
      }
    }
  }

  lemma AgreeFieldsStep(fs: seq<Field>, gs: seq<Field>, path: Path)
    requires SortedKeys(fs) && SortedKeys(gs) && (fs != [] || gs != [])
    ensures var k := MergeKey(fs, gs);
      AgreeFields(fs, gs, path) <==>
        Agree(Get(fs, k), Get(gs, k), path + [Key(k)]) && AgreeFields(Beyond(fs, k), Beyond(gs, k), path)
  {
    hide Agree, AgreeFields, Get, Beyond;
    var k := MergeKey(fs, gs);
    forall j: nat
      ensures j != k ==> Get(Beyond(fs, k), j) == Get(fs, j) && Get(Beyond(gs, k), j) == Get(gs, j)
    {
      BeyondKeeps(fs, k, j);
      BeyondKeeps(gs, k, j);
    }
    BeyondKeeps(fs, k, k);
    BeyondKeeps(gs, k, k);
    AgreeWithout(fs, gs, Beyond(fs, k), Beyond(gs, k), k, path);
  }

  lemma NullAgrees(path: Path)
    ensures Agree(Null, Null, path)
  {
  }

  lemma {:induction false} WalkFieldsSilent(fs: seq<Field>, gs: seq<Field>, path: Path)
    requires SortedKeys(fs) && SortedKeys(gs)
    requires forall i :: 0 <= i < |fs| ==> ParsedField(fs[i])
    requires forall i :: 0 <= i < |gs| ==> ParsedField(gs[i])
    ensures WalkFields(fs, gs, path) == [] <==> AgreeFields(fs, gs, path)
    decreases SizeFields(fs) + SizeFields(gs) + 1, |fs| + |gs| + 1
  {
    if fs == [] && gs == [] {
      NothingAgrees(path);
    } else {
      var k := MergeKey(fs, gs);
      MergeStep(fs, gs, path);
      MergeShrinks(fs, gs);
      AgreeFieldsStep(fs, gs, path);
      GetParsed(fs, k);
      GetParsed(gs, k);
      BeyondKeeps(fs, k, k);
      BeyondKeeps(gs, k, k);
      hide AgreeFields, Agree, Walk, WalkFields, Get, MergeKey, SizeFields, Parsed;
      WalkSilent(Get(fs, k), Get(gs, k), path + [Key(k)]);
      WalkFieldsSilent(Beyond(fs, k), Beyond(gs, k), path);
    }
  }

  lemma NothingAgrees(path: Path)
    ensures WalkFields([], [], path) == [] && AgreeFields([], [], path)
  {
    forall k: nat
      ensures Agree(Get([], k), Get([], k), path + [Key(k)])
    {
      NullAgrees(path + [Key(k)]);
    }
  }

  lemma {:induction false} GetParsed(fs: seq<Field>, k: nat)
    requires forall i :: 0 <= i < |fs| ==> ParsedField(fs[i])
    ensures Parsed(Get(fs, k))
    decreases |fs|
  {
    if fs != [] {
      assert ParsedField(fs[0]);
      GetParsed(fs[1..], k);
    }
  }

  /** Differences without a delta: a fraction against another, a shorter array against its
      zero-padded form, a null against a missing key. */
  lemma FractionsAreBlind(path: Path)
    requires path != DRIVE
    ensures Walk(Arr([Num(Other(1))]), Arr([Num(Other(2))]), path) == []
  {
    SeqDeltasAgree(Ints([Num(Other(1))]), Ints([Num(Other(2))]), path);
  }

  lemma TrailingZeroIsBlind(path: Path)
    requires path != DRIVE
    ensures Walk(Arr([Num(Int(7))]), Arr([Num(Int(7)), Num(Int(0))]), path) == []
  {
    SeqDeltasAgree(Ints([Num(Int(7))]), Ints([Num(Int(7)), Num(Int(0))]), path);
  }

  lemma NullIsBlind(path: Path)
    requires path != DRIVE
    ensures Walk(Obj([Field(5, Null)]), Obj([]), path) == []
  {
    assert WalkFields([Field(5, Null)], [], path) == Walk(Null, Null, path + [Key(5)]) + WalkFields([], [], path);
  }
}
