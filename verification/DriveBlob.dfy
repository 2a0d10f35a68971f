/**
 The drive blob of a checkpoint: the framing of its modules, the search for one of them, and the parts
 that are compared byte by byte, the 2 KB of drive RAM under their own addresses.
 */
module DriveBlob {
  import opened Bytes
  import opened Runs
  import opened CheckpointTree

  // ---- Finding a module ----------------------------------------------------------------------

  /** The blob's own header, and the header of each module: a name padded with zeros, two version bytes
      and the module's size, this header included. */
  const FILE_HEADER: nat := 58
  const MODULE_HEADER: nat := 22
  const NAME_FIELD: nat := 16

  predicate Named(name: seq<byte>, want: string) {
    |name| == |want| && forall i :: 0 <= i < |name| ==> name[i] == want[i] as int
  }

  function UpToZero(bs: seq<byte>): seq<byte> {
    if bs == [] || bs[0] == 0 then [] else [bs[0]] + UpToZero(bs[1..])
  }

  function NameAt(buf: seq<byte>, cur: nat): seq<byte>
    requires cur + MODULE_HEADER <= |buf|
  {
    UpToZero(buf[cur..cur + NAME_FIELD])
  }

  function SizeAt(buf: seq<byte>, cur: nat): nat
    requires cur + MODULE_HEADER <= |buf|
  {
    FromLittleEndian(buf[cur + 18..cur + 22])
  }

  /** The data of the first module of that name from `cur` on; a size that makes no sense ends the search. */
  function FindFrom(buf: seq<byte>, want: string, cur: nat): Option<seq<byte>>
    decreases |buf| - cur
  {
    if cur + MODULE_HEADER > |buf| then None else
    var size := SizeAt(buf, cur);
    if size < MODULE_HEADER || cur + size > |buf| then None
    else if Named(NameAt(buf, cur), want) then Some(buf[cur + MODULE_HEADER..cur + size])
    else FindFrom(buf, want, cur + size)
  }

  /** `vice_module`. */
  method ViceModule(buf: seq<byte>, want: string) returns (r: Option<seq<byte>>)
    ensures r == FindFrom(buf, want, FILE_HEADER)
  {
    hide Named, NameAt, SizeAt;
    r := None;
    if |buf| < FILE_HEADER {
      return;
    }
    var cur := FILE_HEADER;
    while cur + MODULE_HEADER <= |buf|
      invariant r == None && FindFrom(buf, want, cur) == FindFrom(buf, want, FILE_HEADER)
      decreases |buf| - cur
    {
      var size := SizeAt(buf, cur);
      if size < MODULE_HEADER || cur + size > |buf| {
        break;
      }
      if Named(NameAt(buf, cur), want) {
        return Some(buf[cur + MODULE_HEADER..cur + size]);
      }
      cur := cur + size;
    }
  }

  // ---- The blob as it is written -------------------------------------------------------------

  datatype Module = Module(name: string, major: byte, minor: byte, data: seq<byte>)

  /** What a snapshot writer can frame. */
  predicate Writable(m: Module) {
    && |m.name| <= NAME_FIELD && (forall i :: 0 <= i < |m.name| ==> 0 < m.name[i] as int < 0x100)
    && MODULE_HEADER + |m.data| < 0x1_0000_0000
  }

  function NameField(name: string): (f: seq<byte>)
    requires |name| <= NAME_FIELD && forall i :: 0 <= i < |name| ==> 0 < name[i] as int < 0x100
    ensures |f| == NAME_FIELD
  {
    seq(NAME_FIELD, i requires 0 <= i < NAME_FIELD => if i < |name| then name[i] as int else 0)
  }

  function Frame(m: Module): (f: seq<byte>)
    requires Writable(m)
    ensures |f| == MODULE_HEADER + |m.data|
  {
    NameField(m.name) + [m.major, m.minor] + LittleEndian(MODULE_HEADER + |m.data|, 4) + m.data
  }

  function Frames(ms: seq<Module>): seq<byte>
    requires forall i :: 0 <= i < |ms| ==> Writable(ms[i])
  {
    if ms == [] then [] else Frame(ms[0]) + Frames(ms[1..])
  }

  /** The data of the first module of that name. */
  function First(ms: seq<Module>, want: string): Option<seq<byte>> {
    if ms == [] then None else if ms[0].name == want then Some(ms[0].data) else First(ms[1..], want)
  }

  lemma {:induction false} UpToZeroOf(bs: seq<byte>, n: nat)
    requires n <= |bs| && (n < |bs| ==> bs[n] == 0) && forall i :: 0 <= i < n ==> bs[i] != 0
    ensures UpToZero(bs) == bs[..n]
    decreases n
  {
    if n > 0 {
      UpToZeroOf(bs[1..], n - 1);
      assert bs[..n] == [bs[0]] + bs[1..][..n - 1];
    }
  }

  /** A name survives its field. */
  lemma NameSurvives(name: string, want: string)
    requires |name| <= NAME_FIELD && forall i :: 0 <= i < |name| ==> 0 < name[i] as int < 0x100
    ensures Named(UpToZero(NameField(name)), want) <==> name == want
  {
    var f := NameField(name);
    UpToZeroOf(f, |name|);
    if Named(f[..|name|], want) {
      forall i | 0 <= i < |name|
        ensures name[i] == want[i]
      {
        assert f[..|name|][i] == want[i] as int;
      }
    }
  }

  /** What the search reads in the frame of one module, wherever it lies. */
  lemma ReadsFrame(before: seq<byte>, m: Module, after: seq<byte>)
    requires Writable(m)
    ensures var buf := before + Frame(m) + after;
      && NameAt(buf, |before|) == UpToZero(NameField(m.name))
      && SizeAt(buf, |before|) == MODULE_HEADER + |m.data|
      && buf[|before| + MODULE_HEADER..|before| + MODULE_HEADER + |m.data|] == m.data
  {
    var buf, n := before + Frame(m) + after, |before|;
    var size := LittleEndian(MODULE_HEADER + |m.data|, 4);
    assert buf[n..n + NAME_FIELD] == NameField(m.name);
    assert buf[n + 18..n + 22] == size;
    assert Power256(4) == 0x1_0000_0000;
    LittleEndianRoundTrip(MODULE_HEADER + |m.data|, 4);
  }

  /** One step of the search over a frame: found, or on behind it. */
  lemma StepsOverFrame(before: seq<byte>, m: Module, after: seq<byte>, want: string)
    requires Writable(m)
    ensures FindFrom(before + Frame(m) + after, want, |before|) ==
            if m.name == want then Some(m.data)
            else FindFrom(before + Frame(m) + after, want, |before + Frame(m)|)
  {
    ReadsFrame(before, m, after);
    NameSurvives(m.name, want);
    hide NameAt, SizeAt, Frame, Named, NameField, UpToZero;
  }

  lemma {:induction false} FindFramed(before: seq<byte>, ms: seq<Module>, want: string)
    requires forall i :: 0 <= i < |ms| ==> Writable(ms[i])
    ensures FindFrom(before + Frames(ms), want, |before|) == First(ms, want)
    decreases |ms|
  {
    hide FindFrom, Frame;
    if ms == [] {
      NothingLeft(before, want);
    } else {
      var rest := Frames(ms[1..]);
      assert before + Frames(ms) == before + Frame(ms[0]) + rest;
      StepsOverFrame(before, ms[0], rest, want);
      FindFramed(before + Frame(ms[0]), ms[1..], want);
    }
  }

  lemma NothingLeft(before: seq<byte>, want: string)
    ensures FindFrom(before + Frames([]), want, |before|) == None
  {
  }

  /** The search reads back what was framed: the data of the first module of that name, if there is one. */
  lemma FindReadsBack(header: seq<byte>, ms: seq<Module>, want: string)
    requires |header| == FILE_HEADER && forall i :: 0 <= i < |ms| ==> Writable(ms[i])
    ensures FindFrom(header + Frames(ms), want, FILE_HEADER) == First(ms, want)
  {
    FindFramed(header, ms, want);
  }

  // ---- The parts that are compared -----------------------------------------------------------

  const RAM_SIZE: nat := 0x800

  function ModuleOf(part: DrivePart): string {
    match part
    case Rotation => "DRIVE8"
    case Via1 => "1541VIA1D0"
    case Via2 => "VIA2D0"
    case DriveCpu | DriveRam => "DRIVECPU0"
  }

  /** `split_drive_ram`: where the RAM begins, as the last field of its module. */
  function RamAt(d: seq<byte>): (n: nat)
    ensures n <= |d|
  {
    if |d| >= RAM_SIZE then |d| - RAM_SIZE else |d|
  }

  function PartOf(d: Option<seq<byte>>, part: DrivePart): Option<seq<byte>> {
    if d == None then None else
    match part
    case DriveCpu => Some(d.value[..RamAt(d.value)])
    case DriveRam => Some(d.value[RamAt(d.value)..])
    case _ => d
  }

  function Slice(blob: seq<byte>, part: DrivePart): Option<seq<byte>> {
    PartOf(FindFrom(blob, ModuleOf(part), FILE_HEADER), part)
  }

  /** Nothing for a part that one side lacks. */
  function Compared(x: Option<seq<byte>>, y: Option<seq<byte>>, part: DrivePart): seq<Delta> {
    if x.Some? && y.Some? then SeqDeltas(x.value, y.value, [Drive(part)]) else []
  }

  function PartDeltas(a: seq<byte>, b: seq<byte>, part: DrivePart): seq<Delta> {
    Compared(Slice(a, part), Slice(b, part), part)
  }

  const PARTS := [Rotation, Via1, Via2, DriveCpu, DriveRam]

  /** The deltas of the first `n` parts. */
  function FirstParts(a: seq<byte>, b: seq<byte>, n: nat): seq<Delta>
    requires n <= |PARTS|
  {
    if n == 0 then [] else FirstParts(a, b, n - 1) + PartDeltas(a, b, PARTS[n - 1])
  }

  function DriveDeltas(a: Option<seq<byte>>, b: Option<seq<byte>>): seq<Delta> {
    if a.Some? && b.Some? then FirstParts(a.value, b.value, |PARTS|) else []
  }

  /** One slice against the other, guarded as in the code: equal slices are not compared byte by byte. */
  method DiffPart(x: seq<byte>, y: seq<byte>, part: DrivePart, before: seq<Delta>) returns (out: seq<Delta>)
    ensures out == before + Compared(Some(x), Some(y), part)
  {
    out := before;
    if x != y {
      var ds := DiffSeq(x, y, [Drive(part)]);
      out := out + ds;
    } else {
      SeqDeltasEmpty(x, y, [Drive(part)]);
    }
  }

  /** `drive_blob_components`. */
  method DriveBlobComponents(a: Option<seq<byte>>, b: Option<seq<byte>>) returns (out: seq<Delta>)
    ensures out == DriveDeltas(a, b)
  {
    hide FindFrom, RamAt, SeqDeltas;
    out := [];
    if a == None || b == None {
      return;
    }
    for i := 0 to 3
      invariant out == FirstParts(a.value, b.value, i)
    {
      var da := ViceModule(a.value, ModuleOf(PARTS[i]));
      var db := ViceModule(b.value, ModuleOf(PARTS[i]));
      hide ModuleOf;
      if da.Some? && db.Some? {
        out := DiffPart(da.value, db.value, PARTS[i], out);
      }
    }
    var da := ViceModule(a.value, "DRIVECPU0");
    var db := ViceModule(b.value, "DRIVECPU0");
    ghost var cpu, ram := PartDeltas(a.value, b.value, DriveCpu), PartDeltas(a.value, b.value, DriveRam);
    assert FirstParts(a.value, b.value, 4) == FirstParts(a.value, b.value, 3) + cpu;
    assert FirstParts(a.value, b.value, 5) == FirstParts(a.value, b.value, 4) + ram;
    hide Compared, FirstParts;
    if da.Some? && db.Some? {
      var ha, hb := RamAt(da.value), RamAt(db.value);
      out := DiffPart(da.value[..ha], db.value[..hb], DriveCpu, out);
      out := DiffPart(da.value[ha..], db.value[hb..], DriveRam, out);
    }
  }

  // ---- What no delta means -------------------------------------------------------------------

  /** A part of the two drives agrees up to padding, or one side lacks it. */
  ghost predicate PartsAgree(a: seq<byte>, b: seq<byte>, part: DrivePart) {
    var x, y := Slice(a, part), Slice(b, part);
    x.Some? && y.Some? ==> forall i: nat :: !Differs(x.value, y.value, i)
  }

  ghost predicate DrivesAgree(a: Option<seq<byte>>, b: Option<seq<byte>>) {
    a.Some? && b.Some? ==> forall part: DrivePart :: PartsAgree(a.value, b.value, part)
  }

  lemma PartSilent(a: seq<byte>, b: seq<byte>, part: DrivePart)
    ensures PartDeltas(a, b, part) == [] <==> PartsAgree(a, b, part)
  {
    var x, y := Slice(a, part), Slice(b, part);
    if x.Some? && y.Some? {
      SeqDeltasAgree(x.value, y.value, [Drive(part)]);
    }
  }

  lemma {:induction false} FirstPartsSilent(a: seq<byte>, b: seq<byte>, n: nat)
    requires n <= |PARTS|
    ensures FirstParts(a, b, n) == [] <==> forall i :: 0 <= i < n ==> PartsAgree(a, b, PARTS[i])
  {
    if n > 0 {
      FirstPartsSilent(a, b, n - 1);
      PartSilent(a, b, PARTS[n - 1]);
      hide PartDeltas, PartsAgree;
    }
  }

  /** The drives give no delta if and only if they agree part by part. */
  lemma DriveSilent(a: Option<seq<byte>>, b: Option<seq<byte>>)
    ensures DriveDeltas(a, b) == [] <==> DrivesAgree(a, b)
  {
    if a.Some? && b.Some? {
      FirstPartsSilent(a.value, b.value, |PARTS|);
      assert PARTS[0] == Rotation && PARTS[1] == Via1 && PARTS[2] == Via2;
      assert PARTS[3] == DriveCpu && PARTS[4] == DriveRam;
      hide PartsAgree, FirstParts;
    }
  }

  // ---- Drive RAM under its own addresses -----------------------------------------------------

  /** Some delta of the drive RAM reports position `x`. */
  ghost predicate RamReported(ds: seq<Delta>, x: nat) {
    exists k :: 0 <= k < |ds| && ds[k].Range? && ds[k].path == [Drive(DriveRam)] && ds[k].start <= x <= ds[k].end
  }

  lemma SeqDeltasReport(a: seq<int>, b: seq<int>, path: Path, x: nat)
    ensures (exists k :: 0 <= k < |SeqDeltas(a, b, path)| && SeqDeltas(a, b, path)[k].Range?
               && SeqDeltas(a, b, path)[k].start <= x <= SeqDeltas(a, b, path)[k].end) <==> Differs(a, b, x)
  {
    RunsFromExact(a, b, 0);
    var rs, ds := RunsFrom(a, b, 0), SeqDeltas(a, b, path);
    assert Covered(x, rs) <==> x < Longer(a, b) && Differs(a, b, x);
    if Covered(x, rs) {
      var k :| 0 <= k < |rs| && In(x, rs[k]);
      assert ds[k] == RangeDelta(a, b, path, rs[k]);
    }
    if k :| 0 <= k < |ds| && ds[k].Range? && ds[k].start <= x <= ds[k].end {
      assert ds[k] == RangeDelta(a, b, path, rs[k]);
      assert In(x, rs[k]);
    }
  }

  /** Where two written blobs hold a CPU module that ends in 2 KB of RAM, position `x` of the drive RAM is
      reported if and only if the RAM bytes at address `x` differ. */
  lemma RamReportedAt(header: seq<byte>, header': seq<byte>, ms: seq<Module>, ms': seq<Module>,
                      cpu: seq<byte>, cpu': seq<byte>, ram: seq<byte>, ram': seq<byte>, x: nat)
    requires |header| == |header'| == FILE_HEADER && |ram| == |ram'| == RAM_SIZE
    requires forall i :: 0 <= i < |ms| ==> Writable(ms[i])
    requires forall i :: 0 <= i < |ms'| ==> Writable(ms'[i])
    requires First(ms, "DRIVECPU0") == Some(cpu + ram) && First(ms', "DRIVECPU0") == Some(cpu' + ram')
    ensures RamReported(DriveDeltas(Some(header + Frames(ms)), Some(header' + Frames(ms'))), x) <==>
            x < RAM_SIZE && ram[x] != ram'[x]
  {
    var a, b := header + Frames(ms), header' + Frames(ms');
    FindReadsBack(header, ms, "DRIVECPU0");
    FindReadsBack(header', ms', "DRIVECPU0");
    assert (cpu + ram)[RamAt(cpu + ram)..] == ram && (cpu' + ram')[RamAt(cpu' + ram')..] == ram';
    assert Slice(a, DriveRam) == Some(ram) && Slice(b, DriveRam) == Some(ram');
    SeqDeltasReport(ram, ram', [Drive(DriveRam)], x);
    OnlyRamReports(a, b, x);
  }

  /** Only the last part reports under the path of the RAM. */
  lemma OnlyRamReports(a: seq<byte>, b: seq<byte>, x: nat)
    ensures RamReported(DriveDeltas(Some(a), Some(b)), x) <==> RamReported(PartDeltas(a, b, DriveRam), x)
  {
    hide PartDeltas;
    var others, ram := FirstParts(a, b, 4), PartDeltas(a, b, DriveRam);
    NoRamBefore(a, b, 4);
    var all := others + ram;
    assert DriveDeltas(Some(a), Some(b)) == all;
    hide FirstParts, DriveDeltas;
    if k :| 0 <= k < |all| && all[k].Range? && all[k].path == [Drive(DriveRam)] && all[k].start <= x <= all[k].end {
      assert ram[k - |others|] == all[k];
    }
    if k :| 0 <= k < |ram| && ram[k].Range? && ram[k].path == [Drive(DriveRam)] && ram[k].start <= x <= ram[k].end {
      assert all[|others| + k] == ram[k];
    }
  }

  lemma {:induction false} NoRamBefore(a: seq<byte>, b: seq<byte>, n: nat)
    requires n <= 4
    ensures forall d :: d in FirstParts(a, b, n) ==> d.path != [Drive(DriveRam)]
  {
    if n > 0 {
      NoRamBefore(a, b, n - 1);
      assert PARTS[n - 1] != DriveRam;
      assert [Drive(PARTS[n - 1])][0] == Drive(PARTS[n - 1]) && [Drive(DriveRam)][0] == Drive(DriveRam);
      PathOfPart(Slice(a, PARTS[n - 1]), Slice(b, PARTS[n - 1]), PARTS[n - 1]);
      hide Compared, Slice;
    }
  }

  lemma PathOfPart(x: Option<seq<byte>>, y: Option<seq<byte>>, part: DrivePart)
    ensures forall d :: d in Compared(x, y, part) ==> d.path == [Drive(part)]
  {
  }
}
