/**
 CIA 1's keyboard matrix: the solver that follows pressed keys from a driven line to every line
 they connect, ghost keys included, and the two port reads built on it.

 An 8-bit mask is the set of its bit numbers: `&` is intersection, `&= !x` difference, `|` union.
 */
module KeyboardMatrix {

  type Mask = s: set<nat> | forall i :: i in s ==> i < 8

  const ALL: Mask := {0, 1, 2, 3, 4, 5, 6, 7}

  function Not(m: Mask): Mask { ALL - m }

  /** A line of the matrix: a row (port A side) or a column (port B side). */
  datatype Node = Row(index: nat) | Column(index: nat)

  /** `keyarr[r]` holds the columns whose key in row `r` is down; `revKeyarr` is the other way. */
  datatype Matrix = Matrix(keyarr: seq<Mask>, revKeyarr: seq<Mask>)

  predicate WellFormed(mx: Matrix) { |mx.keyarr| == 8 && |mx.revKeyarr| == 8 }

  /** The two arrays hold the same keys. */
  predicate Transposed(mx: Matrix)
    requires WellFormed(mx)
  {
    forall r: nat, c: nat :: r < 8 && c < 8 ==> (c in mx.keyarr[r] <==> r in mx.revKeyarr[c])
  }

  /** A key closes the contact from `a` to `b`. */
  predicate Touches(mx: Matrix, a: Node, b: Node)
    requires WellFormed(mx)
  {
    match (a, b)
    case (Row(r), Column(c)) => r < 8 && c < 8 && c in mx.keyarr[r]
    case (Column(c), Row(r)) => r < 8 && c < 8 && r in mx.revKeyarr[c]
    case _ => false
  }

  /** A chain of closed contacts. */
  predicate Path(mx: Matrix, p: seq<Node>)
    requires WellFormed(mx)
  {
    p != [] && forall i :: 0 <= i < |p| - 1 ==> Touches(mx, p[i], p[i + 1])
  }

  ghost predicate Connected(mx: Matrix, a: Node, b: Node)
    requires WellFormed(mx)
  {
    exists p :: Path(mx, p) && p[0] == a && p[|p| - 1] == b
  }

  lemma ConnectedSelf(mx: Matrix, a: Node)
    requires WellFormed(mx)
    ensures Connected(mx, a, a)
  {
    assert Path(mx, [a]) && [a][0] == a && [a][|[a]| - 1] == a;
  }

  lemma ConnectedStep(mx: Matrix, a: Node, b: Node, c: Node)
    requires WellFormed(mx) && Touches(mx, a, b) && Connected(mx, b, c)
    ensures Connected(mx, a, c)
  {
    var p :| Path(mx, p) && p[0] == b && p[|p| - 1] == c;
    var q := [a] + p;
    assert forall i :: 0 < i < |q| ==> q[i] == p[i - 1];
    assert Path(mx, q) && q[0] == a && q[|q| - 1] == c;
  }

  /** With transposed arrays a connection runs both ways: the reached lines are a component. */
  lemma ConnectedSymmetric(mx: Matrix, a: Node, b: Node)
    requires WellFormed(mx) && Transposed(mx) && Connected(mx, a, b)
    ensures Connected(mx, b, a)
  {
    var p :| Path(mx, p) && p[0] == a && p[|p| - 1] == b;
    var n := |p|;
    var q := seq(n, i requires 0 <= i < n => p[n - 1 - i]);
    forall i | 0 <= i < |q| - 1
      ensures Touches(mx, q[i], q[i + 1])
    {
      assert Touches(mx, p[n - 2 - i], p[n - 1 - i]);
    }
    assert Path(mx, q) && q[0] == b && q[|q| - 1] == a;
  }

  // ---- The solver ----------------------------------------------------------------------------

  /** The lines reached so far. */
  datatype Reached = Reached(rows: Mask, cols: Mask)

  predicate Has(v: Reached, n: Node) {
    match n
    case Row(r) => r in v.rows
    case Column(c) => c in v.cols
  }

  /** The lines not reached yet. */
  function Left(v: Reached): nat { |ALL - v.rows| + |ALL - v.cols| }

  /** What one activation adds to the lines reached before it: only lines connected to `start`,
      each with all the lines it touches. */
  ghost predicate Explores(mx: Matrix, start: Node, before: Reached, after: Reached)
    requires WellFormed(mx)
  {
    var grown := before.rows <= after.rows && before.cols <= after.cols && Has(after, start);
    var connected := forall n :: Has(after, n) && !Has(before, n) ==> Connected(mx, start, n);
    var closed := forall a, b :: Has(after, a) && !Has(before, a) && Touches(mx, a, b) ==> Has(after, b);
    grown && connected && closed
  }

  /** An activation under way: all that was added is connected to `start`, and everything added but
      `start` itself already has the lines it touches. */
  ghost predicate Growing(mx: Matrix, start: Node, before: Reached, now: Reached)
    requires WellFormed(mx)
  {
    var grown := before.rows <= now.rows && before.cols <= now.cols && Has(now, start);
    var connected := forall n :: Has(now, n) && !Has(before, n) ==> Connected(mx, start, n);
    var closed := forall a, b :: Has(now, a) && !Has(before, a) && a != start && Touches(mx, a, b) ==> Has(now, b);
    grown && connected && closed
  }

  lemma GrowingStart(mx: Matrix, start: Node, before: Reached, now: Reached)
    requires WellFormed(mx) && before.rows <= now.rows && before.cols <= now.cols && Has(now, start)
    requires forall n :: Has(now, n) && !Has(before, n) ==> n == start
    ensures Growing(mx, start, before, now)
  {
    ConnectedSelf(mx, start);
  }

  /** The activation of a touched line is a step of the activation of `start`. */
  lemma GrowingMore(mx: Matrix, start: Node, next: Node, before: Reached, now: Reached, after: Reached)
    requires WellFormed(mx) && Touches(mx, start, next)
    requires Growing(mx, start, before, now) && Explores(mx, next, now, after)
    ensures Growing(mx, start, before, after)
  {
    NewAreConnected(mx, start, next, now, after);
  }

  lemma GrowingDone(mx: Matrix, start: Node, before: Reached, after: Reached)
    requires WellFormed(mx) && Growing(mx, start, before, after)
    requires forall b :: Touches(mx, start, b) ==> Has(after, b)
    ensures Explores(mx, start, before, after)
  {
  }

  method ActivateRow(mx: Matrix, row: nat, rows: Mask, cols: Mask) returns (rows': Mask, cols': Mask)
    requires WellFormed(mx) && row < 8
    ensures Explores(mx, Row(row), Reached(rows, cols), Reached(rows', cols'))
    decreases Left(Reached(rows, cols))
  {
    hide Explores, Growing, Left;
    rows', cols' := rows, cols;
    if row in rows {
      GrowingNothing(mx, Row(row), Reached(rows, cols));
    } else {
      rows' := rows + {row};
      GrowingStart(mx, Row(row), Reached(rows, cols), Reached(rows', cols'));
      for i := 0 to 8
        invariant rows + {row} <= rows' && cols <= cols'
        invariant forall j: nat :: j < i && j in mx.keyarr[row] ==> j in cols'
        invariant Growing(mx, Row(row), Reached(rows, cols), Reached(rows', cols'))
      {
        if i in mx.keyarr[row] && i !in cols' {
          ghost var before := Reached(rows', cols');
          LeftFewer(Row(row), Reached(rows, cols), before);
          rows', cols' := ActivateColumn(mx, i, rows', cols');
          ExploresMore(mx, Column(i), before, Reached(rows', cols'));
          GrowingMore(mx, Row(row), Column(i), Reached(rows, cols), before, Reached(rows', cols'));
        }
      }
      GrowingDone(mx, Row(row), Reached(rows, cols), Reached(rows', cols'));
    }
  }

  method ActivateColumn(mx: Matrix, column: nat, rows: Mask, cols: Mask) returns (rows': Mask, cols': Mask)
    requires WellFormed(mx) && column < 8
    ensures Explores(mx, Column(column), Reached(rows, cols), Reached(rows', cols'))
    decreases Left(Reached(rows, cols))
  {
    hide Explores, Growing, Left;
    rows', cols' := rows, cols;
    if column in cols {
      GrowingNothing(mx, Column(column), Reached(rows, cols));
    } else {
      cols' := cols + {column};
      GrowingStart(mx, Column(column), Reached(rows, cols), Reached(rows', cols'));
      for i := 0 to 8
        invariant rows <= rows' && cols + {column} <= cols'
        invariant forall j: nat :: j < i && j in mx.revKeyarr[column] ==> j in rows'
        invariant Growing(mx, Column(column), Reached(rows, cols), Reached(rows', cols'))
      {
        if i in mx.revKeyarr[column] && i !in rows' {
          ghost var before := Reached(rows', cols');
          LeftFewer(Column(column), Reached(rows, cols), before);
          rows', cols' := ActivateRow(mx, i, rows', cols');
          ExploresMore(mx, Row(i), before, Reached(rows', cols'));
          GrowingMore(mx, Column(column), Row(i), Reached(rows, cols), before, Reached(rows', cols'));
        }
      }
      GrowingDone(mx, Column(column), Reached(rows, cols), Reached(rows', cols'));
    }
  }

  lemma GrowingNothing(mx: Matrix, start: Node, v: Reached)
    requires WellFormed(mx) && Has(v, start)
    ensures Explores(mx, start, v, v)
  {
  }

  lemma ExploresMore(mx: Matrix, start: Node, before: Reached, after: Reached)
    requires WellFormed(mx) && Explores(mx, start, before, after)
    ensures before.rows <= after.rows && before.cols <= after.cols && Has(after, start)
  {
  }

  lemma NewAreConnected(mx: Matrix, a: Node, b: Node, before: Reached, after: Reached)
    requires WellFormed(mx) && Touches(mx, a, b) && Explores(mx, b, before, after)
    ensures forall n :: Has(after, n) && !Has(before, n) ==> Connected(mx, a, n)
  {
    forall n | Has(after, n) && !Has(before, n)
      ensures Connected(mx, a, n)
    {
      ConnectedStep(mx, a, b, n);
    }
  }

  lemma Fewer(all: set<nat>, small: set<nat>, large: set<nat>)
    requires small <= large
    ensures |all - large| <= |all - small|
    ensures (exists x :: x in all && x in large && x !in small) ==> |all - large| < |all - small|
  {
    assert all - small == (all - large) + all * (large - small);
    if x :| x in all && x in large && x !in small {
      assert x in all * (large - small);
    }
  }

  lemma InAll(i: nat)
    ensures i in ALL <==> i < 8
  {
  }

  /** With a line added there is less left to reach. */
  lemma LeftFewer(n: Node, before: Reached, now: Reached)
    requires before.rows <= now.rows && before.cols <= now.cols && !Has(before, n) && Has(now, n)
    ensures Left(now) < Left(before)
  {
    InAll(n.index);
    var all := ALL;
    Fewer(all, before.rows, now.rows);
    Fewer(all, before.cols, now.cols);
  }

  // ---- From no line reached ------------------------------------------------------------------

  ghost function RowsOf(mx: Matrix, n: Node): Mask
    requires WellFormed(mx)
  {
    set r | r in ALL && Connected(mx, n, Row(r))
  }

  ghost function ColumnsOf(mx: Matrix, n: Node): Mask
    requires WellFormed(mx)
  {
    set c | c in ALL && Connected(mx, n, Column(c))
  }

  /** A set of lines that is closed under contacts holds every line connected to one it holds. */
  lemma {:induction false} ClosedHoldsPath(mx: Matrix, v: Reached, p: seq<Node>)
    requires WellFormed(mx) && Path(mx, p) && Has(v, p[0])
    requires forall a, b :: Has(v, a) && Touches(mx, a, b) ==> Has(v, b)
    ensures Has(v, p[|p| - 1])
    decreases |p|
  {
    if |p| > 1 {
      assert Touches(mx, p[0], p[1]);
      assert Path(mx, p[1..]) by {
        forall i | 0 <= i < |p[1..]| - 1 ensures Touches(mx, p[1..][i], p[1..][i + 1]) {
          assert Touches(mx, p[i + 1], p[i + 2]);
        }
      }
      ClosedHoldsPath(mx, v, p[1..]);
    }
  }

  /** Started on empty sets, the solver returns exactly the lines connected to its start. */
  lemma ExploresFromNothing(mx: Matrix, start: Node, after: Reached)
    requires WellFormed(mx) && Explores(mx, start, Reached({}, {}), after)
    ensures after.rows == RowsOf(mx, start) && after.cols == ColumnsOf(mx, start)
  {
    forall n | Connected(mx, start, n)
      ensures Has(after, n)
    {
      var p :| Path(mx, p) && p[0] == start && p[|p| - 1] == n;
      ClosedHoldsPath(mx, after, p);
    }
    forall r | r in after.rows ensures r in RowsOf(mx, start) { assert Has(after, Row(r)); }
    forall c | c in after.cols ensures c in ColumnsOf(mx, start) { assert Has(after, Column(c)); }
    forall r | r in RowsOf(mx, start) ensures r in after.rows { assert Has(after, Row(r)); }
    forall c | c in ColumnsOf(mx, start) ensures c in after.cols { assert Has(after, Column(c)); }
  }

  method ActiveByRow(mx: Matrix, row: nat) returns (rows: Mask, cols: Mask)
    requires WellFormed(mx) && row < 8
    ensures rows == RowsOf(mx, Row(row)) && cols == ColumnsOf(mx, Row(row))
  {
    rows, cols := ActivateRow(mx, row, {}, {});
    ExploresFromNothing(mx, Row(row), Reached(rows, cols));
  }

  method ActiveByColumn(mx: Matrix, column: nat) returns (rows: Mask, cols: Mask)
    requires WellFormed(mx) && column < 8
    ensures rows == RowsOf(mx, Column(column)) && cols == ColumnsOf(mx, Column(column))
  {
    rows, cols := ActivateColumn(mx, column, {}, {});
    ExploresFromNothing(mx, Column(column), Reached(rows, cols));
  }

  // ---- The ports -----------------------------------------------------------------------------

  /** The CIA's port registers and the levels its two ports last drove. */
  datatype Pins = Pins(pra: Mask, ddra: Mask, prb: Mask, ddrb: Mask, oldPa: Mask, oldPb: Mask)

  /** Two or more of the rows in `mask` are connected to `row`. */
  ghost predicate SharesComponent(mx: Matrix, row: nat, mask: Mask)
    requires WellFormed(mx)
  {
    |RowsOf(mx, Row(row)) * mask| >= 2
  }

  /** `ciapb_forcelow`: two driven rows on keys of one component pull a high port B output down.
      `v & (v - 1) != 0` asks for two bits. */
  method ForceLow(mx: Matrix, row: nat, mask: Mask) returns (low: bool)
    requires WellFormed(mx) && row < 8
    ensures low <==> SharesComponent(mx, row, mask)
  {
    var rows, _ := ActiveByRow(mx, row);
    low := |rows * mask| >= 2;
  }

  /** All lines pulled by the first `n` of eight lines, each given what it pulls. */
  ghost function Union(pulls: seq<Mask>, n: nat): Mask
    requires n <= |pulls|
  {
    if n == 0 then {} else Union(pulls, n - 1) + pulls[n - 1]
  }

  ghost function Pulled(pulls: seq<Mask>): Mask { Union(pulls, |pulls|) }

  lemma {:induction false} InUnion(pulls: seq<Mask>, n: nat, x: nat)
    requires n <= |pulls|
    ensures x in Union(pulls, n) <==> exists i :: 0 <= i < n && x in pulls[i]
    decreases n
  {
    if n > 0 {
      InUnion(pulls, n - 1, x);
    }
  }

  /** A driven row `r` that wins against the port B outputs its component touches. */
  ghost predicate Forces(mx: Matrix, p: Pins, r: nat)
    requires WellFormed(mx)
  {
    && r in p.ddra * Not(p.pra)
    && p.ddrb * p.prb * ColumnsOf(mx, Row(r)) != {}
    && SharesComponent(mx, r, p.ddra * Not(p.pra))
  }

  /** The columns each row pulls low: those of its component, when the row itself reads low. */
  ghost function ColumnsByRows(mx: Matrix, high: Mask): (s: seq<Mask>)
    requires WellFormed(mx)
    ensures |s| == 8
  {
    seq(8, r requires 0 <= r < 8 => if r in high then {} else ColumnsOf(mx, Row(r)))
  }

  ghost function ColumnsForced(mx: Matrix, p: Pins, high: Mask): (s: seq<Mask>)
    requires WellFormed(mx)
    ensures |s| == 8
  {
    seq(8, r requires 0 <= r < 8 => if r in high || !Forces(mx, p, r) then {} else ColumnsOf(mx, Row(r)))
  }

  ghost function ColumnsByColumns(mx: Matrix, high: Mask): (s: seq<Mask>)
    requires WellFormed(mx)
    ensures |s| == 8
  {
    seq(8, k requires 0 <= k < 8 => if k in high then {} else ColumnsOf(mx, Column(k)))
  }

  /** What a driven-low column pulls down on port A: its whole component, unless that component
      meets a port B output held high; then only the rows of its own keys. */
  ghost function RowsPulledBy(mx: Matrix, p: Pins, k: nat): Mask
    requires WellFormed(mx) && k < 8
  {
    if ColumnsOf(mx, Column(k)) * p.prb * p.ddrb != {} then mx.revKeyarr[k] else RowsOf(mx, Column(k))
  }

  ghost function RowsByColumns(mx: Matrix, p: Pins, high: Mask): (s: seq<Mask>)
    requires WellFormed(mx)
    ensures |s| == 8
  {
    seq(8, k requires 0 <= k < 8 => if k in high then {} else RowsPulledBy(mx, p, k))
  }

  ghost function RowsByRows(mx: Matrix, high: Mask): (s: seq<Mask>)
    requires WellFormed(mx)
    ensures |s| == 8
  {
    seq(8, r requires 0 <= r < 8 => if r in high then {} else RowsOf(mx, Row(r)))
  }

  /** Port B: inputs and high outputs read what the matrix leaves high; an output driven high stays
      high unless forced; the joystick pulls whatever is left. */
  ghost function PortB(mx: Matrix, p: Pins, joy1: Mask, joy2: Mask): Mask
    requires WellFormed(mx)
  {
    var free := ALL - Pulled(ColumnsByRows(mx, p.oldPa * joy2)) - Pulled(ColumnsByColumns(mx, p.oldPb * joy1));
    var outHigh := p.ddrb * p.prb - Pulled(ColumnsForced(mx, p, p.oldPa * joy2));
    (free * (p.prb + Not(p.ddrb)) + outHigh) * joy1
  }

  ghost function PortA(mx: Matrix, p: Pins, joy1: Mask, joy2: Mask): Mask
    requires WellFormed(mx)
  {
    var free := ALL - Pulled(RowsByColumns(mx, p, p.oldPb * joy1)) - Pulled(RowsByRows(mx, p.oldPa * joy2));
    free * (p.pra + Not(p.ddra)) * joy2
  }

  /** The loop over the rows of `cia1_read_pb`: the columns left high, and the high outputs left. */
  method PullByRows(mx: Matrix, p: Pins, msk: Mask) returns (val: Mask, outHigh: Mask)
    requires WellFormed(mx)
    ensures val == ALL - Pulled(ColumnsByRows(mx, msk))
    ensures outHigh == p.ddrb * p.prb - Pulled(ColumnsForced(mx, p, msk))
  {
    hide ColumnsOf, RowsOf, SharesComponent;
    val, outHigh := ALL, p.ddrb * p.prb;
    ghost var byRows, forced := ColumnsByRows(mx, msk), ColumnsForced(mx, p, msk);
    for i := 0 to 8
      invariant val == ALL - Union(byRows, i)
      invariant outHigh == p.ddrb * p.prb - Union(forced, i)
    {
      assert forced[i] == if i in msk || !Forces(mx, p, i) then {} else ColumnsOf(mx, Row(i));
      if i !in msk {
        var _, tmp := ActiveByRow(mx, i);
        val := val - tmp;
        if i in p.ddra * Not(p.pra) && p.ddrb * p.prb * tmp != {} {
          var low := ForceLow(mx, i, p.ddra * Not(p.pra));
          if low {
            outHigh := outHigh - tmp;
          }
        }
      }
    }
  }

  /** `cia1_read_pb`. */
  method ReadPb(mx: Matrix, p: Pins, joy1: Mask, joy2: Mask) returns (value: Mask)
    requires WellFormed(mx)
    ensures value == PortB(mx, p, joy1, joy2)
    ensures forall c: nat :: c < 8 ==> (c !in value <==> LowOnB(mx, p, joy1, joy2, c))
  {
    hide ColumnsOf, RowsOf, ColumnsByRows, ColumnsForced, LowOnB;
    forall c: nat | c < 8 ensures c !in PortB(mx, p, joy1, joy2) <==> LowOnB(mx, p, joy1, joy2, c) {
      PortBReads(mx, p, joy1, joy2, c);
    }
    var val, outHigh := PullByRows(mx, p, p.oldPa * joy2);
    var msk := p.oldPb * joy1;
    ghost var byRows, byColumns := val, ColumnsByColumns(mx, msk);
    for i := 0 to 8
      invariant val == byRows - Union(byColumns, i)
    {
      if i !in msk {
        var _, tmp := ActiveByColumn(mx, i);
        val := val - tmp;
      }
    }
    value := (val * (p.prb + Not(p.ddrb)) + outHigh) * joy1;
  }

  /** `cia1_read_pa`. */
  method ReadPa(mx: Matrix, p: Pins, joy1: Mask, joy2: Mask) returns (value: Mask)
    requires WellFormed(mx)
    ensures value == PortA(mx, p, joy1, joy2)
    ensures forall r: nat :: r < 8 ==> (r !in value <==> LowOnA(mx, p, joy1, joy2, r))
  {
    hide ColumnsOf, RowsOf, LowOnA;
    forall r: nat | r < 8 ensures r !in PortA(mx, p, joy1, joy2) <==> LowOnA(mx, p, joy1, joy2, r) {
      PortAReads(mx, p, joy1, joy2, r);
    }
    var val: Mask := ALL;
    var msk := p.oldPb * joy1;
    ghost var byColumns := RowsByColumns(mx, p, msk);
    for i := 0 to 8
      invariant val == ALL - Union(byColumns, i)
    {
      if i !in msk {
        var rows, cols := ActiveByColumn(mx, i);
        if cols * p.prb * p.ddrb != {} {
          val := val - mx.revKeyarr[i];
        } else {
          val := val - rows;
        }
      }
    }
    msk := p.oldPa * joy2;
    ghost var byRows := RowsByRows(mx, msk);
    for i := 0 to 8
      invariant val == ALL - Pulled(byColumns) - Union(byRows, i)
    {
      if i !in msk {
        var rows, _ := ActiveByRow(mx, i);
        val := val - rows;
      }
    }
    value := val * (p.pra + Not(p.ddra)) * joy2;
  }

  // ---- What a port reads ---------------------------------------------------------------------

  /** A line is connected to a row that reads low: driven low, or pulled by stick 2. */
  ghost predicate LowByRow(mx: Matrix, p: Pins, joy2: Mask, n: Node)
    requires WellFormed(mx)
  {
    exists r: nat :: r < 8 && !(r in p.oldPa && r in joy2) && Connected(mx, Row(r), n)
  }

  /** A line is connected to a column that reads low: driven low, or pulled by stick 1. */
  ghost predicate LowByColumn(mx: Matrix, p: Pins, joy1: Mask, n: Node)
    requires WellFormed(mx)
  {
    exists k: nat :: k < 8 && !(k in p.oldPb && k in joy1) && Connected(mx, Column(k), n)
  }

  predicate DrivenLow(port: Mask, ddr: Mask, i: nat) { i in ddr && i !in port }

  predicate DrivenHigh(port: Mask, ddr: Mask, i: nat) { i in ddr && i in port }

  /** Another row that port A drives low shares the component of row `r`. */
  ghost predicate Seconded(mx: Matrix, p: Pins, r: nat)
    requires WellFormed(mx)
  {
    exists other: nat :: other < 8 && other != r && DrivenLow(p.pra, p.ddra, other) && Connected(mx, Row(r), Row(other))
  }

  /** Row `r`, reading low and driven low with another row of its component, overdrives column `c` of it. */
  ghost predicate Overdrives(mx: Matrix, p: Pins, joy2: Mask, r: nat, c: nat)
    requires WellFormed(mx)
  {
    && !(r in p.oldPa && r in joy2) && Connected(mx, Row(r), Column(c))
    && DrivenLow(p.pra, p.ddra, r) && Seconded(mx, p, r)
  }

  /** Two different rows that port A drives low are on keys of one component with column `c`, one of them
      reading low at the pin. */
  ghost predicate Overdriven(mx: Matrix, p: Pins, joy2: Mask, c: nat)
    requires WellFormed(mx)
  {
    exists r: nat :: r < 8 && Overdrives(mx, p, joy2, r, c)
  }

  /** When bit `c` of port B reads low: stick 1 pulls it; or it is an output driven low; or it is one driven
      high that is overdriven; or it is an input that some low line of the matrix reaches. */
  ghost predicate LowOnB(mx: Matrix, p: Pins, joy1: Mask, joy2: Mask, c: nat)
    requires WellFormed(mx)
  {
    || c !in joy1
    || DrivenLow(p.prb, p.ddrb, c)
    || (DrivenHigh(p.prb, p.ddrb, c) && Overdriven(mx, p, joy2, c))
    || (c !in p.ddrb && (LowByRow(mx, p, joy2, Column(c)) || LowByColumn(mx, p, joy1, Column(c))))
  }

  /** Column `k` pulls row `r` down: through its component, unless an output of port B held high is part of
      that; then through its own keys only. */
  ghost predicate PullsRow(mx: Matrix, p: Pins, k: nat, r: nat)
    requires WellFormed(mx) && k < 8
  {
    if exists j: nat :: j < 8 && DrivenHigh(p.prb, p.ddrb, j) && Connected(mx, Column(k), Column(j))
    then r in mx.revKeyarr[k]
    else Connected(mx, Column(k), Row(r))
  }

  /** When bit `r` of port A reads low: stick 2 pulls it; or it is an output driven low; or some low column
      pulls it or some low row reaches it, output or not. */
  ghost predicate LowOnA(mx: Matrix, p: Pins, joy1: Mask, joy2: Mask, r: nat)
    requires WellFormed(mx)
  {
    || r !in joy2
    || DrivenLow(p.pra, p.ddra, r)
    || (exists k: nat :: k < 8 && !(k in p.oldPb && k in joy1) && PullsRow(mx, p, k, r))
    || LowByRow(mx, p, joy2, Row(r))
  }

  lemma TwoOf(s: set<nat>, x: nat)
    requires x in s
    ensures |s| >= 2 <==> exists y :: y in s && y != x
  {
    assert s == {x} + (s - {x});
    if y :| y in s && y != x {
      assert y in s - {x};
    } else {
      assert s - {x} == {};
    }
  }

  /** A row driven low wins against the outputs it meets if another one shares its component. */
  lemma ForcesExactly(mx: Matrix, p: Pins, r: nat, c: nat)
    requires WellFormed(mx) && r < 8 && c < 8 && DrivenHigh(p.prb, p.ddrb, c) && Connected(mx, Row(r), Column(c))
    ensures Forces(mx, p, r) <==> DrivenLow(p.pra, p.ddra, r) && Seconded(mx, p, r)
  {
    var low, rows := p.ddra * Not(p.pra), RowsOf(mx, Row(r));
    assert c in p.ddrb * p.prb * ColumnsOf(mx, Row(r));
    assert forall q :: q in rows * low <==> q < 8 && DrivenLow(p.pra, p.ddra, q) && Connected(mx, Row(r), Row(q));
    if DrivenLow(p.pra, p.ddra, r) {
      ConnectedSelf(mx, Row(r));
      hide Connected, ColumnsOf, RowsOf;
      TwoOf(rows * low, r);
    }
  }

  lemma PulledExactly(mx: Matrix, p: Pins, joy1: Mask, joy2: Mask, c: nat)
    requires WellFormed(mx) && c < 8
    ensures c in Pulled(ColumnsByRows(mx, p.oldPa * joy2)) <==> LowByRow(mx, p, joy2, Column(c))
    ensures c in Pulled(ColumnsByColumns(mx, p.oldPb * joy1)) <==> LowByColumn(mx, p, joy1, Column(c))
  {
    PulledByRows(mx, p.oldPa * joy2, c);
    var byColumns := ColumnsByColumns(mx, p.oldPb * joy1);
    InUnion(byColumns, |byColumns|, c);
    if k: nat :| k < 8 && !(k in p.oldPb && k in joy1) && Connected(mx, Column(k), Column(c)) {
      assert c in byColumns[k];
    }
  }

  lemma ForcedBy(mx: Matrix, p: Pins, joy2: Mask, r: nat, c: nat)
    requires WellFormed(mx) && r < 8 && c < 8 && DrivenHigh(p.prb, p.ddrb, c)
    ensures c in ColumnsForced(mx, p, p.oldPa * joy2)[r] <==> Overdrives(mx, p, joy2, r, c)
  {
    InAll(c);
    if Connected(mx, Row(r), Column(c)) {
      ForcesExactly(mx, p, r, c);
    }
    hide Connected, Forces, Seconded;
  }

  lemma ForcedExactly(mx: Matrix, p: Pins, joy2: Mask, c: nat)
    requires WellFormed(mx) && c < 8 && DrivenHigh(p.prb, p.ddrb, c)
    ensures c in Pulled(ColumnsForced(mx, p, p.oldPa * joy2)) <==> Overdriven(mx, p, joy2, c)
  {
    hide Overdrives, ColumnsForced;
    var forced := ColumnsForced(mx, p, p.oldPa * joy2);
    InUnion(forced, |forced|, c);
    forall r: nat | r < 8
      ensures c in forced[r] <==> Overdrives(mx, p, joy2, r, c)
    {
      ForcedBy(mx, p, joy2, r, c);
    }
  }

  /** A forced column is a pulled one. */
  lemma ForcedIsPulled(mx: Matrix, p: Pins, joy2: Mask, c: nat)
    requires WellFormed(mx) && c < 8 && Overdriven(mx, p, joy2, c)
    ensures LowByRow(mx, p, joy2, Column(c))
  {
  }

  /** Port B bit by bit, for every setting of both ports and both sticks. */
  lemma PortBReads(mx: Matrix, p: Pins, joy1: Mask, joy2: Mask, c: nat)
    requires WellFormed(mx) && c < 8
    ensures c !in PortB(mx, p, joy1, joy2) <==> LowOnB(mx, p, joy1, joy2, c)
  {
    hide ColumnsByRows, ColumnsByColumns, ColumnsForced, Pulled, LowByRow, LowByColumn, Overdriven;
    var byRows, byColumns := Pulled(ColumnsByRows(mx, p.oldPa * joy2)), Pulled(ColumnsByColumns(mx, p.oldPb * joy1));
    var forced := Pulled(ColumnsForced(mx, p, p.oldPa * joy2));
    PulledExactly(mx, p, joy1, joy2, c);
    if DrivenHigh(p.prb, p.ddrb, c) {
      ForcedExactly(mx, p, joy2, c);
      if Overdriven(mx, p, joy2, c) {
        ForcedIsPulled(mx, p, joy2, c);
      }
    }
    BitOfB(p, joy1, byRows, byColumns, forced, c);
  }

  /** The port's set arithmetic, one bit of it. */
  lemma BitOfB(p: Pins, joy1: Mask, byRows: Mask, byColumns: Mask, forced: Mask, c: nat)
    requires c < 8
    ensures c in ((ALL - byRows - byColumns) * (p.prb + Not(p.ddrb)) + (p.ddrb * p.prb - forced)) * joy1 <==>
      && c in joy1 && !DrivenLow(p.prb, p.ddrb, c)
      && (if c in p.ddrb then c !in forced || (c !in byRows && c !in byColumns) else c !in byRows && c !in byColumns)
  {
    InAll(c);
  }

  lemma PullsRowExactly(mx: Matrix, p: Pins, k: nat, r: nat)
    requires WellFormed(mx) && k < 8 && r < 8
    ensures r in RowsPulledBy(mx, p, k) <==> PullsRow(mx, p, k, r)
  {
    var met := ColumnsOf(mx, Column(k)) * p.prb * p.ddrb;
    if j: nat :| j < 8 && DrivenHigh(p.prb, p.ddrb, j) && Connected(mx, Column(k), Column(j)) {
      assert j in met;
    }
    if met != {} {
      var j :| j in met;
      assert DrivenHigh(p.prb, p.ddrb, j) && Connected(mx, Column(k), Column(j));
    }
  }

  lemma ReachedByRows(mx: Matrix, p: Pins, joy2: Mask, r: nat)
    requires WellFormed(mx) && r < 8
    ensures r in Pulled(RowsByRows(mx, p.oldPa * joy2)) <==> LowByRow(mx, p, joy2, Row(r))
  {
    var byRows := RowsByRows(mx, p.oldPa * joy2);
    InUnion(byRows, |byRows|, r);
    if q: nat :| q < 8 && !(q in p.oldPa && q in joy2) && Connected(mx, Row(q), Row(r)) {
      assert r in byRows[q];
    }
  }

  /** Port A bit by bit. */
  lemma PortAReads(mx: Matrix, p: Pins, joy1: Mask, joy2: Mask, r: nat)
    requires WellFormed(mx) && r < 8
    ensures r !in PortA(mx, p, joy1, joy2) <==> LowOnA(mx, p, joy1, joy2, r)
  {
    hide RowsPulledBy, PullsRow, RowsByColumns, RowsByRows, Pulled, LowByRow;
    PulledByColumns(mx, p, p.oldPb * joy1, r);
    forall k: nat | k < 8
      ensures r in RowsPulledBy(mx, p, k) <==> PullsRow(mx, p, k, r)
    {
      PullsRowExactly(mx, p, k, r);
    }
    ReachedByRows(mx, p, joy2, r);
    InAll(r);
  }

  // ---- What a scan reads ---------------------------------------------------------------------

  lemma PulledByRows(mx: Matrix, high: Mask, c: nat)
    requires WellFormed(mx) && c < 8
    ensures c in Pulled(ColumnsByRows(mx, high)) <==>
      exists r: nat :: r < 8 && r !in high && Connected(mx, Row(r), Column(c))
  {
    var byRows := ColumnsByRows(mx, high);
    InUnion(byRows, |byRows|, c);
    if r: nat :| r < 8 && r !in high && Connected(mx, Row(r), Column(c)) {
      assert c in byRows[r];
    }
  }

  /** The KERNAL's scan: with port B all input and no joystick, a port B bit reads low exactly when
      its column is connected to a row that port A drives low. */
  lemma ScanReadsComponents(mx: Matrix, p: Pins, c: nat)
    requires WellFormed(mx) && c < 8 && p.ddrb == {} && p.oldPb == ALL
    ensures c !in PortB(mx, p, ALL, ALL) <==>
      exists r: nat :: r < 8 && r !in p.oldPa && Connected(mx, Row(r), Column(c))
  {
    assert p.oldPa * ALL == p.oldPa && p.oldPb * ALL == ALL;
    PulledByRows(mx, p.oldPa, c);
    var byRows, byColumns := Pulled(ColumnsByRows(mx, p.oldPa)), ColumnsByColumns(mx, ALL);
    assert c !in Pulled(byColumns) by {
      InUnion(byColumns, |byColumns|, c);
    }
    hide ColumnsByRows, ColumnsByColumns, Pulled, ColumnsForced, Connected;
    var free := ALL - byRows - Pulled(byColumns);
    assert c in free <==> c !in byRows;
    assert p.ddrb * p.prb == {} && p.prb + Not(p.ddrb) == ALL;
  }

  lemma PulledByColumns(mx: Matrix, p: Pins, high: Mask, r: nat)
    requires WellFormed(mx) && r < 8
    ensures r in Pulled(RowsByColumns(mx, p, high)) <==>
      exists k: nat :: k < 8 && k !in high && r in RowsPulledBy(mx, p, k)
  {
    hide RowsPulledBy;
    var byColumns := RowsByColumns(mx, p, high);
    InUnion(byColumns, |byColumns|, r);
    if k: nat :| k < 8 && k !in high && r in RowsPulledBy(mx, p, k) {
      assert r in byColumns[k];
    }
  }

  /** The scan the other way: with port A all input and no joystick, a port A bit reads low exactly
      when it is connected to a column that port B drives low; but if a port B output held high
      shares that component, only the keys of the driven column itself count. */
  lemma ReverseScanReadsComponents(mx: Matrix, p: Pins, r: nat)
    requires WellFormed(mx) && r < 8 && p.ddra == {} && p.oldPa == ALL
    ensures r !in PortA(mx, p, ALL, ALL) <==>
      exists k: nat :: k < 8 && k !in p.oldPb && r in RowsPulledBy(mx, p, k)
  {
    PulledByColumns(mx, p, p.oldPb * ALL, r);
    var byRows := RowsByRows(mx, p.oldPa * ALL);
    InUnion(byRows, |byRows|, r);
    hide RowsPulledBy, RowsByColumns, Pulled, Union;
  }

  /** Ghost keys are only ever removed: what a column pulls by its own keys it also connects. */
  lemma DirectKeysAreConnected(mx: Matrix, p: Pins, k: nat)
    requires WellFormed(mx) && k < 8
    ensures RowsPulledBy(mx, p, k) <= RowsOf(mx, Column(k))
  {
    forall r | r in mx.revKeyarr[k]
      ensures r in RowsOf(mx, Column(k))
    {
      ConnectedSelf(mx, Row(r));
      ConnectedStep(mx, Column(k), Row(r), Row(r));
    }
  }

  /** Three keys on the corners of a rectangle connect the fourth corner: the ghost key. */
  lemma GhostKey(mx: Matrix, r: nat, r': nat, c: nat, c': nat)
    requires WellFormed(mx) && Transposed(mx) && r < 8 && r' < 8 && c < 8 && c' < 8
    requires c in mx.keyarr[r] && c in mx.keyarr[r'] && c' in mx.keyarr[r']
    ensures Connected(mx, Row(r), Column(c')) && Connected(mx, Column(c'), Row(r))
  {
    ConnectedSelf(mx, Column(c'));
    ConnectedStep(mx, Row(r'), Column(c'), Column(c'));
    ConnectedStep(mx, Column(c), Row(r'), Column(c'));
    ConnectedStep(mx, Row(r), Column(c), Column(c'));
    ConnectedSymmetric(mx, Row(r), Column(c'));
  }
}
