/** Where in its cell a sub-cell lies: the squares a dense cell is divided into, which one a
    viewer's walk opens first, and what that one holds. */
module SubCells {
  import opened Numbers
  import opened Config
  import opened CountingSort
  import opened Snapshot
  import opened Ordering
  import opened Gather
  import opened GatherExact

  /** A cell of `axis` by `axis` sub-cells. */
  ghost predicate Divides(cfg: WorldConfig, axis: nat) {
    cfg.Valid() && PowerOfTwo(axis) && TrailingZeros(axis) <= cfg.grid.cellShift
  }

  /** How far a sub-cell reaches along an axis. */
  function Side(cfg: WorldConfig, axis: nat): nat
    requires axis > 0
  {
    cfg.cellSize / axis
  }

  /** An offset is in the `i`th stretch of `side` along an axis. */
  predicate InStretch(d: int, side: nat, i: nat) {
    i * side <= d < i * side + side
  }

  /** How far an offset is from the `i`th stretch of `side` along an axis. */
  function Gap(d: int, side: nat, i: nat): nat {
    if d < i * side then i * side - d
    else if d >= i * side + side then d - (i * side + side) + 1
    else 0
  }

  /** A position lies in the sub-cell of its cell `i` along x and `j` along y. */
  predicate LiesIn(cfg: WorldConfig, axis: nat, x: i32, y: i32, i: nat, j: nat)
    requires axis > 0 && cfg.grid.cellsPerAxis >= 1
  {
    var cell, side := cfg.CellOf(x, y), Side(cfg, axis);
    InStretch(x - cell.x * cfg.cellSize, side, i) && InStretch(y - cell.y * cfg.cellSize, side, j)
  }

  lemma {:induction false} SideIs(cfg: WorldConfig, axis: nat)
    requires Divides(cfg, axis)
    ensures Side(cfg, axis) == Pow2(cfg.grid.cellShift - TrailingZeros(axis))
    ensures axis * Side(cfg, axis) == cfg.cellSize
  {
    Quotient(cfg.grid.cellShift, TrailingZeros(axis));
  }

  lemma {:induction false} Quotient(h: nat, k: nat)
    requires k <= h
    ensures Pow2(h) / Pow2(k) == Pow2(h - k) && Pow2(k) * Pow2(h - k) == Pow2(h)
  {
    Pow2Add(k, h - k);
    ExactQuotient(Pow2(k), Pow2(h - k));
  }

  /** A coordinate's offset in its cell is what the mask leaves of it. */
  lemma {:induction false} MaskIsOffset(cfg: WorldConfig, v: i32)
    requires cfg.Valid() && 0 <= v < cfg.regionSize
    ensures And(AsWord(v), cfg.grid.cellMask) == v - cfg.AxisToCell(v) * cfg.cellSize
  {
    CellHolds(cfg, v);
    AndMask(v, cfg.grid.cellShift);
    RemainderUnique(v, cfg.cellSize, cfg.AxisToCell(v), v - cfg.AxisToCell(v) * cfg.cellSize);
  }

  /** Only one stretch holds an offset. */
  lemma {:induction false} StretchIsOne(d: int, side: nat, i: nat, j: nat)
    requires InStretch(d, side, i) && InStretch(d, side, j)
    ensures i == j
  {
    if i < j {
      MulLe(i + 1, j, side);
    } else if j < i {
      MulLe(j + 1, i, side);
    }
  }

  /** A shift finds the stretch an offset is in. */
  lemma {:induction false} ShiftIsStretch(cfg: WorldConfig, axis: nat, v: i32) returns (i: nat)
    requires Divides(cfg, axis) && 0 <= v < cfg.regionSize
    ensures i == Shr(And(AsWord(v), cfg.grid.cellMask), cfg.grid.cellShift - TrailingZeros(axis)) < axis
    ensures InStretch(v - cfg.AxisToCell(v) * cfg.cellSize, Side(cfg, axis), i)
  {
    i := Shr(And(AsWord(v), cfg.grid.cellMask), cfg.grid.cellShift - TrailingZeros(axis));
    MaskIsOffset(cfg, v);
    SideIs(cfg, axis);
    SubOffsetBelow(cfg, axis, v);
    ShrStretches(And(AsWord(v), cfg.grid.cellMask), cfg.grid.cellShift - TrailingZeros(axis));
  }

  lemma {:induction false} ShrStretches(d: nat, k: nat)
    ensures InStretch(d, Pow2(k), Shr(d, k))
  {
    ShrBounds(d, k);
  }

  /** A row's sub-cell is the square of its cell it lies in, and no other. */
  lemma {:induction false} SubKeyIs(cfg: WorldConfig, axis: nat, row: Row, i: nat, j: nat)
    requires Divides(cfg, axis) && cfg.Contains2d(row.x, row.y) && i < axis
    ensures SubKey(cfg, axis)(row) == j * axis + i <==> LiesIn(cfg, axis, row.x, row.y, i, j)
  {
    var ox := ShiftIsStretch(cfg, axis, row.x);
    var oy := ShiftIsStretch(cfg, axis, row.y);
    IndexIsOne(axis, i, j, ox, oy);
    if LiesIn(cfg, axis, row.x, row.y, i, j) {
      StretchIsOne(row.x - cfg.AxisToCell(row.x) * cfg.cellSize, Side(cfg, axis), ox, i);
      StretchIsOne(row.y - cfg.AxisToCell(row.y) * cfg.cellSize, Side(cfg, axis), oy, j);
    }
  }

  lemma {:induction false} IndexIsOne(axis: nat, i: nat, j: nat, ox: nat, oy: nat)
    requires i < axis && ox < axis
    ensures j * axis + i == oy * axis + ox ==> i == ox && j == oy
  {
    if j * axis + i == oy * axis + ox {
      RemainderUnique(j * axis + i, axis, j, i);
      RemainderUnique(j * axis + i, axis, oy, ox);
    }
  }

  // ----- the sub-cell a viewer's walk opens first -----

  /** How far a viewer is from a sub-cell of a cell, squared. */
  function Away(cfg: WorldConfig, axis: nat, cx: nat, cy: nat, viewer: Pos3, i: nat, j: nat): nat
    requires axis > 0
  {
    var dx, dy := viewer.x - cx * cfg.cellSize, viewer.y - cy * cfg.cellSize;
    Sq(Gap(dx, Side(cfg, axis), i)) + Sq(Gap(dy, Side(cfg, axis), j))
  }

  lemma {:induction false} ArithShrBounds(v: int, k: nat) returns (q: int)
    ensures q == ArithShr(v, k) && q * Pow2(k) <= v < q * Pow2(k) + Pow2(k)
  {
    q := ArithShr(v, k);
    if v >= 0 {
      ShrBounds(v, k);
    } else {
      ShrBounds(-1 - v, k);
      var r: int, side: int := Shr(-1 - v, k), Pow2(k);
      assert (-1 - r) * side == -side - side * r;
    }
  }

  /** The stretch a shift names, brought into range, is the nearest there is. */
  lemma {:induction false} ClampedIsNearest(d: int, k: nat, axis: nat, i: nat)
    requires axis > 0 && i < axis
    ensures var own := Max(0, Min(ArithShr(d, k), axis - 1));
      own != i ==> Gap(d, Pow2(k), own) < Gap(d, Pow2(k), i)
  {
    var q := ArithShrBounds(d, k);
    NearestStretch(d, Pow2(k), q, axis, i);
  }

  lemma {:induction false} NearestStretch(d: int, side: nat, q: int, axis: nat, i: nat)
    requires 0 < side && i < axis && q * side <= d < q * side + side
    ensures var own := Max(0, Min(q, axis - 1));
      own != i ==> Gap(d, side, own) < Gap(d, side, i)
  {
    if q < 0 {
      StretchesApart(q, 0, side);
      if i > 0 {
        StretchesApart(0, i, side);
      }
    } else if q < axis {
      if i < q {
        StretchesApart(i, q, side);
      } else if q < i {
        StretchesApart(q, i, side);
      }
    } else {
      StretchesApart(axis - 1, q, side);
      if i < axis - 1 {
        StretchesApart(i, axis - 1, side);
      }
    }
  }

  lemma {:induction false} StretchesApart(a: int, b: int, side: nat)
    requires a < b
    ensures a * side + side <= b * side
  {
    MulLe(a + 1, b, side);
  }

  lemma {:induction false} SquaresGrow(a: nat, b: nat)
    ensures a <= b ==> Sq(a) <= Sq(b)
    ensures a < b ==> Sq(a) < Sq(b)
  {
    if a <= b {
      MulLe(a, b, a);
      MulLe(a, b, b);
    }
    if a < b {
      MulLe(a + 1, b, b);
      MulLe(a, b, a);
    }
  }

  /** The sub-cell whose visit order a walk takes is the one nearest the viewer, strictly. */
  lemma {:induction false} OriginIsNearest(cfg: WorldConfig, axis: nat, cx: nat, cy: nat, viewer: Pos3)
    returns (ox: nat, oy: nat)
    requires Divides(cfg, axis)
    ensures Origin(cfg, axis, cx, cy, viewer) == oy * axis + ox && ox < axis && oy < axis
    ensures forall i: nat, j: nat :: i < axis && j < axis && (i != ox || j != oy) ==>
      Away(cfg, axis, cx, cy, viewer, ox, oy) < Away(cfg, axis, cx, cy, viewer, i, j)
  {
    var k := cfg.grid.cellShift - TrailingZeros(axis);
    var dx, dy := viewer.x - cx * cfg.cellSize, viewer.y - cy * cfg.cellSize;
    ox, oy := Max(0, Min(ArithShr(dx, k), axis - 1)), Max(0, Min(ArithShr(dy, k), axis - 1));
    SideIs(cfg, axis);
    forall i: nat, j: nat | i < axis && j < axis && (i != ox || j != oy)
      ensures Away(cfg, axis, cx, cy, viewer, ox, oy) < Away(cfg, axis, cx, cy, viewer, i, j)
    {
      ClampedIsNearest(dx, k, axis, i);
      ClampedIsNearest(dy, k, axis, j);
      SquaresGrow(Gap(dx, Pow2(k), ox), Gap(dx, Pow2(k), i));
      SquaresGrow(Gap(dy, Pow2(k), oy), Gap(dy, Pow2(k), j));
    }
  }

  lemma {:induction false} FarFromOrigin(axis: nat, ox: nat, oy: nat, b: nat)
    requires ox < axis
    ensures SubFar(axis, ox, oy)(b) == 0 <==> b == oy * axis + ox
  {
    SquareOfNone(b % axis - ox);
    SquareOfNone(b / axis - oy);
    if b == oy * axis + ox {
      RemainderUnique(b, axis, oy, ox);
    }
    if b % axis == ox && b / axis == oy {
      assert b == axis * (b / axis) + b % axis;
    }
  }

  /** A visit order opens with its own origin. */
  lemma {:induction false} OriginLeads(order: seq<nat>, axis: nat, ox: nat, oy: nat)
    requires ox < axis && oy < axis && SubOrder(order, axis, ox, oy)
    ensures order != [] && order[0] == oy * axis + ox
  {
    var o, far := oy * axis + ox, SubFar(axis, ox, oy);
    RowMajorBelow(ox, oy, axis);
    assert o in order;
    var k :| 0 <= k < |order| && order[k] == o;
    assert k > 0 ==> far(order[0]) <= far(order[k]);
    FarFromOrigin(axis, ox, oy, o);
    FarFromOrigin(axis, ox, oy, order[0]);
  }

  lemma {:induction false} SquareOfNone(n: int)
    ensures Sq(n) == 0 <==> n == 0
  {
    if n != 0 {
      MulLe(1, Numbers.Abs(n), Numbers.Abs(n));
    }
  }

  /** A walk takes the viewer's own cell first, and of two others the one fewer cells away. */
  lemma {:induction false} OwnCellFirst(order: seq<Offset>, r: nat, i: nat, j: nat)
    requires CellOrder(order, r) && i < j < |order|
    ensures order[0] == (0, 0)
    ensures order[i].0 * order[i].0 + order[i].1 * order[i].1 <= order[j].0 * order[j].0 + order[j].1 * order[j].1
  {
    var own: Offset := (0, 0);
    assert own in order;
    var k :| 0 <= k < |order| && order[k] == own;
    assert k > 0 ==> OffsetFar(order[0]) <= OffsetFar(order[k]);
    assert OffsetFar(own) == Sq(0) + Sq(0) == 0;
    SquareOfNone(order[0].0);
    SquareOfNone(order[0].1);
    assert OffsetFar(order[i]) <= OffsetFar(order[j]);
    SquareIs(order[i].0);
    SquareIs(order[i].1);
    SquareIs(order[j].0);
    SquareIs(order[j].1);
  }

  // ----- what a sub-cell holds -----

  /** A run holds exactly the live rows that lie in one sub-cell of `cell`. */
  ghost predicate HoldsPart(f: Frozen, all: seq<Row>, cell: CellCoord, i: nat, j: nat, run: Run)
    requires f.subAxis > 0 && f.cfg.grid.cellsPerAxis >= 1
  {
    && run.lo <= run.hi <= |f.rows|
    && forall r :: r in f.rows[run.lo..run.hi] <==>
         r in all && f.cfg.CellOf(r.x, r.y) == cell && LiesIn(f.cfg, f.subAxis, r.x, r.y, i, j)
  }

  /** A cell of the grid that is divided. */
  ghost predicate IsDivided(f: Frozen, cell: CellCoord) {
    && cell.x < f.cfg.grid.cellsPerAxis && cell.y < f.cfg.grid.cellsPerAxis
    && f.cfg.CellId(cell) < |f.divisions| && f.divisions[f.cfg.CellId(cell)].Divided?
  }

  /** Each part of a divided cell holds exactly the live rows that lie in that square of it. */
  lemma {:induction false} SubCellIsSquare(f: Frozen, all: seq<Row>, cell: CellCoord, i: nat, j: nat)
    requires Snaps(f, all) && IsDivided(f, cell) && i < f.subAxis && j < f.subAxis
    ensures var base := f.divisions[f.cfg.CellId(cell)].base;
      && base + (j * f.subAxis + i) + 1 < |f.subStarts|
      && HoldsPart(f, all, cell, i, j, RunAt(f.subStarts, base, j * f.subAxis + i))
  {
    var c, b := f.cfg.CellId(cell), j * f.subAxis + i;
    var cellKey, subKey, buckets := CellKey(f.cfg), SubKey(f.cfg, f.subAxis), f.subAxis * f.subAxis;
    var base := f.divisions[c].base;
    RowMajorBelow(i, j, f.subAxis);
    assert CellAt(f.rows, f.starts, f.divisions, f.subStarts, all, cellKey, subKey, buckets, c);
    SubCellRows(f.rows, f.subStarts, base, f.starts[c], Keyed(all, cellKey, c), subKey, buckets, b);
    var run := RunAt(f.subStarts, base, b);
    forall r
      ensures r in f.rows[run.lo..run.hi] <==>
        r in all && f.cfg.CellOf(r.x, r.y) == cell && LiesIn(f.cfg, f.subAxis, r.x, r.y, i, j)
    {
      KeyedHolds(all, cellKey, c, r);
      IdsTellCells(f.cfg, cell, r.x, r.y);
      if r in all {
        var k :| 0 <= k < |all| && all[k] == r;
        SubKeyIs(f.cfg, f.subAxis, r, i, j);
      }
    }
  }

  /** In a divided cell a walk opens first the sub-cell nearest the viewer, and finds there
      exactly the rows that lie in it; a viewer that stands in the cell stands in that one. */
  lemma {:induction false} NearestSubCellFirst(f: Frozen, all: seq<Row>, cell: CellCoord, viewer: Pos3)
    returns (ox: nat, oy: nat)
    requires Snaps(f, all) && Walkable(f) && IsDivided(f, cell)
    ensures ox < f.subAxis && oy < f.subAxis
    ensures forall i: nat, j: nat :: i < f.subAxis && j < f.subAxis && (i != ox || j != oy) ==>
      Away(f.cfg, f.subAxis, cell.x, cell.y, viewer, ox, oy) < Away(f.cfg, f.subAxis, cell.x, cell.y, viewer, i, j)
    ensures var runs := CellRuns(f, f.cfg.CellId(cell), Origin(f.cfg, f.subAxis, cell.x, cell.y, viewer));
      |runs| > 0 && HoldsPart(f, all, cell, ox, oy, runs[0])
    ensures f.cfg.Contains2d(viewer.x, viewer.y) && f.cfg.CellOf(viewer.x, viewer.y) == cell ==>
      LiesIn(f.cfg, f.subAxis, viewer.x, viewer.y, ox, oy)
  {
    ox, oy := OriginIsNearest(f.cfg, f.subAxis, cell.x, cell.y, viewer);
    var o, base := oy * f.subAxis + ox, f.divisions[f.cfg.CellId(cell)].base;
    SubCellIsSquare(f, all, cell, ox, oy);
    RemainderUnique(o, f.subAxis, oy, ox);
    assert OrderAt(f.subOrder, f.subAxis, o);
    OriginLeads(f.subOrder[o], f.subAxis, ox, oy);
    OrderFits(f, f.cfg.CellId(cell), o);
    SubRunsLead(f.subStarts, base, f.subOrder[o]);
    if f.cfg.Contains2d(viewer.x, viewer.y) && f.cfg.CellOf(viewer.x, viewer.y) == cell {
      OwnSubCell(f.cfg, f.subAxis, viewer, ox, oy);
    }
  }

  /** A viewer in the cell stands in the sub-cell its order starts from. */
  lemma {:induction false} OwnSubCell(cfg: WorldConfig, axis: nat, viewer: Pos3, ox: nat, oy: nat)
    requires Divides(cfg, axis) && cfg.Contains2d(viewer.x, viewer.y) && ox < axis
    requires var cell := cfg.CellOf(viewer.x, viewer.y); Origin(cfg, axis, cell.x, cell.y, viewer) == oy * axis + ox
    ensures LiesIn(cfg, axis, viewer.x, viewer.y, ox, oy)
  {
    var cell, k := cfg.CellOf(viewer.x, viewer.y), cfg.grid.cellShift - TrailingZeros(axis);
    SideIs(cfg, axis);
    CellHolds(cfg, viewer.x);
    CellHolds(cfg, viewer.y);
    StretchInRange(viewer.x - cell.x * cfg.cellSize, k, axis);
    StretchInRange(viewer.y - cell.y * cfg.cellSize, k, axis);
    IndexIsOne(axis, ox, oy, ArithShr(viewer.x - cell.x * cfg.cellSize, k),
               ArithShr(viewer.y - cell.y * cfg.cellSize, k));
  }

  lemma {:induction false} StretchInRange(d: nat, k: nat, axis: nat)
    requires d < axis * Pow2(k)
    ensures 0 <= ArithShr(d, k) < axis && InStretch(d, Pow2(k), ArithShr(d, k))
  {
    var q := ArithShrBounds(d, k);
    if q >= axis {
      MulLe(axis, q, Pow2(k));
    }
  }

  lemma {:induction false} SubRunsLead(subStarts: seq<nat>, base: nat, order: seq<nat>)
    requires order != [] && forall k :: 0 <= k < |order| ==> base + order[k] + 1 < |subStarts|
    ensures SubRuns(subStarts, base, order)[0] == RunAt(subStarts, base, order[0])
  {
    if |order| > 1 {
      SubRunsLead(subStarts, base, order[..|order| - 1]);
    }
  }
}
