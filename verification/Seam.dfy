/** The neighbouring squares a view reaches into, and a point of each that sees as much of it. */
module Seam {
  import opened Numbers
  import opened Config
  import opened CountingSort
  import opened Snapshot
  import opened Gather
  import opened GatherExact
  import opened WorldFrame

  /** Lists, each once, the neighbours that `SeesInto` holds of. */
  method SquaresInView(cfg: WorldConfig, square: Placement, local: Pos3) returns (out: seq<Placement>)
    requires cfg.Valid() && Inland(square)
    ensures forall s :: s in out <==> SeesInto(cfg, square, local, s)
    ensures forall i, j :: 0 <= i < j < |out| ==> out[i] != out[j]
  {
    var c := cfg.CellOf(local.x, local.y);
    var r, last := cfg.grid.cellRadius, cfg.grid.cellsPerAxis - 1;
    var east, west := c.x + r > last, c.x - r < 0;
    var north, south := c.y + r > last, c.y - r < 0;
    var col, row := square.col, square.row;
    out := [];
    if east { out := out + [Placement(col + 1, row)]; }
    if west { out := out + [Placement(col - 1, row)]; }
    if north { out := out + [Placement(col, row + 1)]; }
    if south { out := out + [Placement(col, row - 1)]; }
    if east && north { out := out + [Placement(col + 1, row + 1)]; }
    if east && south { out := out + [Placement(col + 1, row - 1)]; }
    if west && north { out := out + [Placement(col - 1, row + 1)]; }
    if west && south { out := out + [Placement(col - 1, row - 1)]; }
  }

  /** A square whose neighbours can all be named. */
  predicate Inland(s: Placement) {
    -0x8000_0000 < s.col < 0x7FFF_FFFF && -0x8000_0000 < s.row < 0x7FFF_FFFF
  }

  /** The view's cells reach past the region by `step` squares on one axis. */
  predicate AxisReaches(cfg: WorldConfig, v: i32, step: int)
    requires cfg.grid.cellsPerAxis >= 1
  {
    || step == 0
    || (step == 1 && cfg.AxisToCell(v) + cfg.grid.cellRadius > cfg.grid.cellsPerAxis - 1)
    || (step == -1 && cfg.AxisToCell(v) - cfg.grid.cellRadius < 0)
  }

  predicate SeesInto(cfg: WorldConfig, square: Placement, local: Pos3, s: Placement)
    requires cfg.grid.cellsPerAxis >= 1
  {
    s != square && AxisReaches(cfg, local.x, s.col - square.col) && AxisReaches(cfg, local.y, s.row - square.row)
  }

  /** A world position in a neighbour's own numbers, brought inside its box. */
  function ShadowPoint(cfg: WorldConfig, owner: WorldPos, neighbor: Placement): Option<Pos3>
    requires 0 < cfg.regionSize < 0x8000_0000 && 0 < cfg.verticalExtent < 0x8000_0000
  {
    match ToLocal(owner, neighbor, cfg.regionSize)
    case Some(at) => Some(cfg.Clamp(at))
    case None => None
  }

  function WorldFlatSq(a: WorldPos, b: WorldPos): nat {
    Sq(a.x - b.x) + Sq(a.y - b.y)
  }

  lemma {:induction false} LargerSquare(a: nat, b: nat)
    requires a > b
    ensures a * a > b * b
  {
    MulLe(b + 1, a, a);
    MulLe(b, a, b);
  }

  lemma {:induction false} SquaresCompare(a: int, b: nat)
    requires Sq(a) <= Sq(b)
    ensures Numbers.Abs(a) <= b
  {
    if Numbers.Abs(a) > b {
      LargerSquare(Numbers.Abs(a), b);
    }
  }

  lemma {:induction false} SquaresGrow(a: int, b: int)
    requires Numbers.Abs(a) <= Numbers.Abs(b)
    ensures Sq(a) <= Sq(b)
  {
    MulLe(Numbers.Abs(a), Numbers.Abs(b), Numbers.Abs(a));
    MulLe(Numbers.Abs(a), Numbers.Abs(b), Numbers.Abs(b));
  }

  lemma {:induction false} RegionIsBounded(cfg: WorldConfig)
    requires cfg.Valid()
    ensures cfg.regionSize <= MAX_REGION && 0 < cfg.verticalExtent
  {
    Pow2Of32();
    assert Pow2(32) == 2 * Pow2(31) == 4 * Pow2(30);
    if cfg.horizontalBits >= 31 {
      Pow2Monotone(31, cfg.horizontalBits);
    } else {
      Pow2Monotone(cfg.horizontalBits, 30);
    }
  }

  /** A point within `r` cells of the far side is in a cell that reaches past it. */
  lemma {:induction false} ReachesFar(v: nat, c: nat, r: nat, n: nat, cell: nat)
    requires v < (c + 1) * cell && n * cell - v <= r * cell
    ensures c + r >= n
  {
    if c + r < n {
      MulLe(c + 1 + r, n, cell);
    }
  }

  lemma {:induction false} ReachesNear(v: nat, c: nat, r: nat, cell: nat)
    requires c * cell <= v < r * cell
    ensures c < r
  {
    if c >= r {
      MulLe(r, c, cell);
    }
  }

  lemma {:induction false} FarSquare(step: int, size: nat, v: nat, w: nat)
    requires v < size && w < size && Numbers.Abs(v - (step * size + w)) <= size
    ensures -1 <= step <= 1
  {
    if step >= 2 {
      MulLe(2, step, size);
    } else if step <= -2 {
      MulLe(step, -2, size);
    }
  }

  lemma {:induction false} AxisReachesIn(v: nat, w: nat, step: int, c: nat, r: nat, n: nat, cell: nat, radius: nat)
    requires v < n * cell && w < n * cell && c * cell <= v < c * cell + cell
    requires Numbers.Abs(v - (step * (n * cell) + w)) <= radius <= r * cell && radius <= n * cell
    ensures step == 0 || (step == 1 && c + r >= n) || (step == -1 && c < r)
  {
    FarSquare(step, n * cell, v, w);
    if step == 1 {
      ReachesFar(v, c, r, n, cell);
    } else if step == -1 {
      ReachesNear(v, c, r, cell);
    }
  }

  /** On one axis: something in view in a square `step` away is at most one square away,
      on a side the view's cells reach past. */
  lemma {:induction false} AxisCovers(cfg: WorldConfig, v: i32, w: i32, step: int)
    requires cfg.Valid() && 0 <= v < cfg.regionSize && 0 <= w < cfg.regionSize
    requires Numbers.Abs(v - (step * cfg.regionSize + w)) <= cfg.viewRadius
    ensures -1 <= step <= 1 && AxisReaches(cfg, v, step)
  {
    CellHolds(cfg, v);
    AxisReachesIn(v, w, step, cfg.AxisToCell(v), cfg.grid.cellRadius, cfg.grid.cellsPerAxis, cfg.cellSize,
        cfg.viewRadius);
  }

  /** On one axis, holding a point inside a box brings it no further from anything in it. */
  lemma {:induction false} ClampNears(v: i32, w: i32, top: i32)
    requires 0 <= w <= top
    ensures 0 <= ClampRaw(v, top) <= top
    ensures Numbers.Abs(ClampRaw(v, top) - w) <= Numbers.Abs(v - w)
  {
  }

  /** Held inside a region's box, a point comes no further from anything in it. */
  lemma {:induction false} ClampedNears(cfg: WorldConfig, at: Pos3, e: Pos3)
    requires cfg.Valid() && cfg.verticalExtent > 0 && cfg.Contains2d(e.x, e.y)
    ensures cfg.Contains(cfg.Clamp(at))
    ensures Sq(cfg.Clamp(at).x - e.x) + Sq(cfg.Clamp(at).y - e.y) <= Sq(at.x - e.x) + Sq(at.y - e.y)
  {
    ClampNears(at.x, e.x, cfg.regionSize - 1);
    ClampNears(at.y, e.y, cfg.regionSize - 1);
    SquaresGrow(cfg.Clamp(at).x - e.x, at.x - e.x);
    SquaresGrow(cfg.Clamp(at).y - e.y, at.y - e.y);
  }

  /** What is in view on the plane is in view on each axis. */
  lemma {:induction false} InViewOnAxes(a: WorldPos, b: WorldPos, radius: nat)
    requires WorldFlatSq(a, b) <= Sq(radius)
    ensures Numbers.Abs(a.x - b.x) <= radius && Numbers.Abs(a.y - b.y) <= radius
  {
    SquaresCompare(a.x - b.x, radius);
    SquaresCompare(a.y - b.y, radius);
  }

  /** Per axis: the squares between, and the same point seen from the other square. */
  lemma {:induction false} SeenAcross(cfg: WorldConfig, c: i32, d: i32, v: i32, w: i32)
    requires cfg.Valid() && cfg.regionSize <= MAX_REGION
    requires 0 <= v < cfg.regionSize && 0 <= w < cfg.regionSize
    requires Numbers.Abs((c * cfg.regionSize + v) - (d * cfg.regionSize + w)) <= cfg.viewRadius
    ensures -1 <= d - c <= 1 && AxisReaches(cfg, v, d - c)
    ensures Fits((c * cfg.regionSize + v) - d * cfg.regionSize)
  {
    ApartBySquares(c, d, cfg.regionSize, v, w);
    AxisCovers(cfg, v, w, d - c);
    StepFits(d - c, cfg.regionSize, v);
  }

  /** An entity of another square within view of an observer is in a square the observer
      sees into, and within view of its shadow there. */
  lemma {:induction false} ViewCrossesSeam(cfg: WorldConfig, square: Placement, local: Pos3, other: Placement, e: Pos3)
    requires cfg.Valid() && cfg.regionSize <= MAX_REGION && cfg.verticalExtent > 0
    requires cfg.Contains(local) && cfg.Contains2d(e.x, e.y) && other != square
    requires WorldFlatSq(FromLocal(local, square, cfg.regionSize),
        FromLocal(e, other, cfg.regionSize)) <= Sq(cfg.viewRadius)
    ensures SeesInto(cfg, square, local, other)
    ensures var p := ShadowPoint(cfg, FromLocal(local, square, cfg.regionSize), other);
      p.Some? && cfg.Contains(p.value) && Sq(p.value.x - e.x) + Sq(p.value.y - e.y) <= Sq(cfg.viewRadius)
  {
    var size: nat := cfg.regionSize;
    var a, b := FromLocal(local, square, size), FromLocal(e, other, size);
    InViewOnAxes(a, b, cfg.viewRadius);
    SeenAcross(cfg, square.col, other.col, local.x, e.x);
    SeenAcross(cfg, square.row, other.row, local.y, e.y);
    var x, y := a.x - other.col * size, a.y - other.row * size;
    assert x - e.x == a.x - b.x && y - e.y == a.y - b.y;
    ClampedNears(cfg, Pos3(x, y, local.z), e);
  }

  /** World positions differ by the squares between them and the local difference. */
  lemma {:induction false} ApartBySquares(c: i32, d: i32, size: nat, v: i32, w: i32)
    ensures (c * size + v) - (d * size + w) == v - ((d - c) * size + w)
    ensures (c * size + v) - d * size == v - (d - c) * size
  {
  }

  lemma {:induction false} StepFits(step: int, size: nat, v: i32)
    requires -1 <= step <= 1 && size <= MAX_REGION && 0 <= v < size
    ensures Fits(v - step * size)
  {
  }

  /** Owner and shadow gathers together miss nothing at the moment of a view report: an
      entity of another placed region within view is in the gather of the shadow that
      stands in its square. */
  lemma {:induction false} ShadowsCoverSeam(cfg: WorldConfig, square: Placement, local: Pos3, other: Placement,
      f: Frozen, all: seq<Row>, row: Row)
    requires cfg.Valid() && cfg.Contains(local) && other != square
    requires Snaps(f, all) && f.cfg == cfg && row in all && cfg.Contains2d(row.x, row.y)
    requires cfg.regionSize <= MAX_REGION
    requires WorldFlatSq(FromLocal(local, square, cfg.regionSize),
      FromLocal(Pos3(row.x, row.y, row.z), other, cfg.regionSize)) <= Sq(cfg.viewRadius)
    ensures SeesInto(cfg, square, local, other)
    ensures 0 < cfg.verticalExtent
    ensures var p := ShadowPoint(cfg, FromLocal(local, square, cfg.regionSize), other);
      && p.Some? && cfg.Contains2d(p.value.x, p.value.y)
      && (var sub := AtCenter(cfg, cfg.CellOf(p.value.x, p.value.y));
          && Walkable(f) && SubFits(cfg, sub)
          && exists d :: d in FoundAll(p.value, cfg.viewRadius, f.rows, FullWalk(f, p.value, sub))
               && d.index < |f.rows| && f.rows[d.index] == row)
  {
    RegionIsBounded(cfg);
    ViewCrossesSeam(cfg, square, local, other, Pos3(row.x, row.y, row.z));
    var p := ShadowPoint(cfg, FromLocal(local, square, cfg.regionSize), other).value;
    GatherListsRow(f, all, p, row);
    assert InView(p, cfg.viewRadius, row);
  }
}
