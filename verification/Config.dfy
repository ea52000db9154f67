/** The validated world configuration: what building one guarantees, and the cell
    arithmetic every other part of the engine rests on. Distances are raw units. */
module Config {
  import opened Numbers

  const MAX_CELL_RADIUS := 4

  datatype Pos3 = Pos3(x: i32, y: i32, z: i32)

  datatype CellCoord = CellCoord(x: u16, y: u16)

  datatype Axis = Horizontal | Vertical

  datatype ConfigError =
    | NonPositive(field: string)
    | ExtentNotPowerOfTwo(axis: Axis, extent: i32)
    | RadiusExceedsRegion(radius: i32, regionSize: i32)
    | SpeedExceedsCellPerTick(movePerTick: int, cellSize: int)
    | TickRateIndivisible(tickHz: u32)
    | Missing(name: string)

  datatype Option<T> = None | Some(value: T)

  datatype Result<R, E> = Ok(value: R) | Err(error: E)

  datatype Builder = Builder(
      regionSize: Option<i32>, verticalExtent: Option<i32>, viewRadius: Option<i32>,
      maxSpeed: Option<i32>, tickHz: Option<u32>)

  datatype Grid = Grid(cellShift: nat, cellMask: nat, cellsPerAxis: nat, cellsPerRegion: nat, cellRadius: nat)

  datatype WorldConfig = WorldConfig(
      regionSize: nat, verticalExtent: nat, cellSize: nat, viewRadius: nat, maxSpeed: nat, tickHz: nat,
      horizontalBits: nat, verticalBits: nat, grid: Grid, tickMs: nat, maxMovePerTick: nat)
  {
    /** What the rest of the engine relies on. A cell coordinate fits 16 bits, so cell ids
        and the cell count fit 32. */
    ghost predicate Valid() {
      && regionSize == Pow2(horizontalBits) < 0x8000_0000
      && verticalExtent == Pow2(verticalBits) < 0x8000_0000
      && cellSize == Pow2(grid.cellShift)
      && regionSize == grid.cellsPerAxis * cellSize && 1 <= grid.cellsPerAxis < 0x1_0000
      && grid.cellMask == cellSize - 1
      && grid.cellsPerRegion == grid.cellsPerAxis * grid.cellsPerAxis
      && 0 < viewRadius <= regionSize
      && (grid.cellRadius - 1) * cellSize < viewRadius <= grid.cellRadius * cellSize
      && 1 <= grid.cellRadius <= MAX_CELL_RADIUS
      && 0 < tickHz && tickMs * tickHz == 1000
      && maxMovePerTick < cellSize
    }

    predicate Contains2d(x: int, y: int) {
      0 <= x < regionSize && 0 <= y < regionSize
    }

    predicate Contains(p: Pos3) {
      Contains2d(p.x, p.y) && 0 <= p.z < verticalExtent
    }

    /** The cell index along one axis, truncated to its 16 bits. */
    function AxisToCell(v: i32): u16
      requires grid.cellsPerAxis >= 1
    {
      Min(Shr(Max(v, 0), grid.cellShift), grid.cellsPerAxis - 1) % 0x1_0000
    }

    function CellOf(x: i32, y: i32): CellCoord
      requires grid.cellsPerAxis >= 1
    {
      CellCoord(AxisToCell(x), AxisToCell(y))
    }

    /** Row-major, in 32-bit arithmetic. */
    function CellId(c: CellCoord): u32 {
      (c.y * grid.cellsPerAxis + c.x) % 0x1_0000_0000
    }

    /** Each coordinate brought back to its range, if it is outside. */
    function Clamp(p: Pos3): Pos3
      requires 0 < regionSize < 0x8000_0000 && 0 < verticalExtent < 0x8000_0000
    {
      Pos3(ClampRaw(p.x, regionSize - 1), ClampRaw(p.y, regionSize - 1), ClampRaw(p.z, verticalExtent - 1))
    }
  }

  function ClampRaw(v: i32, top: i32): i32
    requires top >= 0
  {
    if v < 0 then 0 else if v > top then top else v
  }

  function CeilDiv(a: nat, b: nat): nat
    requires b > 0
  {
    if a % b == 0 then a / b else a / b + 1
  }

  function DeriveGrid(region: nat, cell: nat, radius: nat): Grid
    requires cell > 0
  {
    var axis := region / cell;
    Grid(TrailingZeros(cell), cell - 1, axis, (axis * axis) % 0x1_0000_0000, CeilDiv(radius, cell))
  }

  /** The largest power of two no larger than half a view radius. */
  function DerivedCell(radius: i32): nat
    requires radius > 0
  {
    Pow2(Log2(Max(radius / 2, 1)))
  }

  function Build(b: Builder): Result<WorldConfig, ConfigError> {
    if b.regionSize.None? then Err(Missing("region_size"))
    else if b.verticalExtent.None? then Err(Missing("vertical_extent"))
    else if b.viewRadius.None? then Err(Missing("horizontal_view_radius"))
    else if b.maxSpeed.None? then Err(Missing("max_horizontal_speed"))
    else if b.tickHz.None? then Err(Missing("tick_hz"))
    else
      var region, vertical, radius, speed, hz :=
        b.regionSize.value, b.verticalExtent.value, b.viewRadius.value, b.maxSpeed.value, b.tickHz.value;
      if region <= 0 then Err(NonPositive("region_size"))
      else if vertical <= 0 then Err(NonPositive("vertical_extent"))
      else if radius <= 0 then Err(NonPositive("horizontal_view_radius"))
      else if speed <= 0 then Err(NonPositive("max_horizontal_speed"))
      else
        var cell := DerivedCell(radius);
        if !PowerOfTwo(region) then Err(ExtentNotPowerOfTwo(Horizontal, region))
        else if !PowerOfTwo(vertical) then Err(ExtentNotPowerOfTwo(Vertical, vertical))
        else if radius > region then Err(RadiusExceedsRegion(radius, region))
        else if hz == 0 || 1000 % hz != 0 then Err(TickRateIndivisible(hz))
        else
          var move := speed / hz;
          if move >= cell then Err(SpeedExceedsCellPerTick(move, cell))
          else Ok(WorldConfig(region, vertical, cell, radius, speed, hz,
                              TrailingZeros(region), TrailingZeros(vertical),
                              DeriveGrid(region, cell, radius), 1000 / hz, move))
  }

  lemma {:induction false} CeilBounds(a: nat, b: nat)
    requires a > 0 && b > 0
    ensures CeilDiv(a, b) >= 1
    ensures (CeilDiv(a, b) - 1) * b < a <= CeilDiv(a, b) * b
  {
    var q, r := a / b, a % b;
    assert a == b * q + r;
    assert (q - 1) * b == b * q - b && (q + 1) * b == b * q + b;
  }

  lemma {:induction false} RadiusInCells(radius: nat, cell: nat)
    requires 0 < cell && 0 < radius < 4 * cell
    ensures 1 <= CeilDiv(radius, cell) <= 4
  {
    CeilBounds(radius, cell);
    if CeilDiv(radius, cell) > 4 {
      MulLe(4, CeilDiv(radius, cell) - 1, cell);
    }
  }

  lemma {:induction false} WholeRegion(h: nat, k: nat)
    requires k <= h
    ensures Pow2(h) == (Pow2(h) / Pow2(k)) * Pow2(k) && Pow2(h) / Pow2(k) >= 1
  {
    Pow2Add(h - k, k);
    ExactQuotient(Pow2(k), Pow2(h - k));
  }

  lemma {:induction false} DerivedCellFits(radius: i32)
    requires radius > 0
    ensures var cell := DerivedCell(radius);
      && PowerOfTwo(cell) && cell <= radius < 4 * cell
  {
    Log2Bounds(Max(radius / 2, 1));
    Pow2IsPowerOfTwo(Log2(Max(radius / 2, 1)));
  }

  lemma {:induction false} GridIsSound(region: nat, radius: i32)
    requires PowerOfTwo(region) && 0 < radius <= region
    ensures var cell := DerivedCell(radius);
      var g := DeriveGrid(region, cell, radius);
      && cell == Pow2(g.cellShift)
      && region == g.cellsPerAxis * cell && g.cellsPerAxis >= 1
      && (g.cellRadius - 1) * cell < radius <= g.cellRadius * cell
      && 1 <= g.cellRadius <= MAX_CELL_RADIUS
  {
    DerivedCellFits(radius);
    var cell := DerivedCell(radius);
    Pow2Injective(TrailingZeros(cell), TrailingZeros(region));
    WholeRegion(TrailingZeros(region), TrailingZeros(cell));
    CeilBounds(radius, cell);
    RadiusInCells(radius, cell);
  }

  /** An accepted configuration is sound exactly when its region is at most 2^15 times half
      its view radius, so that a cell coordinate fits the 16 bits it is kept in. */
  lemma {:induction false} BuildIsValid(b: Builder)
    ensures Build(b).Ok? ==>
      (Build(b).value.Valid() <==> b.regionSize.value <= 0x8000 * Max(b.viewRadius.value / 2, 1))
  {
    if Build(b).Ok? {
      var region, radius := b.regionSize.value, b.viewRadius.value;
      GridIsSound(region, radius);
      WholeTicks(b.tickHz.value);
      AxisFits(region, radius);
      SquareFits(region / DerivedCell(radius));
    }
  }

  /** Both are powers of two, so the cells along an axis pass 16 bits exactly when the region
      passes 2^15 of its cells, and half a radius is less than two cells. */
  lemma {:induction false} AxisFits(region: nat, radius: i32)
    requires PowerOfTwo(region) && 0 < radius <= region
    ensures region / DerivedCell(radius) < 0x1_0000 <==> region <= 0x8000 * Max(radius / 2, 1)
  {
    var h, k := TrailingZeros(region), Log2(Max(radius / 2, 1));
    Log2Bounds(Max(radius / 2, 1));
    DerivedCellFits(radius);
    Pow2Injective(k, h);
    PowersFit(h, k, Max(radius / 2, 1));
  }

  lemma {:induction false} PowersFit(h: nat, k: nat, half: nat)
    requires k <= h && Pow2(k) <= half < 2 * Pow2(k)
    ensures Pow2(h) / Pow2(k) < 0x1_0000 <==> Pow2(h) <= 0x8000 * half
  {
    var n := Pow2(h - k);
    Pow2Add(h - k, k);
    ExactQuotient(Pow2(k), n);
    Pow2Of16();
    if h - k <= 15 {
      Pow2Monotone(h - k, 15);
      MulLe(n, 0x8000, Pow2(k));
    } else {
      Pow2Monotone(16, h - k);
      MulLe(0x1_0000, n, Pow2(k));
    }
  }

  lemma {:induction false} Pow2Of16()
    ensures Pow2(15) == 0x8000 && Pow2(16) == 0x1_0000
  {
    assert Pow2(8) == 256;
    Pow2Add(8, 8);
    assert Pow2(16) == 2 * Pow2(15);
  }

  lemma {:induction false} SquareFits(n: nat)
    ensures n < 0x1_0000 ==> (n * n) % 0x1_0000_0000 == n * n
  {
    if n < 0x1_0000 {
      MulLe(n, 0xFFFF, n);
      MulLe(n, 0xFFFF, 0xFFFF);
    }
  }

  /** A region of 2^30 raw units seen 1024 at a time: accepted, with 2^21 cells an axis, a
      cell count that has wrapped to nothing, and a far position put in the first cell. */
  lemma {:induction false} WideGridOverflows() returns (b: Builder)
    ensures Build(b).Ok? && !Build(b).value.Valid()
    ensures var c := Build(b).value;
      && c.grid.cellsPerAxis == 0x20_0000 && c.grid.cellsPerRegion == 0
      && c.Contains2d(0x200_0000, 0) && c.AxisToCell(0x200_0000) == 0
  {
    b := Builder(Some(0x4000_0000), Some(1), Some(1024), Some(1), Some(20));
    Pow2Of16();
    Pow2Add(16, 14);
    assert Pow2(14) == 0x4000 && Pow2(30) == 0x4000_0000;
    Pow2IsPowerOfTwo(30);
    assert Pow2(0) == 1;
    Pow2IsPowerOfTwo(0);
    LogOf512();
    assert DerivedCell(1024) == 512;
    Pow2IsPowerOfTwo(9);
    var c := Build(b).value;
    assert c.grid.cellShift == 9;
    ShrBounds(0x200_0000, 9);
  }

  lemma {:induction false} LogOf512()
    ensures Log2(512) == 9 && Pow2(9) == 512
  {
    assert Pow2(8) == 256 && Pow2(9) == 512;
    Log2Bounds(512);
    Pow2Injective(9, Log2(512));
    if Log2(512) > 9 {
      Pow2Monotone(10, Log2(512));
    }
  }

  lemma {:induction false} WholeTicks(hz: nat)
    requires hz > 0 && 1000 % hz == 0
    ensures (1000 / hz) * hz == 1000
  {
  }

  /** A coordinate inside the region lies in the cell its shift names. */
  lemma {:induction false} CellHolds(c: WorldConfig, v: i32)
    requires c.Valid() && 0 <= v < c.regionSize
    ensures var i := c.AxisToCell(v);
      && i < c.grid.cellsPerAxis
      && i == Shr(v, c.grid.cellShift)
      && i * c.cellSize <= v < i * c.cellSize + c.cellSize
  {
    ShrBounds(v, c.grid.cellShift);
    CellBelow(Shr(v, c.grid.cellShift), c.grid.cellsPerAxis, c.cellSize, v);
    SmallRemainder(Shr(v, c.grid.cellShift), 0x1_0000);
  }

  lemma {:induction false} CellBelow(i: nat, n: nat, cell: nat, v: nat)
    requires cell * i <= v < n * cell
    ensures i < n && i * cell == cell * i
  {
    if i >= n {
      MulLe(n, i, cell);
    }
  }

  /** Positions in different cells of one axis are at least the cells between them apart. */
  lemma {:induction false} CellsApart(c: WorldConfig, v: i32, w: i32)
    requires c.Valid() && 0 <= v < c.regionSize && 0 <= w < c.regionSize
    requires Abs(v - w) <= c.viewRadius
    ensures Abs(c.AxisToCell(v) - c.AxisToCell(w)) <= c.grid.cellRadius
  {
    CellHolds(c, v);
    CellHolds(c, w);
    var i, j := c.AxisToCell(v), c.AxisToCell(w);
    if i - j > c.grid.cellRadius {
      CellGap(c.cellSize, c.grid.cellRadius, i, j);
    }
    if j - i > c.grid.cellRadius {
      CellGap(c.cellSize, c.grid.cellRadius, j, i);
    }
  }

  lemma {:induction false} CellGap(cell: nat, r: nat, i: int, j: int)
    requires cell > 0 && i - j >= r + 1
    ensures i * cell >= j * cell + cell + r * cell
  {
    MulLe(j + 1 + r, i, cell);
    assert (j + 1 + r) * cell == j * cell + cell + r * cell;
  }

  /** While coordinates fit 16 bits, no id wraps. */
  lemma {:induction false} IdIsRowMajor(c: WorldConfig, cell: CellCoord)
    requires cell.x < c.grid.cellsPerAxis < 0x1_0000 && cell.y < c.grid.cellsPerAxis
    ensures c.CellId(cell) == cell.y * c.grid.cellsPerAxis + cell.x
  {
    var n := c.grid.cellsPerAxis;
    RowMajorBelow(cell.x, cell.y, n);
    SquareFits(n);
    MulLe(n, 0xFFFF, n);
    MulLe(n, 0xFFFF, 0xFFFF);
    SmallRemainder(cell.y * n + cell.x, 0x1_0000_0000);
  }

  lemma {:induction false} IdsInRegion(c: WorldConfig, x: nat, y: nat)
    requires x < c.grid.cellsPerAxis < 0x1_0000 && y < c.grid.cellsPerAxis
    requires c.grid.cellsPerRegion == c.grid.cellsPerAxis * c.grid.cellsPerAxis
    ensures c.CellId(CellCoord(x, y)) < c.grid.cellsPerRegion
  {
    IdIsRowMajor(c, CellCoord(x, y));
    RowMajorBelow(x, y, c.grid.cellsPerAxis);
  }

  lemma {:induction false} RowMajorBelow(x: nat, y: nat, n: nat)
    requires x < n && y < n
    ensures y * n + x < n * n
  {
    MulLe(y, n - 1, n);
    assert (n - 1) * n == n * n - n;
  }

  lemma {:induction false} IdsDistinct(c: WorldConfig, a: CellCoord, b: CellCoord)
    requires a.x < c.grid.cellsPerAxis < 0x1_0000 && a.y < c.grid.cellsPerAxis
    requires b.x < c.grid.cellsPerAxis && b.y < c.grid.cellsPerAxis
    requires c.CellId(a) == c.CellId(b)
    ensures a == b
  {
    var n := c.grid.cellsPerAxis;
    IdIsRowMajor(c, a);
    IdIsRowMajor(c, b);
    RemainderUnique(c.CellId(a), n, a.y, a.x);
    RemainderUnique(c.CellId(a), n, b.y, b.x);
  }

  lemma {:induction false} CellsInGrid(c: WorldConfig, x: i32, y: i32)
    requires 1 <= c.grid.cellsPerAxis < 0x1_0000
    ensures c.CellOf(x, y).x < c.grid.cellsPerAxis && c.CellOf(x, y).y < c.grid.cellsPerAxis
  {
  }

  /** A cell's id is that of the cell a position is in exactly when it is that cell. */
  lemma {:induction false} IdsTellCells(c: WorldConfig, a: CellCoord, x: i32, y: i32)
    requires a.x < c.grid.cellsPerAxis < 0x1_0000 && a.y < c.grid.cellsPerAxis
    ensures c.CellId(a) == c.CellId(c.CellOf(x, y)) <==> a == c.CellOf(x, y)
  {
    CellsInGrid(c, x, y);
    if c.CellId(a) == c.CellId(c.CellOf(x, y)) {
      IdsDistinct(c, a, c.CellOf(x, y));
    }
  }
}
