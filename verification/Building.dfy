/** Which configurations are accepted, what a refusal names, and what the accepted one carries. */
module Building {
  import opened Numbers
  import opened Config

  /** A power of two, whichever it is. */
  ghost predicate IsPower(n: int) {
    exists k: nat :: Pow2(k) == n
  }

  /** The largest power of two that is no more than half of a radius, or 1. */
  ghost predicate CellFor(radius: int, cell: nat) {
    IsPower(cell) && cell <= Max(radius / 2, 1) < 2 * cell
  }

  lemma {:induction false} IsPowerOfTwo(n: nat)
    ensures PowerOfTwo(n) <==> IsPower(n)
  {
    if IsPower(n) {
      var k: nat :| Pow2(k) == n;
      Pow2IsPowerOfTwo(k);
    }
    if PowerOfTwo(n) {
      assert Pow2(TrailingZeros(n)) == n;
    }
  }

  lemma {:induction false} DerivedIsCell(radius: i32)
    requires radius > 0
    ensures CellFor(radius, DerivedCell(radius))
  {
    Log2Bounds(Max(radius / 2, 1));
  }

  lemma {:induction false} CellIsOne(radius: int, a: nat, b: nat)
    requires CellFor(radius, a) && CellFor(radius, b)
    ensures a == b
  {
    var i: nat :| Pow2(i) == a;
    var j: nat :| Pow2(j) == b;
    if i < j {
      Pow2Monotone(i + 1, j);
    } else if j < i {
      Pow2Monotone(j + 1, i);
    }
  }

  ghost predicate Complete(b: Builder) {
    b.regionSize.Some? && b.verticalExtent.Some? && b.viewRadius.Some? && b.maxSpeed.Some? && b.tickHz.Some?
  }

  /** What can be built: all given and positive, the extents powers of two, the radius within
      the region, a whole number of milliseconds a tick, and less than a cell of movement. */
  ghost predicate Buildable(b: Builder) {
    && Complete(b)
    && 0 < b.regionSize.value && 0 < b.verticalExtent.value && 0 < b.viewRadius.value && 0 < b.maxSpeed.value
    && IsPower(b.regionSize.value) && IsPower(b.verticalExtent.value)
    && b.viewRadius.value <= b.regionSize.value
    && b.tickHz.value > 0 && 1000 % b.tickHz.value == 0
    && exists cell: nat :: CellFor(b.viewRadius.value, cell) && b.maxSpeed.value < cell * b.tickHz.value
  }

  lemma {:induction false} SpeedFits(speed: nat, hz: nat, cell: nat)
    requires hz > 0
    ensures speed / hz < cell <==> speed < cell * hz
  {
    var q, r := speed / hz, speed % hz;
    assert speed == hz * q + r;
    if q < cell {
      MulLe(q + 1, cell, hz);
    } else {
      MulLe(cell, q, hz);
    }
  }

  lemma {:induction false} BuildsIff(b: Builder)
    ensures Build(b).Ok? <==> Buildable(b)
  {
    if Complete(b) && 0 < b.regionSize.value && 0 < b.verticalExtent.value && 0 < b.viewRadius.value
      && 0 < b.maxSpeed.value && b.tickHz.value > 0
    {
      var radius, cell := b.viewRadius.value, DerivedCell(b.viewRadius.value);
      IsPowerOfTwo(b.regionSize.value);
      IsPowerOfTwo(b.verticalExtent.value);
      DerivedIsCell(radius);
      SpeedFits(b.maxSpeed.value, b.tickHz.value, cell);
      forall other: nat | CellFor(radius, other)
        ensures other == cell
      {
        CellIsOne(radius, other, cell);
      }
    }
  }

  /** The configuration built is the one asked for, in cells of the derived size, with the
      movement and the milliseconds of a tick. */
  lemma {:induction false} BuiltAsAsked(b: Builder)
    requires Build(b).Ok?
    ensures Complete(b)
    ensures var c := Build(b).value;
      && c.regionSize == b.regionSize.value && c.verticalExtent == b.verticalExtent.value
      && c.viewRadius == b.viewRadius.value && c.maxSpeed == b.maxSpeed.value && c.tickHz == b.tickHz.value
      && CellFor(c.viewRadius, c.cellSize) && c.tickMs * c.tickHz == 1000
      && c.maxMovePerTick * c.tickHz <= c.maxSpeed < (c.maxMovePerTick + 1) * c.tickHz
  {
    DerivedIsCell(b.viewRadius.value);
    WholeTicks(b.tickHz.value);
    SpeedFits(b.maxSpeed.value, b.tickHz.value, b.maxSpeed.value / b.tickHz.value);
    SpeedFits(b.maxSpeed.value, b.tickHz.value, b.maxSpeed.value / b.tickHz.value + 1);
  }

  function Field(b: Builder, name: string): Option<int> {
    if name == "region_size" then Widened(b.regionSize)
    else if name == "vertical_extent" then Widened(b.verticalExtent)
    else if name == "horizontal_view_radius" then Widened(b.viewRadius)
    else if name == "max_horizontal_speed" then Widened(b.maxSpeed)
    else if b.tickHz.Some? then Some(b.tickHz.value) else None
  }

  function Widened(v: Option<i32>): Option<int> {
    if v.Some? then Some(v.value) else None
  }

  /** A refusal names a fault there is. */
  lemma {:induction false} RefusalIsTrue(b: Builder)
    requires Build(b).Err?
    ensures match Build(b).error
      case Missing(name) => Field(b, name) == None
      case NonPositive(name) => Field(b, name).Some? && Field(b, name).value <= 0
      case ExtentNotPowerOfTwo(axis, extent) =>
        Some(extent) == (if axis.Horizontal? then b.regionSize else b.verticalExtent) && !IsPower(extent)
      case RadiusExceedsRegion(radius, region) =>
        Some(radius) == b.viewRadius && Some(region) == b.regionSize && radius > region
      case TickRateIndivisible(hz) => Some(hz) == b.tickHz && !exists ms: nat :: ms * hz == 1000
      case SpeedExceedsCellPerTick(move, cell) =>
        && Complete(b) && b.tickHz.value > 0 && cell >= 0 && CellFor(b.viewRadius.value, cell)
        && move == b.maxSpeed.value / b.tickHz.value >= cell
  {
    match Build(b).error
    case ExtentNotPowerOfTwo(axis, extent) => IsPowerOfTwo(extent);
    case TickRateIndivisible(hz) =>
      forall ms: nat
        ensures ms * hz != 1000
      {
        if ms * hz == 1000 {
          RemainderUnique(1000, hz, ms, 0);
        }
      }
    case SpeedExceedsCellPerTick(move, cell) => DerivedIsCell(b.viewRadius.value);
    case _ =>
  }
}
