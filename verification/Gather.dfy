/** The gather pass: a nearest-first walk of cells and sub-cells that must find
    exactly what a scan of every entity against the view radius finds. */
module Gather {
  import opened Numbers
  import opened Config
  import opened CountingSort
  import opened Snapshot
  import opened Ordering

  /** A box of cells, both ends of each axis included. */
  datatype Subscription = Subscription(x0: int, x1: int, y0: int, y1: int) {
    predicate Covers(cx: int, cy: int) {
      x0 <= cx <= x1 && y0 <= cy <= y1
    }
  }

  function AtCenter(cfg: WorldConfig, center: CellCoord): Subscription {
    var r, last := cfg.grid.cellRadius, cfg.grid.cellsPerAxis - 1;
    Subscription(Max(center.x - r, 0), Min(center.x + r, last), Max(center.y - r, 0), Min(center.y + r, last))
  }

  /** A row in view: its id, its place in the snapshot, and its squared distance. */
  datatype Discovered = Discovered(id: nat, index: nat, distSq: nat)

  function Sq(n: int): nat
  {
    Numbers.Abs(n) * Numbers.Abs(n)
  }

  function FlatSq(viewer: Pos3, r: Row): nat {
    Sq(viewer.x - r.x) + Sq(viewer.y - r.y)
  }

  /** Whether a row lies in the vertical cylinder a viewer sees. */
  predicate InView(viewer: Pos3, radius: nat, r: Row) {
    FlatSq(viewer, r) <= Sq(radius)
  }

  function Discover(viewer: Pos3, r: Row, index: nat): Discovered {
    Discovered(r.id, index, FlatSq(viewer, r) + Sq(viewer.z - r.z))
  }

  /** One contiguous run of the snapshot's arrays. */
  datatype Run = Run(lo: nat, hi: nat)

  /** What one run yields: its rows in view, in order. */
  function Found(viewer: Pos3, radius: nat, rows: seq<Row>, run: Run): (r: seq<Discovered>)
    requires run.lo <= run.hi <= |rows|
    decreases run.hi
  {
    if run.lo == run.hi then []
    else
      var i := run.hi - 1;
      var before := Found(viewer, radius, rows, Run(run.lo, i));
      if InView(viewer, radius, rows[i]) then before + [Discover(viewer, rows[i], i)] else before
  }

  ghost predicate RunsFit(runs: seq<Run>, n: nat) {
    forall k :: 0 <= k < |runs| ==> runs[k].lo <= runs[k].hi <= n
  }

  function FoundAll(viewer: Pos3, radius: nat, rows: seq<Row>, runs: seq<Run>): (r: seq<Discovered>)
    requires RunsFit(runs, |rows|)
  {
    if runs == [] then []
    else FoundAll(viewer, radius, rows, runs[..|runs| - 1]) + Found(viewer, radius, rows, runs[|runs| - 1])
  }

  // ----- counting what a walk reaches -----

  function Within(run: Run, i: nat): nat {
    if run.lo <= i < run.hi then 1 else 0
  }

  /** How many runs of a walk reach the row at `i`. */
  function Hits(runs: seq<Run>, i: nat): nat {
    if runs == [] then 0 else Hits(runs[..|runs| - 1], i) + Within(runs[|runs| - 1], i)
  }

  /** How many times the row at `i` was found. */
  function Times(found: seq<Discovered>, i: nat): nat {
    if found == [] then 0
    else Times(found[..|found| - 1], i) + (if found[|found| - 1].index == i then 1 else 0)
  }

  lemma {:induction false} TimesConcat(a: seq<Discovered>, b: seq<Discovered>, i: nat)
    ensures Times(a + b, i) == Times(a, i) + Times(b, i)
  {
    if b == [] {
      assert a + b == a;
    } else {
      TimesConcat(a, b[..|b| - 1], i);
      assert (a + b)[..|a + b| - 1] == a + b[..|b| - 1];
    }
  }

  lemma {:induction false} HitsConcat(a: seq<Run>, b: seq<Run>, i: nat)
    ensures Hits(a + b, i) == Hits(a, i) + Hits(b, i)
  {
    if b == [] {
      assert a + b == a;
    } else {
      HitsConcat(a, b[..|b| - 1], i);
      assert (a + b)[..|a + b| - 1] == a + b[..|b| - 1];
    }
  }

  lemma {:induction false} FoundTimes(viewer: Pos3, radius: nat, rows: seq<Row>, run: Run, i: nat)
    requires run.lo <= run.hi <= |rows|
    ensures Times(Found(viewer, radius, rows, run), i) ==
      if run.lo <= i < run.hi && InView(viewer, radius, rows[i]) then 1 else 0
    decreases run.hi
  {
    if run.lo < run.hi {
      var last := run.hi - 1;
      FoundTimes(viewer, radius, rows, Run(run.lo, last), i);
      TimesConcat(Found(viewer, radius, rows, Run(run.lo, last)), [Discover(viewer, rows[last], last)], i);
      assert [Discover(viewer, rows[last], last)][..0] == [];
    }
  }

  /** A walk finds a row in view as often as it reaches it, and no other row. */
  lemma {:induction false} FoundAllTimes(viewer: Pos3, radius: nat, rows: seq<Row>, runs: seq<Run>, i: nat)
    requires RunsFit(runs, |rows|)
    ensures Times(FoundAll(viewer, radius, rows, runs), i) ==
      if i < |rows| && InView(viewer, radius, rows[i]) then Hits(runs, i) else 0
  {
    if runs != [] {
      var front, last := runs[..|runs| - 1], runs[|runs| - 1];
      FoundAllTimes(viewer, radius, rows, front, i);
      FoundTimes(viewer, radius, rows, last, i);
      TimesConcat(FoundAll(viewer, radius, rows, front), Found(viewer, radius, rows, last), i);
    }
  }

  /** A row's own id, and its squared distance from the viewer over all three axes. */
  predicate Tells(viewer: Pos3, r: Row, d: Discovered) {
    && d.id == r.id
    && d.distSq == (viewer.x - r.x) * (viewer.x - r.x) + (viewer.y - r.y) * (viewer.y - r.y)
                     + (viewer.z - r.z) * (viewer.z - r.z)
  }

  /** Every entry is the discovery of the row it names. */
  ghost predicate Discovers(viewer: Pos3, rows: seq<Row>, found: seq<Discovered>) {
    forall k :: 0 <= k < |found| ==>
      found[k].index < |rows| && found[k] == Discover(viewer, rows[found[k].index], found[k].index)
  }

  /** Every entry tells of the row it names, and that row is within the radius on the map. */
  ghost predicate Exact(viewer: Pos3, radius: nat, rows: seq<Row>, found: seq<Discovered>) {
    forall k :: 0 <= k < |found| ==>
      && found[k].index < |rows| && Tells(viewer, rows[found[k].index], found[k])
      && Around(viewer, radius, rows[found[k].index])
  }

  /** Within the radius of the viewer, whatever the height. */
  predicate Around(viewer: Pos3, radius: nat, r: Row) {
    (viewer.x - r.x) * (viewer.x - r.x) + (viewer.y - r.y) * (viewer.y - r.y) <= radius * radius
  }

  lemma {:induction false} SquareIs(n: int)
    ensures Sq(n) == n * n
  {
  }

  lemma {:induction false} DiscoverTells(viewer: Pos3, radius: nat, r: Row, index: nat)
    ensures Tells(viewer, r, Discover(viewer, r, index)) && Discover(viewer, r, index).index == index
    ensures InView(viewer, radius, r) <==> Around(viewer, radius, r)
  {
    SquareIs(viewer.x - r.x);
    SquareIs(viewer.y - r.y);
    SquareIs(viewer.z - r.z);
    SquareIs(radius);
  }

  lemma {:induction false} FoundDiscovers(viewer: Pos3, radius: nat, rows: seq<Row>, run: Run)
    requires run.lo <= run.hi <= |rows|
    ensures Discovers(viewer, rows, Found(viewer, radius, rows, run))
    ensures forall k :: 0 <= k < |Found(viewer, radius, rows, run)| ==>
      InView(viewer, radius, rows[Found(viewer, radius, rows, run)[k].index])
    decreases run.hi
  {
    if run.lo < run.hi {
      FoundDiscovers(viewer, radius, rows, Run(run.lo, run.hi - 1));
    }
  }

  lemma {:induction false} FoundAllDiscovers(viewer: Pos3, radius: nat, rows: seq<Row>, runs: seq<Run>)
    requires RunsFit(runs, |rows|)
    ensures Discovers(viewer, rows, FoundAll(viewer, radius, rows, runs))
    ensures forall k :: 0 <= k < |FoundAll(viewer, radius, rows, runs)| ==>
      InView(viewer, radius, rows[FoundAll(viewer, radius, rows, runs)[k].index])
  {
    if runs != [] {
      FoundAllDiscovers(viewer, radius, rows, runs[..|runs| - 1]);
      FoundDiscovers(viewer, radius, rows, runs[|runs| - 1]);
    }
  }

  lemma {:induction false} FoundAllExact(viewer: Pos3, radius: nat, rows: seq<Row>, runs: seq<Run>)
    requires RunsFit(runs, |rows|)
    ensures Exact(viewer, radius, rows, FoundAll(viewer, radius, rows, runs))
  {
    var found := FoundAll(viewer, radius, rows, runs);
    FoundAllDiscovers(viewer, radius, rows, runs);
    forall k | 0 <= k < |found|
      ensures found[k].index < |rows| && Tells(viewer, rows[found[k].index], found[k])
      ensures Around(viewer, radius, rows[found[k].index])
    {
      DiscoverTells(viewer, radius, rows[found[k].index], found[k].index);
    }
  }

  // ----- visit orders -----

  type Offset = (int, int)

  function OffsetFar(o: Offset): nat {
    Sq(o.0) + Sq(o.1)
  }

  /** `order` is the square of offsets up to `r` either way, without repeats, by distance. */
  ghost predicate CellOrder(order: seq<Offset>, r: int) {
    && NoRepeats(order)
    && NearestFirst(order, OffsetFar)
    && forall o :: o in order <==> -r <= o.0 <= r && -r <= o.1 <= r
  }

  method BuildCellOrder(r: int) returns (order: seq<Offset>)
    requires r >= 0
    ensures CellOrder(order, r)
  {
    var v: seq<Offset> := [];
    var dy := -r;
    while dy <= r
      invariant -r <= dy <= r + 1
      invariant NoRepeats(v)
      invariant forall o :: o in v <==> -r <= o.0 <= r && -r <= o.1 < dy
    {
      ghost var rowsDone := v;
      var dx := -r;
      while dx <= r
        invariant -r <= dx <= r + 1
        invariant NoRepeats(v)
        invariant forall o :: o in v <==> o in rowsDone || (o.1 == dy && -r <= o.0 < dx)
      {
        var o: Offset := (dx, dy);
        assert o !in v;
        v := v + [o];
        dx := dx + 1;
      }
      dy := dy + 1;
    }
    SortSorts(v, OffsetFar);
    order := SortByKey(v, OffsetFar);
    SamePermutation(v, order);
  }

  function Apart(a: nat, b: nat): nat {
    if a < b then b - a else a - b
  }

  /** Squared distance from one sub-cell to another, both as linear indices. */
  function SubFar(axis: nat, ox: nat, oy: nat): nat -> nat
    requires axis > 0
  {
    (b: nat) => Sq(b % axis - ox) + Sq(b / axis - oy)
  }

  /** Every sub-cell once, nearest to the origin sub-cell first. */
  ghost predicate SubOrder(order: seq<nat>, axis: nat, ox: nat, oy: nat)
    requires axis > 0
  {
    && NoRepeats(order)
    && NearestFirst(order, SubFar(axis, ox, oy))
    && forall b: nat :: b in order <==> b < axis * axis
  }

  /** The visit order of the sub-grid from one origin. */
  method BuildSubOrderFrom(axis: nat, ox: nat, oy: nat) returns (order: seq<nat>)
    requires axis > 0
    ensures SubOrder(order, axis, ox, oy)
  {
    var scratch: seq<nat> := [];
    for sy := 0 to axis
      invariant NoRepeats(scratch)
      invariant forall b: nat :: b in scratch <==> b < sy * axis
    {
      ghost var rowsDone := scratch;
      for sx := 0 to axis
        invariant NoRepeats(scratch)
        invariant forall b: nat :: b in scratch <==> b in rowsDone || sy * axis <= b < sy * axis + sx
      {
        var b: nat := sy * axis + sx;
        assert b !in scratch;
        scratch := scratch + [b];
      }
    }
    SortSorts(scratch, SubFar(axis, ox, oy));
    order := SortByKey(scratch, SubFar(axis, ox, oy));
    SamePermutation(scratch, order);
  }

  ghost predicate OrderAt(table: seq<seq<nat>>, axis: nat, o: int)
    requires axis > 0 && 0 <= o < |table|
  {
    SubOrder(table[o], axis, o % axis, o / axis)
  }

  /** The whole table: one visit order per origin sub-cell. */
  ghost predicate SubOrders(table: seq<seq<nat>>, axis: nat)
    requires axis > 0
  {
    && |table| == axis * axis
    && forall o :: 0 <= o < |table| ==> OrderAt(table, axis, o)
  }

  lemma {:induction false} OrdersGrow(table: seq<seq<nat>>, axis: nat, ox: nat, oy: nat, order: seq<nat>)
    requires axis > 0 && ox < axis && |table| == oy * axis + ox && SubOrder(order, axis, ox, oy)
    requires forall o :: 0 <= o < |table| ==> OrderAt(table, axis, o)
    ensures forall o :: 0 <= o < |table| + 1 ==> OrderAt(table + [order], axis, o)
  {
    RemainderUnique(|table|, axis, oy, ox);
    forall o | 0 <= o < |table| + 1
      ensures OrderAt(table + [order], axis, o)
    {
      if o < |table| {
        assert OrderAt(table, axis, o);
      }
    }
  }

  method BuildSubOrder(axis: nat) returns (table: seq<seq<nat>>)
    requires axis > 0
    ensures SubOrders(table, axis)
  {
    table := [];
    for oy := 0 to axis
      invariant |table| == oy * axis
      invariant forall o :: 0 <= o < |table| ==> OrderAt(table, axis, o)
    {
      for ox := 0 to axis
        invariant |table| == oy * axis + ox
        invariant forall o :: 0 <= o < |table| ==> OrderAt(table, axis, o)
      {
        var order := BuildSubOrderFrom(axis, ox, oy);
        OrdersGrow(table, axis, ox, oy, order);
        table := table + [order];
      }
    }
  }

  // ----- the walk -----

  /** A snapshot as the gather reads it, with its visit orders. */
  datatype Frozen = Frozen(cfg: WorldConfig, subAxis: nat, rows: seq<Row>, starts: seq<nat>,
      divisions: seq<Division>, subStarts: seq<nat>, cellOrder: seq<Offset>, subOrder: seq<seq<nat>>)

  /** Every offset the walk follows stays inside the arrays. */
  ghost predicate Walkable(f: Frozen) {
    && f.subAxis > 0 && TrailingZeros(f.subAxis) <= f.cfg.grid.cellShift
    && 1 <= f.cfg.grid.cellsPerAxis < 0x1_0000
    && f.cfg.grid.cellsPerRegion == f.cfg.grid.cellsPerAxis * f.cfg.grid.cellsPerAxis
    && |f.starts| == f.cfg.grid.cellsPerRegion + 1 && |f.divisions| == f.cfg.grid.cellsPerRegion
    && SubOrders(f.subOrder, f.subAxis)
    && forall c :: 0 <= c < |f.divisions| ==>
      CellWalkable(f.rows, f.starts, f.divisions[c], f.subStarts, f.subAxis * f.subAxis, c)
  }

  ghost predicate CellWalkable(rows: seq<Row>, starts: seq<nat>, div: Division, subStarts: seq<nat>, buckets: nat,
      c: int)
    requires 0 <= c && c + 1 < |starts|
  {
    && starts[c] <= starts[c + 1] <= |rows|
    && (div.Divided? ==>
          && div.base + buckets < |subStarts|
          && forall b :: 0 <= b < buckets ==>
            RunAt(subStarts, div.base, b).lo <= RunAt(subStarts, div.base, b).hi <= |rows|)
  }

  function RunAt(subStarts: seq<nat>, base: nat, b: nat): Run
    requires base + b + 1 < |subStarts|
  {
    Run(subStarts[base + b], subStarts[base + b + 1])
  }

  /** The runs of a divided cell, in visit order. */
  function SubRuns(subStarts: seq<nat>, base: nat, order: seq<nat>): (r: seq<Run>)
    requires forall k :: 0 <= k < |order| ==> base + order[k] + 1 < |subStarts|
    ensures |r| == |order|
  {
    if order == [] then []
    else SubRuns(subStarts, base, order[..|order| - 1]) + [RunAt(subStarts, base, order[|order| - 1])]
  }

  /** An arithmetic shift right, which floors. */
  function ArithShr(v: int, k: nat): int {
    if v >= 0 then Shr(v, k) else -1 - Shr(-1 - v, k)
  }

  /** Which visit order to use in a cell: that of the sub-cell closest to the viewer. */
  function Origin(cfg: WorldConfig, axis: nat, cx: nat, cy: nat, viewer: Pos3): (o: nat)
    requires axis > 0 && TrailingZeros(axis) <= cfg.grid.cellShift
    ensures o < axis * axis
  {
    var shift := cfg.grid.cellShift - TrailingZeros(axis);
    var ox := Max(0, Min(ArithShr(viewer.x - cx * Pow2(cfg.grid.cellShift), shift), axis - 1));
    var oy := Max(0, Min(ArithShr(viewer.y - cy * Pow2(cfg.grid.cellShift), shift), axis - 1));
    RowMajorBelow(ox, oy, axis);
    oy * axis + ox
  }

  /** The runs of one cell, in visit order. */
  function CellRuns(f: Frozen, c: nat, origin: nat): seq<Run>
    requires Walkable(f) && c < |f.divisions| && origin < |f.subOrder|
  {
    assert CellWalkable(f.rows, f.starts, f.divisions[c], f.subStarts, f.subAxis * f.subAxis, c);
    match f.divisions[c]
    case Whole => [Run(f.starts[c], f.starts[c + 1])]
    case Divided(base) =>
      OrderFits(f, c, origin);
      SubRuns(f.subStarts, base, f.subOrder[origin])
  }

  lemma {:induction false} OrderEntries(table: seq<seq<nat>>, axis: nat, origin: nat)
    requires axis > 0 && SubOrders(table, axis) && origin < |table|
    ensures forall k :: 0 <= k < |table[origin]| ==> table[origin][k] < axis * axis
  {
    var order := table[origin];
    assert OrderAt(table, axis, origin);
    forall k | 0 <= k < |order|
      ensures order[k] < axis * axis
    {
      assert order[k] in order;
    }
  }

  lemma {:induction false} OrderFits(f: Frozen, c: nat, origin: nat)
    requires Walkable(f) && c < |f.divisions| && f.divisions[c].Divided? && origin < |f.subOrder|
    ensures forall k :: 0 <= k < |f.subOrder[origin]| ==>
      f.divisions[c].base + f.subOrder[origin][k] + 1 < |f.subStarts|
  {
    assert CellWalkable(f.rows, f.starts, f.divisions[c], f.subStarts, f.subAxis * f.subAxis, c);
    OrderEntries(f.subOrder, f.subAxis, origin);
  }

  /** A subscription inside the region. */
  predicate SubFits(cfg: WorldConfig, sub: Subscription) {
    0 <= sub.x0 && sub.x1 < cfg.grid.cellsPerAxis && 0 <= sub.y0 && sub.y1 < cfg.grid.cellsPerAxis
  }

  /** The runs one cell offset contributes: none outside the subscription. */
  function OffsetRuns(f: Frozen, viewer: Pos3, sub: Subscription, o: Offset): seq<Run>
    requires Walkable(f) && SubFits(f.cfg, sub)
  {
    var center := f.cfg.CellOf(viewer.x, viewer.y);
    var cx, cy := center.x + o.0, center.y + o.1;
    if !sub.Covers(cx, cy) then []
    else
      IdsInRegion(f.cfg, cx, cy);
      CellRuns(f, f.cfg.CellId(CellCoord(cx, cy)), Origin(f.cfg, f.subAxis, cx, cy, viewer))
  }

  /** What a walk sees at each offset from a viewer. */
  function Looker(f: Frozen, viewer: Pos3, sub: Subscription): Offset -> seq<Run>
    requires Walkable(f) && SubFits(f.cfg, sub)
  {
    (o: Offset) => OffsetRuns(f, viewer, sub, o)
  }

  /** Every run visited for a list of cell offsets, in order. */
  function Walk(look: Offset -> seq<Run>, offsets: seq<Offset>): seq<Run> {
    if offsets == [] then []
    else Walk(look, offsets[..|offsets| - 1]) + look(offsets[|offsets| - 1])
  }

  ghost predicate LooksFit(look: Offset -> seq<Run>, n: nat) {
    forall o :: RunsFit(look(o), n)
  }

  lemma {:induction false} SubRunsFit(rows: seq<Row>, subStarts: seq<nat>, base: nat, order: seq<nat>)
    requires forall k :: 0 <= k < |order| ==> base + order[k] + 1 < |subStarts|
    requires forall k :: 0 <= k < |order| ==>
      RunAt(subStarts, base, order[k]).lo <= RunAt(subStarts, base, order[k]).hi <= |rows|
    ensures RunsFit(SubRuns(subStarts, base, order), |rows|)
  {
    if order != [] {
      SubRunsFit(rows, subStarts, base, order[..|order| - 1]);
    }
  }

  lemma {:induction false} DividedRunsFit(rows: seq<Row>, starts: seq<nat>, div: Division, subStarts: seq<nat>,
      buckets: nat, c: nat, order: seq<nat>)
    requires c + 1 < |starts| && div.Divided? && CellWalkable(rows, starts, div, subStarts, buckets, c)
    requires forall k :: 0 <= k < |order| ==> order[k] < buckets
    ensures forall k :: 0 <= k < |order| ==> div.base + order[k] + 1 < |subStarts|
    ensures RunsFit(SubRuns(subStarts, div.base, order), |rows|)
  {
    SubRunsFit(rows, subStarts, div.base, order);
  }

  lemma {:induction false} CellRunsFit(f: Frozen, c: nat, origin: nat)
    requires Walkable(f) && c < |f.divisions| && origin < |f.subOrder|
    ensures RunsFit(CellRuns(f, c, origin), |f.rows|)
  {
    assert CellWalkable(f.rows, f.starts, f.divisions[c], f.subStarts, f.subAxis * f.subAxis, c);
    if f.divisions[c].Divided? {
      OrderEntries(f.subOrder, f.subAxis, origin);
      DividedRunsFit(f.rows, f.starts, f.divisions[c], f.subStarts, f.subAxis * f.subAxis, c, f.subOrder[origin]);
    }
  }

  lemma {:induction false} OffsetRunsFit(f: Frozen, viewer: Pos3, sub: Subscription, o: Offset)
    requires Walkable(f) && SubFits(f.cfg, sub)
    ensures RunsFit(OffsetRuns(f, viewer, sub, o), |f.rows|)
  {
    var center := f.cfg.CellOf(viewer.x, viewer.y);
    var cx, cy := center.x + o.0, center.y + o.1;
    if sub.Covers(cx, cy) {
      IdsInRegion(f.cfg, cx, cy);
      CellRunsFit(f, f.cfg.CellId(CellCoord(cx, cy)), Origin(f.cfg, f.subAxis, cx, cy, viewer));
    }
  }

  lemma {:induction false} LookerFits(f: Frozen, viewer: Pos3, sub: Subscription)
    requires Walkable(f) && SubFits(f.cfg, sub)
    ensures LooksFit(Looker(f, viewer, sub), |f.rows|)
  {
    forall o: Offset
      ensures RunsFit(Looker(f, viewer, sub)(o), |f.rows|)
    {
      OffsetRunsFit(f, viewer, sub, o);
    }
  }

  lemma {:induction false} WalkFits(look: Offset -> seq<Run>, n: nat, offsets: seq<Offset>)
    requires LooksFit(look, n)
    ensures RunsFit(Walk(look, offsets), n)
  {
    if offsets != [] {
      WalkFits(look, n, offsets[..|offsets| - 1]);
    }
  }

  lemma {:induction false} WalkPrefix(look: Offset -> seq<Run>, offsets: seq<Offset>, k: nat)
    requires k <= |offsets|
    ensures Walk(look, offsets[..k]) <= Walk(look, offsets)
    decreases |offsets|
  {
    if k < |offsets| {
      assert offsets[..|offsets| - 1][..k] == offsets[..k];
      WalkPrefix(look, offsets[..|offsets| - 1], k);
    } else {
      assert offsets[..k] == offsets;
    }
  }

  // ----- the gather -----

  lemma {:induction false} FoundAllConcat(viewer: Pos3, radius: nat, rows: seq<Row>, a: seq<Run>, b: seq<Run>)
    requires RunsFit(a, |rows|) && RunsFit(b, |rows|)
    ensures RunsFit(a + b, |rows|)
    ensures FoundAll(viewer, radius, rows, a + b) ==
      FoundAll(viewer, radius, rows, a) + FoundAll(viewer, radius, rows, b)
  {
    if b == [] {
      assert a + b == a;
    } else {
      FoundAllConcat(viewer, radius, rows, a, b[..|b| - 1]);
      assert (a + b)[..|a + b| - 1] == a + b[..|b| - 1];
    }
  }

  /** How many entries the output holds once `taken` has been walked. */
  function Reach(viewer: Pos3, radius: nat, rows: seq<Row>, before: nat, taken: seq<Run>): nat
    requires RunsFit(taken, |rows|)
  {
    before + |FoundAll(viewer, radius, rows, taken)|
  }

  /** No walk of one to `upto` runs of `runs` reaches the cap. */
  ghost predicate NotYet(viewer: Pos3, radius: nat, rows: seq<Row>, before: nat, runs: seq<Run>, upto: nat, cap: nat)
    requires RunsFit(runs, |rows|)
  {
    upto <= |runs| &&
    forall k :: 0 < k <= upto ==> Reach(viewer, radius, rows, before, runs[..k]) < cap
  }

  lemma {:induction false} NotYetConcat(viewer: Pos3, radius: nat, rows: seq<Row>, before: nat, a: seq<Run>,
      b: seq<Run>, n: nat, cap: nat)
    requires RunsFit(a, |rows|) && RunsFit(b, |rows|)
    requires NotYet(viewer, radius, rows, before, a, |a|, cap)
    requires NotYet(viewer, radius, rows, Reach(viewer, radius, rows, before, a), b, n, cap)
    ensures RunsFit(a + b, |rows|)
    ensures NotYet(viewer, radius, rows, before, a + b, |a| + n, cap)
  {
    FoundAllConcat(viewer, radius, rows, a, b);
    forall k | 0 < k <= |a| + n
      ensures Reach(viewer, radius, rows, before, (a + b)[..k]) < cap
    {
      if k <= |a| {
        assert (a + b)[..k] == a[..k];
      } else {
        assert (a + b)[..k] == a + b[..k - |a|];
        FoundAllConcat(viewer, radius, rows, a, b[..k - |a|]);
      }
    }
  }

  /** The gather walked the first `n` runs of `full`, and stopped at the first boundary
      where the output held `cap` entries, or at the end. */
  ghost predicate StopsAtCap(viewer: Pos3, radius: nat, rows: seq<Row>, before: nat, full: seq<Run>, n: nat, cap: nat)
    requires RunsFit(full, |rows|)
  {
    && n <= |full|
    && NotYet(viewer, radius, rows, before, full, if n == 0 then 0 else n - 1, cap)
    && (n < |full| ==> n > 0 && Reach(viewer, radius, rows, before, full[..n]) >= cap)
  }

  /** The gather appended to `out` what the runs of `full` hold, up to the first boundary
      where the output held `cap` entries. */
  ghost predicate AppendsCapped(viewer: Pos3, radius: nat, rows: seq<Row>, full: seq<Run>, cap: nat,
      out: seq<Discovered>, r: seq<Discovered>)
    requires RunsFit(full, |rows|)
  {
    exists n: nat ::
      && StopsAtCap(viewer, radius, rows, |out|, full, n, cap)
      && r == out + FoundAll(viewer, radius, rows, full[..n])
  }

  /** Appends a run's rows in view, in order. */
  method Take(viewer: Pos3, radius: nat, rows: seq<Row>, run: Run, out: seq<Discovered>) returns (r: seq<Discovered>)
    requires run.lo <= run.hi <= |rows|
    ensures r == out + Found(viewer, radius, rows, run)
  {
    r := out;
    assert Found(viewer, radius, rows, Run(run.lo, run.lo)) == [];
    for i := run.lo to run.hi
      invariant r == out + Found(viewer, radius, rows, Run(run.lo, i))
    {
      if FlatSq(viewer, rows[i]) <= Sq(radius) {
        r := r + [Discover(viewer, rows[i], i)];
      }
    }
  }

  /** Walks one cell's runs, checking the cap after each. */
  method WalkRuns(viewer: Pos3, radius: nat, rows: seq<Row>, runs: seq<Run>, cap: nat, out: seq<Discovered>)
    returns (r: seq<Discovered>, full: bool, ghost n: nat)
    requires RunsFit(runs, |rows|)
    ensures n <= |runs| && r == out + FoundAll(viewer, radius, rows, runs[..n])
    ensures full ==> n > 0 && |r| >= cap && NotYet(viewer, radius, rows, |out|, runs, n - 1, cap)
    ensures !full ==> n == |runs| && NotYet(viewer, radius, rows, |out|, runs, n, cap)
  {
    r, full, n := out, false, 0;
    for k := 0 to |runs|
      invariant n == k && r == out + FoundAll(viewer, radius, rows, runs[..k])
      invariant NotYet(viewer, radius, rows, |out|, runs, k, cap)
    {
      assert runs[..k + 1][..k] == runs[..k];
      r := Take(viewer, radius, rows, runs[k], r);
      n := k + 1;
      if |r| >= cap {
        full := true;
        return;
      }
    }
  }

  /** The output so far: everything the walk `done` finds, still short of the cap. */
  ghost predicate Going(viewer: Pos3, radius: nat, rows: seq<Row>, out: seq<Discovered>, r: seq<Discovered>,
      done: seq<Run>, cap: nat)
  {
    && RunsFit(done, |rows|)
    && r == out + FoundAll(viewer, radius, rows, done)
    && NotYet(viewer, radius, rows, |out|, done, |done|, cap)
  }

  lemma {:induction false} GoingOn(viewer: Pos3, radius: nat, rows: seq<Row>, out: seq<Discovered>, r: seq<Discovered>,
      done: seq<Run>, runs: seq<Run>, cap: nat)
    requires Going(viewer, radius, rows, out, r, done, cap)
    requires RunsFit(runs, |rows|) && NotYet(viewer, radius, rows, |r|, runs, |runs|, cap)
    ensures Going(viewer, radius, rows, out, r + FoundAll(viewer, radius, rows, runs), done + runs, cap)
  {
    var a, b := FoundAll(viewer, radius, rows, done), FoundAll(viewer, radius, rows, runs);
    FoundAllConcat(viewer, radius, rows, done, runs);
    assert (out + a) + b == out + (a + b);
    assert |r| == Reach(viewer, radius, rows, |out|, done);
    NotYetConcat(viewer, radius, rows, |out|, done, runs, |runs|, cap);
  }

  lemma {:induction false} GoingStops(viewer: Pos3, radius: nat, rows: seq<Row>, out: seq<Discovered>,
      r: seq<Discovered>, done: seq<Run>, runs: seq<Run>, m: nat, whole: seq<Run>, cap: nat)
    requires Going(viewer, radius, rows, out, r, done, cap)
    requires RunsFit(runs, |rows|) && RunsFit(whole, |rows|) && done + runs <= whole
    requires 0 < m <= |runs| && NotYet(viewer, radius, rows, |r|, runs, m - 1, cap)
    requires |r + FoundAll(viewer, radius, rows, runs[..m])| >= cap
    ensures StopsAtCap(viewer, radius, rows, |out|, whole, |done| + m, cap)
    ensures r + FoundAll(viewer, radius, rows, runs[..m]) ==
      out + FoundAll(viewer, radius, rows, whole[..|done| + m])
  {
    assert whole[..|done| + m] == done + runs[..m];
    FoundAllConcat(viewer, radius, rows, done, runs[..m]);
    NotYetConcat(viewer, radius, rows, |out|, done, runs, m - 1, cap);
    forall k | 0 < k <= |done| + m - 1
      ensures Reach(viewer, radius, rows, |out|, whole[..k]) < cap
    {
      assert whole[..k] == (done + runs)[..k];
    }
  }

  /** Walks the cells at a list of offsets, nearest first, until the output holds `cap`. */
  method WalkCells(look: Offset -> seq<Run>, offsets: seq<Offset>, viewer: Pos3, radius: nat, rows: seq<Row>,
      cap: nat, out: seq<Discovered>) returns (r: seq<Discovered>, ghost n: nat)
    requires LooksFit(look, |rows|) && RunsFit(Walk(look, offsets), |rows|)
    ensures StopsAtCap(viewer, radius, rows, |out|, Walk(look, offsets), n, cap)
    ensures r == out + FoundAll(viewer, radius, rows, Walk(look, offsets)[..n])
  {
    ghost var done: seq<Run> := [];
    r, n := out, 0;
    for k := 0 to |offsets|
      invariant done == Walk(look, offsets[..k])
      invariant Going(viewer, radius, rows, out, r, done, cap)
    {
      var runs := look(offsets[k]);
      NextOffset(look, offsets, k);
      ghost var before := r;
      var full;
      ghost var m;
      r, full, m := WalkRuns(viewer, radius, rows, runs, cap, r);
      if full {
        GoingStops(viewer, radius, rows, out, before, done, runs, m, Walk(look, offsets), cap);
        n := |done| + m;
        return;
      }
      assert runs[..m] == runs;
      GoingOn(viewer, radius, rows, out, before, done, runs, cap);
      done := done + runs;
    }
    assert offsets[..|offsets|] == offsets;
    n := |done|;
    GoingEnds(viewer, radius, rows, out, r, done, cap);
  }

  /** The whole walk from a viewer. */
  ghost function FullWalk(f: Frozen, viewer: Pos3, sub: Subscription): (w: seq<Run>)
    requires Walkable(f) && SubFits(f.cfg, sub)
    ensures RunsFit(w, |f.rows|)
  {
    LookerFits(f, viewer, sub);
    WalkFits(Looker(f, viewer, sub), |f.rows|, f.cellOrder);
    Walk(Looker(f, viewer, sub), f.cellOrder)
  }

  /** Appends the entities in view to `out`, stopping once it holds `cap`. */
  method GatherIntoCapped(f: Frozen, viewer: Pos3, sub: Subscription, cap: nat, out: seq<Discovered>)
    returns (r: seq<Discovered>)
    requires Walkable(f) && SubFits(f.cfg, sub)
    ensures AppendsCapped(viewer, f.cfg.viewRadius, f.rows, FullWalk(f, viewer, sub), cap, out, r)
  {
    LookerFits(f, viewer, sub);
    ghost var whole, n := FullWalk(f, viewer, sub), 0;
    r, n := WalkCells(Looker(f, viewer, sub), f.cellOrder, viewer, f.cfg.viewRadius, f.rows, cap, out);
    assert StopsAtCap(viewer, f.cfg.viewRadius, f.rows, |out|, whole, n, cap);
  }

  lemma {:induction false} GoingEnds(viewer: Pos3, radius: nat, rows: seq<Row>, out: seq<Discovered>,
      r: seq<Discovered>, done: seq<Run>, cap: nat)
    requires Going(viewer, radius, rows, out, r, done, cap)
    ensures StopsAtCap(viewer, radius, rows, |out|, done, |done|, cap)
    ensures done[..|done|] == done
  {
  }

  lemma {:induction false} NextOffset(look: Offset -> seq<Run>, offsets: seq<Offset>, k: nat)
    requires k < |offsets|
    ensures Walk(look, offsets[..k + 1]) == Walk(look, offsets[..k]) + look(offsets[k])
    ensures Walk(look, offsets[..k + 1]) <= Walk(look, offsets)
  {
    assert offsets[..k + 1][..k] == offsets[..k];
    WalkPrefix(look, offsets, k + 1);
  }
}
