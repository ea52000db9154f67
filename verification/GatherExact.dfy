/** What the sort and the walk add up to: the snapshot holds every live entity once,
    in its own cell, and an uncapped gather is exactly a radius scan over them. */
module GatherExact {
  import opened Numbers
  import opened Config
  import opened CountingSort
  import opened Snapshot
  import opened Ordering
  import opened Gather

  // ----- what a snapshot holds -----

  /** A cell's places hold rows of that cell only, and all of them. */
  lemma {:induction false} CellHoldsItsRows(rows: seq<Row>, div: Division, subStarts: seq<nat>, lo: nat,
      occupants: seq<Row>, subKey: Row -> nat, buckets: nat)
    requires CellArranged(rows, div, subStarts, lo, occupants, subKey, buckets)
    requires KeysBelow(occupants, subKey, buckets)
    ensures multiset(rows[lo..lo + |occupants|]) == multiset(occupants)
  {
    if div.Divided? {
      BucketedPermutes(rows, lo, occupants, subKey, buckets);
    }
  }

  /** The snapshot is a permutation of the live rows: nothing lost, nothing repeated,
      nothing left over from the tick before. */
  lemma {:induction false} SnapshotPermutes(rows: seq<Row>, starts: seq<nat>, divisions: seq<Division>,
      subStarts: seq<nat>, all: seq<Row>, cellKey: Row -> nat, cells: nat, subKey: Row -> nat, buckets: nat)
    requires Arranged(rows, starts, divisions, subStarts, all, cellKey, cells, subKey, buckets)
    requires KeysBelow(all, cellKey, cells) && KeysBelow(all, subKey, buckets)
    ensures multiset(rows[..|all|]) == multiset(all)
  {
    StartsCoverAll(all, cellKey, cells);
    CellsBelow(rows, starts, divisions, subStarts, all, cellKey, cells, subKey, buckets, cells);
    KeyedBelowAll(all, cellKey, cells);
  }

  lemma {:induction false} CellsBelow(rows: seq<Row>, starts: seq<nat>, divisions: seq<Division>,
      subStarts: seq<nat>, all: seq<Row>, cellKey: Row -> nat, cells: nat, subKey: Row -> nat, buckets: nat, c: nat)
    requires Arranged(rows, starts, divisions, subStarts, all, cellKey, cells, subKey, buckets)
    requires KeysBelow(all, cellKey, cells) && KeysBelow(all, subKey, buckets) && c <= cells
    ensures starts[c] <= |rows|
    ensures multiset(rows[..starts[c]]) == multiset(KeyedBelow(all, cellKey, c))
  {
    if c > 0 {
      var d := c - 1;
      CellsBelow(rows, starts, divisions, subStarts, all, cellKey, cells, subKey, buckets, d);
      CellRange(rows, starts, divisions, subStarts, all, cellKey, cells, subKey, buckets, d);
      CountsJoin(rows, starts[d], starts[c], KeyedBelow(all, cellKey, d), Keyed(all, cellKey, d));
    }
  }

  lemma {:induction false} CountsJoin(rows: seq<Row>, a: nat, b: nat, s: seq<Row>, t: seq<Row>)
    requires a <= b <= |rows|
    requires multiset(rows[..a]) == multiset(s) && multiset(rows[a..b]) == multiset(t)
    ensures multiset(rows[..b]) == multiset(s + t)
  {
    assert rows[..b] == rows[..a] + rows[a..b];
    JoinCounts(rows[..a], rows[a..b]);
    JoinCounts(s, t);
  }

  lemma {:induction false} CellRange(rows: seq<Row>, starts: seq<nat>, divisions: seq<Division>,
      subStarts: seq<nat>, all: seq<Row>, cellKey: Row -> nat, cells: nat, subKey: Row -> nat, buckets: nat, c: nat)
    requires Arranged(rows, starts, divisions, subStarts, all, cellKey, cells, subKey, buckets)
    requires KeysBelow(all, subKey, buckets) && c < cells
    ensures starts[c + 1] == starts[c] + |Keyed(all, cellKey, c)|
    ensures starts[c] <= starts[c + 1] <= |rows|
    ensures multiset(rows[starts[c]..starts[c + 1]]) == multiset(Keyed(all, cellKey, c))
  {
    assert CellAt(rows, starts, divisions, subStarts, all, cellKey, subKey, buckets, c);
    KeyedKeysBelow(all, cellKey, c, subKey, buckets);
    CellHoldsItsRows(rows, divisions[c], subStarts, starts[c], Keyed(all, cellKey, c), subKey, buckets);
  }

  /** A row stands in a cell's range exactly when it is live and lies in that cell. */
  lemma {:induction false} InItsOwnCell(rows: seq<Row>, starts: seq<nat>, divisions: seq<Division>,
      subStarts: seq<nat>, all: seq<Row>, cellKey: Row -> nat, cells: nat, subKey: Row -> nat, buckets: nat,
      c: nat, row: Row)
    requires Arranged(rows, starts, divisions, subStarts, all, cellKey, cells, subKey, buckets)
    requires KeysBelow(all, subKey, buckets) && c < cells
    ensures starts[c] <= starts[c + 1] <= |rows|
    ensures row in rows[starts[c]..starts[c + 1]] <==> row in all && cellKey(row) == c
  {
    CellRange(rows, starts, divisions, subStarts, all, cellKey, cells, subKey, buckets, c);
    KeyedHolds(all, cellKey, c, row);
    assert row in multiset(rows[starts[c]..starts[c + 1]]) <==> row in multiset(Keyed(all, cellKey, c));
  }

  function ById(): Row -> int {
    (r: Row) => r.id
  }

  /** Live rows come in ascending id order, one per live id the columns cover. */
  lemma {:induction false} LiveRowsAscend(cols: Columns, live: seq<nat>)
    requires cols.Parallel() && forall i, j :: 0 <= i < j < |live| ==> live[i] < live[j]
    ensures Ascending(LiveRows(cols, live), ById())
    ensures forall r :: r in LiveRows(cols, live) <==>
      r.id in live && r.id < |cols.xs| && r == RowOf(cols, r.id)
  {
    if live != [] && live[0] < |cols.xs| {
      LiveRowsAscend(cols, live[1..]);
      assert live == [live[0]] + live[1..];
    }
  }

  /** Sub-cell `b` of a divided cell is ascending by id and holds exactly the cell's rows
      that lie in it. */
  ghost predicate SubCellExact(rows: seq<Row>, subStarts: seq<nat>, base: nat, occupants: seq<Row>,
      subKey: Row -> nat, b: int)
    requires 0 <= b && base + b + 1 < |subStarts|
  {
    var run := RunAt(subStarts, base, b);
    && run.lo <= run.hi <= |rows|
    && Ascending(rows[run.lo..run.hi], ById())
    && forall r :: r in rows[run.lo..run.hi] <==> r in occupants && subKey(r) == b
  }

  /** An undivided cell is ascending by id, and so is each sub-cell of a divided one. */
  lemma {:induction false} RangesAscend(rows: seq<Row>, div: Division, subStarts: seq<nat>, lo: nat,
      occupants: seq<Row>, subKey: Row -> nat, buckets: nat)
    requires CellArranged(rows, div, subStarts, lo, occupants, subKey, buckets)
    requires KeysBelow(occupants, subKey, buckets) && Ascending(occupants, ById())
    ensures div.Whole? ==> Ascending(rows[lo..lo + |occupants|], ById())
    ensures div.Divided? ==> forall b :: 0 <= b < buckets ==>
      SubCellExact(rows, subStarts, div.base, occupants, subKey, b)
  {
    if div.Divided? {
      forall b | 0 <= b < buckets
        ensures SubCellExact(rows, subStarts, div.base, occupants, subKey, b)
      {
        SubCellHolds(rows, subStarts, div.base, lo, occupants, subKey, buckets, b);
      }
    }
  }

  lemma {:induction false} SubCellHolds(rows: seq<Row>, subStarts: seq<nat>, base: nat, lo: nat,
      occupants: seq<Row>, subKey: Row -> nat, buckets: nat, b: nat)
    requires CellArranged(rows, Divided(base), subStarts, lo, occupants, subKey, buckets)
    requires Ascending(occupants, ById()) && b < buckets
    ensures SubCellExact(rows, subStarts, base, occupants, subKey, b)
  {
    SubCellRows(rows, subStarts, base, lo, occupants, subKey, buckets, b);
    KeyedAscends(occupants, subKey, b, ById());
  }

  /** The places of sub-cell `b` hold the rows with that key. */
  lemma {:induction false} SubCellRows(rows: seq<Row>, subStarts: seq<nat>, base: nat, lo: nat,
      occupants: seq<Row>, subKey: Row -> nat, buckets: nat, b: nat)
    requires CellArranged(rows, Divided(base), subStarts, lo, occupants, subKey, buckets) && b < buckets
    ensures base + b + 1 < |subStarts|
    ensures var run := RunAt(subStarts, base, b);
      && run.lo <= run.hi <= |rows| && rows[run.lo..run.hi] == Keyed(occupants, subKey, b)
      && forall r :: r in rows[run.lo..run.hi] <==> r in occupants && subKey(r) == b
  {
    assert Bucket(rows, lo, occupants, subKey, b);
    assert subStarts[base + b] == lo + Start(occupants, subKey, b);
    assert subStarts[base + (b + 1)] == lo + Start(occupants, subKey, b + 1);
    forall r
      ensures r in Keyed(occupants, subKey, b) <==> r in occupants && subKey(r) == b
    {
      KeyedHolds(occupants, subKey, b, r);
    }
  }

  // ----- the walk reaches every row once -----

  /** A visit order that holds `own` once reaches what only `own` reaches once. */
  lemma {:induction false} WalkHitsOnce(look: Offset -> seq<Run>, offsets: seq<Offset>, own: Offset, i: nat)
    requires NoRepeats(offsets)
    requires forall o :: o in offsets ==> Hits(look(o), i) == if o == own then 1 else 0
    ensures Hits(Walk(look, offsets), i) == if own in offsets then 1 else 0
  {
    if offsets != [] {
      var front, last := offsets[..|offsets| - 1], offsets[|offsets| - 1];
      WalkHitsOnce(look, front, own, i);
      HitsConcat(Walk(look, front), look(last), i);
      assert offsets == front + [last];
      assert last !in front;
    }
  }

  lemma {:induction false} WalkMisses(look: Offset -> seq<Run>, offsets: seq<Offset>, i: nat)
    requires forall o :: o in offsets ==> Hits(look(o), i) == 0
    ensures Hits(Walk(look, offsets), i) == 0
  {
    if offsets != [] {
      var front, last := offsets[..|offsets| - 1], offsets[|offsets| - 1];
      WalkMisses(look, front, i);
      HitsConcat(Walk(look, front), look(last), i);
      assert offsets == front + [last];
    }
  }

  /** The same for the sub-cells of a divided cell. */
  lemma {:induction false} SubHitsOnce(subStarts: seq<nat>, base: nat, order: seq<nat>, own: nat, i: nat)
    requires NoRepeats(order)
    requires forall k :: 0 <= k < |order| ==> base + order[k] + 1 < |subStarts|
    requires forall k :: 0 <= k < |order| ==>
      Within(RunAt(subStarts, base, order[k]), i) == if order[k] == own then 1 else 0
    ensures Hits(SubRuns(subStarts, base, order), i) == if own in order then 1 else 0
  {
    if order != [] {
      var front, last := order[..|order| - 1], order[|order| - 1];
      SubHitsOnce(subStarts, base, front, own, i);
      assert order == front + [last];
      assert last !in front;
    }
  }

  lemma {:induction false} SubMisses(subStarts: seq<nat>, base: nat, order: seq<nat>, i: nat)
    requires forall k :: 0 <= k < |order| ==> base + order[k] + 1 < |subStarts|
    requires forall k :: 0 <= k < |order| ==> Within(RunAt(subStarts, base, order[k]), i) == 0
    ensures Hits(SubRuns(subStarts, base, order), i) == 0
  {
    if order != [] {
      SubMisses(subStarts, base, order[..|order| - 1], i);
    }
  }

  /** Visiting every sub-cell of a divided cell reaches each of its places once. */
  lemma {:induction false} DividedHits(rows: seq<Row>, base: nat, subStarts: seq<nat>, lo: nat, occupants: seq<Row>,
      subKey: Row -> nat, buckets: nat, order: seq<nat>, i: nat)
    requires CellArranged(rows, Divided(base), subStarts, lo, occupants, subKey, buckets)
    requires KeysBelow(occupants, subKey, buckets)
    requires NoRepeats(order) && forall b: nat :: b in order <==> b < buckets
    ensures forall k :: 0 <= k < |order| ==> base + order[k] + 1 < |subStarts|
    ensures Hits(SubRuns(subStarts, base, order), i) == if lo <= i < lo + |occupants| then 1 else 0
  {
    forall k | 0 <= k < |order|
      ensures order[k] < buckets
    {
      assert order[k] in order;
    }
    if lo <= i < lo + |occupants| {
      var own := PlaceInBucket(occupants, subKey, buckets, i - lo);
      forall k | 0 <= k < |order|
        ensures Within(RunAt(subStarts, base, order[k]), i) == if order[k] == own then 1 else 0
      {
        OneRunHits(subStarts, base, lo, occupants, subKey, buckets, own, order[k], i);
      }
      SubHitsOnce(subStarts, base, order, own, i);
    } else {
      forall k | 0 <= k < |order|
        ensures Within(RunAt(subStarts, base, order[k]), i) == 0
      {
        NoRunHits(subStarts, base, lo, occupants, subKey, buckets, order[k], i);
      }
      SubMisses(subStarts, base, order, i);
    }
  }

  lemma {:induction false} OneRunHits(subStarts: seq<nat>, base: nat, lo: nat, occupants: seq<Row>,
      subKey: Row -> nat, buckets: nat, own: nat, b: nat, i: nat)
    requires base + buckets < |subStarts| && b < buckets && lo <= i
    requires forall b :: 0 <= b <= buckets ==> subStarts[base + b] == lo + Start(occupants, subKey, b)
    requires Start(occupants, subKey, own) <= i - lo < Start(occupants, subKey, own + 1)
    ensures Within(RunAt(subStarts, base, b), i) == if b == own then 1 else 0
  {
    assert subStarts[base + b] == lo + Start(occupants, subKey, b);
    assert subStarts[base + (b + 1)] == lo + Start(occupants, subKey, b + 1);
    if Within(RunAt(subStarts, base, b), i) == 1 {
      OneBucket(occupants, subKey, b, own, i - lo);
    }
  }

  lemma {:induction false} NoRunHits(subStarts: seq<nat>, base: nat, lo: nat, occupants: seq<Row>,
      subKey: Row -> nat, buckets: nat, b: nat, i: nat)
    requires base + buckets < |subStarts| && b < buckets && KeysBelow(occupants, subKey, buckets)
    requires forall b :: 0 <= b <= buckets ==> subStarts[base + b] == lo + Start(occupants, subKey, b)
    requires i < lo || lo + |occupants| <= i
    ensures Within(RunAt(subStarts, base, b), i) == 0
  {
    assert subStarts[base + b] == lo + Start(occupants, subKey, b);
    assert subStarts[base + (b + 1)] == lo + Start(occupants, subKey, b + 1);
    StartMonotone(occupants, subKey, b + 1, buckets);
    StartsCoverAll(occupants, subKey, buckets);
  }

  /** `f` is the snapshot of the live rows `all`, with its visit orders. */
  ghost predicate Snaps(f: Frozen, all: seq<Row>) {
    && f.cfg.Valid()
    && f.subAxis > 0 && PowerOfTwo(f.subAxis) && TrailingZeros(f.subAxis) <= f.cfg.grid.cellShift
    && Arranged(f.rows, f.starts, f.divisions, f.subStarts, all, CellKey(f.cfg), f.cfg.grid.cellsPerRegion,
                SubKey(f.cfg, f.subAxis), f.subAxis * f.subAxis)
    && CellOrder(f.cellOrder, f.cfg.grid.cellRadius)
    && SubOrders(f.subOrder, f.subAxis)
    && forall k :: 0 <= k < |all| ==> f.cfg.Contains2d(all[k].x, all[k].y)
  }

  lemma {:induction false} CellIsWalkable(rows: seq<Row>, starts: seq<nat>, divisions: seq<Division>,
      subStarts: seq<nat>, all: seq<Row>, cellKey: Row -> nat, cells: nat, subKey: Row -> nat, buckets: nat, c: nat)
    requires Arranged(rows, starts, divisions, subStarts, all, cellKey, cells, subKey, buckets)
    requires KeysBelow(all, subKey, buckets) && c < cells
    ensures CellWalkable(rows, starts, divisions[c], subStarts, buckets, c)
  {
    CellRange(rows, starts, divisions, subStarts, all, cellKey, cells, subKey, buckets, c);
    assert CellAt(rows, starts, divisions, subStarts, all, cellKey, subKey, buckets, c);
    if divisions[c].Divided? {
      var base, occupants := divisions[c].base, Keyed(all, cellKey, c);
      forall b | 0 <= b < buckets
        ensures RunAt(subStarts, base, b).lo <= RunAt(subStarts, base, b).hi <= |rows|
      {
        assert Bucket(rows, starts[c], occupants, subKey, b);
        assert subStarts[base + b] == starts[c] + Start(occupants, subKey, b);
        assert subStarts[base + (b + 1)] == starts[c] + Start(occupants, subKey, b + 1);
      }
    }
  }

  lemma {:induction false} SnapsIsWalkable(f: Frozen, all: seq<Row>)
    requires Snaps(f, all)
    ensures Walkable(f)
  {
    SubKeysBelow(f.cfg, f.subAxis, all);
    forall c | 0 <= c < |f.divisions|
      ensures CellWalkable(f.rows, f.starts, f.divisions[c], f.subStarts, f.subAxis * f.subAxis, c)
    {
      CellIsWalkable(f.rows, f.starts, f.divisions, f.subStarts, all, CellKey(f.cfg), f.cfg.grid.cellsPerRegion,
                     SubKey(f.cfg, f.subAxis), f.subAxis * f.subAxis, c);
    }
  }

  /** The walk of one cell reaches each of the cell's places once and no other. */
  lemma {:induction false} CellHits(f: Frozen, all: seq<Row>, c: nat, origin: nat, i: nat)
    requires Snaps(f, all) && Walkable(f) && c < |f.divisions| && origin < |f.subOrder|
    ensures Hits(CellRuns(f, c, origin), i) == if f.starts[c] <= i < f.starts[c + 1] then 1 else 0
  {
    var cellKey, subKey, buckets := CellKey(f.cfg), SubKey(f.cfg, f.subAxis), f.subAxis * f.subAxis;
    SubKeysBelow(f.cfg, f.subAxis, all);
    CellRange(f.rows, f.starts, f.divisions, f.subStarts, all, cellKey, f.cfg.grid.cellsPerRegion, subKey, buckets, c);
    assert CellAt(f.rows, f.starts, f.divisions, f.subStarts, all, cellKey, subKey, buckets, c);
    match f.divisions[c]
    case Whole =>
      assert CellRuns(f, c, origin)[..0] == [];
    case Divided(base) =>
      KeyedKeysBelow(all, cellKey, c, subKey, buckets);
      assert OrderAt(f.subOrder, f.subAxis, origin);
      DividedHits(f.rows, base, f.subStarts, f.starts[c], Keyed(all, cellKey, c), subKey, buckets,
                  f.subOrder[origin], i);
  }

  /** Which cell a place belongs to, and that the row there is a live row of that cell. */
  lemma {:induction false} PlaceInCell(rows: seq<Row>, starts: seq<nat>, divisions: seq<Division>,
      subStarts: seq<nat>, all: seq<Row>, cellKey: Row -> nat, cells: nat, subKey: Row -> nat, buckets: nat, i: nat)
    returns (c: nat)
    requires Arranged(rows, starts, divisions, subStarts, all, cellKey, cells, subKey, buckets)
    requires KeysBelow(all, cellKey, cells) && KeysBelow(all, subKey, buckets) && i < |all|
    ensures c < cells && starts[c] <= i < starts[c + 1]
    ensures rows[i] in all && cellKey(rows[i]) == c
    ensures forall d :: 0 <= d < cells && starts[d] <= i < starts[d + 1] ==> d == c
  {
    c := PlaceInBucket(all, cellKey, cells, i);
    InItsOwnCell(rows, starts, divisions, subStarts, all, cellKey, cells, subKey, buckets, c, rows[i]);
    assert rows[starts[c]..starts[c + 1]][i - starts[c]] == rows[i];
    forall d | 0 <= d < cells && starts[d] <= i < starts[d + 1]
      ensures d == c
    {
      OneBucket(all, cellKey, d, c, i);
    }
  }

  lemma {:induction false} PastTheCells(rows: seq<Row>, starts: seq<nat>, divisions: seq<Division>,
      subStarts: seq<nat>, all: seq<Row>, cellKey: Row -> nat, cells: nat, subKey: Row -> nat, buckets: nat,
      c: nat, i: nat)
    requires Arranged(rows, starts, divisions, subStarts, all, cellKey, cells, subKey, buckets)
    requires KeysBelow(all, cellKey, cells) && c < cells && |all| <= i
    ensures starts[c + 1] <= i
  {
    StartMonotone(all, cellKey, c + 1, cells);
    StartsCoverAll(all, cellKey, cells);
  }

  lemma {:induction false} SquareBounds(a: int, radius: nat)
    requires Sq(a) <= Sq(radius)
    ensures Numbers.Abs(a) <= radius
  {
    if Numbers.Abs(a) > radius {
      MulLe(radius, Numbers.Abs(a), radius);
      MulLe(radius + 1, Numbers.Abs(a), Numbers.Abs(a));
    }
  }

  /** Everything in view lies in a cell the viewer subscribes to. */
  lemma {:induction false} ViewIsSubscribed(cfg: WorldConfig, viewer: Pos3, row: Row)
    requires cfg.Valid() && cfg.Contains2d(viewer.x, viewer.y) && cfg.Contains2d(row.x, row.y)
    requires InView(viewer, cfg.viewRadius, row)
    ensures var center, cell := cfg.CellOf(viewer.x, viewer.y), cfg.CellOf(row.x, row.y);
      && AtCenter(cfg, center).Covers(cell.x, cell.y)
      && Numbers.Abs(cell.x - center.x) <= cfg.grid.cellRadius
      && Numbers.Abs(cell.y - center.y) <= cfg.grid.cellRadius
  {
    SquareBounds(viewer.x - row.x, cfg.viewRadius);
    SquareBounds(viewer.y - row.y, cfg.viewRadius);
    CellsApart(cfg, viewer.x, row.x);
    CellsApart(cfg, viewer.y, row.y);
    CellHolds(cfg, row.x);
    CellHolds(cfg, row.y);
  }

  /** A place is in a cell's range exactly when its row's position is in the cell. */
  lemma {:induction false} RangeIsCell(f: Frozen, all: seq<Row>, c: nat, i: nat)
    requires Snaps(f, all) && Walkable(f) && i < |all| && c < |f.divisions|
    ensures f.starts[c] <= i < f.starts[c + 1] <==> c == f.cfg.CellId(f.cfg.CellOf(f.rows[i].x, f.rows[i].y))
  {
    CellKeysBelow(f.cfg, all);
    SubKeysBelow(f.cfg, f.subAxis, all);
    var own := PlaceInCell(f.rows, f.starts, f.divisions, f.subStarts, all, CellKey(f.cfg),
      f.cfg.grid.cellsPerRegion, SubKey(f.cfg, f.subAxis), f.subAxis * f.subAxis, i);
    assert own == f.cfg.CellId(f.cfg.CellOf(f.rows[i].x, f.rows[i].y));
  }

  /** One cell's runs reach a place once if it is the cell of the row there, and never
      otherwise. */
  lemma {:induction false} OneCellHits(f: Frozen, all: seq<Row>, viewer: Pos3, at: CellCoord, i: nat)
    requires Snaps(f, all) && Walkable(f) && i < |all|
    requires at.x < f.cfg.grid.cellsPerAxis && at.y < f.cfg.grid.cellsPerAxis
    requires f.cfg.CellId(at) < f.cfg.grid.cellsPerRegion
    ensures Hits(CellRuns(f, f.cfg.CellId(at), Origin(f.cfg, f.subAxis, at.x, at.y, viewer)), i) ==
      if at == f.cfg.CellOf(f.rows[i].x, f.rows[i].y) then 1 else 0
  {
    CellHits(f, all, f.cfg.CellId(at), Origin(f.cfg, f.subAxis, at.x, at.y, viewer), i);
    RangeIsCell(f, all, f.cfg.CellId(at), i);
    IdsTellCells(f.cfg, at, f.rows[i].x, f.rows[i].y);
  }

  /** The row at a place is reached from exactly one offset: that of its own cell. */
  lemma {:induction false} OffsetHits(f: Frozen, all: seq<Row>, viewer: Pos3, sub: Subscription, o: Offset, i: nat)
    requires Snaps(f, all) && Walkable(f) && SubFits(f.cfg, sub) && i < |all|
    ensures var center, cell := f.cfg.CellOf(viewer.x, viewer.y), f.cfg.CellOf(f.rows[i].x, f.rows[i].y);
      Hits(OffsetRuns(f, viewer, sub, o), i) ==
        if o == (cell.x - center.x, cell.y - center.y) && sub.Covers(cell.x, cell.y) then 1 else 0
  {
    var center := f.cfg.CellOf(viewer.x, viewer.y);
    var cx, cy := center.x + o.0, center.y + o.1;
    if sub.Covers(cx, cy) {
      IdsInRegion(f.cfg, cx, cy);
      OneCellHits(f, all, viewer, CellCoord(cx, cy), i);
    }
  }

  lemma {:induction false} OffsetMisses(f: Frozen, all: seq<Row>, viewer: Pos3, sub: Subscription, o: Offset, i: nat)
    requires Snaps(f, all) && Walkable(f) && SubFits(f.cfg, sub) && |all| <= i
    ensures Hits(OffsetRuns(f, viewer, sub, o), i) == 0
  {
    var center := f.cfg.CellOf(viewer.x, viewer.y);
    var cx, cy := center.x + o.0, center.y + o.1;
    if sub.Covers(cx, cy) {
      IdsInRegion(f.cfg, cx, cy);
      var c := f.cfg.CellId(CellCoord(cx, cy));
      CellHits(f, all, c, Origin(f.cfg, f.subAxis, cx, cy, viewer), i);
      CellKeysBelow(f.cfg, all);
      PastTheCells(f.rows, f.starts, f.divisions, f.subStarts, all, CellKey(f.cfg),
        f.cfg.grid.cellsPerRegion, SubKey(f.cfg, f.subAxis), f.subAxis * f.subAxis, c, i);
    }
  }

  /** The whole walk from a viewer reaches a place once if its row's cell is subscribed
      and within the cell radius, and not at all otherwise. */
  lemma {:induction false} WalkReaches(f: Frozen, all: seq<Row>, viewer: Pos3, sub: Subscription, i: nat)
    requires Snaps(f, all) && Walkable(f) && SubFits(f.cfg, sub) && i < |all|
    ensures var center, cell := f.cfg.CellOf(viewer.x, viewer.y), f.cfg.CellOf(f.rows[i].x, f.rows[i].y);
      Hits(FullWalk(f, viewer, sub), i) ==
        if sub.Covers(cell.x, cell.y) && Numbers.Abs(cell.x - center.x) <= f.cfg.grid.cellRadius
          && Numbers.Abs(cell.y - center.y) <= f.cfg.grid.cellRadius then 1 else 0
  {
    var center, cell := f.cfg.CellOf(viewer.x, viewer.y), f.cfg.CellOf(f.rows[i].x, f.rows[i].y);
    var own: Offset := (cell.x - center.x, cell.y - center.y);
    var look := Looker(f, viewer, sub);
    forall o | o in f.cellOrder
      ensures Hits(look(o), i) == if o == own && sub.Covers(cell.x, cell.y) then 1 else 0
    {
      OffsetHits(f, all, viewer, sub, o, i);
    }
    if sub.Covers(cell.x, cell.y) {
      WalkHitsOnce(look, f.cellOrder, own, i);
    } else {
      WalkMisses(look, f.cellOrder, i);
    }
  }

  /** An uncapped gather from a viewer with its own subscription is a radius scan: it
      finds the row at each place once if the row is in view and never otherwise, and
      nothing from beyond the live rows. */
  lemma {:induction false} GatherIsRadiusScan(f: Frozen, all: seq<Row>, viewer: Pos3, i: nat)
    requires Snaps(f, all) && f.cfg.Contains2d(viewer.x, viewer.y)
    ensures Walkable(f) && SubFits(f.cfg, AtCenter(f.cfg, f.cfg.CellOf(viewer.x, viewer.y)))
    ensures var sub := AtCenter(f.cfg, f.cfg.CellOf(viewer.x, viewer.y));
      Times(FoundAll(viewer, f.cfg.viewRadius, f.rows, FullWalk(f, viewer, sub)), i) ==
        if i < |all| && InView(viewer, f.cfg.viewRadius, f.rows[i]) then 1 else 0
  {
    SnapsIsWalkable(f, all);
    var sub := AtCenter(f.cfg, f.cfg.CellOf(viewer.x, viewer.y));
    FoundAllTimes(viewer, f.cfg.viewRadius, f.rows, FullWalk(f, viewer, sub), i);
    if i < |all| {
      if InView(viewer, f.cfg.viewRadius, f.rows[i]) {
        LiveInRegion(f, all, i);
        ViewIsSubscribed(f.cfg, viewer, f.rows[i]);
        WalkReaches(f, all, viewer, sub, i);
      }
    } else {
      var look := Looker(f, viewer, sub);
      forall o | o in f.cellOrder
        ensures Hits(look(o), i) == 0
      {
        OffsetMisses(f, all, viewer, sub, o, i);
      }
      WalkMisses(look, f.cellOrder, i);
    }
  }

  lemma {:induction false} LiveInRegion(f: Frozen, all: seq<Row>, i: nat)
    requires Snaps(f, all) && i < |all|
    ensures f.cfg.Contains2d(f.rows[i].x, f.rows[i].y)
  {
    CellKeysBelow(f.cfg, all);
    SubKeysBelow(f.cfg, f.subAxis, all);
    var own := PlaceInCell(f.rows, f.starts, f.divisions, f.subStarts, all, CellKey(f.cfg),
      f.cfg.grid.cellsPerRegion, SubKey(f.cfg, f.subAxis), f.subAxis * f.subAxis, i);
  }

  /** A live row is in view exactly when the gather lists it. */
  lemma {:induction false} GatherListsRow(f: Frozen, all: seq<Row>, viewer: Pos3, row: Row)
    requires Snaps(f, all) && f.cfg.Contains2d(viewer.x, viewer.y) && row in all
    ensures Walkable(f) && SubFits(f.cfg, AtCenter(f.cfg, f.cfg.CellOf(viewer.x, viewer.y)))
    ensures var sub := AtCenter(f.cfg, f.cfg.CellOf(viewer.x, viewer.y));
      var found := FoundAll(viewer, f.cfg.viewRadius, f.rows, FullWalk(f, viewer, sub));
      InView(viewer, f.cfg.viewRadius, row) <==>
        exists d :: d in found && d.index < |f.rows| && f.rows[d.index] == row && d == Discover(viewer, row, d.index)
  {
    SnapsIsWalkable(f, all);
    CellKeysBelow(f.cfg, all);
    SubKeysBelow(f.cfg, f.subAxis, all);
    SnapshotPermutes(f.rows, f.starts, f.divisions, f.subStarts, all, CellKey(f.cfg),
      f.cfg.grid.cellsPerRegion, SubKey(f.cfg, f.subAxis), f.subAxis * f.subAxis);
    assert row in multiset(all);
    assert row in f.rows[..|all|];
    var i :| 0 <= i < |all| && f.rows[i] == row;
    var sub := AtCenter(f.cfg, f.cfg.CellOf(viewer.x, viewer.y));
    var found := FoundAll(viewer, f.cfg.viewRadius, f.rows, FullWalk(f, viewer, sub));
    FoundAllDiscovers(viewer, f.cfg.viewRadius, f.rows, FullWalk(f, viewer, sub));
    GatherIsRadiusScan(f, all, viewer, i);
    if InView(viewer, f.cfg.viewRadius, row) {
      var d := ListedAt(found, i);
    }
    if d :| d in found && d.index < |f.rows| && f.rows[d.index] == row && d == Discover(viewer, row, d.index) {
      GatherIsRadiusScan(f, all, viewer, d.index);
      ListedOften(found, d);
    }
  }

  /** In terms of entities: a live row is within the view radius, whatever its height, exactly
      when the gather lists it, with its own id and its squared distance over all three axes. */
  lemma {:induction false} GatherFindsEntities(f: Frozen, all: seq<Row>, viewer: Pos3, row: Row)
    requires Snaps(f, all) && f.cfg.Contains2d(viewer.x, viewer.y) && row in all
    ensures Walkable(f) && SubFits(f.cfg, AtCenter(f.cfg, f.cfg.CellOf(viewer.x, viewer.y)))
    ensures var sub := AtCenter(f.cfg, f.cfg.CellOf(viewer.x, viewer.y));
      var found := FoundAll(viewer, f.cfg.viewRadius, f.rows, FullWalk(f, viewer, sub));
      Around(viewer, f.cfg.viewRadius, row) <==>
        exists d :: d in found && d.index < |f.rows| && f.rows[d.index] == row && Tells(viewer, row, d)
  {
    GatherListsRow(f, all, viewer, row);
    var sub := AtCenter(f.cfg, f.cfg.CellOf(viewer.x, viewer.y));
    var walk := FullWalk(f, viewer, sub);
    var found := FoundAll(viewer, f.cfg.viewRadius, f.rows, walk);
    DiscoverTells(viewer, f.cfg.viewRadius, row, 0);
    if InView(viewer, f.cfg.viewRadius, row) {
      var d :| d in found && d.index < |f.rows| && f.rows[d.index] == row && d == Discover(viewer, row, d.index);
      DiscoverTells(viewer, f.cfg.viewRadius, row, d.index);
    }
    if d :| d in found && d.index < |f.rows| && f.rows[d.index] == row && Tells(viewer, row, d) {
      FoundAllExact(viewer, f.cfg.viewRadius, f.rows, walk);
    }
  }

  lemma {:induction false} ListedAt(found: seq<Discovered>, i: nat) returns (d: Discovered)
    requires Times(found, i) > 0
    ensures d in found && d.index == i
  {
    d := found[|found| - 1];
    if d.index != i {
      d := ListedAt(found[..|found| - 1], i);
    }
  }

  lemma {:induction false} ListedOften(found: seq<Discovered>, d: Discovered)
    requires d in found
    ensures Times(found, d.index) > 0
  {
    if found[|found| - 1] != d {
      assert found == found[..|found| - 1] + [found[|found| - 1]];
      ListedOften(found[..|found| - 1], d);
    }
  }
}
