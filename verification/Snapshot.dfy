/** A stable counting sort of rows into cells, and again, within the dense ones, into
    sub-cells. */
module Snapshot {
  import opened Numbers
  import opened Config
  import opened CountingSort

  /** One entity as the snapshot stores it. */
  datatype Row = Row(id: nat, x: i32, y: i32, z: i32, tag: u16, name: u64)

  /** Parallel columns, one entry an id, of one region. */
  datatype Columns = Columns(xs: seq<i32>, ys: seq<i32>, zs: seq<i32>, tags: seq<u16>, names: seq<u64>, region: nat) {
    predicate Parallel() {
      |xs| == |ys| == |zs| == |tags| == |names| && region < 0x8000_0000 && |xs| <= 0x1_0000_0000
    }
  }

  /** A region and an id in one word. */
  function OfRegion(region: nat, id: nat): u64
    requires region < 0x8000_0000 && id < 0x1_0000_0000
  {
    region * 0x1_0000_0000 + id
  }

  function RowOf(cols: Columns, id: nat): Row
    requires cols.Parallel() && id < |cols.xs|
  {
    Row(id, cols.xs[id], cols.ys[id], cols.zs[id], cols.tags[id],
        if cols.names[id] == 0 then OfRegion(cols.region, id) else cols.names[id])
  }

  /** The rows of the live entities the columns cover, in the order `live` lists them. */
  function LiveRows(cols: Columns, live: seq<nat>): (r: seq<Row>)
    requires cols.Parallel()
  {
    if live == [] || live[0] >= |cols.xs| then []
    else [RowOf(cols, live[0])] + LiveRows(cols, live[1..])
  }

  /** Whether a cell was divided, and where its sub-cell offsets begin. */
  datatype Division = Whole | Divided(base: nat)

  function CellKey(cfg: WorldConfig): Row -> nat
    requires cfg.grid.cellsPerAxis >= 1
  {
    (r: Row) => cfg.CellId(cfg.CellOf(r.x, r.y))
  }

  /** The sub-cell of a position within its own cell. */
  function SubKey(cfg: WorldConfig, axis: nat): Row -> nat
    requires axis > 0 && TrailingZeros(axis) <= cfg.grid.cellShift
  {
    (r: Row) =>
      SubIndex(cfg, axis, And(AsWord(r.x), cfg.grid.cellMask), And(AsWord(r.y), cfg.grid.cellMask))
  }

  function SubIndex(cfg: WorldConfig, axis: nat, dx: nat, dy: nat): nat
    requires axis > 0 && TrailingZeros(axis) <= cfg.grid.cellShift
  {
    var shift := cfg.grid.cellShift - TrailingZeros(axis);
    Shr(dy, shift) * axis + Shr(dx, shift)
  }

  /** A cell's range holds exactly the rows of that cell in order, or, if the cell is
      divided, those rows stably sorted by sub-cell with every offset on record. */
  ghost predicate CellArranged(rows: seq<Row>, div: Division, subStarts: seq<nat>,
      lo: nat, occupants: seq<Row>, subKey: Row -> nat, buckets: nat)
  {
    && lo + |occupants| <= |rows|
    && match div
       case Whole => rows[lo..lo + |occupants|] == occupants
       case Divided(base) =>
         && base + buckets < |subStarts|
         && (forall b :: 0 <= b <= buckets ==> subStarts[base + b] == lo + Start(occupants, subKey, b))
         && Bucketed(rows, lo, occupants, subKey, buckets)
  }

  lemma {:induction false} CellKeysBelow(cfg: WorldConfig, all: seq<Row>)
    requires cfg.Valid()
    ensures KeysBelow(all, CellKey(cfg), cfg.grid.cellsPerRegion)
  {
    forall i | 0 <= i < |all|
      ensures CellKey(cfg)(all[i]) < cfg.grid.cellsPerRegion
    {
      var c := cfg.CellOf(all[i].x, all[i].y);
      CellsInGrid(cfg, all[i].x, all[i].y);
      IdsInRegion(cfg, c.x, c.y);
    }
  }

  /** Sub-cell indices stay inside the sub-grid. */
  lemma {:induction false} SubKeysBelow(cfg: WorldConfig, axis: nat, all: seq<Row>)
    requires cfg.Valid() && PowerOfTwo(axis) && TrailingZeros(axis) <= cfg.grid.cellShift
    ensures KeysBelow(all, SubKey(cfg, axis), axis * axis)
  {
    forall i | 0 <= i < |all|
      ensures SubKey(cfg, axis)(all[i]) < axis * axis
    {
      SubOffsetBelow(cfg, axis, AsWord(all[i].x));
      SubOffsetBelow(cfg, axis, AsWord(all[i].y));
      var shift := cfg.grid.cellShift - TrailingZeros(axis);
      RowMajorBelow(Shr(And(AsWord(all[i].x), cfg.grid.cellMask), shift),
                    Shr(And(AsWord(all[i].y), cfg.grid.cellMask), shift), axis);
    }
  }

  lemma {:induction false} SubOffsetBelow(cfg: WorldConfig, axis: nat, v: nat)
    requires cfg.Valid() && PowerOfTwo(axis) && TrailingZeros(axis) <= cfg.grid.cellShift
    ensures Shr(And(v, cfg.grid.cellMask), cfg.grid.cellShift - TrailingZeros(axis)) < axis
  {
    var shift := cfg.grid.cellShift - TrailingZeros(axis);
    AndMask(v, cfg.grid.cellShift);
    Pow2Add(TrailingZeros(axis), shift);
    ShrBelow(And(v, cfg.grid.cellMask), shift, axis);
  }

  // ----- the three passes -----

  /** Pass one: how many rows each bucket gets, left one place on. */
  method Tally(table: array<nat>, s: seq<Row>, key: Row -> nat, buckets: nat)
    requires table.Length == buckets + 1 && KeysBelow(s, key, buckets)
    modifies table
    ensures table[0] == 0
    ensures forall b :: 1 <= b <= buckets ==> table[b] == |Keyed(s, key, b - 1)|
  {
    for b := 0 to table.Length
      invariant forall c :: 0 <= c < b ==> table[c] == 0
    {
      table[b] := 0;
    }
    for k := 0 to |s|
      invariant table[0] == 0
      invariant forall b :: 1 <= b <= buckets ==> table[b] == |KeyedTo(s, key, b - 1, k)|
    {
      var b := key(s[k]) + 1;
      table[b] := table[b] + 1;
    }
  }

  /** Pass two: the running total, seeded, so each place holds where its bucket starts. */
  method RunningTotal(table: array<nat>, ghost s: seq<Row>, ghost key: Row -> nat, buckets: nat, seed: nat)
    requires table.Length == buckets + 1
    requires forall b :: 1 <= b <= buckets ==> table[b] == |Keyed(s, key, b - 1)|
    modifies table
    ensures forall b :: 0 <= b <= buckets ==> table[b] == seed + Start(s, key, b)
  {
    table[0] := seed;
    for b := 0 to buckets
      invariant forall c :: 0 <= c <= b ==> table[c] == seed + Start(s, key, c)
      invariant forall c :: b < c <= buckets ==> table[c] == |Keyed(s, key, c - 1)|
    {
      table[b + 1] := table[b + 1] + table[b];
    }
  }

  /** Pass three: every row to the next place of its bucket, in order. */
  method Scatter(out: array<Row>, cursor: array<nat>, s: seq<Row>, key: Row -> nat, buckets: nat, seed: nat)
    requires cursor.Length == buckets && KeysBelow(s, key, buckets) && |s| <= out.Length
    requires forall b :: 0 <= b < buckets ==> cursor[b] == seed + Start(s, key, b)
    modifies out, cursor
    ensures Bucketed(out[..], 0, s, key, buckets)
    ensures out[|s|..] == old(out[|s|..])
  {
    ScatterStarts(out[..], 0, s, key, buckets);
    for k := 0 to |s|
      invariant Scattered(out[..], 0, s, key, buckets, k)
      invariant forall b :: 0 <= b < buckets ==> cursor[b] == seed + Cursor(0, s, key, b, k)
      invariant out[|s|..] == old(out[|s|..])
    {
      ghost var now := out[..];
      ScatterStep(now, 0, s, key, buckets, k);
      var b := key(s[k]);
      var d := cursor[b] - seed;
      cursor[b] := cursor[b] + 1;
      out[d] := s[k];
      assert out[..] == now[d := s[k]];
    }
    ScatterEnds(out[..], 0, s, key, buckets);
  }

  // ----- what a snapshot is -----

  ghost predicate CellAt(rows: seq<Row>, starts: seq<nat>, divisions: seq<Division>, subStarts: seq<nat>,
      all: seq<Row>, cellKey: Row -> nat, subKey: Row -> nat, buckets: nat, c: int)
    requires 0 <= c < |starts| && c < |divisions|
  {
    CellArranged(rows, divisions[c], subStarts, starts[c], Keyed(all, cellKey, c), subKey, buckets)
  }

  /** The snapshot's arrays hold `all`, cell by cell. */
  ghost predicate Arranged(rows: seq<Row>, starts: seq<nat>, divisions: seq<Division>, subStarts: seq<nat>,
      all: seq<Row>, cellKey: Row -> nat, cells: nat, subKey: Row -> nat, buckets: nat)
  {
    && |starts| == cells + 1 && |divisions| == cells
    && |all| <= |rows|
    && (forall c {:trigger starts[c]} :: 0 <= c <= cells ==> starts[c] == Start(all, cellKey, c))
    && (forall c {:trigger CellAt(rows, starts, divisions, subStarts, all, cellKey, subKey, buckets, c)} ::
          0 <= c < cells ==> CellAt(rows, starts, divisions, subStarts, all, cellKey, subKey, buckets, c))
  }

  /** Before any cell is divided, each holds its rows in order. */
  lemma {:induction false} WholeArranged(rows: seq<Row>, starts: seq<nat>, divisions: seq<Division>, all: seq<Row>,
      cellKey: Row -> nat, cells: nat, subKey: Row -> nat, buckets: nat)
    requires |starts| == cells + 1 && |divisions| == cells
    requires forall c :: 0 <= c < |starts| ==> starts[c] == Start(all, cellKey, c)
    requires forall c :: 0 <= c < cells ==> divisions[c].Whole?
    requires Bucketed(rows, 0, all, cellKey, cells)
    ensures Arranged(rows, starts, divisions, [], all, cellKey, cells, subKey, buckets)
  {
    forall c | 0 <= c < cells
      ensures CellAt(rows, starts, divisions, [], all, cellKey, subKey, buckets, c)
    {
      assert Bucket(rows, 0, all, cellKey, c);
    }
  }

  lemma {:induction false} WholeCell(rows: seq<Row>, starts: seq<nat>, divisions: seq<Division>, subStarts: seq<nat>,
      all: seq<Row>, cellKey: Row -> nat, cells: nat, subKey: Row -> nat, buckets: nat, c: nat)
    requires KeysBelow(all, cellKey, cells) && c < cells && |divisions| == cells && divisions[c].Whole?
    requires Arranged(rows, starts, divisions, subStarts, all, cellKey, cells, subKey, buckets)
    ensures starts[c] <= starts[c + 1] <= |rows|
    ensures rows[starts[c]..starts[c + 1]] == Keyed(all, cellKey, c)
  {
    assert CellAt(rows, starts, divisions, subStarts, all, cellKey, subKey, buckets, c);
  }

  /** Cells do not share places. */
  lemma {:induction false} CellsDisjoint(all: seq<Row>, cellKey: Row -> nat, c: nat, d: nat)
    requires c != d
    ensures Start(all, cellKey, d) + |Keyed(all, cellKey, d)| <= Start(all, cellKey, c)
      || Start(all, cellKey, c) + |Keyed(all, cellKey, c)| <= Start(all, cellKey, d)
  {
    if d < c {
      StartMonotone(all, cellKey, d + 1, c);
    } else {
      StartMonotone(all, cellKey, c + 1, d);
    }
  }

  /** A cell whose places are untouched, and whose offsets are kept, is arranged as it was. */
  lemma {:induction false} CellUntouched(rows: seq<Row>, rows': seq<Row>, div: Division, subStarts: seq<nat>,
      subStarts': seq<nat>, lo: nat, occupants: seq<Row>, subKey: Row -> nat, buckets: nat)
    requires CellArranged(rows, div, subStarts, lo, occupants, subKey, buckets)
    requires KeysBelow(occupants, subKey, buckets)
    requires lo + |occupants| <= |rows'|
    requires rows'[lo..lo + |occupants|] == rows[lo..lo + |occupants|]
    requires subStarts <= subStarts'
    ensures CellArranged(rows', div, subStarts', lo, occupants, subKey, buckets)
  {
    if div.Divided? {
      BucketedMoves(rows, lo, rows', lo, occupants, subKey, buckets);
    }
  }

  /** Sorting one whole cell's places by sub-cell leaves every cell arranged. */
  lemma {:induction false} CellDivided(rows: seq<Row>, rows': seq<Row>, starts: seq<nat>, divisions: seq<Division>,
      subStarts: seq<nat>, subStarts': seq<nat>, all: seq<Row>, cellKey: Row -> nat, cells: nat,
      subKey: Row -> nat, buckets: nat, c: nat)
    requires KeysBelow(all, cellKey, cells) && KeysBelow(all, subKey, buckets)
    requires Arranged(rows, starts, divisions, subStarts, all, cellKey, cells, subKey, buckets)
    requires c < cells && divisions[c].Whole? && |rows'| == |rows|
    requires starts[c] <= starts[c + 1] <= |rows|
    requires rows'[..starts[c]] == rows[..starts[c]] && rows'[starts[c + 1]..] == rows[starts[c + 1]..]
    requires Bucketed(rows', starts[c], Keyed(all, cellKey, c), subKey, buckets)
    requires |subStarts'| == |subStarts| + buckets + 1 && subStarts <= subStarts'
    requires forall b :: 0 <= b <= buckets ==>
      subStarts'[|subStarts| + b] == starts[c] + Start(Keyed(all, cellKey, c), subKey, b)
    ensures Arranged(rows', starts, divisions[c := Divided(|subStarts|)], subStarts', all, cellKey, cells, subKey,
        buckets)
  {
    var divisions' := divisions[c := Divided(|subStarts|)];
    forall d | 0 <= d < cells
      ensures CellAt(rows', starts, divisions', subStarts', all, cellKey, subKey, buckets, d)
    {
      if d != c {
        OtherCellKept(rows, rows', starts, divisions, subStarts, subStarts', all, cellKey, cells, subKey, buckets, c,
            d);
      } else {
        DividedCell(all, cellKey, cells, subKey, buckets, c);
      }
    }
  }

  lemma {:induction false} DividedCell(all: seq<Row>, cellKey: Row -> nat, cells: nat, subKey: Row -> nat,
      buckets: nat, c: nat)
    requires KeysBelow(all, cellKey, cells) && c < cells
    ensures Start(all, cellKey, c) + |Keyed(all, cellKey, c)| <= |all|
  {
    StartMonotone(all, cellKey, c + 1, cells);
    StartsCoverAll(all, cellKey, cells);
  }

  lemma {:induction false} OtherCellKept(rows: seq<Row>, rows': seq<Row>, starts: seq<nat>, divisions: seq<Division>,
      subStarts: seq<nat>, subStarts': seq<nat>, all: seq<Row>, cellKey: Row -> nat, cells: nat,
      subKey: Row -> nat, buckets: nat, c: nat, d: nat)
    requires KeysBelow(all, subKey, buckets)
    requires Arranged(rows, starts, divisions, subStarts, all, cellKey, cells, subKey, buckets)
    requires c < cells && d < cells && d != c && |rows'| == |rows|
    requires starts[c] <= starts[c + 1] <= |rows| && subStarts <= subStarts'
    requires rows'[..starts[c]] == rows[..starts[c]] && rows'[starts[c + 1]..] == rows[starts[c + 1]..]
    ensures CellAt(rows', starts, divisions[c := Whole], subStarts', all, cellKey, subKey, buckets, d)
  {
    var occupants := Keyed(all, cellKey, d);
    var lo, hi := starts[d], starts[d] + |occupants|;
    assert CellAt(rows, starts, divisions, subStarts, all, cellKey, subKey, buckets, d);
    KeyedKeysBelow(all, cellKey, d, subKey, buckets);
    CellsDisjoint(all, cellKey, c, d);
    SliceKept(rows, rows', starts[c], starts[c + 1], lo, hi);
    CellUntouched(rows, rows', divisions[d], subStarts, subStarts', lo, occupants, subKey, buckets);
  }

  lemma {:induction false} SliceKept<T>(s: seq<T>, s': seq<T>, from: nat, to: nat, a: nat, b: nat)
    requires |s'| == |s| && from <= to <= |s| && a <= b <= |s|
    requires s'[..from] == s[..from] && s'[to..] == s[to..]
    requires b <= from || to <= a
    ensures s'[a..b] == s[a..b]
  {
    if b <= from {
      SliceOfSlice(s, 0, from, a, b);
      SliceOfSlice(s', 0, from, a, b);
    } else {
      SliceOfSlice(s, to, |s|, a, b);
      SliceOfSlice(s', to, |s|, a, b);
      assert s[to..|s|] == s[to..] && s'[to..|s|] == s'[to..];
    }
  }

  /** Of the first `upto` cells, the ones divided are exactly the dense ones. */
  ghost predicate DenseDivided(starts: seq<nat>, divisions: seq<Division>, upto: nat, enabled: bool, threshold: nat) {
    upto <= |divisions| < |starts| &&
    forall c {:trigger divisions[c]} :: 0 <= c < upto ==>
      (divisions[c].Divided? <==> enabled && starts[c + 1] - starts[c] >= threshold)
  }

  lemma {:induction false} DenseNext(starts: seq<nat>, divisions: seq<Division>, c: nat, threshold: nat, base: nat)
    requires c < |divisions| < |starts| && DenseDivided(starts, divisions, c, true, threshold)
    requires divisions[c].Whole?
    ensures starts[c + 1] - starts[c] < threshold ==>
      DenseDivided(starts, divisions, c + 1, true, threshold)
    ensures starts[c + 1] - starts[c] >= threshold ==>
      DenseDivided(starts, divisions[c := Divided(base)], c + 1, true, threshold)
  {
  }

  class CellSnapshot {
    const cfg: WorldConfig
    const subAxis: nat
    const subThreshold: nat
    var rows: array<Row>
    var starts: array<nat>
    var divisions: array<Division>
    var subStarts: seq<nat>

    ghost predicate Shaped() {
      && cfg.Valid() && subAxis > 0 && PowerOfTwo(subAxis)
      && TrailingZeros(subAxis) <= cfg.grid.cellShift
    }

    ghost predicate Valid()
      reads this
    {
      && Shaped()
      && starts.Length == cfg.grid.cellsPerRegion + 1
      && divisions.Length == cfg.grid.cellsPerRegion
    }

    /** Nothing sorted yet. */
    constructor (cfg: WorldConfig, subAxis: nat, subThreshold: nat)
      requires cfg.Valid() && PowerOfTwo(subAxis) && TrailingZeros(subAxis) <= cfg.grid.cellShift
      ensures Valid() && this.cfg == cfg && this.subAxis == subAxis && this.subThreshold == subThreshold
      ensures rows.Length == 0 && fresh(rows) && fresh(starts) && fresh(divisions)
    {
      this.cfg, this.subAxis, this.subThreshold := cfg, subAxis, subThreshold;
      rows := new Row[0];
      starts := new nat[cfg.grid.cellsPerRegion + 1](_ => 0);
      divisions := new Division[cfg.grid.cellsPerRegion](_ => Whole);
      subStarts := [];
    }

    function Buckets(): nat {
      subAxis * subAxis
    }

    /** The counting sort of a tick, and the second sort of each dense cell. */
    method Update(cols: Columns, live: seq<nat>)
      requires Valid() && cols.Parallel()
      modifies this, rows, starts, divisions
      ensures Valid() && starts == old(starts) && divisions == old(divisions)
      ensures Arranged(rows[..], starts[..], divisions[..], subStarts, LiveRows(cols, live),
        CellKey(cfg), cfg.grid.cellsPerRegion, SubKey(cfg, subAxis), Buckets())
      ensures DenseDivided(starts[..], divisions[..], divisions.Length, subAxis > 1, subThreshold)
      ensures rows.Length == |live| && (rows == old(rows) || fresh(rows))
    {
      var all := CollectLive(cols, live);
      Resize(|live|);
      CellKeysBelow(cfg, all);
      SubKeysBelow(cfg, subAxis, all);
      SortCells(all, CellKey(cfg), cfg.grid.cellsPerRegion);
      RebuildSubdivisions(all, CellKey(cfg), cfg.grid.cellsPerRegion, SubKey(cfg, subAxis), Buckets());
    }

    method SortCells(all: seq<Row>, key: Row -> nat, cells: nat)
      requires starts.Length == cells + 1 && KeysBelow(all, key, cells) && |all| <= rows.Length
      modifies rows, starts
      ensures forall c :: 0 <= c < starts.Length ==> starts[c] == Start(all, key, c)
      ensures Bucketed(rows[..], 0, all, key, cells)
    {
      Tally(starts, all, key, cells);
      RunningTotal(starts, all, key, cells, 0);
      var table := starts;
      var cursor := new nat[cells](c requires 0 <= c < table.Length reads table => table[c]);
      Scatter(rows, cursor, all, key, cells, 0);
    }

    /** Leaves exactly the dense cells divided. */
    method RebuildSubdivisions(ghost all: seq<Row>, ghost cellKey: Row -> nat, cells: nat, subKey: Row -> nat,
        buckets: nat)
      requires starts.Length == cells + 1 && divisions.Length == cells && |all| <= rows.Length
      requires KeysBelow(all, cellKey, cells) && KeysBelow(all, subKey, buckets)
      requires forall c :: 0 <= c < starts.Length ==> starts[c] == Start(all, cellKey, c)
      requires Bucketed(rows[..], 0, all, cellKey, cells)
      modifies this`subStarts, rows, divisions
      ensures Arranged(rows[..], starts[..], divisions[..], subStarts, all,
        cellKey, cells, subKey, buckets)
      ensures DenseDivided(starts[..], divisions[..], divisions.Length, subAxis > 1, subThreshold)
    {
      subStarts := [];
      ghost var now, table := rows[..], starts[..];
      forall c | 0 <= c < divisions.Length {
        divisions[c] := Whole;
      }
      assert rows[..] == now && starts[..] == table;
      WholeArranged(now, table, divisions[..], all, cellKey, cells, subKey, buckets);
      if subAxis <= 1 {
        return;
      }
      for c := 0 to cells
        invariant Arranged(rows[..], starts[..], divisions[..], subStarts, all, cellKey, cells, subKey, buckets)
        invariant DenseDivided(starts[..], divisions[..], c, true, subThreshold)
        invariant forall d :: c <= d < cells ==> divisions[..][d].Whole?
      {
        ghost var now := divisions[..];
        DenseNext(starts[..], now, c, subThreshold, |subStarts|);
        if starts[c + 1] - starts[c] >= subThreshold {
          Divide(c, all, cellKey, cells, subKey, buckets);
        }
      }
    }

    method Divide(c: nat, ghost all: seq<Row>, ghost cellKey: Row -> nat, ghost cells: nat, subKey: Row -> nat,
        buckets: nat)
      requires starts.Length == cells + 1 && divisions.Length == cells && c < cells && divisions[c].Whole?
      requires KeysBelow(all, cellKey, cells) && KeysBelow(all, subKey, buckets)
      requires Arranged(rows[..], starts[..], divisions[..], subStarts, all,
        cellKey, cells, subKey, buckets)
      modifies this`subStarts, rows, divisions
      ensures Arranged(rows[..], starts[..], divisions[..], subStarts, all,
        cellKey, cells, subKey, buckets)
      ensures divisions[..] == old(divisions[..])[c := Divided(|old(subStarts)|)]
    {
      ghost var was, wasSub, wasDiv, table := rows[..], subStarts, divisions[..], starts[..];
      var lo, hi := starts[c], starts[c + 1];
      WholeCell(was, table, wasDiv, wasSub, all, cellKey, cells, subKey, buckets, c);
      KeyedKeysBelow(all, cellKey, c, subKey, buckets);
      divisions[c] := Divided(|subStarts|);
      Subdivide(lo, hi, subKey, buckets);
      assert starts[..] == table && divisions[..] == wasDiv[c := Divided(|wasSub|)];
      CellDivided(was, rows[..], table, wasDiv, wasSub, subStarts, all, cellKey, cells,
                  subKey, buckets, c);
    }

    /** Sorts one range by sub-cell and records where each begins; scratch holds the result
        until the range can be overwritten. */
    method Subdivide(lo: nat, hi: nat, key: Row -> nat, buckets: nat)
      requires lo <= hi <= rows.Length && KeysBelow(rows[lo..hi], key, buckets)
      modifies this`subStarts, rows
      ensures Bucketed(rows[..], lo, old(rows[lo..hi]), key, buckets)
      ensures rows[..lo] == old(rows[..lo]) && rows[hi..] == old(rows[hi..])
      ensures |subStarts| == |old(subStarts)| + buckets + 1 && old(subStarts) <= subStarts
      ensures forall b :: 0 <= b <= buckets ==>
        subStarts[|old(subStarts)| + b] == lo + Start(old(rows[lo..hi]), key, b)
    {
      var s := rows[lo..hi];
      var table := new nat[buckets + 1];
      Tally(table, s, key, buckets);
      RunningTotal(table, s, key, buckets, lo);
      subStarts := subStarts + table[..];
      var cursor := new nat[buckets](b requires 0 <= b < table.Length reads table => table[b]);
      var scratch := new Row[hi - lo](_ => Row(0, 0, 0, 0, 0, 0));
      Scatter(scratch, cursor, s, key, buckets, lo);
      ghost var sorted := scratch[..];
      forall i | lo <= i < hi {
        rows[i] := scratch[i - lo];
      }
      assert scratch[..] == sorted;
      assert sorted[0..0 + |s|] == rows[..][lo..lo + |s|];
      BucketedMoves(sorted, 0, rows[..], lo, s, key, buckets);
    }

    method Resize(n: nat)
      modifies this`rows
      ensures rows.Length == n && (rows == old(rows) || fresh(rows))
    {
      if rows.Length != n {
        var was := rows;
        rows := new Row[n](i requires 0 <= i reads was =>
          if i < was.Length then was[i] else Row(0, 0, 0, 0, 0, 0));
      }
    }

    /** The live entities' rows, in id order, up to the first id past the columns. */
    method CollectLive(cols: Columns, live: seq<nat>) returns (all: seq<Row>)
      requires cols.Parallel()
      ensures all == LiveRows(cols, live) && |all| <= |live|
    {
      all := [];
      var k := 0;
      while k < |live|
        invariant k <= |live| && |all| == k
        invariant LiveRows(cols, live) == all + LiveRows(cols, live[k..])
      {
        if live[k] >= |cols.xs| {
          break;
        }
        all := all + [RowOf(cols, live[k])];
        k := k + 1;
      }
    }
  }
}
