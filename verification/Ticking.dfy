/** One region's tick after its game has stepped: what moved is measured, what is shown is
    sorted into cells, and viewers are served from both. */
module Ticking {
  import opened Numbers
  import opened Config
  import opened Probing
  import opened CountingSort
  import opened Snapshot
  import opened Ordering
  import opened Gather
  import opened GatherExact
  import opened Select
  import opened Rounds
  import opened Serve
  import Odometer
  import Packet
  import Stepping

  /** The entities of a set, ascending. */
  function Listing(ids: set<nat>, n: nat): (list: seq<nat>)
    ensures forall id :: id in list <==> id in ids && id < n
    ensures Odometer.Ascending(list)
  {
    if n == 0 then []
    else
      var front := Listing(ids, n - 1);
      assert forall i :: 0 <= i < |front| ==> front[i] in front;
      if n - 1 in ids then front + [n - 1] else front
  }

  /** The columns a snapshot is taken of. */
  function ColumnsOf(at: seq<Pos3>, tags: seq<u16>, names: seq<u64>, region: nat): (cols: Columns)
    requires |at| == |tags| == |names| <= 0x1_0000_0000 && region < 0x8000_0000
    ensures cols.Parallel() && |cols.xs| == |at|
  {
    Columns(seq(|at|, i requires 0 <= i < |at| => at[i].x), seq(|at|, i requires 0 <= i < |at| => at[i].y),
            seq(|at|, i requires 0 <= i < |at| => at[i].z), tags, names, region)
  }

  /** The rows of what a tick shows. */
  function RowsShown(f: Frame, t: Odometer.Motion): seq<Row>
    requires |t.at| == |t.tags| == |f.names| <= 0x1_0000_0000 && f.region < 0x8000_0000
  {
    LiveRows(ColumnsOf(t.at, t.tags, f.names, f.region), t.shown)
  }

  /** The frame of one tick: its readings, its positions, and the snapshot of exactly what it
      shows, all taken of the same columns. */
  ghost predicate FrameOf(f: Frame, t: Odometer.Motion, r: Odometer.Readings) {
    && Shared(f) && Odometer.Sensible(t) && |t.at| == |f.names|
    && f.readings == r.total && f.at == t.at
    && (forall id :: id in f.live <==> id in t.live) && (forall id :: id in f.shown <==> id in t.shown)
    && Snaps(f.snap, RowsShown(f, t)) && |f.snap.rows| == |RowsShown(f, t)|
  }

  lemma {:induction false} RowsCount(cols: Columns, live: seq<nat>)
    requires cols.Parallel() && forall k :: 0 <= k < |live| ==> live[k] < |cols.xs|
    ensures |LiveRows(cols, live)| == |live|
  {
    if live != [] {
      RowsCount(cols, live[1..]);
    }
  }

  /** Where and what an entity shown now is. */
  ghost predicate Current(t: Odometer.Motion, row: Row)
    requires |t.at| == |t.tags|
  {
    && row.id in t.shown && row.id < |t.at|
    && Pos3(row.x, row.y, row.z) == t.at[row.id] && row.tag == t.tags[row.id]
  }

  lemma {:induction false} ShownIsCurrent(f: Frame, t: Odometer.Motion, row: Row)
    requires Odometer.Sensible(t) && |t.at| == |f.names| <= 0x1_0000_0000 && f.region < 0x8000_0000
    requires row in RowsShown(f, t)
    ensures Current(t, row)
  {
    LiveRowsAscend(ColumnsOf(t.at, t.tags, f.names, f.region), t.shown);
  }

  /** The snapshot of a tick holds the rows it shows and no others. */
  lemma {:induction false} SnapsShown(f: Frozen, all: seq<Row>, k: nat)
    requires Snaps(f, all) && |f.rows| == |all| && k < |f.rows|
    ensures f.rows[k] in all
  {
    CellKeysBelow(f.cfg, all);
    SubKeysBelow(f.cfg, f.subAxis, all);
    SnapshotPermutes(f.rows, f.starts, f.divisions, f.subStarts, all, CellKey(f.cfg), f.cfg.grid.cellsPerRegion,
      SubKey(f.cfg, f.subAxis), f.subAxis * f.subAxis);
    assert f.rows[..|all|] == f.rows;
    assert f.rows[k] in multiset(f.rows);
  }

  /** A row of a tick's snapshot is of an entity the tick shows, where it stands, with the
      tag it has. */
  lemma {:induction false} RowIsCurrent(f: Frame, t: Odometer.Motion, r: Odometer.Readings, k: nat)
    requires FrameOf(f, t, r) && k < |f.snap.rows|
    ensures Current(t, f.snap.rows[k])
  {
    SnapsShown(f.snap, RowsShown(f, t), k);
    ShownIsCurrent(f, t, f.snap.rows[k]);
  }

  /** And goes by the name a despawn of that entity would go by: what it was given if it was
      given one, and otherwise its region and id. */
  lemma {:induction false} RowIsNamed(f: Frame, t: Odometer.Motion, r: Odometer.Readings, k: nat)
    requires FrameOf(f, t, r) && k < |f.snap.rows|
    ensures var row := f.snap.rows[k];
      && row.id < |f.names| && row.name == NameOf(f, row.id)
      && (f.names[row.id] != 0 ==> row.name == f.names[row.id])
      && (f.names[row.id] == 0 ==> row.name == OfRegion(f.region, row.id))
  {
    SnapsShown(f.snap, RowsShown(f, t), k);
    LiveRowsAscend(ColumnsOf(t.at, t.tags, f.names, f.region), t.shown);
  }

  /** The columns of a frame, before its snapshot is looked at. */
  ghost predicate Columned(f: Frame, t: Odometer.Motion, r: Odometer.Readings) {
    && Odometer.Sensible(t) && |t.at| == |f.names| == |r.total| < EMPTY && f.region < 0x8000_0000
    && f.readings == r.total && f.at == t.at && Sound(f.policy) && |t.shown| < NEW_BIT
    && (forall id :: id in f.live <==> id in t.live) && (forall id :: id in f.shown <==> id in t.shown)
    && (forall id :: id in t.live ==> f.snap.cfg.Contains(t.at[id]))
  }

  /** A snapshot as the sort leaves it, with its visit orders. */
  ghost predicate Sorted(f: Frozen, all: seq<Row>) {
    && f.cfg.Valid() && PowerOfTwo(f.subAxis) && TrailingZeros(f.subAxis) <= f.cfg.grid.cellShift
    && Arranged(f.rows, f.starts, f.divisions, f.subStarts, all, CellKey(f.cfg), f.cfg.grid.cellsPerRegion,
                SubKey(f.cfg, f.subAxis), f.subAxis * f.subAxis)
    && CellOrder(f.cellOrder, f.cfg.grid.cellRadius) && SubOrders(f.subOrder, f.subAxis)
  }

  lemma {:induction false} ShownSnaps(f: Frame, t: Odometer.Motion, r: Odometer.Readings)
    requires Columned(f, t, r) && Sorted(f.snap, RowsShown(f, t))
    ensures Snaps(f.snap, RowsShown(f, t))
  {
    var all := RowsShown(f, t);
    forall k | 0 <= k < |all|
      ensures f.snap.cfg.Contains2d(all[k].x, all[k].y)
    {
      ShownIsCurrent(f, t, all[k]);
    }
  }

  lemma {:induction false} ShownCount(f: Frame, t: Odometer.Motion)
    requires Odometer.Sensible(t) && |t.at| == |f.names| <= 0x1_0000_0000 && f.region < 0x8000_0000
    ensures |RowsShown(f, t)| == |t.shown|
  {
    var cols := ColumnsOf(t.at, t.tags, f.names, f.region);
    forall k | 0 <= k < |t.shown|
      ensures t.shown[k] < |cols.xs|
    {
      assert t.shown[k] in t.live;
    }
    RowsCount(cols, t.shown);
  }

  lemma {:induction false} FrameHolds(f: Frame, t: Odometer.Motion, r: Odometer.Readings)
    requires Columned(f, t, r) && Sorted(f.snap, RowsShown(f, t)) && |f.snap.rows| == |t.shown|
    ensures FrameOf(f, t, r)
  {
    var all := RowsShown(f, t);
    ShownSnaps(f, t, r);
    ShownCount(f, t);
    SnapsIsWalkable(f.snap, all);
    forall k | 0 <= k < |f.snap.rows|
      ensures RowInside(f.snap.cfg, f.snap.rows[k], |f.readings|)
    {
      SnapsShown(f.snap, all, k);
      ShownIsCurrent(f, t, f.snap.rows[k]);
    }
  }

  /** What one viewer has of one tick. */
  datatype Beat = Beat(motion: Odometer.Motion, frame: Frame, at: Pos3, sequence: u16, o: Outcome, buf: seq<byte>)

  /** A tick of a region, and one viewer served in it or left as it was: its frame is of the
      readings after the tick and of the columns the tick measured. */
  ghost predicate Beats(b: Budget, c: Packet.RecordCodec, p: Policy, before: Odometer.Readings, side: Replica,
      beat: Beat, after: Odometer.Readings, side': Replica)
    requires Packet.Codec(c)
  {
    && Odometer.Parallel(before) && Odometer.Sensible(beat.motion)
    && Odometer.Ticked(before, beat.motion, p.unseenDrift, after)
    && FrameOf(beat.frame, beat.motion, after) && beat.frame.policy == p
    && if beat.o.Served?
       then Answered(beat.frame, b, c, beat.at, side, beat.sequence, beat.o, side', beat.buf)
       else side' == side
  }

  /** What is alive and shown in a world. */
  ghost function MotionOf(w: Stepping.World): Odometer.Motion
    reads w
  {
    Odometer.Motion(w.at, w.tags, Listing(w.shown, |w.at|), Listing(w.live, |w.at|))
  }

  class Region {
    const world: Stepping.World
    const meter: Odometer.Meter
    const snap: CellSnapshot
    const cellOrder: seq<Offset>
    const subOrder: seq<seq<nat>>
    const policy: Policy
    const walkCap: nat
    const region: nat
    var tick: u32

    /** The parts agree on the region, and the odometer covers no more than the columns. */
    ghost predicate Valid()
      reads this, world, meter, snap
    {
      && world.Valid() && meter.Valid() && snap.Valid() && snap.cfg == world.cfg
      && |meter.total| <= |world.at| < EMPTY && |Listing(world.shown, |world.at|)| < NEW_BIT
      && CellOrder(cellOrder, world.cfg.grid.cellRadius) && SubOrders(subOrder, snap.subAxis)
      && Sound(policy) && region < 0x8000_0000
    }

    constructor (cfg: WorldConfig, subAxis: nat, subThreshold: nat, policy: Policy, walkCap: nat, region: nat)
      requires cfg.Valid() && PowerOfTwo(subAxis) && TrailingZeros(subAxis) <= cfg.grid.cellShift
      requires Sound(policy) && region < 0x8000_0000
      ensures Valid() && world.cfg == cfg && world.live == {} && meter.State() == Odometer.Readings([], [], [])
      ensures fresh(world) && fresh(meter) && fresh(snap)
    {
      var w := new Stepping.World(cfg);
      var s := new CellSnapshot(cfg, subAxis, subThreshold);
      var m := new Odometer.Meter();
      var cells := BuildCellOrder(cfg.grid.cellRadius);
      var subs := BuildSubOrder(subAxis);
      world, meter, snap, cellOrder, subOrder := w, m, s, cells, subs;
      this.policy, this.walkCap, this.region, tick := policy, walkCap, region, 0;
    }

    /** Everything a tick does before it serves anybody. */
    method Advance() returns (f: Frame)
      requires Valid()
      modifies this`tick, meter, snap, snap.rows, snap.starts, snap.divisions
      ensures Valid() && tick == WrapAdd(old(tick), 1)
      ensures snap.starts == old(snap.starts) && snap.divisions == old(snap.divisions)
      ensures snap.rows == old(snap.rows) || fresh(snap.rows)
      ensures Odometer.Ticked(old(meter.State()), MotionOf(world), policy.unseenDrift, meter.State())
      ensures FrameOf(f, MotionOf(world), meter.State())
      ensures f.tick == tick && f.policy == policy && f.walkCap == walkCap && f.snap.cfg == world.cfg
    {
      tick := WrapAdd(tick, 1);
      var n := |world.at|;
      var shown, live := Listing(world.shown, n), Listing(world.live, n);
      var t := Odometer.Motion(world.at, world.tags, shown, live);
      var cols := ColumnsOf(world.at, world.tags, world.names, region);
      meter.Tick(t, policy.unseenDrift);
      snap.Update(cols, shown);
      var frozen := Frozen(snap.cfg, snap.subAxis, snap.rows[..], snap.starts[..], snap.divisions[..], snap.subStarts,
                           cellOrder, subOrder);
      f := Frame(tick, frozen, meter.total, world.live, world.shown, world.names, region, world.at, policy, walkCap);
      FrameHolds(f, t, meter.State());
    }

    /** A whole tick for one viewer. */
    method Tick(id: u32, v: Viewer, w: Packet.PacketWriter) returns (o: Outcome, ghost beat: Beat)
      requires Valid() && Ready(v, w, |world.at|, policy)
      modifies this`tick, meter, snap, snap.rows, snap.starts, snap.divisions
      modifies v`sub, v`atBoundary, v`pending, v`sequence, v.ghosts, v.ghosts.slots, w
      ensures Valid() && v.ghosts.Valid() && beat.motion == MotionOf(world)
      ensures beat.frame.tick == tick == WrapAdd(old(tick), 1) && beat.o == o && beat.buf == w.buf
      ensures Beats(v.budget, w.codec, policy, old(meter.State()), old(v.Side()), beat, meter.State(), v.Side())
    {
      ghost var before := meter.State();
      var f := Advance();
      o, beat := ServeIn(f, MotionOf(world), before, meter.State(), id, v, w);
    }
  }

  /** A viewer that can be served: its client's declared payload holds a record, its ghosts
      are ids the columns cover, and its table has room to grow. */
  ghost predicate Ready(v: Viewer, w: Packet.PacketWriter, covered: nat, p: Policy)
    reads v, v.ghosts, v.ghosts.slots, w
  {
    && Packet.Codec(w.codec) && v.ghosts.Valid() && (v.registered ==> Sized(v.budget, w.codec))
    && (forall k :: 0 <= k < |v.pending| ==> v.pending[k] < covered)
    && 2 * (|v.ghosts.Contents()| + p.ghostCap) <= 0x1_0000_0000
  }

  /** One viewer of a tick. */
  method ServeIn(f: Frame, ghost t: Odometer.Motion, ghost before: Odometer.Readings, ghost after: Odometer.Readings,
      id: u32, v: Viewer, w: Packet.PacketWriter)
    returns (o: Outcome, ghost beat: Beat)
    requires FrameOf(f, t, after) && Odometer.Parallel(before)
    requires Odometer.Ticked(before, t, f.policy.unseenDrift, after) && Ready(v, w, |f.names|, f.policy)
    modifies v`sub, v`atBoundary, v`pending, v`sequence, v.ghosts, v.ghosts.slots, w
    ensures v.ghosts.Valid() && (v.ghosts.slots == old(v.ghosts.slots) || fresh(v.ghosts.slots))
    ensures beat.motion == t && beat.frame == f && beat.o == o && beat.buf == w.buf
    ensures o.Served? <==> old(v.Serving(f, id))
    ensures Beats(v.budget, w.codec, f.policy, before, old(v.Side()), beat, after, v.Side())
  {
    ghost var at := if v.avatar < |f.at| then f.at[v.avatar] else Pos3(0, 0, 0);
    o := Serve.Serve(f, RowsShown(f, t), id, v, w);
    beat := Beat(t, f, at, v.sequence, o, w.buf);
  }
}
