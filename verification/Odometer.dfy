/** Accumulated displacement: what a client's copy of an entity may be missing. */
module Odometer {
  import opened Numbers
  import opened Config

  // ----- one tick, as a function -----

  /** How far apart two positions are along the axes. */
  function Manhattan(a: Pos3, b: Pos3): nat {
    Numbers.Abs(a.x - b.x) + Numbers.Abs(a.y - b.y) + Numbers.Abs(a.z - b.z)
  }

  /** One call's displacement, saturating. */
  function StepOf(a: Pos3, b: Pos3): u32 {
    SatAdd(SatAdd(Numbers.Abs(a.x - b.x), Numbers.Abs(a.y - b.y)), Numbers.Abs(a.z - b.z))
  }

  /** What a tick shows the odometer: every slot's position and tag, the entities whose
      movement counts, and those whose tags do. */
  datatype Motion = Motion(at: seq<Pos3>, tags: seq<u16>, shown: seq<nat>, live: seq<nat>)

  /** Ids ascend, and every live one is below the array length. */
  ghost predicate Sensible(t: Motion) {
    && |t.at| == |t.tags|
    && Ascending(t.shown) && Ascending(t.live)
    && (forall id :: id in t.live ==> id < |t.at|)
    && (forall id :: id in t.shown ==> id in t.live)
  }

  ghost predicate Ascending(ids: seq<nat>) {
    forall i, j :: 0 <= i < j < |ids| ==> ids[i] < ids[j]
  }

  /** Readings, and the position and tag each slot was last read at. */
  datatype Readings = Readings(total: seq<u32>, prev: seq<Pos3>, tags: seq<u16>)

  ghost predicate Parallel(r: Readings) {
    |r.total| == |r.prev|
  }

  /** A slot's reading, none before it is first covered. */
  function TotalAt(r: Readings, i: nat): u32 {
    if i < |r.total| then r.total[i] else 0
  }

  /** Where a slot was last seen: where it is now, if it never was. */
  function PrevAt(r: Readings, at: seq<Pos3>, i: nat): Pos3
    requires i < |r.prev| || i < |at|
  {
    if i < |r.prev| then r.prev[i] else at[i]
  }

  function TagAt(r: Readings, i: nat): u16 {
    if i < |r.tags| then r.tags[i] else 0
  }

  /** What a tick adds to an entity's path: its displacement if it is shown, and the bump
      if it is live and its tag changed. */
  function Travelled(r: Readings, t: Motion, id: nat, bump: u32): nat
    requires id < |t.at| == |t.tags|
  {
    (if id in t.shown then StepOf(PrevAt(r, t.at, id), t.at[id]) else 0)
    + (if id in t.live && t.tags[id] != TagAt(r, id) then bump else 0)
  }

  /** The readings after a tick. */
  ghost predicate Ticked(r: Readings, t: Motion, bump: u32, r': Readings)
    requires Sensible(t) && Parallel(r)
  {
    && Parallel(r') && |r'.total| == Max(|r.total|, |t.at|)
    && r'.tags == t.tags
    && (forall id :: 0 <= id < |t.at| ==> r'.total[id] == (TotalAt(r, id) + Travelled(r, t, id, bump)) % 0x1_0000_0000)
    && (forall id :: |t.at| <= id < |r'.total| ==> r'.total[id] == r.total[id])
    && (forall id :: 0 <= id < |r'.prev| ==>
          r'.prev[id] == if id in t.shown then t.at[id] else PrevAt(r, t.at, id))
  }

  // ----- runs -----

  /** Ticks in order, from one reading to another. */
  ghost predicate Runs(states: seq<Readings>, ticks: seq<Motion>, bump: u32) {
    && |states| == |ticks| + 1
    && (forall k :: 0 <= k < |states| ==> Parallel(states[k]))
    && (forall k :: 0 <= k < |ticks| ==> Sensible(ticks[k]) && Ticked(states[k], ticks[k], bump, states[k + 1]))
  }

  /** The entity is shown on every tick of the run. */
  ghost predicate Shown(ticks: seq<Motion>, id: nat) {
    forall k :: 0 <= k < |ticks| ==> id in ticks[k].shown
  }

  /** The entity has been read on the tick before the run starts. */
  predicate Read(r: Readings, id: nat) {
    id < |r.total| && id < |r.prev| && id < |r.tags|
  }

  /** The true length of an entity's path over a run, tag bumps included: no wrapping. */
  ghost function Path(states: seq<Readings>, ticks: seq<Motion>, bump: u32, id: nat): nat
    requires Runs(states, ticks, bump) && Shown(ticks, id)
  {
    if ticks == [] then 0
    else
      var k := |ticks| - 1;
      Path(states[..k + 1], ticks[..k], bump, id) + Travelled(states[k], ticks[k], id, bump)
  }

  lemma {:induction false} RunsFront(states: seq<Readings>, ticks: seq<Motion>, bump: u32, id: nat)
    requires Runs(states, ticks, bump) && Shown(ticks, id) && ticks != []
    ensures Runs(states[..|ticks|], ticks[..|ticks| - 1], bump) && Shown(ticks[..|ticks| - 1], id)
    ensures id in ticks[|ticks| - 1].shown && id < |ticks[|ticks| - 1].at|
  {
  }

  lemma {:induction false} StepIsCappedDistance(a: Pos3, b: Pos3)
    ensures StepOf(a, b) == Min(Manhattan(a, b), 0xFFFF_FFFF)
  {
  }

  lemma {:induction false} ManhattanTriangle(a: Pos3, b: Pos3, c: Pos3)
    ensures Manhattan(a, c) <= Manhattan(a, b) + Manhattan(b, c)
    ensures Manhattan(a, b) == 0 <==> a == b
  {
  }

  lemma {:induction false} WrapCarries(start: nat, path: nat, more: nat)
    ensures ((start + path) % 0x1_0000_0000 + more) % 0x1_0000_0000 == (start + path + more) % 0x1_0000_0000
  {
  }

  /** A reading is its start plus the path, wrapped; the path covers the displacement; and
      a path of nothing leaves the tag where it was. */
  ghost predicate Covers(first: Readings, last: Readings, path: nat, bump: u32, id: nat) {
    && Read(first, id) && Read(last, id)
    && last.total[id] == (first.total[id] + path) % 0x1_0000_0000
    && path >= Min(Manhattan(first.prev[id], last.prev[id]), 0xFFFF_FFFF)
    && (bump > 0 && path == 0 ==> last.tags[id] == first.tags[id])
  }

  lemma {:induction false} CoversNext(first: Readings, r: Readings, t: Motion, r': Readings, path: nat, bump: u32,
      id: nat)
    requires Covers(first, r, path, bump, id) && Sensible(t) && Parallel(r) && Ticked(r, t, bump, r')
    requires id in t.shown && id < |t.at|
    ensures Covers(first, r', path + Travelled(r, t, id, bump), bump, id)
  {
    StepIsCappedDistance(r.prev[id], t.at[id]);
    ManhattanTriangle(first.prev[id], r.prev[id], t.at[id]);
    WrapCarries(first.total[id], path, Travelled(r, t, id, bump));
  }

  lemma {:induction false} PathCovers(states: seq<Readings>, ticks: seq<Motion>, bump: u32, id: nat)
    requires Runs(states, ticks, bump) && Shown(ticks, id) && Read(states[0], id)
    ensures Covers(states[0], states[|ticks|], Path(states, ticks, bump, id), bump, id)
    decreases |ticks|
  {
    if ticks != [] {
      var k := |ticks| - 1;
      RunsFront(states, ticks, bump, id);
      PathCovers(states[..k + 1], ticks[..k], bump, id);
      CoversNext(states[0], states[k], ticks[k], states[k + 1], Path(states[..k + 1], ticks[..k], bump, id), bump, id);
    }
  }

  /** The wrapped difference of two readings is the path between them exactly when that
      path is below 2^32. */
  lemma {:induction false} DifferenceIsPath(states: seq<Readings>, ticks: seq<Motion>, bump: u32, id: nat)
    requires Runs(states, ticks, bump) && Shown(ticks, id) && Read(states[0], id)
    ensures Read(states[|ticks|], id)
    ensures WrapSub(states[|ticks|].total[id], states[0].total[id]) == Path(states, ticks, bump, id)
      <==> Path(states, ticks, bump, id) < 0x1_0000_0000
  {
    PathCovers(states, ticks, bump, id);
    WrapDifference(states[|ticks|].total[id], states[0].total[id], Path(states, ticks, bump, id));
  }

  lemma {:induction false} WrapDifference(now: u32, start: u32, path: nat)
    requires now == (start + path) % 0x1_0000_0000
    ensures WrapSub(now, start) == path % 0x1_0000_0000
    ensures WrapSub(now, start) == path <==> path < 0x1_0000_0000
  {
    var q := (start + path) / 0x1_0000_0000;
    assert now - start == path - q * 0x1_0000_0000;
  }

  /** While the path is below 2^32, a reading that has not changed is of an entity that has
      not moved and has not been retagged. */
  lemma {:induction false} UnchangedIsStill(states: seq<Readings>, ticks: seq<Motion>, bump: u32, id: nat)
    requires Runs(states, ticks, bump) && Shown(ticks, id) && Read(states[0], id) && bump > 0
    requires Path(states, ticks, bump, id) < 0x1_0000_0000
    requires Read(states[|ticks|], id) && WrapSub(states[|ticks|].total[id], states[0].total[id]) == 0
    ensures states[|ticks|].prev[id] == states[0].prev[id]
    ensures states[|ticks|].tags[id] == states[0].tags[id]
  {
    DifferenceIsPath(states, ticks, bump, id);
    PathCovers(states, ticks, bump, id);
    ManhattanTriangle(states[0].prev[id], states[|ticks|].prev[id], states[0].prev[id]);
  }

  /** And the difference of two readings is never less than the displacement between them. */
  lemma {:induction false} DifferenceCovers(states: seq<Readings>, ticks: seq<Motion>, bump: u32, id: nat)
    requires Runs(states, ticks, bump) && Shown(ticks, id) && Read(states[0], id)
    requires Path(states, ticks, bump, id) < 0x1_0000_0000
    ensures Read(states[|ticks|], id)
    ensures WrapSub(states[|ticks|].total[id], states[0].total[id])
      >= Min(Manhattan(states[0].prev[id], states[|ticks|].prev[id]), 0xFFFF_FFFF)
  {
    DifferenceIsPath(states, ticks, bump, id);
    PathCovers(states, ticks, bump, id);
  }

  /** The widest region whose cells fit, eight raw units high. */
  function Widest(): Builder {
    Builder(Some(0x4000_0000), Some(8), Some(0x1_0000), Some(1), Some(20))
  }

  lemma {:induction false} WidestIsValid()
    ensures Build(Widest()).Ok? && Build(Widest()).value.Valid()
    ensures Build(Widest()).value.regionSize == 0x4000_0000 && Build(Widest()).value.verticalExtent == 8
  {
    Pow2Of16();
    Pow2Add(15, 15);
    Pow2IsPowerOfTwo(30);
    assert Pow2(3) == 8;
    Pow2IsPowerOfTwo(3);
    DerivedCellFits(0x1_0000);
    BuildIsValid(Widest());
  }

  /** Corner to corner and back, two raw units higher each time. */
  function CornerAndBack(): seq<Pos3> {
    [Pos3(0, 0, 0), Pos3(0x3FFF_FFFF, 0x3FFF_FFFF, 2), Pos3(0, 0, 4)]
  }

  /** One shown entity, untagged, at each of these places in turn. */
  function Crossing(k: nat): Motion
    requires k < 2
  {
    Motion([CornerAndBack()[k + 1]], [0], [0], [0])
  }

  function Crossed(k: nat): Readings
    requires k <= 2
  {
    Readings([if k == 1 then 0x8000_0000 else 0], [CornerAndBack()[k]], [0])
  }

  lemma {:induction false} CrossingTravels(k: nat)
    requires k < 2
    ensures Travelled(Crossed(k), Crossing(k), 0, 1) == 0x8000_0000
    ensures Sensible(Crossing(k)) && Ticked(Crossed(k), Crossing(k), 1, Crossed(k + 1))
  {
  }

  /** The places stand in a region the builder accepts, and are where the entity is read. */
  lemma {:induction false} CornersInside(k: nat)
    requires k <= 2
    ensures Build(Widest()).Ok? && Build(Widest()).value.Contains(CornerAndBack()[k])
    ensures Crossed(k).prev[0] == CornerAndBack()[k]
  {
    WidestIsValid();
  }

  lemma {:induction false} CrossingRuns()
    ensures Runs([Crossed(0), Crossed(1), Crossed(2)], [Crossing(0), Crossing(1)], 1)
  {
    CrossingTravels(0);
    CrossingTravels(1);
  }

  /** The bound is needed: two moves of one entity inside a region that can be configured
      travel 2^32 between them, and read as no drift at all, four units from where the
      client has it. */
  lemma {:induction false} LongPathAliases()
    ensures var states, ticks := [Crossed(0), Crossed(1), Crossed(2)], [Crossing(0), Crossing(1)];
      && Runs(states, ticks, 1) && Shown(ticks, 0) && Read(states[0], 0)
      && Path(states, ticks, 1, 0) == 0x1_0000_0000
    ensures WrapSub(Crossed(2).total[0], Crossed(0).total[0]) == 0
    ensures Manhattan(Crossed(0).prev[0], Crossed(2).prev[0]) == 4
  {
    CrossingTravels(0);
    CrossingTravels(1);
    CrossingRuns();
    TwoTicks([Crossed(0), Crossed(1), Crossed(2)], [Crossing(0), Crossing(1)]);
  }

  lemma {:induction false} TwoTicks(states: seq<Readings>, ticks: seq<Motion>)
    requires Runs(states, ticks, 1) && Shown(ticks, 0) && |ticks| == 2
    ensures Path(states, ticks, 1, 0) == Travelled(states[0], ticks[0], 0, 1) + Travelled(states[1], ticks[1], 0, 1)
  {
    var s, t := states[..2], ticks[..1];
    RunsFront(states, ticks, 1, 0);
    assert s[..1] == [states[0]] && t[..0] == [];
    assert Path(s[..1], t[..0], 1, 0) == 0;
  }

  // ----- the odometer -----

  class Meter {
    var total: seq<u32>
    var prev: seq<Pos3>
    /** Tags as of the last tick. */
    var prevTags: seq<u16>

    ghost predicate Valid()
      reads this
    {
      |total| == |prev|
    }

    ghost function State(): Readings
      reads this
    {
      Readings(total, prev, prevTags)
    }

    constructor ()
      ensures Valid() && State() == Readings([], [], [])
    {
      total, prev, prevTags := [], [], [];
    }

    method Reading(id: nat) returns (r: u32)
      requires Valid() && id < |total|
      ensures r == State().total[id]
    {
      r := total[id];
    }

    /** Covers new slots, which have travelled nothing yet. */
    method Cover(at: seq<Pos3>)
      requires Valid()
      modifies this`total, this`prev
      ensures Valid() && |total| == Max(old(|total|), |at|)
      ensures forall i :: 0 <= i < |total| ==>
        total[i] == TotalAt(old(State()), i) && prev[i] == PrevAt(old(State()), at, i)
    {
      var slots := |at|;
      if slots > |total| {
        var was := |total|;
        total := total + seq(slots - was, _ => 0);
        prev := prev + at[was..];
      }
    }

    /** Steps every shown slot's reading by how far it is from where it was last read. */
    method Accumulate(at: seq<Pos3>, shown: seq<nat>)
      requires Valid() && Ascending(shown)
      modifies this`total, this`prev
      ensures Valid() && |total| == Max(old(|total|), |at|)
      ensures forall i :: 0 <= i < |total| ==>
        total[i] == WrapAdd(TotalAt(old(State()), i),
            if i in shown && i < |at| then StepOf(PrevAt(old(State()), at, i), at[i]) else 0)
      ensures forall i :: 0 <= i < |total| ==>
        prev[i] == if i in shown && i < |at| then at[i] else PrevAt(old(State()), at, i)
    {
      Cover(at);
      ghost var was := State();
      var k := 0;
      while k < |shown|
        invariant k <= |shown| && Valid() && |total| == |was.total|
        invariant forall i :: 0 <= i < |total| ==>
          total[i] == WrapAdd(was.total[i], if i in shown[..k] && i < |at| then StepOf(was.prev[i], at[i]) else 0)
        invariant forall i :: 0 <= i < |total| ==> prev[i] == if i in shown[..k] && i < |at| then at[i] else was.prev[i]
      {
        var i := shown[k];
        if i >= |at| {
          assert forall j :: k <= j < |shown| ==> shown[j] >= |at|;
          break;
        }
        assert i !in shown[..k];
        assert shown[..k + 1] == shown[..k] + [i];
        var step := StepOf(prev[i], at[i]);
        total := total[i := WrapAdd(total[i], step)];
        prev := prev[i := at[i]];
        k := k + 1;
      }
      assert forall i :: i in shown && i !in shown[..k] ==> i >= |at|;
    }

    /** Adds to a reading without any movement. */
    method Bump(id: nat, amount: u32)
      requires Valid() && id < |total|
      modifies this`total
      ensures Valid() && total == old(total)[id := WrapAdd(old(total)[id], amount)]
    {
      total := total[id := WrapAdd(total[id], amount)];
    }

    /** Bumps every live entity whose tag is not last tick's, absent tags counting as zero. */
    method BumpChanged(t: Motion, bump: u32, ghost was: Readings)
      requires Valid() && Sensible(t) && |total| >= |t.tags| && was.tags == prevTags
      modifies this`total
      ensures Valid() && Bumped(was, t, bump, old(total), total, |t.live|)
    {
      var compared := prevTags + seq(Max(0, |t.tags| - |prevTags|), _ => 0);
      var k := 0;
      while k < |t.live|
        invariant k <= |t.live| && Valid() && Bumped(was, t, bump, old(total), total, k)
      {
        var i := t.live[k];
        assert i in t.live && i !in t.live[..k];
        assert t.live[..k + 1] == t.live[..k] + [i];
        if t.tags[i] != compared[i] {
          Bump(i, bump);
        }
        k := k + 1;
      }
    }

    /** The odometer's part of a tick: movement, then the tags that changed. */
    method Tick(t: Motion, bump: u32)
      requires Valid() && Sensible(t)
      modifies this
      ensures Valid() && Ticked(old(State()), t, bump, State())
    {
      ghost var was := State();
      Accumulate(t.at, t.shown);
      ghost var moved := total;
      BumpChanged(t, bump, was);
      prevTags := t.tags;
      TickSums(was, t, bump, moved, total);
    }
  }

  /** The first `k` live entities have had their tags compared. */
  ghost predicate Bumped(was: Readings, t: Motion, bump: u32, moved: seq<u32>, now: seq<u32>, k: nat)
    requires Sensible(t) && k <= |t.live|
  {
    && |now| == |moved| && |moved| >= |t.tags|
    && (forall i :: 0 <= i < |now| ==>
          now[i] == if i in t.live[..k] && i < |t.tags| && t.tags[i] != TagAt(was, i)
                    then WrapAdd(moved[i], bump) else moved[i])
  }

  lemma {:induction false} TickSums(was: Readings, t: Motion, bump: u32, moved: seq<u32>, now: seq<u32>)
    requires Sensible(t) && Parallel(was) && Bumped(was, t, bump, moved, now, |t.live|)
    requires |moved| == Max(|was.total|, |t.at|)
    requires forall i :: 0 <= i < |moved| ==>
      moved[i] == WrapAdd(TotalAt(was, i),
          if i in t.shown && i < |t.at| then StepOf(PrevAt(was, t.at, i), t.at[i]) else 0)
    ensures forall id :: 0 <= id < |t.at| ==>
      now[id] == (TotalAt(was, id) + Travelled(was, t, id, bump)) % 0x1_0000_0000
    ensures forall id :: |t.at| <= id < |now| ==> now[id] == was.total[id]
  {
    assert t.live[..|t.live|] == t.live;
    forall id | 0 <= id < |t.at|
      ensures now[id] == (TotalAt(was, id) + Travelled(was, t, id, bump)) % 0x1_0000_0000
    {
      WrapCarries(TotalAt(was, id), if id in t.shown then StepOf(PrevAt(was, t.at, id), t.at[id]) else 0, bump);
    }
  }
}
