/** One viewer's serve, from where its avatar stands to the bytes of its packet. */
module Serve {
  import opened Numbers
  import opened Config
  import opened Probing
  import opened Ghosts
  import opened Snapshot
  import opened Ordering
  import opened Nearest
  import opened Gather
  import opened GatherExact
  import opened Select
  import opened Rounds
  import Packet
  import WorldFrame

  // ----- budgets -----

  /** How many bytes of a packet go to what. */
  datatype Budget = Budget(payloadBytes: u16, headerBytes: u16, eventReserve: u16, recordBytes: u16) {
    /** Bytes left for state once the header and pending events have theirs. */
    function StateBytes(pendingEvents: nat): nat {
      Max(0, payloadBytes - (headerBytes + Min(pendingEvents, eventReserve)))
    }
  }

  datatype BudgetError = NoRoomForHeader | NoRoomForRecord

  /** A budget for a payload, refused where the source asserts. */
  function BudgetFor(c: Packet.RecordCodec, payloadBytes: u16): Result<Budget, BudgetError>
    requires Packet.Codec(c)
  {
    if payloadBytes <= 16 then Err(NoRoomForHeader)
    else if c.RecordBytes() > payloadBytes then Err(NoRoomForRecord)
    else Ok(Budget(payloadBytes, 16, 256, c.RecordBytes()))
  }

  predicate Sized(b: Budget, c: Packet.RecordCodec) {
    b.headerBytes == 16 < b.payloadBytes && b.recordBytes == c.RecordBytes() > 0
  }

  /** Of so many pending, the despawns that fit half of the state bytes. */
  function Taking(b: Budget, pending: nat): nat {
    Min(pending, b.StateBytes(0) / 2 / Packet.DESPAWN_BYTES)
  }

  /** Records that fit behind them. */
  function SlotsBehind(b: Budget, taking: nat): nat
    requires b.recordBytes > 0
  {
    Max(0, b.StateBytes(0) - taking * Packet.DESPAWN_BYTES) / b.recordBytes
  }

  /** Header, despawns and records together never pass the declared payload, and each
      count fits the header's word for it. */
  lemma {:induction false} PayloadFits(b: Budget, c: Packet.RecordCodec, pending: nat, records: nat)
    requires Sized(b, c) && records <= SlotsBehind(b, Taking(b, pending))
    ensures Packet.HEADER_BYTES + Packet.DESPAWN_BYTES * Taking(b, pending)
      + records * c.RecordBytes() <= b.payloadBytes
    ensures Taking(b, pending) < 0x1_0000 && records < 0x1_0000
  {
    var left := b.StateBytes(0) - Taking(b, pending) * Packet.DESPAWN_BYTES;
    QuotientFits(left, b.recordBytes);
    MulLe(records, SlotsBehind(b, Taking(b, pending)), b.recordBytes);
    MulLe(1, b.recordBytes, records);
  }

  lemma {:induction false} QuotientFits(n: nat, d: nat)
    requires d > 0
    ensures (n / d) * d <= n
  {
  }

  // ----- what a gather hands over -----

  function Places(found: seq<Discovered>): set<nat> {
    set k | 0 <= k < |found| :: found[k].index
  }

  lemma {:induction false} OnceEach(found: seq<Discovered>)
    requires forall i :: Times(found, i) <= 1
    ensures |Places(found)| == |found|
  {
    if found != [] {
      var front, last := found[..|found| - 1], found[|found| - 1];
      forall i
        ensures Times(front, i) <= 1
      {
        assert Times(found, i) <= 1;
      }
      OnceEach(front);
      assert Times(found, last.index) <= 1;
      assert last.index !in Places(front) by {
        if last.index in Places(front) {
          var k :| 0 <= k < |front| && front[k].index == last.index;
          ListedOften(front, front[k]);
        }
      }
      assert found == front + [last];
      assert Places(found) == Places(front) + {last.index};
    }
  }

  /** A viewer may walk the snapshot through its own subscription. */
  ghost predicate CanWalk(f: Frozen, at: Pos3) {
    && Walkable(f)
    && SubFits(f.cfg, AtCenter(f.cfg, f.cfg.CellOf(at.x, at.y)))
  }

  /** The whole walk from a viewer through its own subscription. */
  ghost function OwnWalk(f: Frozen, at: Pos3): (w: seq<Gather.Run>)
    requires CanWalk(f, at)
    ensures RunsFit(w, |f.rows|)
  {
    FullWalk(f, at, AtCenter(f.cfg, f.cfg.CellOf(at.x, at.y)))
  }

  /** What its leading runs yield. */
  ghost function Yield(f: Frozen, at: Pos3, n: nat): seq<Discovered>
    requires CanWalk(f, at) && n <= |OwnWalk(f, at)|
  {
    FoundAll(at, f.cfg.viewRadius, f.rows, OwnWalk(f, at)[..n])
  }

  /** A gather, capped or not, lists each entity at most once, so no more than the rows. */
  lemma {:induction false} GatherIsBounded(f: Frozen, all: seq<Row>, at: Pos3, n: nat)
    requires Snaps(f, all) && f.cfg.Contains2d(at.x, at.y) && CanWalk(f, at) && n <= |OwnWalk(f, at)|
    ensures |Yield(f, at, n)| <= |f.rows|
  {
    var walk, found := OwnWalk(f, at), Yield(f, at, n);
    forall i
      ensures Times(found, i) <= 1
    {
      GatherIsRadiusScan(f, all, at, i);
      FoundAllTimes(at, f.cfg.viewRadius, f.rows, walk, i);
      FoundAllTimes(at, f.cfg.viewRadius, f.rows, walk[..n], i);
      HitsConcat(walk[..n], walk[n..], i);
      assert walk == walk[..n] + walk[n..];
    }
    OnceEach(found);
    FoundAllDiscovers(at, f.cfg.viewRadius, f.rows, walk[..n]);
    BelowSize(|f.rows|);
    SubsetSize(Places(found), Below(|f.rows|));
  }

  lemma {:induction false} SquareBelow(n: int, k: nat)
    requires Numbers.Abs(n) <= k
    ensures Sq(n) <= k * k
  {
    MulLe(Numbers.Abs(n), k, Numbers.Abs(n));
    MulLe(Numbers.Abs(n), k, k);
  }

  /** Inside the region squared distances fit 64 bits. */
  lemma {:induction false} DistanceFits(cfg: WorldConfig, viewer: Pos3, r: Row)
    requires cfg.Valid() && cfg.Contains(viewer) && cfg.Contains(Pos3(r.x, r.y, r.z))
    ensures FlatSq(viewer, r) + Sq(viewer.z - r.z) < 0x1_0000_0000_0000_0000
  {
    SquareBelow(viewer.x - r.x, 0x8000_0000);
    SquareBelow(viewer.y - r.y, 0x8000_0000);
    SquareBelow(viewer.z - r.z, 0x8000_0000);
  }

  // ----- the frame a tick shares -----

  /** What serves of one tick share. `at` covers avatars that the snapshot does not show. */
  datatype Frame = Frame(tick: u32, snap: Frozen, readings: seq<u32>, live: set<nat>, shown: set<nat>,
      names: seq<u64>, region: nat, at: seq<Pos3>, policy: Policy, walkCap: nat)

  /** Ids fit the odometer, the name table and the ghost table; distances fit a word. */
  ghost predicate Shared(f: Frame) {
    && Walkable(f.snap) && f.snap.cfg.Valid() && Sound(f.policy)
    && |f.names| == |f.readings| == |f.at| < EMPTY && f.region < 0x8000_0000
    && |f.snap.rows| < NEW_BIT
    && (forall id :: id in f.live ==> id < |f.at|)
    && (forall k :: 0 <= k < |f.snap.rows| ==> RowInside(f.snap.cfg, f.snap.rows[k], |f.readings|))
  }

  /** A row of a covered entity, inside the region. */
  predicate RowInside(cfg: WorldConfig, r: Row, covered: nat) {
    r.id < covered && cfg.Contains(Pos3(r.x, r.y, r.z))
  }

  /** Ghosts and pending despawns are ids the columns still cover: ids are never reused. */
  ghost predicate Remembers(f: Frame, ids: seq<u32>) {
    forall k :: 0 <= k < |ids| ==> ids[k] < |f.names|
  }

  /** What the client knows an entity by. */
  function NameOf(f: Frame, id: u32): u64
    requires f.region < 0x8000_0000 && id < |f.names|
  {
    if f.names[id] == 0 then OfRegion(f.region, id) else f.names[id]
  }

  function NamesFor(f: Frame, ids: seq<u32>): (names: seq<u64>)
    requires f.region < 0x8000_0000 && Remembers(f, ids)
    ensures |names| == |ids|
  {
    seq(|ids|, k requires 0 <= k < |ids| => NameOf(f, ids[k]))
  }

  /** The record a candidate travels as, from the row its position stands in. */
  function RecordOf(rows: seq<Row>, c: Discovered): Packet.Record
    requires c.index < |rows|
  {
    var row := rows[c.index];
    Packet.Record(row.name, Pos3(row.x, row.y, row.z), row.tag)
  }

  /** Candidates stand at rows of their own ids. */
  ghost predicate Listed(f: Frozen, found: seq<Discovered>) {
    forall k :: 0 <= k < |found| ==> found[k].index < |f.rows| && found[k].id == f.rows[found[k].index].id
  }

  function RecordsOf(rows: seq<Row>, found: seq<Discovered>, ranked: seq<Ranked>): (r: seq<Packet.Record>)
    requires forall k :: 0 <= k < |found| ==> found[k].index < |rows|
    requires forall k :: 0 <= k < |ranked| ==> ranked[k].Index() < |found|
    ensures |r| == |ranked|
  {
    seq(|ranked|, k requires 0 <= k < |ranked| => RecordOf(rows, found[ranked[k].Index()]))
  }

  /** Sequence numbers count packets, and wrap. */
  function NextSequence(sequence: u16): u16 {
    (sequence + 1) % 0x1_0000
  }

  // ----- viewers -----

  /** What reaching the box, or no longer reaching it, is reported as. */
  datatype ViewReport = Silent | Collided(at: Pos3) | Cleared

  datatype Outcome =
    | NotServed
    | Served(view: ViewReport, despawns: seq<u32>, found: seq<Discovered>, selection: Selection)

  /** The view's cells reach past the region on some side. */
  predicate AtBoundary(cfg: WorldConfig, center: CellCoord) {
    var r, last := cfg.grid.cellRadius, cfg.grid.cellsPerAxis - 1;
    center.x - r < 0 || center.x + r > last || center.y - r < 0 || center.y + r > last
  }

  /** A box is clipped to the region exactly when the view reaches past it. */
  lemma {:induction false} BoundaryClips(cfg: WorldConfig, center: CellCoord)
    ensures AtBoundary(cfg, center) <==>
      var r := cfg.grid.cellRadius;
      AtCenter(cfg, center) != Subscription(center.x - r, center.x + r, center.y - r, center.y + r)
  {
  }

  /** Seen from `at`, the box around its cell, clipped to the region. Only a box that is not the
      one before says anew whether the view is clipped, and only of an entity that is shown:
      that it is, or that it is no longer. */
  ghost predicate Draws(f: Frame, at: Pos3, shown: bool, before: Option<Subscription>, was: bool,
      after: Option<Subscription>, now: bool, view: ViewReport)
    requires f.snap.cfg.grid.cellsPerAxis >= 1
  {
    var center, r := f.snap.cfg.CellOf(at.x, at.y), f.snap.cfg.grid.cellRadius;
    var box := Subscription(center.x - r, center.x + r, center.y - r, center.y + r);
    && after == Some(AtCenter(f.snap.cfg, center))
    && (now <==> if before == after then was else after != Some(box))
    && (view == Collided(at) <==> shown && before != after && now)
    && (view == Cleared <==> shown && before != after && was && !now)
    && (view.Collided? ==> view == Collided(at))
  }

  /** Whether a tick is one of a viewer's, by its id and its period. */
  predicate DueOn(period: byte, id: u32, tick: u32) {
    period <= 1 || WrapAdd(tick, id) % period == 0
  }

  class Viewer {
    var avatar: nat
    var sub: Option<Subscription>
    const ghosts: GhostTable
    var budget: Budget
    var pending: seq<u32>
    var sequence: u16
    var sendPeriod: byte
    var atBoundary: bool
    var registered: bool

    constructor ()
      ensures !registered && fresh(ghosts) && fresh(ghosts.slots) && ghosts.Valid() && ghosts.Contents() == map[]
      ensures pending == []
    {
      var g := new GhostTable();
      avatar, sub, budget, pending, sequence := 0, None, Budget(0, 0, 0, 0), [], 0;
      ghosts, sendPeriod, atBoundary, registered := g, 1, false, false;
    }

    /** Starts over for another client: no ghosts, nothing pending, no subscription. */
    method Reset(avatar: nat, budget: Budget, sendPeriod: byte)
      requires ghosts.Valid()
      modifies this, ghosts, ghosts.slots
      ensures registered && ghosts.Valid() && Side() == Replica(map[], [])
      ensures this.avatar == avatar && this.budget == budget && this.sendPeriod == Max(sendPeriod, 1)
      ensures sub == None && sequence == 0 && !atBoundary
    {
      this.avatar, sub, atBoundary := avatar, None, false;
      ghosts.Clear();
      pending, sequence := [], 0;
      this.budget, this.sendPeriod, registered := budget, Max(sendPeriod, 1), true;
    }

    /** The server's side of this client. */
    ghost function Side(): Replica
      reads this, ghosts, ghosts.slots
      requires ghosts.Valid()
    {
      Replica(ghosts.Contents(), pending)
    }

    predicate Due(id: u32, tick: u32)
      reads this
    {
      DueOn(sendPeriod, id, tick)
    }

    /** Whether a tick serves this viewer. */
    predicate Serving(f: Frame, id: u32)
      reads this
    {
      && registered && Due(id, f.tick)
      && avatar in f.live && avatar < |f.at| && f.snap.cfg.Contains(f.at[avatar])
    }

    /** Draws the subscription a position implies, reporting a view that has come to reach
        past the region or stopped doing so. */
    method Subscribe(f: Frame, at: Pos3) returns (view: ViewReport)
      requires f.snap.cfg.grid.cellsPerAxis >= 1
      modifies this`sub, this`atBoundary
      ensures Draws(f, at, avatar in f.shown, old(sub), old(atBoundary), sub, atBoundary, view)
    {
      var cfg := f.snap.cfg;
      var center := cfg.CellOf(at.x, at.y);
      var box := AtCenter(cfg, center);
      view := Silent;
      if sub != Some(box) {
        BoundaryClips(cfg, center);
        var r, last := cfg.grid.cellRadius, cfg.grid.cellsPerAxis - 1;
        var reaches := center.x - r < 0 || center.x + r > last || center.y - r < 0 || center.y + r > last;
        if avatar in f.shown {
          if reaches {
            view := Collided(at);
          } else if atBoundary {
            view := Cleared;
          }
        }
        atBoundary := reaches;
      }
      sub := Some(box);
    }
  }

  /** Registers a client for an avatar, unless its declared payload holds no record. */
  method Register(v: Viewer, c: Packet.RecordCodec, avatar: nat, payloadBytes: u16, sendPeriod: byte)
    returns (r: Result<Budget, BudgetError>)
    requires Packet.Codec(c) && v.ghosts.Valid()
    modifies v, v.ghosts, v.ghosts.slots
    ensures v.ghosts.Valid() && (r.Ok? <==> 16 < payloadBytes && c.RecordBytes() <= payloadBytes)
    ensures r.Ok? ==> v.registered && v.avatar == avatar && v.Side() == Replica(map[], [])
    ensures r.Ok? ==> v.budget == r.value && Sized(v.budget, c) && v.budget.payloadBytes == payloadBytes
    ensures r.Ok? ==> v.sendPeriod == Max(sendPeriod, 1) && v.sub == None && v.sequence == 0 && !v.atBoundary
    ensures r.Err? ==> r.error == if payloadBytes <= 16 then NoRoomForHeader else NoRoomForRecord
    ensures r.Err? ==> unchanged(v) && v.Side() == old(v.Side())
  {
    r := BudgetFor(c, payloadBytes);
    if r.Ok? {
      v.Reset(avatar, r.value, sendPeriod);
    }
  }

  function RoundOf(f: Frame, o: Outcome): Round
    requires o.Served? && Candidates(o.found, f.readings) && o.selection.sent <= |o.selection.ranked|
    requires forall i :: 0 <= i < |o.selection.ranked| ==> o.selection.ranked[i].Index() < |o.found|
  {
    var s := o.selection;
    Round(f.tick, o.despawns, IdsOf(o.found, f.readings, s.ranked[..s.sent]),
        IdsOf(o.found, f.readings, s.ranked[s.sent..]),
          s.departed, f.readings)
  }

  /** What a served viewer is found to see: the capped nearest-first gather from its
      avatar through its own subscription. */
  ghost predicate Gathered(f: Frozen, at: Pos3, cap: nat, found: seq<Discovered>) {
    && CanWalk(f, at)
    && exists n :: StopsAtCap(at, f.cfg.viewRadius, f.rows, 0, OwnWalk(f, at), n, cap) && found == Yield(f, at, n)
  }

  /** A serve's selection, its round, and the payload built from them. */
  ghost predicate Answers(f: Frame, b: Budget, c: Packet.RecordCodec, before: Replica, sequence: u16, o: Outcome,
      after: Replica, buf: seq<byte>)
    requires Shared(f) && Packet.Codec(c) && Sized(b, c)
  {
    && o.Served?
    && Candidates(o.found, f.readings) && Listed(f.snap, o.found)
    && Selects(o.found, before.ghosts, f.readings, f.tick, f.policy, SlotsBehind(b, Taking(b, |before.pending|)),
        o.selection)
    && (forall i :: 0 <= i < |o.selection.ranked| ==> o.selection.ranked[i].Index() < |o.found|)
    && o.despawns == before.pending[..Taking(b, |before.pending|)]
    && Serves(before, RoundOf(f, o), f.policy.grace, after)
    && Remembers(f, o.despawns) && |o.despawns| < 0x1_0000 && o.selection.sent < 0x1_0000
    && buf == Packet.Payload(c, f.tick, sequence, NamesFor(f, o.despawns),
                             RecordsOf(f.snap.rows, o.found, o.selection.ranked[..o.selection.sent]))
  }

  /** A whole serve: what was gathered, what was answered, and that it fits. */
  ghost predicate Answered(f: Frame, b: Budget, c: Packet.RecordCodec, at: Pos3, before: Replica, sequence: u16,
      o: Outcome, after: Replica, buf: seq<byte>)
    requires Shared(f) && Packet.Codec(c)
  {
    && Sized(b, c) && o.Served?
    && Gathered(f.snap, at, f.walkCap, o.found)
    && Answers(f, b, c, before, sequence, o, after, buf)
    && |buf| <= b.payloadBytes
  }

  lemma {:induction false} FoundIsCandidate(f: Frame, all: seq<Row>, at: Pos3, n: nat)
    requires Shared(f) && Snaps(f.snap, all) && f.snap.cfg.Contains(at) && CanWalk(f.snap, at)
    requires n <= |OwnWalk(f.snap, at)|
    ensures Candidates(Yield(f.snap, at, n), f.readings) && Listed(f.snap, Yield(f.snap, at, n))
  {
    var found := Yield(f.snap, at, n);
    GatherIsBounded(f.snap, all, at, n);
    FoundAllDiscovers(at, f.snap.cfg.viewRadius, f.snap.rows, OwnWalk(f.snap, at)[..n]);
    forall k | 0 <= k < |found|
      ensures Covered(found[k], f.readings)
    {
      var row := f.snap.rows[found[k].index];
      assert RowInside(f.snap.cfg, row, |f.readings|);
      DistanceFits(f.snap.cfg, at, row);
    }
  }

  /** The gather a served viewer selects from. */
  method FindCandidates(f: Frame, ghost all: seq<Row>, at: Pos3, sub: Subscription) returns (found: seq<Discovered>)
    requires Shared(f) && Snaps(f.snap, all) && f.snap.cfg.Contains(at)
    requires sub == AtCenter(f.snap.cfg, f.snap.cfg.CellOf(at.x, at.y))
    ensures Gathered(f.snap, at, f.walkCap, found)
    ensures Candidates(found, f.readings) && Listed(f.snap, found)
  {
    GatherIsRadiusScan(f.snap, all, at, 0);
    found := GatherIntoCapped(f.snap, at, sub, f.walkCap, []);
    ghost var n :| StopsAtCap(at, f.snap.cfg.viewRadius, f.snap.rows, 0, OwnWalk(f.snap, at), n, f.walkCap)
      && found == [] + Yield(f.snap, at, n);
    assert [] + Yield(f.snap, at, n) == Yield(f.snap, at, n);
    FoundIsCandidate(f, all, at, n);
  }

  lemma {:induction false} RoundServes(f: Frame, o: Outcome, before: Replica, after: Replica)
    requires o.Served? && Candidates(o.found, f.readings) && Sound(f.policy)
    requires Commits(o.found, before.ghosts, f.readings, f.tick, f.policy, o.selection, after.ghosts)
    requires o.despawns <= before.pending && after.pending == before.pending[|o.despawns|..] + o.selection.departed
    ensures Serves(before, RoundOf(f, o), f.policy.grace, after)
  {
  }

  /** Selects for a viewer and assembles its payload. */
  method Assemble(f: Frame, v: Viewer, w: Packet.PacketWriter, view: ViewReport, found: seq<Discovered>,
      ghost at: Pos3, ghost before: Replica)
    returns (o: Outcome)
    requires Shared(f) && Candidates(found, f.readings) && Listed(f.snap, found)
    requires Packet.Codec(w.codec) && Sized(v.budget, w.codec) && v.ghosts.Valid() && Remembers(f, v.pending)
    requires before == v.Side() && Gathered(f.snap, at, f.walkCap, found)
    requires 2 * (|v.ghosts.Contents()| + f.policy.ghostCap) <= 0x1_0000_0000
    modifies v`pending, v`sequence, v.ghosts, v.ghosts.slots, w
    ensures v.ghosts.Valid() && (v.ghosts.slots == old(v.ghosts.slots) || fresh(v.ghosts.slots))
    ensures v.sequence == NextSequence(old(v.sequence)) && o.Served? && o.view == view
    ensures Answered(f, v.budget, w.codec, at, before, v.sequence, o, v.Side(), w.buf)
  {
    var despawns, selection := Choose(f, v, found);
    v.sequence := NextSequence(v.sequence);
    PayloadFits(v.budget, w.codec, |before.pending|, selection.sent);
    w.Build(f.tick, v.sequence, NamesFor(f, despawns),
        RecordsOf(f.snap.rows, found, selection.ranked[..selection.sent]));
    v.pending := v.pending + selection.departed;
    o := Served(view, despawns, found, selection);
    RoundServes(f, o, before, v.Side());
  }

  /** Everything a serve does for a viewer that is due, standing at `at`. */
  method ServeFrom(f: Frame, ghost all: seq<Row>, v: Viewer, w: Packet.PacketWriter, at: Pos3) returns (o: Outcome)
    requires Shared(f) && Snaps(f.snap, all) && f.snap.cfg.Contains(at)
    requires Packet.Codec(w.codec) && v.ghosts.Valid() && Sized(v.budget, w.codec) && Remembers(f, v.pending)
    requires 2 * (|v.ghosts.Contents()| + f.policy.ghostCap) <= 0x1_0000_0000
    modifies v`sub, v`atBoundary, v`pending, v`sequence, v.ghosts, v.ghosts.slots, w
    ensures v.ghosts.Valid() && (v.ghosts.slots == old(v.ghosts.slots) || fresh(v.ghosts.slots))
    ensures o.Served? && v.sequence == NextSequence(old(v.sequence))
    ensures Draws(f, at, v.avatar in f.shown, old(v.sub), old(v.atBoundary), v.sub, v.atBoundary, o.view)
    ensures Answered(f, v.budget, w.codec, at, old(v.Side()), v.sequence, o, v.Side(), w.buf)
  {
    ghost var before := v.Side();
    var view := v.Subscribe(f, at);
    var found := FindCandidates(f, all, at, v.sub.value);
    assert v.Side() == before;
    o := Assemble(f, v, w, view, found, at, before);
  }

  /** Serves one viewer if it is due and stands inside, leaving the payload in the writer. */
  method Serve(f: Frame, ghost all: seq<Row>, id: u32, v: Viewer, w: Packet.PacketWriter) returns (o: Outcome)
    requires Shared(f) && Snaps(f.snap, all)
    requires Packet.Codec(w.codec) && v.ghosts.Valid()
    requires v.registered ==> Sized(v.budget, w.codec)
    requires Remembers(f, v.pending)
    requires 2 * (|v.ghosts.Contents()| + f.policy.ghostCap) <= 0x1_0000_0000
    modifies v`sub, v`atBoundary, v`pending, v`sequence, v.ghosts, v.ghosts.slots, w
    ensures v.ghosts.Valid() && (v.ghosts.slots == old(v.ghosts.slots) || fresh(v.ghosts.slots))
    ensures o.Served? <==>
      && old(v.registered) && old(v.avatar) in f.live && f.snap.cfg.Contains(f.at[old(v.avatar)])
      && (old(v.sendPeriod) <= 1 || WrapAdd(f.tick, id) % old(v.sendPeriod) == 0)
    ensures !o.Served? ==> v.Side() == old(v.Side()) && v.sequence == old(v.sequence) && w.buf == old(w.buf)
    ensures !o.Served? ==> v.sub == old(v.sub) && v.atBoundary == old(v.atBoundary)
    ensures o.Served? ==> v.avatar < |f.at| && v.sequence == NextSequence(old(v.sequence))
    ensures o.Served? ==> Draws(f, f.at[v.avatar], v.avatar in f.shown, old(v.sub), old(v.atBoundary), v.sub,
      v.atBoundary, o.view)
    ensures o.Served? ==> Answered(f, v.budget, w.codec, f.at[v.avatar], old(v.Side()), v.sequence, o, v.Side(), w.buf)
  {
    if !v.registered || !v.Due(id, f.tick) {
      return NotServed;
    }
    if v.avatar !in f.live {
      return NotServed;
    }
    var at := f.at[v.avatar];
    if !f.snap.cfg.Contains(at) {
      return NotServed;
    }
    o := ServeFrom(f, all, v, w, at);
  }

  /** Drains the despawns that go first: at most half of the payload, so forgetting never
      takes a whole packet. */
  method Drain(v: Viewer) returns (despawns: seq<u32>, slots: nat)
    requires v.budget.recordBytes > 0
    modifies v`pending
    ensures despawns == old(v.pending)[..Taking(v.budget, |old(v.pending)|)]
    ensures v.pending == old(v.pending)[|despawns|..]
    ensures slots == SlotsBehind(v.budget, Taking(v.budget, |old(v.pending)|))
  {
    // Zero pending events: the whole state part is free.
    var taking := Taking(v.budget, |v.pending|);
    despawns := v.pending[..taking];
    v.pending := v.pending[taking..];
    slots := SlotsBehind(v.budget, taking);
  }

  /** Drains the queue, then selects the records that fit behind it. */
  method Choose(f: Frame, v: Viewer, found: seq<Discovered>) returns (despawns: seq<u32>, s: Selection)
    requires Shared(f) && Candidates(found, f.readings) && v.ghosts.Valid() && v.budget.recordBytes > 0
    requires 2 * (|v.ghosts.Contents()| + f.policy.ghostCap) <= 0x1_0000_0000
    modifies v`pending, v.ghosts, v.ghosts.slots
    ensures v.ghosts.Valid() && (v.ghosts.slots == old(v.ghosts.slots) || fresh(v.ghosts.slots))
    ensures despawns == old(v.pending)[..Taking(v.budget, |old(v.pending)|)]
    ensures v.pending == old(v.pending)[|despawns|..]
    ensures Selects(found, old(v.ghosts.Contents()), f.readings, f.tick, f.policy,
      SlotsBehind(v.budget, Taking(v.budget, |old(v.pending)|)), s)
    ensures Commits(found, old(v.ghosts.Contents()), f.readings, f.tick, f.policy, s, v.ghosts.Contents())
  {
    var slots;
    despawns, slots := Drain(v);
    s := Select.Select(f.tick, found, f.readings, f.policy, slots, v.ghosts);
  }

  /** A serve ranks no more entities than the ghost cap, so a run of serves keeps the
      ghost table within its bound. */
  lemma {:induction false} RoundIsCapped(f: Frame, b: Budget, c: Packet.RecordCodec, at: Pos3, before: Replica,
      sequence: u16, o: Outcome, after: Replica, buf: seq<byte>)
    requires Shared(f) && Packet.Codec(c) && Answered(f, b, c, at, before, sequence, o, after, buf)
    ensures |RoundOf(f, o).records| + |RoundOf(f, o).rest| <= f.policy.ghostCap
  {
    var s := o.selection;
    SortKeepsCount(s.ranked, Ranks(o.found, s.keep, before.ghosts, f.readings, f.tick, f.policy));
  }

  /** What reaches the client is what was decided: its packet decodes to the names of the
      drained despawns and to the selected rows, each with its own name, tag and world
      position, in rank order. */
  lemma {:induction false} ClientReadsServe(f: Frame, b: Budget, at: Pos3, before: Replica, sequence: u16, o: Outcome,
      after: Replica, buf: seq<byte>, placement: Option<WorldFrame.Placement>)
    requires Shared(f) && Packet.Codec(Packet.CodecOf(f.snap.cfg)) && f.snap.cfg.regionSize <= WorldFrame.MAX_REGION
    requires Answered(f, b, Packet.CodecOf(f.snap.cfg), at, before, sequence, o, after, buf)
    ensures var c, size := Packet.CodecOf(f.snap.cfg), f.snap.cfg.regionSize;
      var seen, sent := Packet.InFrame(c, buf, placement, size), o.selection.ranked[..o.selection.sent];
      && seen.Some? && Packet.Framed(c, seen.value) && seen.value.header.tick == f.tick
      && Packet.AllDespawns(c, seen.value) == NamesFor(f, o.despawns)
      && |Packet.Updates(c, seen.value)| == |sent|
      && forall k :: 0 <= k < |sent| ==>
           Packet.Updates(c, seen.value)[k] == Packet.Shown(placement, size,
               RecordOf(f.snap.rows, o.found[sent[k].Index()]))
  {
    var c, sent := Packet.CodecOf(f.snap.cfg), o.selection.ranked[..o.selection.sent];
    var records := RecordsOf(f.snap.rows, o.found, sent);
    forall k | 0 <= k < |records|
      ensures Packet.Holds(c, records[k].at)
    {
      assert RowInside(f.snap.cfg, f.snap.rows[o.found[sent[k].Index()].index], |f.readings|);
    }
    Packet.PayloadRoundTrips(c, f.tick, sequence, NamesFor(f, o.despawns), records, placement, f.snap.cfg.regionSize);
  }
}
