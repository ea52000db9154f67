/** What a client holds by the bytes of the packets it is sent, tick by tick, against what the
    server believes it holds. */
module Wire {
  import opened Numbers
  import opened Config
  import opened WorldFrame
  import opened Probing
  import opened Ghosts
  import opened Snapshot
  import opened Gather
  import opened Select
  import opened Rounds
  import opened Serve
  import opened Ticking
  import opened Replay
  import Packet

  // ----- what a packet says -----

  function Dropped(c: Packet.RecordCodec, o: Packet.Observation): set<u64>
    requires Packet.Framed(c, o)
  {
    set n | n in Packet.AllDespawns(c, o)
  }

  function Adopted(c: Packet.RecordCodec, o: Packet.Observation): set<u64>
    requires Packet.Codec(c) && Packet.Framed(c, o) && o.regionSize <= MAX_REGION
  {
    set n | n in NamesRead(Packet.Updates(c, o))
  }

  function NamesRead(updates: seq<Packet.Update>): (names: seq<u64>)
    ensures |names| == |updates|
  {
    seq(|updates|, i requires 0 <= i < |updates| => updates[i].name)
  }

  /** A client drops the names a packet drops and adopts those it has records of. A packet it
      cannot read changes nothing. */
  function Received(c: Packet.RecordCodec, held: set<u64>, buf: seq<byte>, square: Option<Placement>, size: nat):
      set<u64>
    requires Packet.Codec(c) && size <= MAX_REGION
  {
    var seen := Packet.InFrame(c, buf, square, size);
    if seen.None? || !Packet.Framed(c, seen.value) then held
    else held - Dropped(c, seen.value) + Adopted(c, seen.value)
  }

  /** What a region and its client agree on: one size, one codec, and a name column that keeps
      its entries. */
  ghost predicate SpokenAt(l: Life, size: nat, k: int)
    requires 0 <= k < |l.beats|
  {
    var f := l.beats[k].frame;
    && f.snap.cfg.regionSize == size && l.codec == Packet.CodecOf(f.snap.cfg)
    && (k + 1 < |l.beats| ==>
          var g := l.beats[k + 1].frame;
          g.region == f.region && |f.names| <= |g.names| && f.names == g.names[..|f.names|])
  }

  ghost predicate Spoken(l: Life, size: nat) {
    Lived(l) && size <= MAX_REGION && forall k {:trigger SpokenAt(l, size, k)} :: 0 <= k < |l.beats| ==>
      SpokenAt(l, size, k)
  }

  /** What a client holds after the first `n` ticks, from every packet's bytes in order. */
  ghost function Holding(l: Life, n: nat, square: Option<Placement>, size: nat): set<u64>
    requires Packet.Codec(l.codec) && n <= |l.beats| && size <= MAX_REGION
  {
    if n == 0 then {}
    else
      var held := Holding(l, n - 1, square, size);
      if l.beats[n - 1].o.Served? then Received(l.codec, held, l.beats[n - 1].buf, square, size) else held
  }

  // ----- names -----

  function NamesAt(f: Frame): u32 -> u64
    requires f.region < 0x8000_0000
  {
    (id: u32) => if id < |f.names| then NameOf(f, id) else 0
  }

  /** Who goes by what over a life: the names of its last tick. */
  ghost function NameIn(l: Life): u32 -> u64
    requires Lived(l) && l.beats != []
  {
    assert BeatAt(l, |l.beats| - 1);
    NamesAt(l.beats[|l.beats| - 1].frame)
  }

  lemma {:induction false} NamesLast(l: Life, size: nat, k: nat, n: nat, id: u32)
    requires Spoken(l, size) && k <= n < |l.beats| && id < |l.beats[k].frame.names|
    ensures id < |l.beats[n].frame.names| && l.beats[n].frame.names[id] == l.beats[k].frame.names[id]
    ensures l.beats[n].frame.region == l.beats[k].frame.region
  {
    if k < n {
      NamesLast(l, size, k, n - 1, id);
      assert SpokenAt(l, size, n - 1);
    }
  }

  /** An id goes by one name from the first tick that covers it. */
  lemma {:induction false} NameIsOne(l: Life, size: nat, k: nat, id: u32)
    requires Spoken(l, size) && k < |l.beats| && id < |l.beats[k].frame.names|
    ensures l.beats[k].frame.region < 0x8000_0000 && NameOf(l.beats[k].frame, id) == NameIn(l)(id)
  {
    assert BeatAt(l, k) && BeatAt(l, |l.beats| - 1);
    NamesLast(l, size, k, |l.beats| - 1, id);
  }

  // ----- one packet -----

  /** What a client reads in the packet of tick `k`. */
  ghost predicate Reads(l: Life, size: nat, square: Option<Placement>, k: nat, o: Packet.Observation)
    requires Lived(l) && k < |l.beats|
  {
    && BeatAt(l, k) && l.beats[k].o.Served?
    && Packet.InFrame(l.codec, l.beats[k].buf, square, size) == Some(o)
    && Packet.Framed(l.codec, o) && o.regionSize == size
  }

  /** The despawns of a packet are the names of the ids drained into it, in order. */
  ghost predicate DropsNamed(l: Life, k: nat, o: Packet.Observation)
    requires Lived(l) && k < |l.beats| && BeatAt(l, k) && l.beats[k].o.Served? && Packet.Framed(l.codec, o)
  {
    var ids := l.beats[k].o.despawns;
    && |Packet.AllDespawns(l.codec, o)| == |ids|
    && forall j :: 0 <= j < |ids| ==> Packet.AllDespawns(l.codec, o)[j] == NameIn(l)(ids[j])
  }

  /** And its records bear the names of the ids ranked for them, in order. */
  ghost predicate RecordsNamed(l: Life, k: nat, o: Packet.Observation)
    requires Lived(l) && k < |l.beats| && BeatAt(l, k) && l.beats[k].o.Served? && Packet.Framed(l.codec, o)
    requires o.regionSize <= MAX_REGION
  {
    var out := l.beats[k].o;
    && |Packet.Updates(l.codec, o)| == out.selection.sent <= |out.selection.ranked|
    && forall i :: 0 <= i < out.selection.sent ==>
         && out.selection.ranked[i].Index() < |out.found|
         && Packet.Updates(l.codec, o)[i].name == NameIn(l)(out.found[out.selection.ranked[i].Index()].id)
  }

  /** What the client makes of a packet's bytes. */
  lemma {:induction false} PacketOpens(l: Life, size: nat, square: Option<Placement>, k: nat)
    returns (o: Packet.Observation)
    requires Spoken(l, size) && k < |l.beats| && l.beats[k].o.Served?
    ensures Reads(l, size, square, k, o)
    ensures var b := l.beats[k];
      && Packet.AllDespawns(l.codec, o) == NamesFor(b.frame, b.o.despawns)
      && |Packet.Updates(l.codec, o)| == b.o.selection.sent
      && forall i :: 0 <= i < b.o.selection.sent ==>
           Packet.Updates(l.codec, o)[i].name
             == b.frame.snap.rows[b.o.found[b.o.selection.ranked[i].Index()].index].name
  {
    assert BeatAt(l, k) && SpokenAt(l, size, k);
    var b := l.beats[k];
    ClientReadsServe(b.frame, l.budget, b.at, l.sides[k], b.sequence, b.o, l.sides[k + 1], b.buf, square);
    o := Packet.InFrame(l.codec, b.buf, square, size).value;
    forall i | 0 <= i < b.o.selection.sent
      ensures Packet.Updates(l.codec, o)[i].name
        == b.frame.snap.rows[b.o.found[b.o.selection.ranked[i].Index()].index].name
    {
      assert b.o.selection.ranked[..b.o.selection.sent][i] == b.o.selection.ranked[i];
    }
  }

  lemma {:induction false} RankedIsNamed(l: Life, size: nat, k: nat, i: nat)
    requires Spoken(l, size) && k < |l.beats| && BeatAt(l, k) && l.beats[k].o.Served?
    requires i < l.beats[k].o.selection.sent
    ensures var b := l.beats[k];
      var d := b.o.found[b.o.selection.ranked[i].Index()];
      b.frame.snap.rows[d.index].name == NameIn(l)(d.id)
  {
    var b := l.beats[k];
    var d := b.o.found[b.o.selection.ranked[i].Index()];
    RowIsNamed(b.frame, b.motion, l.readings[k + 1], d.index);
    NameIsOne(l, size, k, d.id);
  }

  lemma {:induction false} PacketReads(l: Life, size: nat, square: Option<Placement>, k: nat)
    returns (o: Packet.Observation)
    requires Spoken(l, size) && k < |l.beats| && l.beats[k].o.Served?
    ensures Reads(l, size, square, k, o) && DropsNamed(l, k, o) && RecordsNamed(l, k, o)
  {
    o := PacketOpens(l, size, square, k);
    var b := l.beats[k];
    forall j | 0 <= j < |b.o.despawns|
      ensures Packet.AllDespawns(l.codec, o)[j] == NameIn(l)(b.o.despawns[j])
    {
      NameIsOne(l, size, k, b.o.despawns[j]);
    }
    forall i | 0 <= i < b.o.selection.sent
      ensures Packet.Updates(l.codec, o)[i].name == NameIn(l)(b.o.found[b.o.selection.ranked[i].Index()].id)
    {
      RankedIsNamed(l, size, k, i);
    }
  }

  /** What an update says of an entity: its name, its tag, and where it stands in the frame
      regions share, or in its own region's if that has no square there. */
  predicate Says(u: Packet.Update, name: u64, tag: u16, at: Pos3, square: Option<Placement>, size: nat) {
    && u.name == name && u.tag == tag && u.at.z == at.z
    && (if square.Some?
        then u.at.x == square.value.col * size + at.x && u.at.y == square.value.row * size + at.y
        else u.at.x == at.x && u.at.y == at.y)
  }

  lemma {:induction false} ShownSays(square: Option<Placement>, size: nat, r: Packet.Record)
    requires size <= MAX_REGION
    ensures Says(Packet.Shown(square, size, r), r.name, r.tag, r.at, square, size)
  {
  }

  /** Every record a client reads is of an entity shown on that tick, and says what it is called,
      its tag, and where it stands. */
  lemma {:induction false} UpdateIsTrue(l: Life, size: nat, square: Option<Placement>, k: nat, i: nat)
    returns (o: Packet.Observation, id: u32)
    requires Spoken(l, size) && k < |l.beats| && l.beats[k].o.Served? && i < l.beats[k].o.selection.sent
    ensures Reads(l, size, square, k, o) && SentAt(l.beats[k], id, i) && i < |Packet.Updates(l.codec, o)|
    ensures var t := l.beats[k].motion;
      && id in t.shown && id < |t.at| == |t.tags|
      && Says(Packet.Updates(l.codec, o)[i], NameIn(l)(id), t.tags[id], t.at[id], square, size)
  {
    assert BeatAt(l, k) && SpokenAt(l, size, k);
    var b := l.beats[k];
    ClientReadsServe(b.frame, l.budget, b.at, l.sides[k], b.sequence, b.o, l.sides[k + 1], b.buf, square);
    o := Packet.InFrame(l.codec, b.buf, square, size).value;
    assert b.o.selection.ranked[..b.o.selection.sent][i] == b.o.selection.ranked[i];
    var d := b.o.found[b.o.selection.ranked[i].Index()];
    id := d.id;
    RecordSays(l, k, id, i);
    RankedIsNamed(l, size, k, i);
    ShownSays(square, size, RecordOf(b.frame.snap.rows, d));
  }

  /** What reaches a client is its round: its bytes drop and adopt exactly the names of the
      ids drained and sent. */
  lemma {:induction false} ReceivedIsApplied(l: Life, size: nat, square: Option<Placement>, k: nat, held: set<u64>)
    requires Spoken(l, size) && k < |l.beats| && l.beats[k].o.Served?
    ensures BeatAt(l, k)
    ensures Received(l.codec, held, l.beats[k].buf, square, size) ==
      Applied(held, RoundOf(l.beats[k].frame, l.beats[k].o), NameIn(l))
  {
    var o := PacketReads(l, size, square, k);
    DroppedIs(l, k, o);
    AdoptedIs(l, k, o);
  }

  lemma {:induction false} DroppedIs(l: Life, k: nat, o: Packet.Observation)
    requires Lived(l) && k < |l.beats| && BeatAt(l, k) && l.beats[k].o.Served? && Packet.Framed(l.codec, o)
    requires DropsNamed(l, k, o)
    ensures Dropped(l.codec, o) == NamesOf(SetOf(RoundOf(l.beats[k].frame, l.beats[k].o).drained), NameIn(l))
  {
    SameNames(Packet.AllDespawns(l.codec, o), l.beats[k].o.despawns, NameIn(l));
  }

  lemma {:induction false} AdoptedIs(l: Life, k: nat, o: Packet.Observation)
    requires Lived(l) && k < |l.beats| && BeatAt(l, k) && l.beats[k].o.Served? && Packet.Framed(l.codec, o)
    requires o.regionSize <= MAX_REGION && RecordsNamed(l, k, o)
    ensures Adopted(l.codec, o) == NamesOf(SetOf(RoundOf(l.beats[k].frame, l.beats[k].o).records), NameIn(l))
  {
    SameNames(NamesRead(Packet.Updates(l.codec, o)), RoundOf(l.beats[k].frame, l.beats[k].o).records, NameIn(l));
  }

  lemma {:induction false} SameNames(names: seq<u64>, ids: seq<u32>, name: u32 -> u64)
    requires |names| == |ids| && forall i :: 0 <= i < |ids| ==> names[i] == name(ids[i])
    ensures (set n | n in names) == NamesOf(SetOf(ids), name)
  {
    forall n
      ensures n in names <==> n in NamesOf(SetOf(ids), name)
    {
      if n in names {
        var i :| 0 <= i < |names| && names[i] == n;
        assert ids[i] in SetOf(ids);
      }
      if n in NamesOf(SetOf(ids), name) {
        var id: u32 :| id in SetOf(ids) && name(id) == n;
        var i :| 0 <= i < |ids| && ids[i] == id;
        assert names[i] in names;
      }
    }
  }

  // ----- over a life -----

  lemma {:induction false} BelievedNext(l: Life, n: nat, square: Option<Placement>, size: nat)
    requires Spoken(l, size) && n < |l.beats|
    requires Holding(l, n, square, size) <= Believed(l.sides[n], NameIn(l))
    ensures Holding(l, n + 1, square, size) <= Believed(l.sides[n + 1], NameIn(l))
  {
    var b, held := l.beats[n], Holding(l, n, square, size);
    assert BeatAt(l, n);
    if b.o.Served? {
      ReceivedIsApplied(l, size, square, n, held);
      ContainedStep(l.sides[n], RoundOf(b.frame, b.o), l.policy.grace, l.sides[n + 1], held, NameIn(l));
    }
  }

  /** Whatever is drained of the queue, a client never holds a name but that of a ghost or of a
      despawn it is still owed. */
  lemma {:induction false} HoldsOnlyBelieved(l: Life, n: nat, square: Option<Placement>, size: nat)
    requires Spoken(l, size) && n <= |l.beats| && l.beats != []
    ensures Holding(l, n, square, size) <= Believed(l.sides[n], NameIn(l))
  {
    if n > 0 {
      HoldsOnlyBelieved(l, n - 1, square, size);
      BelievedNext(l, n - 1, square, size);
    }
  }

  /** Tick `k` served nobody, or drained its whole queue. */
  ghost predicate DrainedAt(l: Life, k: int)
    requires Lived(l) && 0 <= k < |l.beats|
  {
    BeatAt(l, k) && (l.beats[k].o.Served? ==> Drains(l.sides[k], RoundOf(l.beats[k].frame, l.beats[k].o)))
  }

  /** And dropped no name that is a ghost's and is not sent again. */
  ghost predicate UnmixedAt(l: Life, k: int)
    requires Lived(l) && 0 <= k < |l.beats|
  {
    BeatAt(l, k) && (l.beats[k].o.Served? ==>
      Clear(l.sides[k], RoundOf(l.beats[k].frame, l.beats[k].o), NameIn(l)))
  }

  ghost predicate HoldsExactlyAt(l: Life, square: Option<Placement>, size: nat, n: int)
    requires Lived(l) && l.beats != [] && 0 <= n <= |l.beats| && size <= MAX_REGION
  {
    InStep(l.sides[n], Holding(l, n, square, size), NameIn(l))
  }

  lemma {:induction false} TickDecides(l: Life, square: Option<Placement>, size: nat, n: nat)
    requires Spoken(l, size) && n < |l.beats| && DrainedAt(l, n) && HoldsExactlyAt(l, square, size, n)
    ensures HoldsExactlyAt(l, square, size, n + 1) <==> UnmixedAt(l, n)
  {
    var b, held := l.beats[n], Holding(l, n, square, size);
    assert BeatAt(l, n);
    if b.o.Served? {
      var r := RoundOf(b.frame, b.o);
      ReceivedIsApplied(l, size, square, n, held);
      if UnmixedAt(l, n) {
        ClearStep(l.sides[n], r, l.policy.grace, l.sides[n + 1], held, NameIn(l));
      } else {
        UnclearStep(l.sides[n], r, l.policy.grace, l.sides[n + 1], held, NameIn(l));
      }
    }
  }

  lemma {:induction false} ExactWhileUnmixed(l: Life, square: Option<Placement>, size: nat, n: nat)
    requires Spoken(l, size) && n <= |l.beats| && l.beats != []
    requires forall k :: 0 <= k < n ==> DrainedAt(l, k) && UnmixedAt(l, k)
    ensures HoldsExactlyAt(l, square, size, n)
  {
    if n == 0 {
      assert NamesOf({}, NameIn(l)) == {} && SetOf([]) == {};
      assert l.sides[0].ghosts.Keys == {};
    } else {
      ExactWhileUnmixed(l, square, size, n - 1);
      TickDecides(l, square, size, n - 1);
    }
  }

  /** If every serve drains its whole queue, the names a client has read are at all times
      exactly those of the ghosts and of the despawns it is owed, none of them both, if and
      only if no serve drops a name that is a ghost's and that it does not send again. */
  lemma {:induction false} HoldsExactly(l: Life, square: Option<Placement>, size: nat)
    requires Spoken(l, size) && l.beats != [] && forall k :: 0 <= k < |l.beats| ==> DrainedAt(l, k)
    ensures (forall n :: 0 <= n <= |l.beats| ==> HoldsExactlyAt(l, square, size, n)) <==>
      (forall k :: 0 <= k < |l.beats| ==> UnmixedAt(l, k))
  {
    if forall n :: 0 <= n <= |l.beats| ==> HoldsExactlyAt(l, square, size, n) {
      forall k | 0 <= k < |l.beats|
        ensures UnmixedAt(l, k)
      {
        assert HoldsExactlyAt(l, square, size, k) && HoldsExactlyAt(l, square, size, k + 1);
        TickDecides(l, square, size, k);
      }
    }
    if forall k :: 0 <= k < |l.beats| ==> UnmixedAt(l, k) {
      forall n | 0 <= n <= |l.beats|
        ensures HoldsExactlyAt(l, square, size, n)
      {
        ExactWhileUnmixed(l, square, size, n);
      }
    }
  }

  // ----- a despawn and the record before it -----

  /** Tick `k` is the last before `n` to have sent `id`. */
  ghost predicate LastSending(l: Life, n: nat, id: u32, k: nat)
    requires n <= |l.beats|
  {
    k < n && Sends(l.beats[k], id) && forall i :: k < i < n ==> !Sends(l.beats[i], id)
  }

  /** Nothing is a ghost, or owed a despawn, that was never sent. */
  lemma {:induction false} WasSent(l: Life, n: nat, id: u32) returns (k: nat)
    requires Lived(l) && n <= |l.beats| && (id in l.sides[n].ghosts || id in l.sides[n].pending)
    ensures LastSending(l, n, id, k)
  {
    if n == 0 {
      assert false;
    } else if Sends(l.beats[n - 1], id) {
      k := n - 1;
    } else {
      StillKnown(l, n - 1, id);
      k := WasSent(l, n - 1, id);
    }
  }

  lemma {:induction false} StillKnown(l: Life, n: nat, id: u32)
    requires Lived(l) && n < |l.beats| && !Sends(l.beats[n], id)
    requires id in l.sides[n + 1].ghosts || id in l.sides[n + 1].pending
    ensures id in l.sides[n].ghosts || id in l.sides[n].pending
  {
    assert BeatAt(l, n);
    if l.beats[n].o.Served? {
      var r := RoundOf(l.beats[n].frame, l.beats[n].o);
      RecordsAreSent(l, n, id);
      MarkedKeys(l.sides[n], r);
      assert id in Marked(l.sides[n], r) ==> id in l.sides[n].ghosts;
    }
  }

  /** A despawn names its entity as the last record of it did: what the client reads for the
      `j`th despawn of a packet is what it read in the last packet that recorded that id. */
  lemma {:induction false} DespawnNamesTheRecord(l: Life, size: nat, square: Option<Placement>, n: nat, j: nat)
    returns (k: nat, i: nat, drop: Packet.Observation, last: Packet.Observation)
    requires Spoken(l, size) && n < |l.beats| && l.beats[n].o.Served? && j < |l.beats[n].o.despawns|
    ensures LastSending(l, n, l.beats[n].o.despawns[j], k) && SentAt(l.beats[k], l.beats[n].o.despawns[j], i)
    ensures Reads(l, size, square, n, drop) && Reads(l, size, square, k, last)
    ensures j < |Packet.AllDespawns(l.codec, drop)| && i < |Packet.Updates(l.codec, last)|
    ensures Packet.AllDespawns(l.codec, drop)[j] == Packet.Updates(l.codec, last)[i].name
  {
    var id := l.beats[n].o.despawns[j];
    assert BeatAt(l, n);
    assert id in l.sides[n].pending;
    k := WasSent(l, n, id);
    i :| SentAt(l.beats[k], id, i);
    drop := PacketReads(l, size, square, n);
    last := PacketReads(l, size, square, k);
  }

  /** Unnamed entities of different regions, or of one, never share a name. */
  lemma {:induction false} RegionNamesDiffer(region: nat, id: nat, other: nat, jd: nat)
    requires region < 0x8000_0000 && other < 0x8000_0000 && id < 0x1_0000_0000 && jd < 0x1_0000_0000
    ensures OfRegion(region, id) == OfRegion(other, jd) <==> region == other && id == jd
  {
  }
}
