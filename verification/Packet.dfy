/** Entity records at reduced width, and the payloads they travel in. */
module Packet {
  import opened Numbers
  import opened Config
  import opened Bytes
  import opened WorldFrame

  // ----- records -----

  datatype RecordCodec = RecordCodec(hBits: nat, vBits: nat, posBytes: nat) {
    function RecordBytes(): nat {
      8 + posBytes + 2
    }
  }

  /** Bit widths a configured region can have, and the whole bytes they fill. */
  predicate Codec(c: RecordCodec) {
    c.hBits <= 30 && c.vBits <= 30 && c.posBytes == (2 * c.hBits + c.vBits + 7) / 8
  }

  function CodecOf(cfg: WorldConfig): (c: RecordCodec) {
    RecordCodec(cfg.horizontalBits, cfg.verticalBits, (2 * cfg.horizontalBits + cfg.verticalBits + 7) / 8)
  }

  /** Every configuration has a codec: a position never needs more than 128 bits. */
  lemma {:induction false} CodecFits(cfg: WorldConfig)
    requires cfg.Valid()
    ensures Codec(CodecOf(cfg)) && CodecOf(cfg).posBytes <= 16
  {
    Pow2Of32();
    assert Pow2(32) == 2 * Pow2(31);
    if cfg.horizontalBits >= 31 {
      Pow2Monotone(31, cfg.horizontalBits);
    }
    if cfg.verticalBits >= 31 {
      Pow2Monotone(31, cfg.verticalBits);
    }
  }

  /** One entity as a packet carries it. */
  datatype Record = Record(name: u64, at: Pos3, tag: u16)

  /** A position the codec's widths can hold: one inside the region. */
  predicate Holds(c: RecordCodec, p: Pos3) {
    0 <= p.x < Pow2(c.hBits) && 0 <= p.y < Pow2(c.hBits) && 0 <= p.z < Pow2(c.vBits)
  }

  function Packed(c: RecordCodec, p: Pos3): nat {
    Or(Or(AsWord(p.x), AsWord(p.y) * Pow2(c.hBits)), AsWord(p.z) * Pow2(2 * c.hBits))
  }

  function EncodeRecord(c: RecordCodec, r: Record): (b: seq<byte>)
    requires Codec(c)
    ensures |b| == c.RecordBytes()
  {
    LeBytes(r.name, 8) + LeBytes(Packed(c, r.at), 16)[..c.posBytes] + LeBytes(r.tag, 2)
  }

  /** An axis read out of the packed position. */
  function Field(packed: nat, shift: nat, bits: nat): (v: i32)
    requires bits <= 30
    ensures 0 <= v < Pow2(bits)
  {
    Pow2Of32();
    Pow2Monotone(bits, 30);
    assert Pow2(32) == 4 * Pow2(30);
    AndMask(Shr(packed, shift), bits);
    And(Shr(packed, shift), Pow2(bits) - 1)
  }

  function Unpacked(c: RecordCodec, packed: nat): (p: Pos3)
    requires Codec(c)
    ensures Holds(c, p)
  {
    Pos3(Field(packed, 0, c.hBits), Field(packed, c.hBits, c.hBits), Field(packed, 2 * c.hBits, c.vBits))
  }

  /** A record's bytes taken apart again, if there are enough of them. */
  function DecodeRecord(c: RecordCodec, buf: seq<byte>): (r: Option<Record>)
    requires Codec(c)
    ensures r.None? <==> |buf| < c.RecordBytes()
  {
    if |buf| < c.RecordBytes() then None
    else
      WordWidths();
      var tagAt := 8 + c.posBytes;
      var packed := FromLe(buf[8..tagAt] + Zeros(16 - c.posBytes));
      Some(Record(WordAt(buf, 0, 8), Unpacked(c, packed), WordAt(buf, tagAt, 2)))
  }

  /** Or-ing shifted axes into a word sets them side by side. */
  lemma {:induction false} PackedSum(c: RecordCodec, p: Pos3)
    requires Holds(c, p)
    ensures Packed(c, p) == p.x + p.y * Pow2(c.hBits) + p.z * Pow2(2 * c.hBits)
    ensures p.x + p.y * Pow2(c.hBits) < Pow2(2 * c.hBits)
    ensures Packed(c, p) < Pow2(2 * c.hBits + c.vBits)
  {
    var h, w := Pow2(c.hBits), Pow2(2 * c.hBits);
    OrShifted(p.x, p.y, c.hBits);
    Pow2Add(c.hBits, c.hBits);
    RowBelow(p.x, p.y, h, h);
    OrShifted(p.x + p.y * h, p.z, 2 * c.hBits);
    Pow2Add(2 * c.hBits, c.vBits);
    RowBelow(p.x + p.y * h, p.z, w, Pow2(c.vBits));
  }

  lemma {:induction false} RowBelow(low: nat, high: nat, width: nat, rows: nat)
    requires low < width && high < rows
    ensures low + high * width < width * rows
  {
    MulLe(high + 1, rows, width);
  }

  /** A shift drops what is below it. */
  lemma {:induction false} ShrShifted(low: nat, high: nat, k: nat)
    requires low < Pow2(k)
    ensures Shr(low + high * Pow2(k), k) == high
  {
    if k > 0 {
      var m := high * Pow2(k - 1);
      assert high * Pow2(k) == 2 * m;
      assert (low + 2 * m) / 2 == low / 2 + m;
      ShrShifted(low / 2, high, k - 1);
    }
  }

  lemma {:induction false} SideBySide(x: nat, y: nat, z: nat, h: nat)
    ensures x + y * h + z * (h * h) == h * (y + h * z) + x
  {
    assert h * (h * z) == z * (h * h);
  }

  lemma {:induction false} LowField(packed: nat, v: nat, high: nat, bits: nat)
    requires bits <= 30 && v < Pow2(bits) && packed == Pow2(bits) * high + v
    ensures Field(packed, 0, bits) == v
  {
    AndMask(packed, bits);
    RemainderUnique(packed, Pow2(bits), high, v);
  }

  lemma {:induction false} FieldAbove(packed: nat, low: nat, above: nat, shift: nat, bits: nat)
    requires bits <= 30 && low < Pow2(shift) && packed == low + above * Pow2(shift)
    ensures Field(packed, shift, bits) == Field(above, 0, bits)
  {
    ShrShifted(low, above, shift);
  }

  lemma {:induction false} Commutes(a: nat, b: nat)
    ensures a * b == b * a
  {
  }

  lemma {:induction false} FieldsOf(packed: nat, x: nat, above: nat, bits: nat, h: nat)
    requires bits <= 30 && h == Pow2(bits) && x < h && packed == h * above + x
    ensures Field(packed, 0, bits) == x && Field(packed, bits, bits) == Field(above, 0, bits)
  {
    LowField(packed, x, above, bits);
    Commutes(h, above);
    FieldAbove(packed, x, above, bits, bits);
  }

  lemma {:induction false} Nested(packed: nat, x: nat, y: nat, z: nat, h: nat, w: nat)
    requires packed == x + y * h + z * w && w == h * h
    ensures packed == h * (y + h * z) + x
  {
    SideBySide(x, y, z, h);
  }

  lemma {:induction false} PackedNested(c: RecordCodec, p: Pos3)
    requires Holds(c, p)
    ensures Packed(c, p) == Pow2(c.hBits) * (p.y + Pow2(c.hBits) * p.z) + p.x
  {
    PackedSum(c, p);
    Pow2Add(c.hBits, c.hBits);
    Nested(Packed(c, p), p.x, p.y, p.z, Pow2(c.hBits), Pow2(2 * c.hBits));
  }

  lemma {:induction false} LowFields(c: RecordCodec, p: Pos3)
    requires Codec(c) && Holds(c, p)
    ensures Field(Packed(c, p), 0, c.hBits) == p.x && Field(Packed(c, p), c.hBits, c.hBits) == p.y
  {
    var h := Pow2(c.hBits);
    PackedNested(c, p);
    MulLe(0, h, p.z);
    FieldsOf(Packed(c, p), p.x, p.y + h * p.z, c.hBits, h);
    LowField(p.y + h * p.z, p.y, p.z, c.hBits);
  }

  lemma {:induction false} SmallField(v: nat, bits: nat)
    requires bits <= 30 && v < Pow2(bits)
    ensures Field(v, 0, bits) == v
  {
    AndMask(v, bits);
    SmallRemainder(v, Pow2(bits));
  }

  lemma {:induction false} HighField(c: RecordCodec, p: Pos3)
    requires Codec(c) && Holds(c, p)
    ensures Field(Packed(c, p), 2 * c.hBits, c.vBits) == p.z
  {
    PackedSum(c, p);
    MulLe(0, p.y, Pow2(c.hBits));
    var low := p.x + p.y * Pow2(c.hBits);
    FieldAbove(Packed(c, p), low, p.z, 2 * c.hBits, c.vBits);
    SmallField(p.z, c.vBits);
  }

  /** Packing loses nothing of a position inside the region. */
  lemma {:induction false} PackedRoundTrips(c: RecordCodec, p: Pos3)
    requires Codec(c) && Holds(c, p)
    ensures Unpacked(c, Packed(c, p)) == p
  {
    LowFields(c, p);
    HighField(c, p);
  }

  lemma {:induction false} BitsFill(c: RecordCodec)
    requires Codec(c)
    ensures Pow2(2 * c.hBits + c.vBits) <= Pow256(c.posBytes)
  {
    Pow256IsPow2(c.posBytes);
    Pow2Monotone(2 * c.hBits + c.vBits, 8 * c.posBytes);
  }

  lemma {:induction false} PositionFits(c: RecordCodec, p: Pos3)
    requires Codec(c) && Holds(c, p)
    ensures Packed(c, p) < Pow256(c.posBytes)
  {
    PackedSum(c, p);
    BitsFill(c);
  }

  /** The packed word comes back from its truncated bytes. */
  lemma {:induction false} PackedReadsBack(c: RecordCodec, p: Pos3)
    requires Codec(c) && Holds(c, p)
    ensures FromLe(LeBytes(Packed(c, p), 16)[..c.posBytes] + Zeros(16 - c.posBytes)) == Packed(c, p)
  {
    PositionFits(c, p);
    LePrefix(Packed(c, p), c.posBytes, 16);
    FromLePadded(LeBytes(Packed(c, p), c.posBytes), 16 - c.posBytes);
    LeRoundTrips(Packed(c, p), c.posBytes);
  }

  lemma {:induction false} Pieces(a: seq<byte>, b: seq<byte>, c: seq<byte>, rest: seq<byte>)
    ensures var s := a + b + c + rest;
      && s[0..|a|] == a && s[|a|..|a| + |b|] == b && s[|a| + |b|..|a| + |b| + |c|] == c
  {
  }

  lemma {:induction false} DecodesPieces(c: RecordCodec, name: seq<byte>, pos: seq<byte>, tag: seq<byte>,
      rest: seq<byte>)
    requires Codec(c) && |name| == 8 && |pos| == c.posBytes && |tag| == 2
    ensures FromLe(name) < 0x1_0000_0000_0000_0000 && FromLe(tag) < 0x1_0000
    ensures DecodeRecord(c, name + pos + tag + rest) ==
      Some(Record(FromLe(name), Unpacked(c, FromLe(pos + Zeros(16 - c.posBytes))), FromLe(tag)))
  {
    Pieces(name, pos, tag, rest);
    WordWidths();
    FromLeBelow(name);
    FromLeBelow(tag);
  }

  /** A record reads back as itself, whatever follows it, exactly when its position is
      inside the region. */
  lemma {:induction false} RecordRoundTrips(c: RecordCodec, r: Record, rest: seq<byte>)
    requires Codec(c)
    ensures DecodeRecord(c, EncodeRecord(c, r) + rest) == Some(r) <==> Holds(c, r.at)
  {
    DecodesPieces(c, LeBytes(r.name, 8), LeBytes(Packed(c, r.at), 16)[..c.posBytes], LeBytes(r.tag, 2), rest);
    WordWidths();
    LeRoundTrips(r.name, 8);
    LeRoundTrips(r.tag, 2);
    if Holds(c, r.at) {
      PackedReadsBack(c, r.at);
      PackedRoundTrips(c, r.at);
    }
  }

  // ----- headers -----

  const HEADER_BYTES := 16
  const DESPAWN_BYTES := 8

  datatype Header = Header(tick: u32, sequence: u16, ack: u16, ackBits: u32, despawns: u16, updates: u16)

  function HeaderBytes(h: Header): (b: seq<byte>)
    ensures |b| == HEADER_BYTES
  {
    LeBytes(h.tick, 4) + LeBytes(h.sequence, 2) + LeBytes(h.ack, 2) + LeBytes(h.ackBits, 4)
    + LeBytes(h.despawns, 2) + LeBytes(h.updates, 2)
  }

  function DecodeHeader(buf: seq<byte>): (h: Option<Header>)
    ensures h.None? <==> |buf| < HEADER_BYTES
  {
    if |buf| < HEADER_BYTES then None
    else
      WordWidths();
      Some(Header(WordAt(buf, 0, 4), WordAt(buf, 4, 2), WordAt(buf, 6, 2), WordAt(buf, 8, 4),
                  WordAt(buf, 12, 2), WordAt(buf, 14, 2)))
  }

  lemma {:induction false} HeaderRoundTrips(h: Header, rest: seq<byte>)
    ensures DecodeHeader(HeaderBytes(h) + rest) == Some(h)
  {
    WordWidths();
    var a, b, c, d, e, f := LeBytes(h.tick, 4), LeBytes(h.sequence, 2), LeBytes(h.ack, 2),
      LeBytes(h.ackBits, 4), LeBytes(h.despawns, 2), LeBytes(h.updates, 2);
    var buf := HeaderBytes(h) + rest;
    assert buf[0..4] == a && buf[4..6] == b && buf[6..8] == c;
    assert buf[8..12] == d && buf[12..14] == e && buf[14..16] == f;
    LeRoundTrips(h.tick, 4);
    LeRoundTrips(h.sequence, 2);
    LeRoundTrips(h.ack, 2);
    LeRoundTrips(h.ackBits, 4);
    LeRoundTrips(h.despawns, 2);
    LeRoundTrips(h.updates, 2);
  }

  /** Where a header's words stand. */
  lemma {:induction false} HeaderLayout(h: Header)
    ensures var b := HeaderBytes(h);
      && b[0..4] == LeBytes(h.tick, 4) && b[4..6] == LeBytes(h.sequence, 2) && b[6..8] == LeBytes(h.ack, 2)
      && b[8..12] == LeBytes(h.ackBits, 4) && b[12..14] == LeBytes(h.despawns, 2) && b[14..16] == LeBytes(h.updates, 2)
  {
  }

  /** A word with another beside it, from bit `k` up. */
  function Beside(low: nat, high: nat, k: nat): nat {
    low + high * Pow2(k)
  }

  /** And a record's: its name, its axes side by side from the lowest bit, its tag. */
  lemma {:induction false} RecordLayout(c: RecordCodec, r: Record)
    requires Codec(c) && Holds(c, r.at)
    ensures var b, n := EncodeRecord(c, r), c.posBytes;
      && b[..8] == LeBytes(r.name, 8) && b[8 + n..] == LeBytes(r.tag, 2)
      && b[8..8 + n] == LeBytes(Beside(Beside(r.at.x, r.at.y, c.hBits), r.at.z, 2 * c.hBits), n)
  {
    PackedSum(c, r.at);
    LePrefix(Packed(c, r.at), c.posBytes, 16);
  }

  // ----- payloads -----

  function NameBytes(names: seq<u64>): (b: seq<byte>)
    ensures |b| == DESPAWN_BYTES * |names|
  {
    if names == [] then [] else NameBytes(names[..|names| - 1]) + LeBytes(names[|names| - 1], 8)
  }

  function RecordsBytes(c: RecordCodec, records: seq<Record>): (b: seq<byte>)
    requires Codec(c)
    ensures |b| == |records| * c.RecordBytes()
  {
    if records == [] then []
    else
      OneMore(|records| - 1, c.RecordBytes());
      RecordsBytes(c, records[..|records| - 1]) + EncodeRecord(c, records[|records| - 1])
  }

  lemma {:induction false} OneMore(n: nat, size: nat)
    ensures (n + 1) * size == n * size + size
  {
  }

  /** What a payload of these despawns and records is. */
  function Payload(c: RecordCodec, tick: u32, sequence: u16, despawns: seq<u64>, records: seq<Record>): (b: seq<byte>)
    requires Codec(c) && |despawns| < 0x1_0000 && |records| < 0x1_0000
    ensures |b| == HEADER_BYTES + DESPAWN_BYTES * |despawns| + |records| * c.RecordBytes()
  {
    HeaderBytes(Header(tick, sequence, 0, 0, |despawns|, |records|)) + NameBytes(despawns) + RecordsBytes(c, records)
  }

  /** A buffer that each build overwrites with a whole payload. */
  class PacketWriter {
    const codec: RecordCodec
    var buf: seq<byte>

    constructor (c: RecordCodec)
      requires Codec(c)
      ensures codec == c
    {
      codec, buf := c, [];
    }

    method AppendDespawns(despawns: seq<u64>)
      modifies this
      ensures buf == old(buf) + NameBytes(despawns)
    {
      for k := 0 to |despawns|
        invariant buf == old(buf) + NameBytes(despawns[..k])
      {
        assert despawns[..k + 1][..k] == despawns[..k];
        buf := buf + LeBytes(despawns[k], 8);
      }
      assert despawns[..|despawns|] == despawns;
    }

    method AppendRecords(updates: seq<Record>) returns (updated: nat)
      requires Codec(codec)
      modifies this
      ensures buf == old(buf) + RecordsBytes(codec, updates) && updated == |updates|
    {
      updated := 0;
      for k := 0 to |updates|
        invariant updated == k && buf == old(buf) + RecordsBytes(codec, updates[..k])
      {
        assert updates[..k + 1][..k] == updates[..k];
        buf := buf + EncodeRecord(codec, updates[k]);
        updated := updated + 1;
      }
      assert updates[..|updates|] == updates;
    }

    /** Assembles one payload over whatever the buffer held. */
    method Build(tick: u32, sequence: u16, despawns: seq<u64>, updates: seq<Record>)
      requires Codec(codec) && |despawns| < 0x1_0000 && |updates| < 0x1_0000
      modifies this
      ensures buf == Payload(codec, tick, sequence, despawns, updates)
    {
      // The header's place, filled in below.
      buf := HeaderBytes(Header(0, 0, 0, 0, 0, 0));
      AppendDespawns(despawns);
      var updated := AppendRecords(updates);
      var header := Header(tick, sequence, 0, 0, |despawns|, updated);
      buf := HeaderBytes(header) + buf[HEADER_BYTES..];
    }
  }

  /** What one client was told on one tick, in the frame of the region that told it. */
  datatype Observation = Observation(header: Header, body: seq<byte>, placement: Option<Placement>, regionSize: nat)

  /** The bytes a header claims. */
  function Want(c: RecordCodec, h: Header): nat {
    HEADER_BYTES + h.despawns * DESPAWN_BYTES + h.updates * c.RecordBytes()
  }

  function InFrame(c: RecordCodec, buf: seq<byte>, placement: Option<Placement>,
      regionSize: nat): (o: Option<Observation>)
    ensures o.Some? ==> Want(c, o.value.header) == HEADER_BYTES + |o.value.body|
    ensures o.Some? ==> o.value.regionSize == regionSize
  {
    var header := DecodeHeader(buf);
    if header.None? then None
    else
      var want := Want(c, header.value);
      if |buf| < want then None
      else Some(Observation(header.value, buf[HEADER_BYTES..want], placement, regionSize))
  }

  /** A claim no wider than the body it arrived with. */
  predicate Framed(c: RecordCodec, o: Observation) {
    |o.body| == o.header.despawns * DESPAWN_BYTES + o.header.updates * c.RecordBytes()
  }

  /** Every despawn in a packet, by name, in order. */
  function AllDespawns(c: RecordCodec, o: Observation): (names: seq<u64>)
    requires Framed(c, o)
    ensures |names| == o.header.despawns
  {
    WordWidths();
    seq(o.header.despawns, k requires 0 <= k < o.header.despawns => WordAt(o.body, k * DESPAWN_BYTES, 8))
  }

  /** One entity as an observation shows it, in world coordinates. */
  datatype Update = Update(name: u64, at: WorldPos, tag: u16)

  /** Where a record's position is in the frame regions share. */
  function World(placement: Option<Placement>, size: nat, at: Pos3): WorldPos
    requires size <= MAX_REGION
  {
    match placement
    case Some(square) => FromLocal(at, square, size)
    case None => WorldPos(at.x, at.y, at.z)
  }

  function Shown(placement: Option<Placement>, size: nat, r: Record): Update
    requires size <= MAX_REGION
  {
    Update(r.name, World(placement, size, r.at), r.tag)
  }

  /** Where a record stands in the body. */
  function RecordAt(c: RecordCodec, o: Observation, k: nat): (at: nat)
    requires Framed(c, o) && k < o.header.updates
    ensures at + c.RecordBytes() <= |o.body|
  {
    OneMore(k, c.RecordBytes());
    MulLe(k + 1, o.header.updates, c.RecordBytes());
    o.header.despawns * DESPAWN_BYTES + k * c.RecordBytes()
  }

  /** The records of a packet, in order. */
  function Records(c: RecordCodec, o: Observation): (records: seq<Record>)
    requires Codec(c) && Framed(c, o)
    ensures |records| == o.header.updates
  {
    seq(o.header.updates, k requires 0 <= k < o.header.updates => DecodeRecord(c, o.body[RecordAt(c, o, k)..]).value)
  }

  function Updates(c: RecordCodec, o: Observation): (u: seq<Update>)
    requires Codec(c) && Framed(c, o) && o.regionSize <= MAX_REGION
    ensures |u| == o.header.updates
  {
    var records := Records(c, o);
    seq(|records|, i requires 0 <= i < |records| => Shown(o.placement, o.regionSize, records[i]))
  }

  predicate AllHold(c: RecordCodec, records: seq<Record>) {
    forall k :: 0 <= k < |records| ==> Holds(c, records[k].at)
  }

  lemma {:induction false} DespawnReads(body: seq<byte>, despawns: seq<u64>, k: nat, rest: seq<byte>)
    requires k < |despawns| && body == NameBytes(despawns) + rest
    ensures FromLe(body[k * DESPAWN_BYTES..k * DESPAWN_BYTES + 8]) == despawns[k]
  {
    WordWidths();
    var tail := NamesSplit(despawns, k + 1);
    var before, word := NameBytes(despawns[..k]), LeBytes(despawns[k], 8);
    assert body == before + word + (tail + rest);
    LeRoundTrips(despawns[k], 8);
    assert body[|before|..|before| + 8] == word;
  }

  lemma {:induction false} Regroup(a: seq<byte>, b: seq<byte>, c: seq<byte>, d: seq<byte>)
    ensures (a + b + c) + d == a + b + (c + d)
  {
  }

  lemma {:induction false} NamesSplit(names: seq<u64>, n: nat) returns (tail: seq<byte>)
    requires 0 < n <= |names|
    ensures NameBytes(names) == NameBytes(names[..n - 1]) + LeBytes(names[n - 1], 8) + tail
  {
    if n == |names| {
      tail := [];
    } else {
      var front, last := names[..|names| - 1], LeBytes(names[|names| - 1], 8);
      var less := NamesSplit(front, n);
      assert front[..n - 1] == names[..n - 1];
      tail := less + last;
      Regroup(NameBytes(names[..n - 1]), LeBytes(names[n - 1], 8), less, last);
    }
  }

  lemma {:induction false} RecordsSplit(c: RecordCodec, records: seq<Record>, n: nat) returns (tail: seq<byte>)
    requires Codec(c) && 0 < n <= |records|
    ensures RecordsBytes(c, records) == RecordsBytes(c, records[..n - 1]) + EncodeRecord(c, records[n - 1]) + tail
  {
    if n == |records| {
      tail := [];
    } else {
      var front, last := records[..|records| - 1], EncodeRecord(c, records[|records| - 1]);
      var less := RecordsSplit(c, front, n);
      assert front[..n - 1] == records[..n - 1];
      tail := less + last;
      Regroup(RecordsBytes(c, records[..n - 1]), EncodeRecord(c, records[n - 1]), less, last);
    }
  }

  lemma {:induction false} Beyond(front: seq<byte>, before: seq<byte>, back: seq<byte>)
    ensures (front + (before + back))[|front| + |before|..] == back
  {
  }

  lemma {:induction false} RecordStands(c: RecordCodec, front: seq<byte>, records: seq<Record>, k: nat)
      returns (tail: seq<byte>)
    requires Codec(c) && k < |records|
    ensures |front| + |RecordsBytes(c, records[..k])| <= |front + RecordsBytes(c, records)|
    ensures (front + RecordsBytes(c, records))[|front| + |RecordsBytes(c, records[..k])|..] ==
      EncodeRecord(c, records[k]) + tail
  {
    tail := RecordsSplit(c, records, k + 1);
    var before, back := RecordsBytes(c, records[..k]), EncodeRecord(c, records[k]) + tail;
    Beyond(front, before, back);
    assert RecordsBytes(c, records) == before + back;
  }

  lemma {:induction false} RecordReads(c: RecordCodec, body: seq<byte>, front: seq<byte>, records: seq<Record>, k: nat,
      at: nat)
    requires Codec(c) && k < |records| && AllHold(c, records)
    requires body == front + RecordsBytes(c, records) && at == |front| + |RecordsBytes(c, records[..k])| <= |body|
    ensures DecodeRecord(c, body[at..]) == Some(records[k])
  {
    var tail := RecordStands(c, front, records, k);
    RecordRoundTrips(c, records[k], tail);
  }

  /** A payload decodes to exactly its despawns and records, in order. */
  lemma {:induction false} PayloadRoundTrips(c: RecordCodec, tick: u32, sequence: u16, despawns: seq<u64>,
      records: seq<Record>, placement: Option<Placement>, size: nat)
    requires Codec(c) && |despawns| < 0x1_0000 && |records| < 0x1_0000 && AllHold(c, records) && size <= MAX_REGION
    ensures var o := InFrame(c, Payload(c, tick, sequence, despawns, records), placement, size);
      && o.Some? && Framed(c, o.value)
      && o.value.header.tick == tick && o.value.header.sequence == sequence
      && AllDespawns(c, o.value) == despawns
      && Updates(c, o.value) == seq(|records|, i requires 0 <= i < |records| => Shown(placement, size, records[i]))
  {
    var h := Header(tick, sequence, 0, 0, |despawns|, |records|);
    var o := Observation(h, NameBytes(despawns) + RecordsBytes(c, records), placement, size);
    PayloadOpens(c, h, despawns, records, placement, size);
    BodyReads(c, o, despawns, records);
    forall i | 0 <= i < |records|
      ensures Updates(c, o)[i] == Shown(placement, size, records[i])
    {
      assert Records(c, o)[i] == records[i];
    }
  }

  /** A payload's header is read back, and the rest is its body. */
  lemma {:induction false} PayloadOpens(c: RecordCodec, h: Header, despawns: seq<u64>, records: seq<Record>,
      placement: Option<Placement>, size: nat)
    requires Codec(c) && h.despawns == |despawns| && h.updates == |records|
    ensures var body := NameBytes(despawns) + RecordsBytes(c, records);
      InFrame(c, HeaderBytes(h) + NameBytes(despawns) + RecordsBytes(c, records), placement, size)
        == Some(Observation(h, body, placement, size))
  {
    var body := NameBytes(despawns) + RecordsBytes(c, records);
    var buf := HeaderBytes(h) + NameBytes(despawns) + RecordsBytes(c, records);
    assert buf == HeaderBytes(h) + body;
    HeaderRoundTrips(h, body);
    assert buf[HEADER_BYTES..|buf|] == body;
  }

  /** A body reads back as its despawns and records. */
  lemma {:induction false} BodyReads(c: RecordCodec, o: Observation, despawns: seq<u64>, records: seq<Record>)
    requires Codec(c) && AllHold(c, records) && o.header.despawns == |despawns| && o.header.updates == |records|
    requires o.body == NameBytes(despawns) + RecordsBytes(c, records)
    ensures Framed(c, o) && AllDespawns(c, o) == despawns && Records(c, o) == records
  {
    forall k | 0 <= k < |despawns|
      ensures AllDespawns(c, o)[k] == despawns[k]
    {
      DespawnReads(o.body, despawns, k, RecordsBytes(c, records));
    }
    forall k | 0 <= k < |records|
      ensures Records(c, o)[k] == records[k]
    {
      assert |RecordsBytes(c, records[..k])| == k * c.RecordBytes();
      RecordReads(c, o.body, NameBytes(despawns), records, k, RecordAt(c, o, k));
    }
  }

  /** Every strict prefix of a payload is refused. */
  lemma {:induction false} PrefixRefused(c: RecordCodec, tick: u32, sequence: u16, despawns: seq<u64>,
      records: seq<Record>, placement: Option<Placement>, size: nat, n: nat)
    requires Codec(c) && |despawns| < 0x1_0000 && |records| < 0x1_0000
    requires n < |Payload(c, tick, sequence, despawns, records)|
    ensures InFrame(c, Payload(c, tick, sequence, despawns, records)[..n], placement, size).None?
  {
    var h := Header(tick, sequence, 0, 0, |despawns|, |records|);
    var buf := Payload(c, tick, sequence, despawns, records);
    if n >= HEADER_BYTES {
      var rest := buf[HEADER_BYTES..n];
      assert buf[..n] == HeaderBytes(h) + rest;
      HeaderRoundTrips(h, rest);
    }
  }
}
