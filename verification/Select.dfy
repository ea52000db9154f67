/** Scoring a viewer's ghost set, ranking it, and committing what fits one packet. */
module Select {
  import opened Numbers
  import opened Probing
  import opened Ghosts
  import opened Ordering
  import opened Nearest
  import opened Gather

  const BANDS := 64

  /** Where a metre falls: a metre is 2^10 raw units, squared. */
  const NEAR_BAND := 20

  /** The bit of a rank's position that marks a stranger. */
  const NEW_BIT: nat := 0x8000_0000

  // ----- packed distances -----

  /** The middle bits of a squared distance: units of 256, modulo 2^32. */
  function PackedDist(distSq: nat): u32 {
    Shr(distSq, 8) % 0x1_0000_0000
  }

  lemma {:induction false} PackedDistIs(distSq: nat)
    ensures PackedDist(distSq) == (distSq / 256) % 0x1_0000_0000
  {
    assert Pow2(8) == 256;
    ShrBounds(distSq, 8);
  }

  function Dists(cands: seq<Discovered>): (d: seq<u32>) {
    seq(|cands|, i requires 0 <= i < |cands| => PackedDist(cands[i].distSq))
  }

  /** While squared distances stay below 2^40, nobody left out of the ghost set is
      nearer than anybody in it by as much as one packed unit. */
  lemma {:induction false} GhostSetIsNearest(cands: seq<Discovered>, cap: nat, keep: seq<nat>, i: nat, j: nat)
    requires NearestOf(Dists(cands), cap, keep)
    requires i < |cands| && j < |cands| && i in keep && j !in keep
    requires cands[i].distSq < 0x100_0000_0000 && cands[j].distSq < 0x100_0000_0000
    ensures cands[i].distSq / 256 <= cands[j].distSq / 256
    ensures cands[i].distSq / 256 == cands[j].distSq / 256 ==> i < j
  {
    assert Closer(Dists(cands), i, j);
    PackedDistIs(cands[i].distSq);
    PackedDistIs(cands[j].distSq);
  }

  // ----- weights and scores -----

  /** One weight per band, none of them zero. */
  predicate WeightTable(w: seq<u16>) {
    |w| == BANDS && forall b :: 0 <= b < |w| ==> w[b] != 0
  }

  predicate NonIncreasing(w: seq<u16>) {
    forall a, b :: 0 <= a <= b < |w| ==> w[a] >= w[b]
  }

  function PowerShift(band: nat, kHalves: nat): (s: nat)
    ensures s <= 12
  {
    Max(0, 12 - Max(0, band - NEAR_BAND) * kHalves / 4)
  }

  /** Weight proportional to distance to the power of minus `kHalves` halves. */
  method InversePower(kHalves: u32) returns (w: seq<u16>)
    requires 43 * kHalves < 0x1_0000_0000
    ensures WeightTable(w) && NonIncreasing(w)
    ensures forall b :: 0 <= b < BANDS ==> w[b] == Pow2(PowerShift(b, kHalves))
  {
    w := [];
    for b := 0 to BANDS
      invariant |w| == b && forall a :: 0 <= a < b ==> w[a] != 0 && w[a] == Pow2(PowerShift(a, kHalves))
    {
      Pow2Monotone(PowerShift(b, kHalves), 12);
      assert Pow2(12) == 4096;
      w := w + [Pow2(PowerShift(b, kHalves))];
    }
    forall a, b | 0 <= a <= b < |w|
      ensures w[a] >= w[b]
    {
      ShiftFalls(a, b, kHalves);
      Pow2Monotone(PowerShift(b, kHalves), PowerShift(a, kHalves));
    }
  }

  lemma {:induction false} ShiftFalls(a: nat, b: nat, kHalves: nat)
    requires a <= b
    ensures PowerShift(b, kHalves) <= PowerShift(a, kHalves)
  {
    MulLe(Max(0, a - NEAR_BAND), Max(0, b - NEAR_BAND), kHalves);
  }

  /** The band of a squared separation, guarded against zero. */
  function BandOf(distSq: nat): nat
  {
    OrOne(distSq);
    Log2(Or(distSq, 1))
  }

  lemma {:induction false} OrOne(n: nat)
    ensures Or(n, 1) == (if n % 2 == 1 then n else n + 1)
  {
    assert Or(n / 2, 0) == n / 2;
  }

  lemma {:induction false} BandFits(distSq: u64)
    ensures BandOf(distSq) < BANDS
  {
    OrOne(distSq);
    Log2Bounds(Or(distSq, 1));
    Pow2Of32();
    Pow2Add(32, 32);
    if BandOf(distSq) >= 64 {
      Pow2Monotone(64, BandOf(distSq));
      assert false;
    }
  }

  lemma {:induction false} BandGrows(a: nat, b: nat)
    requires a <= b
    ensures BandOf(a) <= BandOf(b)
  {
    OrOne(a);
    OrOne(b);
    Log2Bounds(Or(a, 1));
    Log2Bounds(Or(b, 1));
    if BandOf(a) > BandOf(b) {
      Pow2Monotone(BandOf(b) + 1, BandOf(a));
      assert false;
    }
  }

  /** Twice the separation is two bands further out. */
  lemma {:induction false} BandOfDouble(distSq: nat)
    requires distSq > 0
    ensures BandOf(4 * distSq) == BandOf(distSq) + 2
  {
    OrOne(distSq);
    OrOne(4 * distSq);
    LogHalf(distSq);
    LogHalf(4 * distSq);
    LogOfDouble(distSq);
    LogOfDouble(2 * distSq);
  }

  lemma {:induction false} LogOfDouble(n: nat)
    requires n > 0
    ensures Log2(2 * n) == Log2(n) + 1
  {
    assert 2 * n / 2 == n;
  }

  /** The lowest bit of a number other than one does not move its logarithm. */
  lemma {:induction false} LogHalf(n: nat)
    requires n > 0
    ensures Log2(Or(n, 1)) == Log2(n)
  {
    OrOne(n);
    if n % 2 == 0 {
      assert (n + 1) / 2 == n / 2;
    }
  }

  /** `drift x weight`, saturating. */
  function ScoreOf(drift: u32, distSq: u64, w: seq<u16>): (score: u32)
    requires WeightTable(w)
    ensures score == 0 <==> drift == 0
  {
    BandFits(distSq);
    WeightGrows(drift, w[BandOf(distSq)]);
    Min(0xFFFF_FFFF, drift * w[BandOf(distSq)])
  }

  lemma {:induction false} WeightGrows(drift: nat, weight: nat)
    requires weight > 0
    ensures drift * weight >= drift && (drift == 0 ==> drift * weight == 0)
  {
    MulLe(1, weight, drift);
  }

  /** More drift never scores lower, and neither does a smaller separation under a
      table that falls with distance. */
  lemma {:induction false} ScoreIsMonotone(drift: u32, less: u32, near: u64, far: u64, w: seq<u16>)
    requires WeightTable(w) && NonIncreasing(w) && less <= drift && near <= far
    ensures ScoreOf(less, far, w) <= ScoreOf(drift, near, w)
  {
    BandFits(near);
    BandFits(far);
    BandGrows(near, far);
    MulLe(less, drift, w[BandOf(far)]);
    MulLe(w[BandOf(far)], w[BandOf(near)], drift);
  }

  /** Between a metre and 4096 metres, doubling the separation halves the weight of
      the inverse-distance curve. */
  lemma {:induction false} InverseDistanceHalves(distSq: nat, w: seq<u16>)
    requires WeightTable(w) && forall b :: 0 <= b < BANDS ==> w[b] == Pow2(PowerShift(b, 2))
    requires 0x10_0000 <= distSq < 0x1000_0000_0000
    ensures BandOf(distSq) < BandOf(4 * distSq) < BANDS
    ensures w[BandOf(distSq)] as int == 2 * (w[BandOf(4 * distSq)] as int)
  {
    BandWithin(distSq);
    BandOfDouble(distSq);
    var band := BandOf(distSq);
    assert PowerShift(band, 2) == PowerShift(band + 2, 2) + 1;
    assert Pow2(PowerShift(band + 2, 2) + 1) == 2 * Pow2(PowerShift(band + 2, 2));
  }

  lemma {:induction false} LogBetween(n: nat, low: nat, high: nat)
    requires n > 0 && Pow2(low) <= n < Pow2(high)
    ensures low <= Log2(n) < high
  {
    Log2Bounds(n);
    if Log2(n) < low {
      Pow2Monotone(Log2(n) + 1, low);
    }
    if Log2(n) >= high {
      Pow2Monotone(high, Log2(n));
    }
  }

  lemma {:induction false} BandWithin(distSq: nat)
    requires 0x10_0000 <= distSq < 0x1000_0000_0000
    ensures 20 <= BandOf(distSq) < 44
  {
    LogHalf(distSq);
    Pow2Of44();
    LogBetween(distSq, 20, 44);
  }

  lemma {:induction false} Pow2Of44()
    ensures Pow2(20) == 0x10_0000 && Pow2(44) == 0x1000_0000_0000
  {
    assert Pow2(4) == 16;
    Pow2Add(4, 4);
    Pow2Add(8, 8);
    Pow2Add(16, 4);
    assert Pow2(20) == 0x10_0000;
    Pow2Add(20, 20);
    assert Pow2(40) == 0x100_0000_0000;
    Pow2Add(40, 4);
  }

  // ----- ranking -----

  datatype Policy = Policy(ghostCap: nat, grace: u32, unseenDrift: u32, weights: seq<u16>, refresh: u32)

  predicate Sound(p: Policy) {
    p.ghostCap >= 1 && WeightTable(p.weights)
  }

  /** A score, and a candidate's index with a flag over it if the client has no ghost of it. */
  datatype Ranked = Ranked(score: u32, at: u32) {
    function Index(): nat {
      And(at, 0x7FFF_FFFF)
    }

    predicate IsNew() {
      And(at, 0x8000_0000) != 0
    }
  }

  datatype Selection = Selection(ranked: seq<Ranked>, keep: seq<nat>, sent: nat, departed: seq<u32>)

  /** What the gather hands over: entities the odometer covers, at 64-bit distances. */
  ghost predicate Candidates(cands: seq<Discovered>, readings: seq<u32>) {
    && |cands| <= NEW_BIT
    && forall i :: 0 <= i < |cands| ==> Covered(cands[i], readings)
  }

  predicate Covered(c: Discovered, readings: seq<u32>) {
    c.id < |readings| && c.id < EMPTY && c.distSq < 0x1_0000_0000_0000_0000
  }

  /** How far a client's copy may have fallen behind, or what stands in for it when the
      client holds no copy or has not been sent one in `refresh` ticks. */
  function DriftOf(id: u32, m: map<u32, Known>, reading: u32, tick: u32, p: Policy): u32 {
    if id !in m then p.unseenDrift
    else
      var moved := WrapSub(reading, m[id].mark);
      if p.refresh != 0 && WrapSub(tick, m[id].lastSent) >= p.refresh then Max(moved, p.unseenDrift) else moved
  }

  function RankOf(c: Discovered, k: nat, m: map<u32, Known>, readings: seq<u32>, tick: u32, p: Policy): (r: Ranked)
    requires Covered(c, readings) && k < NEW_BIT && Sound(p)
  {
    FlaggedIndex(k);
    var drift := DriftOf(c.id, m, readings[c.id], tick, p);
    Ranked(ScoreOf(drift, c.distSq, p.weights), Or(k, if c.id in m then 0 else NEW_BIT))
  }

  lemma {:induction false} AndTopBit(x: nat, k: nat)
    requires x < 2 * Pow2(k)
    ensures And(x, Pow2(k)) == if x < Pow2(k) then 0 else Pow2(k)
  {
    if k > 0 && x > 0 {
      AndTopBit(x / 2, k - 1);
      assert Pow2(k) / 2 == Pow2(k - 1) && Pow2(k) % 2 == 0;
    }
  }

  lemma {:induction false} TopBitIs()
    ensures Pow2(31) == NEW_BIT
  {
    Pow2Of32();
    assert Pow2(32) == 2 * Pow2(31);
  }

  lemma {:induction false} FlagAdds(k: nat)
    requires k < NEW_BIT
    ensures Or(k, NEW_BIT) == k + NEW_BIT && Or(k, 0) == k
  {
    TopBitIs();
    OrShifted(k, 1, 31);
  }

  lemma {:induction false} FlagClears(k: nat)
    requires k < NEW_BIT
    ensures And(k, 0x7FFF_FFFF) == k && And(k + NEW_BIT, 0x7FFF_FFFF) == k
  {
    TopBitIs();
    AndMask(k, 31);
    AndMask(k + NEW_BIT, 31);
    RemainderUnique(k, 0x8000_0000, 0, k);
    RemainderUnique(k + NEW_BIT, 0x8000_0000, 1, k);
  }

  /** A candidate index leaves the top bit of a word free. */
  lemma {:induction false} FlaggedIndex(k: nat)
    requires k < NEW_BIT
    ensures Or(k, NEW_BIT) == k + NEW_BIT && Or(k, 0) == k
    ensures And(k, 0x7FFF_FFFF) == k && And(k + NEW_BIT, 0x7FFF_FFFF) == k
    ensures And(k, NEW_BIT) == 0 && And(k + NEW_BIT, NEW_BIT) == NEW_BIT
  {
    FlagAdds(k);
    FlagClears(k);
    TopBitIs();
    AndTopBit(k, 31);
    AndTopBit(k + NEW_BIT, 31);
  }

  /** Index and flag both come back out of a rank. */
  lemma {:induction false} RankRemembers(c: Discovered, k: nat, m: map<u32, Known>, readings: seq<u32>, tick: u32,
      p: Policy)
    requires Covered(c, readings) && k < NEW_BIT && Sound(p)
    ensures RankOf(c, k, m, readings, tick, p).Index() == k
    ensures RankOf(c, k, m, readings, tick, p).IsNew() <==> c.id !in m
  {
    FlaggedIndex(k);
  }

  /** Sent sooner: a higher score, or an equal one with the smaller position. */
  predicate Before(a: Ranked, b: Ranked) {
    a.score > b.score || (a.score == b.score && a.at < b.at)
  }

  function RankKey(): Ranked -> nat {
    (r: Ranked) => (0xFFFF_FFFF - r.score) * 0x1_0000_0000 + r.at
  }

  ghost predicate Descending(ranked: seq<Ranked>) {
    forall i, j :: 0 <= i < j < |ranked| ==> Before(ranked[i], ranked[j])
  }

  function Ranks(cands: seq<Discovered>, keep: seq<nat>, m: map<u32, Known>, readings: seq<u32>, tick: u32,
      p: Policy): (r: seq<Ranked>)
    requires Candidates(cands, readings) && Sound(p)
    requires forall a :: 0 <= a < |keep| ==> keep[a] < |cands|
    ensures |r| == |keep|
  {
    seq(|keep|, a requires 0 <= a < |keep| => RankOf(cands[keep[a]], keep[a], m, readings, tick, p))
  }

  /** What a selection is: the nearest `ghostCap` candidates, ranked, of which the
      positive-score prefix within `slots` is sent. */
  ghost predicate Selects(cands: seq<Discovered>, m: map<u32, Known>, readings: seq<u32>, tick: u32, p: Policy,
      slots: nat, s: Selection)
    requires Candidates(cands, readings) && Sound(p)
  {
    && NearestOf(Dists(cands), p.ghostCap, s.keep)
    && multiset(s.ranked) == multiset(Ranks(cands, s.keep, m, readings, tick, p))
    && Descending(s.ranked)
    && s.sent <= |s.ranked| && s.sent <= slots
    && (forall i :: 0 <= i < s.sent ==> s.ranked[i].score > 0)
    && (s.sent < |s.ranked| && s.sent < slots ==> s.ranked[s.sent].score == 0)
  }

  lemma {:induction false} RanksDistinct(cands: seq<Discovered>, keep: seq<nat>, m: map<u32, Known>,
      readings: seq<u32>, tick: u32, p: Policy)
    requires Candidates(cands, readings) && Sound(p)
    requires forall a :: 0 <= a < |keep| ==> keep[a] < |cands|
    requires forall a, b :: 0 <= a < b < |keep| ==> keep[a] < keep[b]
    ensures NoRepeats(Ranks(cands, keep, m, readings, tick, p))
  {
    var r := Ranks(cands, keep, m, readings, tick, p);
    forall a, b | 0 <= a < b < |r|
      ensures r[a] != r[b]
    {
      RankRemembers(cands[keep[a]], keep[a], m, readings, tick, p);
      RankRemembers(cands[keep[b]], keep[b], m, readings, tick, p);
    }
  }

  lemma {:induction false} KeyOrders(a: Ranked, b: Ranked)
    ensures RankKey()(a) < RankKey()(b) <==> Before(a, b)
    ensures RankKey()(a) == RankKey()(b) <==> a == b
  {
  }

  lemma {:induction false} SortDescends(ranks: seq<Ranked>)
    requires NoRepeats(ranks)
    ensures Descending(SortByKey(ranks, RankKey()))
    ensures multiset(SortByKey(ranks, RankKey())) == multiset(ranks)
  {
    var sorted := SortByKey(ranks, RankKey());
    SortSorts(ranks, RankKey());
    SamePermutation(ranks, sorted);
    forall i, j | 0 <= i < j < |sorted|
      ensures Before(sorted[i], sorted[j])
    {
      KeyOrders(sorted[i], sorted[j]);
      assert RankKey()(sorted[i]) <= RankKey()(sorted[j]);
    }
  }

  /** An entry of the ranking is the rank of the kept candidate it names. */
  lemma {:induction false} RankedIsKept(cands: seq<Discovered>, m: map<u32, Known>, readings: seq<u32>, tick: u32,
      p: Policy, keep: seq<nat>, ranked: seq<Ranked>, i: nat)
    requires Candidates(cands, readings) && Sound(p)
    requires forall a :: 0 <= a < |keep| ==> keep[a] < |cands|
    requires multiset(ranked) == multiset(Ranks(cands, keep, m, readings, tick, p)) && i < |ranked|
    ensures ranked[i].Index() < |cands| && ranked[i].Index() in keep
    ensures ranked[i] == RankOf(cands[ranked[i].Index()], ranked[i].Index(), m, readings, tick, p)
  {
    assert ranked[i] in multiset(ranked);
    var ranks := Ranks(cands, keep, m, readings, tick, p);
    assert ranked[i] in ranks;
    var a :| 0 <= a < |ranks| && ranks[a] == ranked[i];
    RankRemembers(cands[keep[a]], keep[a], m, readings, tick, p);
  }

  // ----- committing -----

  /** The ids of some ranked entries. */
  function IdsOf(cands: seq<Discovered>, readings: seq<u32>, ranked: seq<Ranked>): (ids: seq<u32>)
    requires Candidates(cands, readings)
    requires forall i :: 0 <= i < |ranked| ==> ranked[i].Index() < |cands|
    ensures |ids| == |ranked| && InUse(ids, readings)
  {
    seq(|ranked|, i requires 0 <= i < |ranked| => cands[ranked[i].Index()].id)
  }

  /** Ids an odometer covers and a ghost table can hold. */
  predicate InUse(ids: seq<u32>, readings: seq<u32>) {
    forall i :: 0 <= i < |ids| ==> ids[i] < |readings| && ids[i] != EMPTY
  }

  /** The map after a commit: new entries for `records`, a later stamp on those of `rest` it
      has, the others untouched. */
  function Committed(m: map<u32, Known>, records: seq<u32>, rest: seq<u32>, readings: seq<u32>,
      tick: u32): (r: map<u32, Known>)
    requires InUse(records, readings)
  {
    map id: u32 | id in m.Keys + SetOf(records) ::
      if id in records then Known(readings[id], tick, tick)
      else if id in rest then m[id].(lastSeen := tick)
      else m[id]
  }

  function SetOf(ids: seq<u32>): set<u32> {
    set id | id in ids
  }

  lemma {:induction false} CommitOne(m: map<u32, Known>, records: seq<u32>, id: u32, readings: seq<u32>, tick: u32)
    requires InUse(records, readings) && id < |readings| && id != EMPTY
    ensures InUse(records + [id], readings)
    ensures Committed(m, records + [id], [], readings, tick) ==
      Sent(Committed(m, records, [], readings, tick), id, readings[id], tick)
  {
    assert SetOf(records + [id]) == SetOf(records) + {id};
  }

  lemma {:induction false} StampOne(m: map<u32, Known>, records: seq<u32>, rest: seq<u32>, id: u32, readings: seq<u32>,
      tick: u32)
    requires InUse(records, readings)
    ensures Committed(m, records, rest + [id], readings, tick) ==
      Seen(Committed(m, records, rest, readings, tick), id, tick)
  {
    assert forall x :: x in rest + [id] <==> x in rest || x == id;
  }

  /** Committing adds at most one ghost a record. */
  lemma {:induction false} CommitSize(m: map<u32, Known>, records: seq<u32>, readings: seq<u32>, tick: u32)
    requires InUse(records, readings)
    ensures |Committed(m, records, [], readings, tick)| <= |m| + |records|
  {
    SetOfSize(records);
    assert Committed(m, records, [], readings, tick).Keys == m.Keys + SetOf(records);
    assert |m.Keys + SetOf(records)| == |m.Keys| + |SetOf(records)| - |m.Keys * SetOf(records)|;
  }

  lemma {:induction false} SetOfSize(ids: seq<u32>)
    ensures |SetOf(ids)| <= |ids|
  {
    if ids != [] {
      var front, last := ids[..|ids| - 1], ids[|ids| - 1];
      SetOfSize(front);
      assert ids == front + [last];
      assert SetOf(ids) == SetOf(front) + {last};
    }
  }

  /** Sends and stamps in turn come to one commit of the whole selection. */
  ghost predicate Committing(ghosts: GhostTable, m: map<u32, Known>, records: seq<u32>, rest: seq<u32>,
      readings: seq<u32>, tick: u32)
    reads ghosts, ghosts.slots
  {
    && ghosts.Valid()
    && InUse(records, readings)
    && ghosts.Contents() == Committed(m, records, rest, readings, tick)
  }

  lemma {:induction false} PrefixGrows(ids: seq<u32>, i: nat)
    requires i < |ids|
    ensures ids[..i + 1] == ids[..i] + [ids[i]]
  {
  }

  /** Records a send for each of `ids`. */
  method SendEach(ids: seq<u32>, readings: seq<u32>, tick: u32, ghosts: GhostTable)
    requires ghosts.Valid() && InUse(ids, readings)
    requires 2 * (|ghosts.Contents()| + |ids|) <= 0x1_0000_0000
    modifies ghosts, ghosts.slots
    ensures ghosts.slots == old(ghosts.slots) || fresh(ghosts.slots)
    ensures Committing(ghosts, old(ghosts.Contents()), ids, [], readings, tick)
  {
    ghost var m := ghosts.Contents();
    assert Committed(m, [], [], readings, tick) == m;
    for i := 0 to |ids|
      invariant ghosts.slots == old(ghosts.slots) || fresh(ghosts.slots)
      invariant Committing(ghosts, m, ids[..i], [], readings, tick)
    {
      CommitOne(m, ids[..i], ids[i], readings, tick);
      PrefixGrows(ids, i);
      CommitSize(m, ids[..i], readings, tick);
      ghosts.CountsGhosts();
      ghosts.MarkSent(ids[i], readings[ids[i]], tick);
    }
    assert ids[..|ids|] == ids;
  }

  /** Brings the table to the commit with these as its rest. */
  method StampEach(ids: seq<u32>, readings: seq<u32>, tick: u32, ghosts: GhostTable, ghost m: map<u32, Known>,
      ghost records: seq<u32>)
    requires Committing(ghosts, m, records, [], readings, tick) && InUse(ids, readings)
    modifies ghosts.slots
    ensures Committing(ghosts, m, records, ids, readings, tick)
  {
    for i := 0 to |ids|
      invariant Committing(ghosts, m, records, ids[..i], readings, tick)
    {
      StampOne(m, records, ids[..i], ids[i], readings, tick);
      PrefixGrows(ids, i);
      var held, mark := ghosts.MarkSeen(ids[i], tick);
    }
    assert ids[..|ids|] == ids;
  }

  /** How many leading entries score above zero. */
  method LeadingPositive(ranked: seq<Ranked>, ceiling: nat) returns (n: nat)
    requires ceiling <= |ranked|
    ensures n <= ceiling && (forall i :: 0 <= i < n ==> ranked[i].score > 0)
    ensures n < ceiling ==> ranked[n].score == 0
  {
    n := 0;
    while n < ceiling && ranked[n].score > 0
      invariant n <= ceiling && forall i :: 0 <= i < n ==> ranked[i].score > 0
    {
      n := n + 1;
    }
  }

  /** Sorting the ranks of a ghost set orders them strictly and loses none. */
  lemma {:induction false} Ranking(cands: seq<Discovered>, m: map<u32, Known>, readings: seq<u32>, tick: u32,
      p: Policy, keep: seq<nat>, ranked: seq<Ranked>)
    requires Candidates(cands, readings) && Sound(p)
    requires forall a :: 0 <= a < |keep| ==> keep[a] < |cands|
    requires forall a, b :: 0 <= a < b < |keep| ==> keep[a] < keep[b]
    requires ranked == SortByKey(Ranks(cands, keep, m, readings, tick, p), RankKey())
    ensures Descending(ranked) && |ranked| == |keep|
    ensures multiset(ranked) == multiset(Ranks(cands, keep, m, readings, tick, p))
    ensures forall i :: 0 <= i < |ranked| ==> ranked[i].Index() < |cands|
  {
    var ranks := Ranks(cands, keep, m, readings, tick, p);
    RanksDistinct(cands, keep, m, readings, tick, p);
    SortDescends(ranks);
    SortKeepsCount(ranks, ranked);
    forall i | 0 <= i < |ranked|
      ensures ranked[i].Index() < |cands|
    {
      RankedIsKept(cands, m, readings, tick, p, keep, ranked, i);
    }
  }

  /** The rank of every kept candidate, against the table as it stands. */
  method ScoreAll(tick: u32, cands: seq<Discovered>, readings: seq<u32>, p: Policy, keep: seq<nat>, ghosts: GhostTable)
    returns (ranks: seq<Ranked>)
    requires ghosts.Valid() && Candidates(cands, readings) && Sound(p)
    requires forall a :: 0 <= a < |keep| ==> keep[a] < |cands|
    ensures ranks == Ranks(cands, keep, ghosts.Contents(), readings, tick, p)
  {
    ranks := [];
    for a := 0 to |keep|
      invariant |ranks| == a && ranks == Ranks(cands, keep, ghosts.Contents(), readings, tick, p)[..a]
    {
      var c := cands[keep[a]];
      var held, mark, lastSent := ghosts.Held(c.id);
      FlaggedIndex(keep[a]);
      var r;
      if held {
        var moved := WrapSub(readings[c.id], mark);
        var stale := p.refresh != 0 && WrapSub(tick, lastSent) >= p.refresh;
        r := Ranked(ScoreOf(if stale then Max(moved, p.unseenDrift) else moved, c.distSq, p.weights), Or(keep[a], 0));
      } else {
        r := Ranked(ScoreOf(p.unseenDrift, c.distSq, p.weights), Or(keep[a], NEW_BIT));
      }
      ranks := ranks + [r];
    }
  }

  /** Commits the first `sent` ranked entries as records, stamps the others and evicts. */
  method Commit(tick: u32, cands: seq<Discovered>, readings: seq<u32>, p: Policy, ranked: seq<Ranked>, keep: seq<nat>,
      sent: nat, ghosts: GhostTable)
    returns (s: Selection)
    requires ghosts.Valid() && Candidates(cands, readings) && sent <= |ranked|
    requires forall i :: 0 <= i < |ranked| ==> ranked[i].Index() < |cands|
    requires 2 * (|ghosts.Contents()| + sent) <= 0x1_0000_0000
    modifies ghosts, ghosts.slots
    ensures ghosts.Valid() && (ghosts.slots == old(ghosts.slots) || fresh(ghosts.slots))
    ensures s.ranked == ranked && s.keep == keep && s.sent == sent
    ensures Commits(cands, old(ghosts.Contents()), readings, tick, p, s, ghosts.Contents())
  {
    ghost var m := ghosts.Contents();
    var records, rest := IdsOf(cands, readings, ranked[..sent]), IdsOf(cands, readings, ranked[sent..]);
    SendEach(records, readings, tick, ghosts);
    StampEach(rest, readings, tick, ghosts, m, records);
    var departed := ghosts.Evict(tick, p.grace, []);
    assert departed[0..] == departed;
    s := Selection(ranked, keep, sent, departed);
  }

  /** Answers with the selection the table and the candidates settle, and commits it. */
  method Select(tick: u32, cands: seq<Discovered>, readings: seq<u32>, p: Policy, slots: nat, ghosts: GhostTable)
    returns (s: Selection)
    requires ghosts.Valid() && Candidates(cands, readings) && Sound(p)
    requires 2 * (|ghosts.Contents()| + Min(p.ghostCap, slots)) <= 0x1_0000_0000
    modifies ghosts, ghosts.slots
    ensures ghosts.Valid() && (ghosts.slots == old(ghosts.slots) || fresh(ghosts.slots))
    ensures Selects(cands, old(ghosts.Contents()), readings, tick, p, slots, s)
    ensures Commits(cands, old(ghosts.Contents()), readings, tick, p, s, ghosts.Contents())
  {
    var dists := Dists(cands);
    var keep := PickNearest(dists, p.ghostCap);
    ghost var m := ghosts.Contents();
    var ranks := ScoreAll(tick, cands, readings, p, keep, ghosts);
    var ranked := SortByKey(ranks, RankKey());
    Ranking(cands, m, readings, tick, p, keep, ranked);
    var sent := LeadingPositive(ranked, Min(|ranked|, slots));
    s := Commit(tick, cands, readings, p, ranked, keep, sent, ghosts);
  }

  lemma {:induction false} SortKeepsCount(a: seq<Ranked>, b: seq<Ranked>)
    requires multiset(a) == multiset(b)
    ensures |a| == |b|
  {
    assert |multiset(a)| == |a| && |multiset(b)| == |b|;
  }

  /** What a selection does to the ghost map `m`, leaving `after`, and which ids depart. */
  ghost predicate Commits(cands: seq<Discovered>, m: map<u32, Known>, readings: seq<u32>, tick: u32, p: Policy,
      s: Selection, after: map<u32, Known>)
    requires Candidates(cands, readings)
  {
    && s.sent <= |s.ranked|
    && (forall i :: 0 <= i < |s.ranked| ==> s.ranked[i].Index() < |cands|)
    && (var committed := Committed(m, IdsOf(cands, readings, s.ranked[..s.sent]),
        IdsOf(cands, readings, s.ranked[s.sent..]), readings, tick);
        && after == Kept(committed, tick, p.grace)
        && Distinct(s.departed)
        && (forall id :: id in s.departed <==> id in committed && id !in after))
  }

  // ----- uniqueness -----

  /** Nothing about a selection is left to chance: the candidates, the ghost map, the
      readings and the policy settle the ghost set, its ranking and what is sent. */
  lemma {:induction false} SelectionIsUnique(cands: seq<Discovered>, m: map<u32, Known>, readings: seq<u32>, tick: u32,
      p: Policy, slots: nat, a: Selection, b: Selection)
    requires Candidates(cands, readings) && Sound(p)
    requires Selects(cands, m, readings, tick, p, slots, a) && Selects(cands, m, readings, tick, p, slots, b)
    ensures a.keep == b.keep && a.ranked == b.ranked && a.sent == b.sent
  {
    NearestIsUnique(Dists(cands), p.ghostCap, a.keep, b.keep);
    SameAscending(a.keep, b.keep);
    SameDescending(a.ranked, b.ranked);
    SamePrefix(a.ranked, slots, a.sent, b.sent);
    SamePrefix(a.ranked, slots, b.sent, a.sent);
  }

  lemma {:induction false} SamePrefix(ranked: seq<Ranked>, slots: nat, n: nat, k: nat)
    requires n <= |ranked| && n <= slots && forall i :: 0 <= i < n ==> ranked[i].score > 0
    requires k <= |ranked| && k <= slots && (k < |ranked| && k < slots ==> ranked[k].score == 0)
    ensures n <= k
  {
  }

  lemma {:induction false} SameAscending(a: seq<nat>, b: seq<nat>)
    requires |a| == |b| && forall x :: x in a <==> x in b
    requires forall i, j :: 0 <= i < j < |a| ==> a[i] < a[j]
    requires forall i, j :: 0 <= i < j < |b| ==> b[i] < b[j]
    ensures a == b
  {
    if a != [] {
      var n := |a| - 1;
      assert a[n] in b && b[n] in a;
      assert a[n] == b[n];
      forall x
        ensures x in a[..n] <==> x in b[..n]
      {
        assert a == a[..n] + [a[n]] && b == b[..n] + [b[n]];
        assert x in a <==> x in b;
      }
      SameAscending(a[..n], b[..n]);
      assert a == a[..n] + [a[n]] && b == b[..n] + [b[n]];
    }
  }

  lemma {:induction false} SameLast(a: seq<Ranked>, b: seq<Ranked>, n: nat)
    requires multiset(a) == multiset(b) && Descending(a) && Descending(b)
    requires |a| == |b| == n + 1
    ensures a[n] == b[n]
  {
    assert a[n] in multiset(a) && b[n] in multiset(b);
    LastIsLeast(a, n, b[n]);
    LastIsLeast(b, n, a[n]);
  }

  lemma {:induction false} LastIsLeast(a: seq<Ranked>, n: nat, r: Ranked)
    requires Descending(a) && |a| == n + 1 && r in a
    ensures r == a[n] || Before(r, a[n])
  {
    var j :| 0 <= j < |a| && a[j] == r;
  }

  lemma {:induction false} WithoutLast(a: seq<Ranked>, n: nat)
    requires |a| == n + 1
    ensures a == a[..n] + [a[n]]
    ensures multiset(a[..n]) == multiset(a) - multiset{a[n]}
  {
    assert a == a[..n] + [a[n]];
  }

  lemma {:induction false} SameDescending(a: seq<Ranked>, b: seq<Ranked>)
    requires multiset(a) == multiset(b) && Descending(a) && Descending(b)
    ensures a == b
  {
    SortKeepsCount(a, b);
    if a != [] {
      var n: nat := |a| - 1;
      SameLast(a, b, n);
      WithoutLast(a, n);
      WithoutLast(b, n);
      SameDescending(a[..n], b[..n]);
    }
  }
}
