/** What a score says of a candidate: how weight trades against drift, which of two is sent
    first, and when a ghost that has not moved is due again. */
module Scoring {
  import opened Numbers
  import opened Probing
  import opened Ghosts
  import opened Gather
  import opened Select

  const SATURATED: u32 := 0xFFFF_FFFF

  // ----- weight against drift -----

  /** Below saturation scores at equal drift stand to each other as the weights of their
      bands, and one unit of drift scores the weight itself. */
  lemma {:induction false} ScoresFollowWeights(drift: u32, a: u64, b: u64, w: seq<u16>)
    requires WeightTable(w) && ScoreOf(drift, a, w) < SATURATED && ScoreOf(drift, b, w) < SATURATED
    ensures BandOf(a) < |w| && BandOf(b) < |w|
    ensures ScoreOf(drift, a, w) * w[BandOf(b)] == ScoreOf(drift, b, w) * w[BandOf(a)]
    ensures ScoreOf(1, a, w) == w[BandOf(a)]
  {
    BandFits(a);
    BandFits(b);
    Crossed(drift, w[BandOf(a)], w[BandOf(b)]);
  }

  lemma {:induction false} Crossed(d: int, x: int, y: int)
    ensures d * x * y == d * y * x
  {
  }

  /** And at equal separation as the drifts. */
  lemma {:induction false} ScoresFollowDrift(drift: u32, other: u32, a: u64, w: seq<u16>)
    requires WeightTable(w) && ScoreOf(drift, a, w) < SATURATED && ScoreOf(other, a, w) < SATURATED
    ensures ScoreOf(drift, a, w) * other == ScoreOf(other, a, w) * drift
  {
    BandFits(a);
    var weight := w[BandOf(a)];
    assert drift * weight * other == other * weight * drift;
  }

  /** Against full weight it takes 2^20 units of drift to saturate, and no less. */
  lemma {:induction false} SaturatesAt(drift: u32, distSq: u64, w: seq<u16>)
    requires WeightTable(w)
    ensures BandOf(distSq) < |w|
    ensures w[BandOf(distSq)] == 4096 ==> (ScoreOf(drift, distSq, w) == SATURATED <==> drift >= 0x10_0000)
  {
    BandFits(distSq);
  }

  /** The table of the curve that falls with the `kHalves`th half power of distance. */
  predicate PowerTable(w: seq<u16>, kHalves: nat) {
    WeightTable(w) && forall b :: 0 <= b < BANDS ==> w[b] == Pow2(PowerShift(b, kHalves))
  }

  /** Under the inverse-distance curve, between a metre and 4096 metres, twice the separation
      is half the score. */
  lemma {:induction false} TwiceAsFarScoresHalf(drift: u32, distSq: u64, w: seq<u16>)
    requires PowerTable(w, 2) && 0x10_0000 <= distSq < 0x1000_0000_0000
    requires ScoreOf(drift, distSq, w) < SATURATED
    ensures ScoreOf(drift, distSq, w) == 2 * ScoreOf(drift, 4 * distSq, w)
  {
    InverseDistanceHalves(distSq, w);
    Halves(drift, w[BandOf(distSq)], w[BandOf(4 * distSq)]);
  }

  lemma {:induction false} Halves(drift: nat, near: nat, far: nat)
    requires near == 2 * far
    ensures drift * near == 2 * (drift * far) && drift * far >= 0
  {
  }

  /** Up to a metre a curve weighs in full. */
  lemma {:induction false} NearWeighsFull(distSq: u64, kHalves: nat, w: seq<u16>)
    requires PowerTable(w, kHalves) && distSq < 0x20_0000
    ensures BandOf(distSq) < |w| && w[BandOf(distSq)] == 4096
  {
    BandFits(distSq);
    LogOfOdd(distSq);
    Pow2Of44();
    assert Pow2(21) == 2 * Pow2(20);
    LogBetween(Or(distSq, 1), 0, 21);
    ShiftOfNear(BandOf(distSq), kHalves);
    assert Pow2(12) == 4096;
  }

  lemma {:induction false} ShiftOfNear(band: nat, k: nat)
    requires band <= NEAR_BAND
    ensures PowerShift(band, k) == 12
  {
    assert Max(0, band - NEAR_BAND) == 0;
  }

  /** From there, while the weight lasts, four times the separation, which is four bands, costs
      a factor of `2^kHalves`. */
  lemma {:induction false} FarWeighsLess(distSq: u64, kHalves: nat, w: seq<u16>)
    requires PowerTable(w, kHalves) && distSq >= 0x10_0000 && BandOf(distSq) + 4 < BANDS
    ensures w[BandOf(distSq)] as int >= Pow2(kHalves) ==>
      w[BandOf(distSq)] as int == Pow2(kHalves) * w[BandOf(distSq) + 4]
  {
    var band := BandOf(distSq);
    LogOfOdd(distSq);
    Pow2Of44();
    LogBetween(Or(distSq, 1), 20, 64);
    if w[band] as int >= Pow2(kHalves) {
      Pow2Injective(kHalves, PowerShift(band, kHalves));
      ShiftDropsBy(band, kHalves);
      Pow2Add(kHalves, PowerShift(band + 4, kHalves));
    }
  }

  lemma {:induction false} LogOfOdd(distSq: u64)
    ensures 1 <= Or(distSq, 1) < Pow2(64) && distSq <= Or(distSq, 1) <= distSq + 1
    ensures distSq < 0x20_0000 ==> Or(distSq, 1) < 0x20_0000
  {
    OrOne(distSq);
    Pow2Of32();
    Pow2Add(32, 32);
  }

  lemma {:induction false} ShiftDropsBy(band: nat, k: nat)
    requires 20 <= band && PowerShift(band, k) >= k
    ensures PowerShift(band, k) == k + PowerShift(band + 4, k)
  {
    assert (band + 4 - NEAR_BAND) * k == (band - NEAR_BAND) * k + 4 * k;
  }

  lemma {:induction false} DoubledBand(distSq: nat, k: nat)
    requires distSq > 0
    ensures BandOf(Pow2(2 * k) * distSq) == BandOf(distSq) + 2 * k
  {
    if k > 0 {
      DoubledBand(distSq, k - 1);
      assert Pow2(2 * k) == 4 * Pow2(2 * (k - 1));
      QuadrupleBand(Pow2(2 * (k - 1)), distSq);
    }
  }

  lemma {:induction false} QuadrupleBand(scale: nat, distSq: nat)
    requires scale > 0 && distSq > 0
    ensures BandOf(4 * scale * distSq) == BandOf(scale * distSq) + 2
  {
    MulLe(1, distSq, scale);
    var nearer := scale * distSq;
    assert 4 * scale * distSq == 4 * nearer;
    BandOfDouble(nearer);
  }

  /** `2^k` times as far is `2^k` times less weight. */
  lemma {:induction false} WeightFalls(distSq: nat, k: nat, w: seq<u16>)
    requires PowerTable(w, 2) && 0x10_0000 <= distSq && Pow2(2 * k) * distSq < 0x4000_0000_0000
    ensures BandOf(distSq) < |w| && BandOf(Pow2(2 * k) * distSq) < |w|
    ensures w[BandOf(distSq)] as int == Pow2(k) * w[BandOf(Pow2(2 * k) * distSq)]
  {
    var far := Pow2(2 * k) * distSq;
    MulLe(1, Pow2(2 * k), distSq);
    DoubledBand(distSq, k);
    BandBetween(distSq);
    BandBetween(far);
    var band := BandOf(distSq);
    ShiftDrops(band, k);
    Pow2Add(k, PowerShift(band + 2 * k, 2));
  }

  lemma {:induction false} ShiftDrops(band: nat, k: nat)
    requires 20 <= band && band + 2 * k < 46
    ensures PowerShift(band, 2) == k + PowerShift(band + 2 * k, 2)
  {
  }

  lemma {:induction false} BandBetween(distSq: nat)
    requires 0x10_0000 <= distSq < 0x4000_0000_0000
    ensures 20 <= BandOf(distSq) < 46
  {
    LogHalf(distSq);
    Pow2Of44();
    assert Pow2(46) == 4 * Pow2(44);
    LogBetween(distSq, 20, 46);
  }

  /** Under the inverse-distance curve a candidate `2^k` times as far needs more than `2^k`
      times the drift to be sent first. At exactly that much, the position decides. */
  lemma {:induction false} NearerGoesFirst(a: Discovered, i: nat, b: Discovered, j: nat, k: nat, m: map<u32, Known>,
      readings: seq<u32>, tick: u32, p: Policy)
    requires Covered(a, readings) && Covered(b, readings) && i < NEW_BIT && j < NEW_BIT && Sound(p)
    requires PowerTable(p.weights, 2) && 0x10_0000 <= a.distSq
    requires b.distSq == Pow2(2 * k) * a.distSq < 0x4000_0000_0000
    requires RankOf(a, i, m, readings, tick, p).score < SATURATED
    requires RankOf(b, j, m, readings, tick, p).score < SATURATED
    ensures var near, far := RankOf(a, i, m, readings, tick, p), RankOf(b, j, m, readings, tick, p);
      var da, db := DriftOf(a.id, m, readings[a.id], tick, p), DriftOf(b.id, m, readings[b.id], tick, p);
      && (db < Pow2(k) * da ==> Before(near, far))
      && (db > Pow2(k) * da ==> Before(far, near))
      && (db == Pow2(k) * da ==> (Before(near, far) <==> near.at < far.at))
  {
    WeightFalls(a.distSq, k, p.weights);
    var da, db := DriftOf(a.id, m, readings[a.id], tick, p), DriftOf(b.id, m, readings[b.id], tick, p);
    Weighed(da, db, Pow2(k), p.weights[BandOf(b.distSq)]);
  }

  lemma {:induction false} Weighed(da: nat, db: nat, scale: nat, weight: nat)
    requires weight > 0
    ensures db < scale * da ==> db * weight < da * (scale * weight)
    ensures db > scale * da ==> db * weight > da * (scale * weight)
    ensures db == scale * da ==> db * weight == da * (scale * weight)
  {
    assert da * (scale * weight) == (scale * da) * weight;
    if db < scale * da {
      MulLe(db + 1, scale * da, weight);
    } else {
      MulLe(scale * da, db, weight);
      if db > scale * da {
        MulLe(scale * da + 1, db, weight);
      }
    }
  }

  // ----- who wants sending -----

  /** A client has gone `refresh` ticks without a record of a ghost. */
  predicate Stale(id: u32, m: map<u32, Known>, tick: u32, p: Policy) {
    id in m && p.refresh > 0 && WrapSub(tick, m[id].lastSent) >= p.refresh
  }

  /** A candidate scores nothing exactly when the client holds it, it reads as when it was
      last sent, and that was within `refresh` ticks. */
  lemma {:induction false} WantsSendingIff(c: Discovered, k: nat, m: map<u32, Known>, readings: seq<u32>, tick: u32,
      p: Policy)
    requires Covered(c, readings) && k < NEW_BIT && Sound(p) && p.unseenDrift > 0
    ensures RankOf(c, k, m, readings, tick, p).score == 0 <==>
      c.id in m && readings[c.id] == m[c.id].mark && !Stale(c.id, m, tick, p)
  {
  }

  /** Going stale never lowers a drift, and raises it to that of a stranger and no further. */
  lemma {:induction false} StaleIsAsAStranger(id: u32, m: map<u32, Known>, reading: u32, tick: u32, p: Policy)
    ensures var drift, moved := DriftOf(id, m, reading, tick, p), DriftOf(id, m, reading, tick, p.(refresh := 0));
      && (!Stale(id, m, tick, p) ==> drift == moved)
      && (Stale(id, m, tick, p) ==> drift >= moved && drift >= DriftOf(id, m - {id}, reading, tick, p))
      && (drift != moved ==> drift == DriftOf(id, m - {id}, reading, tick, p))
    ensures id !in m ==> DriftOf(id, m, reading, tick, p) == p.unseenDrift
  {
  }
}
