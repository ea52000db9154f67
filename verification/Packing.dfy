/** Which configurations leave 32 bits of a squared distance enough to tell near from far. */
module Packing {
  import opened Numbers
  import opened Config
  import opened Nearest
  import opened Gather
  import opened Select

  /** Squared distances from here on wrap. */
  const WRAPS: nat := 0x100_0000_0000

  function Separation(a: Pos3, b: Pos3): nat {
    Sq(a.x - b.x) + Sq(a.y - b.y) + Sq(a.z - b.z)
  }

  /** Both stand in the region, one in the cylinder the other sees. */
  predicate Sees(cfg: WorldConfig, viewer: Pos3, p: Pos3) {
    cfg.Contains(viewer) && cfg.Contains(p) && Sq(viewer.x - p.x) + Sq(viewer.y - p.y) <= Sq(cfg.viewRadius)
  }

  /** Of two positions a viewer sees, the farther never packs to less. */
  ghost predicate OrdersPair(cfg: WorldConfig, viewer: Pos3, near: Pos3, far: Pos3) {
    Sees(cfg, viewer, near) && Sees(cfg, viewer, far) && Separation(viewer, near) <= Separation(viewer, far) ==>
      PackedDist(Separation(viewer, near)) <= PackedDist(Separation(viewer, far))
  }

  ghost predicate KeepsOrder(cfg: WorldConfig) {
    forall viewer, near, far :: OrdersPair(cfg, viewer, near, far)
  }

  lemma {:induction false} SqStep(d: nat)
    ensures Sq(d + 1) == Sq(d) + 2 * d + 1
  {
  }

  /** One unit nearer along one axis: nearer by no more than twice the axis. */
  lemma {:induction false} AxisStep(v: int, w: int) returns (u: int)
    requires v != w && Numbers.Abs(v - w) < 0x8000_0000
    ensures Numbers.Abs(v - u) == Numbers.Abs(v - w) - 1 && (v <= u < w || w < u <= v)
    ensures Sq(v - u) < Sq(v - w) <= Sq(v - u) + 0x1_0000_0000
  {
    u := if w < v then w + 1 else w - 1;
    SqStep(Numbers.Abs(v - u));
    assert Sq(v - u) == Sq(Numbers.Abs(v - u)) && Sq(v - w) == Sq(Numbers.Abs(v - u) + 1);
  }

  /** A viewer that sees something sees what is one unit nearer along an axis. */
  lemma {:induction false} StepNearer(cfg: WorldConfig, viewer: Pos3, p: Pos3) returns (q: Pos3)
    requires cfg.Valid() && Sees(cfg, viewer, p) && viewer != p
    ensures Sees(cfg, viewer, q)
    ensures Separation(viewer, q) < Separation(viewer, p) <= Separation(viewer, q) + 0x1_0000_0000
  {
    if viewer.x != p.x {
      var x := AxisStep(viewer.x, p.x);
      q := Pos3(x, p.y, p.z);
    } else if viewer.y != p.y {
      var y := AxisStep(viewer.y, p.y);
      q := Pos3(p.x, y, p.z);
    } else {
      var z := AxisStep(viewer.z, p.z);
      q := Pos3(p.x, p.y, z);
    }
  }

  /** Walking in from a place too far to pack, unit by unit, some step crosses the wrap. */
  lemma {:induction false} Crossing(cfg: WorldConfig, viewer: Pos3, p: Pos3) returns (near: Pos3, far: Pos3)
    requires cfg.Valid() && Sees(cfg, viewer, p) && Separation(viewer, p) >= WRAPS
    ensures Sees(cfg, viewer, near) && Sees(cfg, viewer, far)
    ensures Separation(viewer, near) < WRAPS <= Separation(viewer, far) <= Separation(viewer, near) + 0x1_0000_0000
    decreases Separation(viewer, p)
  {
    assert viewer == p ==> Separation(viewer, p) == 0;
    var q := StepNearer(cfg, viewer, p);
    if Separation(viewer, q) < WRAPS {
      near, far := q, p;
    } else {
      near, far := Crossing(cfg, viewer, q);
    }
  }

  lemma {:induction false} WrapReverses(near: nat, far: nat)
    requires near < WRAPS <= far <= near + 0x1_0000_0000
    ensures PackedDist(near) > PackedDist(far)
  {
    PackedDistIs(near);
    PackedDistIs(far);
  }

  /** Nothing a viewer can see is 2^40 raw units squared away. */
  ghost predicate NothingWraps(cfg: WorldConfig) {
    forall viewer, p :: Sees(cfg, viewer, p) ==> Separation(viewer, p) < WRAPS
  }

  lemma {:induction false} BelowTheWrap(near: nat, far: nat)
    requires near <= far < WRAPS
    ensures PackedDist(near) <= PackedDist(far)
  {
    PackedDistIs(near);
    PackedDistIs(far);
  }

  lemma {:induction false} FarBreaksOrder(cfg: WorldConfig, viewer: Pos3, p: Pos3)
    requires cfg.Valid() && Sees(cfg, viewer, p) && Separation(viewer, p) >= WRAPS
    ensures !KeepsOrder(cfg)
  {
    var near, far := Crossing(cfg, viewer, p);
    WrapReverses(Separation(viewer, near), Separation(viewer, far));
    assert !OrdersPair(cfg, viewer, near, far);
  }

  /** Packing keeps the order of everything a viewer can see exactly when none of it is
      far enough to wrap. */
  lemma {:induction false} PackingKeepsOrder(cfg: WorldConfig)
    requires cfg.Valid()
    ensures KeepsOrder(cfg) <==> NothingWraps(cfg)
  {
    if NothingWraps(cfg) {
      forall viewer, near, far
        ensures OrdersPair(cfg, viewer, near, far)
      {
        var a, b := Separation(viewer, near), Separation(viewer, far);
        if Sees(cfg, viewer, near) && Sees(cfg, viewer, far) && a <= b {
          BelowTheWrap(a, b);
        }
      }
    } else {
      var viewer, p :| Sees(cfg, viewer, p) && Separation(viewer, p) >= WRAPS;
      FarBreaksOrder(cfg, viewer, p);
    }
  }

  /** The farthest a configuration lets anything in view be, squared. */
  function Reach(cfg: WorldConfig): nat
    requires cfg.verticalExtent > 0
  {
    Sq(cfg.viewRadius) + Sq(cfg.verticalExtent - 1)
  }

  /** In a configuration's own numbers: the order is kept if its view radius and height put
      nothing 2^40 away, and only then if the radius is less than the whole region. */
  lemma {:induction false} ReachDecides(cfg: WorldConfig)
    requires cfg.Valid()
    ensures Reach(cfg) < WRAPS ==> KeepsOrder(cfg)
    ensures cfg.viewRadius < cfg.regionSize ==> (KeepsOrder(cfg) <==> Reach(cfg) < WRAPS)
  {
    PackingKeepsOrder(cfg);
    forall viewer, p | Sees(cfg, viewer, p)
      ensures Separation(viewer, p) <= Reach(cfg)
    {
      SquareGrows(viewer.z - p.z, cfg.verticalExtent - 1);
    }
    if cfg.viewRadius < cfg.regionSize {
      var viewer, p := Pos3(0, 0, 0), Pos3(cfg.viewRadius, 0, cfg.verticalExtent - 1);
      assert Sees(cfg, viewer, p) && Separation(viewer, p) == Reach(cfg);
    }
  }

  lemma {:induction false} SquareGrows(n: int, k: nat)
    requires Numbers.Abs(n) <= k
    ensures Sq(n) <= Sq(k)
  {
    MulLe(Numbers.Abs(n), k, Numbers.Abs(n));
    MulLe(Numbers.Abs(n), k, k);
  }

  /** A region 2048 metres high seen 256 metres around. */
  function Tall(): Builder {
    Builder(Some(0x40_0000), Some(0x20_0000), Some(0x4_0000), Some(1), Some(20))
  }

  lemma {:induction false} TallPowers()
    ensures PowerOfTwo(0x40_0000) && PowerOfTwo(0x20_0000)
  {
    Pow2Of16();
    Pow2Add(16, 6);
    Pow2Add(16, 5);
    assert Pow2(6) == 64 && Pow2(5) == 32;
    Pow2IsPowerOfTwo(22);
    Pow2IsPowerOfTwo(21);
  }

  lemma {:induction false} TallIsValid()
    ensures Build(Tall()).Ok? && Build(Tall()).value.Valid()
    ensures var c := Build(Tall()).value; c.regionSize == 0x40_0000 && c.verticalExtent == 0x20_0000
  {
    TallPowers();
    DerivedCellFits(0x4_0000);
    BuildIsValid(Tall());
  }

  function Above(height: i32): Pos3 {
    Pos3(0, 0, height)
  }

  lemma {:induction false} AboveIs(height: i32)
    requires height >= 0
    ensures Separation(Above(0), Above(height)) == height * height
  {
    assert Sq(0) == 0;
  }

  /** The one nearest of two under packing. */
  lemma {:induction false} OneNearest(dists: seq<u32>)
    requires |dists| == 2 && dists[1] < dists[0]
    ensures NearestOf(dists, 1, [1])
  {
  }

  /** What goes wrong past it: of two entities above a viewer, at heights 2^20 - 1 and 2^20,
      a ghost set of one takes the farther. */
  lemma {:induction false} FartherWins(low: nat, high: nat)
    requires low != high
    ensures Build(Tall()).Ok?
    ensures var c := Build(Tall()).value; Sees(c, Above(0), Above(0xF_FFFF)) && Sees(c, Above(0), Above(0x10_0000))
    ensures Separation(Above(0), Above(0xF_FFFF)) < Separation(Above(0), Above(0x10_0000))
    ensures NearestOf(Dists([Discovered(low, 0, Separation(Above(0), Above(0xF_FFFF))),
                             Discovered(high, 1, Separation(Above(0), Above(0x10_0000)))]), 1, [1])
  {
    TallIsValid();
    AboveIs(0xF_FFFF);
    AboveIs(0x10_0000);
    WrapReverses(0xFF_FFE0_0001, WRAPS);
    OneNearest(Dists([Discovered(low, 0, 0xFF_FFE0_0001), Discovered(high, 1, WRAPS)]));
  }
}
