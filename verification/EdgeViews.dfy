/** What a view report leaves behind: a shadow in every placed region the view reaches, sent
    to the point from which its gather takes over where the observer's ends. */
module EdgeViews {
  import opened Numbers
  import opened Config
  import opened WorldFrame
  import opened Snapshot
  import opened Gather
  import opened GatherExact
  import opened Seam
  import opened EdgeState
  import opened EdgeInvariant
  import opened EdgeSteps
  import opened EdgeReports
  import opened EdgeRun

  // ----- the regions a view reaches -----

  /** `reached` is each placed region the view's cells reach into, with where its shadow
      stands, and nothing else. */
  ghost predicate Reaches(placements: seq<Placed>, cfg: WorldConfig, square: Placement, local: Pos3,
      reached: seq<(Region, Pos3)>)
    requires cfg.Valid() && cfg.regionSize <= MAX_REGION && 0 < cfg.verticalExtent
  {
    && (forall p :: p in placements && SeesInto(cfg, square, local, p.at) ==> ReachedAt(cfg, square, local, p, reached))
    && (forall r :: r in reached ==>
        exists p :: p in placements && SeesInto(cfg, square, local, p.at) && r.0 == p.region)
  }

  ghost predicate ReachedAt(cfg: WorldConfig, square: Placement, local: Pos3, p: Placed, reached: seq<(Region, Pos3)>)
    requires cfg.Valid() && cfg.regionSize <= MAX_REGION && 0 < cfg.verticalExtent
  {
    var point := ShadowPoint(cfg, FromLocal(local, square, cfg.regionSize), p.at);
    point.Some? ==> (p.region, point.value) in reached
  }

  /** Computes what a view reaches; nothing, if the observer's own region has no square. */
  method ReachedFrom(world: WorldMap, cfg: WorldConfig, region: u32, local: Pos3)
    returns (reached: Option<seq<(Region, Pos3)>>)
    requires world.Valid() && cfg.Valid() && cfg.regionSize <= MAX_REGION && 0 < cfg.verticalExtent
    requires region in world.byRegion ==> Inland(world.byRegion[region])
    ensures reached.None? <==> region !in world.byRegion
    ensures reached.Some? ==> Spread(reached.value)
    ensures reached.Some? ==> Reaches(world.placements, cfg, world.byRegion[region], local, reached.value)
  {
    var home := world.PlacementOf(region);
    if home.None? {
      return None;
    }
    var square := home.value;
    var here := FromLocal(local, square, cfg.regionSize);
    var squares := SquaresInView(cfg, square, local);
    var found: seq<(Region, Pos3)> := [];
    for i := 0 to |squares|
      invariant forall r :: r in found ==>
        exists j :: 0 <= j < i && squares[j] in world.bySquare && r.0 == world.bySquare[squares[j]]
      invariant forall a, b :: 0 <= a < b < |found| ==> found[a].0 != found[b].0
      invariant forall j :: 0 <= j < i && squares[j] in world.bySquare ==>
        ReachedAt(cfg, square, local, Placed(world.bySquare[squares[j]], squares[j]), found)
    {
      var neighbor := world.RegionAt(squares[i]);
      var point := ShadowPoint(cfg, here, squares[i]);
      if neighbor.Some? && point.Some? {
        assert Placed(neighbor.value, squares[i]) in world.placements;
        found := found + [(neighbor.value as Region, point.value)];
      }
    }
    return Some(found);
  }

  // ----- the shadows a view report leaves -----

  /** A shadow in `region` that is to stand at `point`: moved there, to be moved there once
      its region answers, or asked for there; or one already given back. */
  ghost predicate Pointed(t: State, k: Key, region: Region, point: Pos3) {
    && k in t.byKey && t.byKey[k].region == region
    && (t.byKey[k].doomed || Sent(t, t.byKey[k], k, point))
  }

  ghost predicate Sent(t: State, e: Entity, k: Key, point: Pos3) {
    if e.id.Some? then (e.region, e.id.value) in t.moves && t.moves[(e.region, e.id.value)] == point
    else e.pending == Some(point) || Spawn(e.region, k, Shadow, point, e.name) in t.outbound
  }

  lemma {:induction false} PointsNow(t: State, k: Key, point: Pos3)
    requires k in t.byKey
    ensures Pointed(SetPosition(t, k, point), k, t.byKey[k].region, point)
  {
  }

  lemma {:induction false} PointsNew(t: State, owner: Key, client: Option<ClientId>, region: Region, point: Pos3)
    ensures Pointed(AskShadow(t, owner, client, region, point), t.next, region, point)
  {
    var u := AskShadow(t, owner, client, region, point);
    assert u.outbound[|u.outbound| - 1] == Spawn(region, t.next, Shadow, point, t.next);
  }

  lemma {:induction false} PointedThroughMove(t: State, k: Key, region: Region, point: Pos3, j: Key, to: Pos3)
    requires Located(t) && Pointed(t, k, region, point) && j != k
    ensures Pointed(SetPosition(t, j, to), k, region, point)
  {
    assert LocatedAt(t.byKey[k], t, k);
    assert j in t.byKey ==> LocatedAt(t.byKey[j], t, j);
  }

  lemma {:induction false} PointedThroughAsk(t: State, k: Key, region: Region, point: Pos3, owner: Key,
      client: Option<ClientId>, other: Region, at: Pos3)
    requires Pointed(t, k, region, point) && k != t.next
    ensures Pointed(AskShadow(t, owner, client, other, at), k, region, point)
  {
    var u := AskShadow(t, owner, client, other, at);
    assert t.outbound <= u.outbound && (forall x :: x in t.outbound ==> x in u.outbound);
  }

  lemma {:induction false} PointedThroughRelease(t: State, k: Key, region: Region, point: Pos3, j: Key)
    requires Located(t) && Pointed(t, k, region, point) && j != k
    ensures Pointed(Release(t, j), k, region, point)
  {
    assert LocatedAt(t.byKey[k], t, k);
    assert j in t.byKey ==> LocatedAt(t.byKey[j], t, j);
    assert forall x :: x in t.outbound ==> x in Release(t, j).outbound;
  }

  lemma {:induction false} PointedThroughReleases(t: State, sl: Slack, k: Key, region: Region, point: Pos3,
      ks: seq<Key>)
    requires Inv(t, sl) && sl.adrift == {} && Pointed(t, k, region, point) && k !in ks
    ensures Pointed(ReleaseAll(t, ks), k, region, point)
  {
    if ks != [] {
      var n := |ks| - 1;
      assert ks == ks[..n] + [ks[n]];
      PointedThroughReleases(t, sl, k, region, point, ks[..n]);
      ReleaseAllKeeps(t, sl, ks[..n]);
      PointedThroughRelease(ReleaseAll(t, ks[..n]), k, region, point, ks[n]);
    }
  }

  ghost predicate PointedAt(t: State, keep: seq<Key>, reached: seq<(Region, Pos3)>, i: int)
    requires |keep| == |reached| && 0 <= i < |keep|
  {
    Pointed(t, keep[i], reached[i].0, reached[i].1)
  }

  ghost predicate AllPointed(t: State, keep: seq<Key>, reached: seq<(Region, Pos3)>) {
    |keep| == |reached|
    && forall i {:trigger PointedAt(t, keep, reached, i)} :: 0 <= i < |keep| ==> PointedAt(t, keep, reached, i)
  }

  /** Moving the shadow of one region leaves those of others to stand where they are to. */
  lemma {:induction false} OthersPointed(t: State, other: Key, r: (Region, Pos3), k: Key, region: Region, point: Pos3)
    requires Located(t) && k in t.byKey && t.byKey[k].region == region && r.0 != region
    requires Pointed(t, other, r.0, r.1)
    ensures Pointed(SetPosition(t, k, point), other, r.0, r.1)
  {
    PointedThroughMove(t, other, r.0, r.1, k, point);
  }

  lemma {:induction false} SpreadLast(reached: seq<(Region, Pos3)>, region: Region, point: Pos3, i: nat)
    requires Spread(reached + [(region, point)]) && i < |reached|
    ensures reached[i].0 != region
  {
    var view := reached + [(region, point)];
    assert view[i].0 != view[|reached|].0;
  }

  lemma {:induction false} KeptPoints(t: State, reached: seq<(Region, Pos3)>, keep: seq<Key>, k: Key, region: Region,
      point: Pos3)
    requires Located(t) && AllPointed(t, keep, reached) && k in t.byKey && t.byKey[k].region == region
    requires Spread(reached + [(region, point)])
    ensures AllPointed(SetPosition(t, k, point), keep + [k], reached + [(region, point)])
  {
    var u, more, view := SetPosition(t, k, point), keep + [k], reached + [(region, point)];
    PointsNow(t, k, point);
    forall i | 0 <= i < |more|
      ensures PointedAt(u, more, view, i)
    {
      if i < |keep| {
        assert PointedAt(t, keep, reached, i);
        SpreadLast(reached, region, point, i);
        OthersPointed(t, keep[i], reached[i], k, region, point);
      }
    }
  }

  lemma {:induction false} AskedPoints(s: State, t: State, owner: Key, reached: seq<(Region, Pos3)>, keep: seq<Key>,
      client: Option<ClientId>, region: Region, point: Pos3)
    requires Shadowing(s, t, owner, reached, keep) && AllPointed(t, keep, reached)
    ensures AllPointed(AskShadow(t, owner, client, region, point), keep + [t.next], reached + [(region, point)])
  {
    var u, more, view := AskShadow(t, owner, client, region, point), keep + [t.next], reached + [(region, point)];
    PointsNew(t, owner, client, region, point);
    NextIsFresh(t.byKey, t.next);
    forall i | 0 <= i < |more|
      ensures PointedAt(u, more, view, i)
    {
      if i < |keep| {
        assert PointedAt(t, keep, reached, i);
        PointedThroughAsk(t, keep[i], reached[i].0, reached[i].1, owner, client, region, point);
      }
    }
  }

  lemma {:induction false} ShadowedPoints(s: State, owner: Key, client: Option<ClientId>, existing: seq<(Key, Region)>,
      reached: seq<(Region, Pos3)>)
    requires Inv(s, Settled()) && Known(s.byKey, owner, existing) && Spread(reached)
    requires owner in s.byKey && s.byKey[owner].client == client
    ensures var r := Shadowed(s, owner, client, existing, reached);
      AllPointed(r.0, r.1, reached)
  {
    if reached != [] {
      var front, last := reached[..|reached| - 1], reached[|reached| - 1];
      FrontAndLast(reached);
      ShadowedPoints(s, owner, client, existing, front);
      ShadowedHolds(s, owner, client, existing, front);
      InRegionHolds(existing, last.0);
      var r := Shadowed(s, owner, client, existing, front);
      var kept := InRegion(existing, last.0);
      if kept.Some? {
        assert Stands(s.byKey, owner, kept.value, last.0);
        assert SameRecord(s.byKey[kept.value], r.0.byKey[kept.value]);
        KeptPoints(r.0, front, r.1, kept.value, last.0, last.1);
      } else {
        AskedPoints(s, r.0, owner, front, r.1, client, last.0, last.1);
      }
    }
  }

  /** After a view report the observer lists a shadow in each region reached, in order, each
      its own and each to stand at that region's point. */
  lemma {:induction false} ViewIsShadowed(s: State, place: Place, reached: seq<(Region, Pos3)>)
    requires Inv(s, Settled()) && Spread(reached)
    requires place in s.byId && s.byId[place] in s.byKey && s.byKey[s.byId[place]].shadowOf.None?
    ensures var t, owner := ViewCollision(s, place, Some(reached)), s.byId[place];
      && owner in t.byKey && AllPointed(t, t.byKey[owner].shadows, reached)
      && forall i :: 0 <= i < |reached| ==> Stands(t.byKey, owner, t.byKey[owner].shadows[i], reached[i].0)
  {
    var owner, e := s.byId[place], s.byKey[s.byId[place]];
    var existing := Existing(s.byKey, e.shadows);
    assert Shades(s.byKey, owner, e.shadows);
    ExistingIsKnown(s, owner);
    ShadowedHolds(s, owner, e.client, existing, reached);
    ShadowedPoints(s, owner, e.client, existing, reached);
    var r := Shadowed(s, owner, e.client, existing, reached);
    OwnerStays(s, r.0, owner, existing, r.1);
    ListedPoints(s, r.0, owner, existing, reached, r.1);
  }

  /** Which shadow a view report lists for a region: the one kept there, and a new one only
      where there is none. */
  lemma {:induction false} ListedIs(s: State, owner: Key, client: Option<ClientId>, existing: seq<(Key, Region)>,
      reached: seq<(Region, Pos3)>, i: nat)
    requires i < |reached|
    ensures var r, kept := Shadowed(s, owner, client, existing, reached), InRegion(existing, reached[i].0);
      && s.next <= r.0.next && (if kept.Some? then r.1[i] == kept.value else s.next <= r.1[i] < r.0.next)
  {
    var n := |reached| - 1;
    NextOnward(s, owner, client, existing, reached[..n]);
    if i < n {
      ListedIs(s, owner, client, existing, reached[..n], i);
    }
  }

  lemma {:induction false} NextOnward(s: State, owner: Key, client: Option<ClientId>, existing: seq<(Key, Region)>,
      reached: seq<(Region, Pos3)>)
    ensures s.next <= Shadowed(s, owner, client, existing, reached).0.next
  {
    if reached != [] {
      NextOnward(s, owner, client, existing, reached[..|reached| - 1]);
    }
  }

  /** A shadow an observer already has in a region its view reaches is the one it keeps there;
      only where it has none is another asked for. */
  lemma {:induction false} ShadowsAreKept(s: State, place: Place, reached: seq<(Region, Pos3)>, i: nat)
    requires Inv(s, Settled()) && Spread(reached) && i < |reached|
    requires place in s.byId && s.byId[place] in s.byKey && s.byKey[s.byId[place]].shadowOf.None?
    ensures var t, owner := ViewCollision(s, place, Some(reached)), s.byId[place];
      && owner in t.byKey && |t.byKey[owner].shadows| == |reached|
      && (forall k :: k in s.byKey[owner].shadows && k in s.byKey && s.byKey[k].region == reached[i].0 ==>
            t.byKey[owner].shadows[i] == k)
      && ((forall k :: k in s.byKey[owner].shadows && k in s.byKey ==> s.byKey[k].region != reached[i].0) ==>
            t.byKey[owner].shadows[i] !in s.byKey)
  {
    var owner, e := s.byId[place], s.byKey[s.byId[place]];
    var existing := Existing(s.byKey, e.shadows);
    ViewIsShadowed(s, place, reached);
    ListIsKept(s, place, reached);
    ListedIs(s, owner, e.client, existing, reached, i);
    ExistingHolds(s, e.shadows);
    InRegionHolds(existing, reached[i].0);
    InRegionFinds(existing, reached[i].0);
    assert Shades(s.byKey, owner, e.shadows);
    forall k | k in e.shadows && k in s.byKey && s.byKey[k].region == reached[i].0
      ensures InRegion(existing, reached[i].0) == Some(k)
    {
      assert (k, reached[i].0) in existing;
      OneInRegion(s.byKey, owner, e.shadows, k, InRegion(existing, reached[i].0).value);
    }
    NextIsFreshTo(s);
  }

  lemma {:induction false} NextIsFreshTo(s: State)
    requires Inv(s, Settled())
    ensures forall k :: k in s.byKey ==> k < s.next
  {
    forall k | k in s.byKey
      ensures k < s.next
    {
      assert MintedAt(s.byKey[k], s.next, k);
    }
  }

  lemma {:induction false} OneInRegion(m: Entities, owner: Key, list: seq<Key>, k: Key, j: Key)
    requires Shades(m, owner, list) && k in list && j in list && k in m && j in m && m[k].region == m[j].region
    ensures k == j
  {
    var a :| 0 <= a < |list| && list[a] == k;
    var b :| 0 <= b < |list| && list[b] == j;
  }

  lemma {:induction false} InRegionFinds(existing: seq<(Key, Region)>, r: Region)
    ensures InRegion(existing, r).None? ==> forall p :: p in existing ==> p.1 != r
  {
    if existing != [] {
      InRegionFinds(existing[..|existing| - 1], r);
      assert existing == existing[..|existing| - 1] + [existing[|existing| - 1]];
    }
  }

  /** The list a view report leaves is the one it draws up. */
  lemma {:induction false} ListIsKept(s: State, place: Place, reached: seq<(Region, Pos3)>)
    requires Inv(s, Settled()) && Spread(reached)
    requires place in s.byId && s.byId[place] in s.byKey && s.byKey[s.byId[place]].shadowOf.None?
    ensures var t, owner := ViewCollision(s, place, Some(reached)), s.byId[place];
      var e := s.byKey[owner];
      && owner in t.byKey
      && t.byKey[owner].shadows == Shadowed(s, owner, e.client, Existing(s.byKey, e.shadows), reached).1
  {
    var owner, e := s.byId[place], s.byKey[s.byId[place]];
    var existing := Existing(s.byKey, e.shadows);
    assert Shades(s.byKey, owner, e.shadows);
    ExistingIsKnown(s, owner);
    ShadowedHolds(s, owner, e.client, existing, reached);
    var r := Shadowed(s, owner, e.client, existing, reached);
    OwnerStays(s, r.0, owner, existing, r.1);
  }

  lemma {:induction false} ListedPoints(s: State, t: State, owner: Key, existing: seq<(Key, Region)>,
      reached: seq<(Region, Pos3)>, keep: seq<Key>)
    requires owner in s.byKey && s.byKey[owner].shadowOf.None?
    requires Shadowing(s, t, owner, reached, keep) && AllPointed(t, keep, reached)
    requires owner in ReleaseAll(t, Unkept(existing, keep)).byKey
    ensures var u := WithShadows(ReleaseAll(t, Unkept(existing, keep)), owner, keep);
      && AllPointed(u, keep, reached)
      && forall i :: 0 <= i < |reached| ==> Stands(u.byKey, owner, keep[i], reached[i].0)
  {
    var drop := Unkept(existing, keep);
    var freed := ReleaseAll(t, drop);
    var u := WithShadows(freed, owner, keep);
    UnkeptHolds(existing, keep);
    assert SameRecord(s.byKey[owner], t.byKey[owner]);
    forall i | 0 <= i < |keep|
      ensures PointedAt(u, keep, reached, i) && Stands(u.byKey, owner, keep[i], reached[i].0)
    {
      assert PointedAt(t, keep, reached, i) && Stands(t.byKey, owner, keep[i], reached[i].0);
      assert keep[i] in keep;
      PointedThroughReleases(t, Since(s, t), keep[i], reached[i].0, reached[i].1, drop);
      ReleaseAllOthers(t, drop, keep[i]);
    }
  }

  /** So an observer and its shadows miss nothing at the moment of a view report: an entity of
      another placed region within view has a shadow listed in its region, to stand where an
      uncapped gather finds that entity. */
  lemma {:induction false} ViewReportCovers(s: State, place: Place, placements: seq<Placed>, cfg: WorldConfig,
      square: Placement, local: Pos3, reached: seq<(Region, Pos3)>, other: Placed, f: Frozen, all: seq<Row>, row: Row)
      returns (i: nat)
    requires Inv(s, Settled()) && Spread(reached)
    requires place in s.byId && s.byId[place] in s.byKey && s.byKey[s.byId[place]].shadowOf.None?
    requires cfg.Valid() && cfg.regionSize <= MAX_REGION && 0 < cfg.verticalExtent && cfg.Contains(local)
    requires Reaches(placements, cfg, square, local, reached) && other in placements && other.at != square
    requires Snaps(f, all) && f.cfg == cfg && row in all && cfg.Contains2d(row.x, row.y)
    requires WorldFlatSq(FromLocal(local, square, cfg.regionSize),
      FromLocal(Pos3(row.x, row.y, row.z), other.at, cfg.regionSize)) <= Sq(cfg.viewRadius)
    ensures var t, owner := ViewCollision(s, place, Some(reached)), s.byId[place];
      && owner in t.byKey && i < |reached| == |t.byKey[owner].shadows|
      && Stands(t.byKey, owner, t.byKey[owner].shadows[i], other.region)
      && Pointed(t, t.byKey[owner].shadows[i], other.region, reached[i].1)
    ensures Walkable(f) && cfg.Contains2d(reached[i].1.x, reached[i].1.y)
    ensures var sub := AtCenter(cfg, cfg.CellOf(reached[i].1.x, reached[i].1.y));
      && SubFits(cfg, sub)
      && exists d :: d in FoundAll(reached[i].1, cfg.viewRadius, f.rows, FullWalk(f, reached[i].1, sub))
           && d.index < |f.rows| && f.rows[d.index] == row
  {
    ShadowsCoverSeam(cfg, square, local, other.at, f, all, row);
    var point := ShadowPoint(cfg, FromLocal(local, square, cfg.regionSize), other.at).value;
    assert ReachedAt(cfg, square, local, other, reached);
    i :| 0 <= i < |reached| && reached[i] == (other.region as Region, point);
    ViewIsShadowed(s, place, reached);
    assert PointedAt(ViewCollision(s, place, Some(reached)),
                     ViewCollision(s, place, Some(reached)).byKey[s.byId[place]].shadows, reached, i);
  }
}
