/** Where regions sit, and positions in the frame they share. */
module WorldFrame {
  import opened Numbers
  import opened Config
  import opened Bytes

  /** A column and a row of squares as wide as a region. */
  datatype Placement = Placement(col: i32, row: i32)

  type i64 = n: int | -0x8000_0000_0000_0000 <= n < 0x8000_0000_0000_0000

  datatype WorldPos = WorldPos(x: i64, y: i64, z: i64)

  /** 2^30 raw units: no wider region can be configured. */
  const MAX_REGION: nat := 0x4000_0000

  lemma {:induction false} SquareSpan(col: i32, size: nat, at: i32)
    requires size <= MAX_REGION
    ensures -0x3000_0000_0000_0000 < col * size + at < 0x3000_0000_0000_0000
  {
    MulLe(size, MAX_REGION, Numbers.Abs(col));
  }

  /** From a region's numbers to the shared ones. */
  function FromLocal(at: Pos3, square: Placement, size: nat): WorldPos
    requires size <= MAX_REGION
  {
    SquareSpan(square.col, size, at.x);
    SquareSpan(square.row, size, at.y);
    WorldPos(square.col * size + at.x, square.row * size + at.y, at.z)
  }

  /** The shared frame joins regions edge to edge: what is one step apart across a side, or
      any way apart in one region, is as far apart there. */
  lemma {:induction false} FrameJoins(at: Pos3, square: Placement, other: Pos3, beyond: Placement, size: nat)
    requires size <= MAX_REGION
    ensures var a, b := FromLocal(at, square, size), FromLocal(other, beyond, size);
      && (beyond == square ==> b.x - a.x == other.x - at.x && b.y - a.y == other.y - at.y)
      && (beyond.col == square.col + 1 && other.x == 0 && at.x == size - 1 ==> b.x == a.x + 1)
      && (beyond.row == square.row + 1 && other.y == 0 && at.y == size - 1 ==> b.y == a.y + 1)
      && b.z - a.z == other.z - at.z
  {
    assert (square.col + 1) * size == square.col * size + size;
    assert (square.row + 1) * size == square.row * size + size;
  }

  predicate Fits(raw: int) {
    -0x8000_0000 <= raw < 0x8000_0000
  }

  /** From the shared numbers to a region's, unless they do not fit. */
  function ToLocal(at: WorldPos, square: Placement, size: nat): Option<Pos3> {
    var x, y := at.x - square.col * size, at.y - square.row * size;
    if Fits(x) && Fits(y) && Fits(at.z) then Some(Pos3(x, y, at.z)) else None
  }

  /** Into the world and back is nowhere else. */
  lemma {:induction false} LocalRoundTrips(at: Pos3, square: Placement, size: nat)
    requires size <= MAX_REGION
    ensures ToLocal(FromLocal(at, square, size), square, size) == Some(at)
  {
  }

  lemma {:induction false} WorldRoundTrips(at: WorldPos, square: Placement, size: nat)
    requires size <= MAX_REGION && ToLocal(at, square, size).Some?
    ensures FromLocal(ToLocal(at, square, size).value, square, size) == at
  {
  }

  datatype MapError =
    | BadLength(n: nat)
    | UnknownVersion(v: u32)
    | DuplicateRegion(r: u32)
    | DuplicateSquare(s: Placement)
    | RegionIdTooWide(r: u32)

  datatype Placed = Placed(region: u32, at: Placement)

  /** The square position `local` of an axis falls in, and the place inside it. */
  lemma {:induction false} SquareOf(v: int, size: nat, col: int)
    requires size > 0
    ensures v / size == col <==> 0 <= v - col * size < size
  {
    var q, r := v / size, v % size;
    assert v == size * q + r;
    if 0 <= v - col * size < size {
      RemainderUnique(v, size, col, v - col * size);
    }
  }

  class WorldMap {
    var placements: seq<Placed>
    var byRegion: map<u32, Placement>
    var bySquare: map<Placement, u32>

    /** The three views agree: a region has one square, a square one region. */
    ghost predicate Valid()
      reads this
    {
      && (forall r :: r in byRegion ==> r < 0x8000_0000 && byRegion[r] in bySquare && bySquare[byRegion[r]] == r)
      && (forall s :: s in bySquare ==> bySquare[s] in byRegion && byRegion[bySquare[s]] == s)
      && (forall r, s :: r in byRegion && byRegion[r] == s <==> Placed(r, s) in placements)
      && (forall i, j :: 0 <= i < j < |placements| ==> placements[i] != placements[j])
    }

    constructor ()
      ensures Valid() && placements == []
    {
      placements, byRegion, bySquare := [], map[], map[];
    }

    /** Adds a placement, unless the id is too wide, the region has a square, or the square a
        region; the first of those that holds is the refusal. */
    method Place(region: u32, at: Placement) returns (r: Result<(), MapError>)
      requires Valid()
      modifies this
      ensures Valid()
      ensures r.Ok? <==> region < 0x8000_0000 && forall p :: p in old(placements) ==> p.region != region && p.at != at
      ensures r.Ok? ==> placements == old(placements) + [Placed(region, at)]
      ensures r.Err? ==> placements == old(placements) && byRegion == old(byRegion) && bySquare == old(bySquare)
      ensures r.Err? ==> match r.error
        case RegionIdTooWide(wide) => wide == region >= 0x8000_0000
        case DuplicateRegion(twice) => twice == region < 0x8000_0000 && exists s :: Placed(region, s) in placements
        case DuplicateSquare(s) =>
          && s == at && region < 0x8000_0000 && (forall p :: p in placements ==> p.region != region)
          && exists other :: Placed(other, at) in placements
        case _ => false
    {
      if Shr(region, 31) != 0 {
        TopBit(region);
        return Err(RegionIdTooWide(region));
      }
      TopBit(region);
      if region in byRegion {
        assert Placed(region, byRegion[region]) in placements;
        return Err(DuplicateRegion(region));
      }
      if at in bySquare {
        assert Placed(bySquare[at], at) in placements;
        return Err(DuplicateSquare(at));
      }
      ghost var was := placements;
      placements := placements + [Placed(region, at)];
      byRegion := byRegion[region := at];
      bySquare := bySquare[at := region];
      assert forall p :: p in placements <==> p in was || p == Placed(region, at);
      return Ok(());
    }

    method PlacementOf(region: u32) returns (at: Option<Placement>)
      requires Valid()
      ensures match at { case Some(s) => Placed(region, s) in placements case None => region !in byRegion }
    {
      at := if region in byRegion then Some(byRegion[region]) else None;
    }

    method RegionAt(square: Placement) returns (region: Option<u32>)
      requires Valid()
      ensures match region { case Some(r) => Placed(r, square) in placements case None => square !in bySquare }
    {
      region := if square in bySquare then Some(bySquare[square]) else None;
    }

    /** Finds the square that holds a position, if its region is placed. */
    method Locate(at: WorldPos, size: nat) returns (r: Option<(u32, Pos3)>)
      requires Valid() && 0 < size <= MAX_REGION
      ensures match r {
        case Some(found) =>
          && 0 <= found.1.x < size && 0 <= found.1.y < size
          && exists s :: Placed(found.0, s) in placements && FromLocal(found.1, s, size) == at
        case None => forall p, local: Pos3 :: p in placements && 0 <= local.x < size && 0 <= local.y < size ==>
          FromLocal(local, p.at, size) != at
      }
    {
      var col, row := at.x / size, at.y / size;
      forall p, local: Pos3 | p in placements && 0 <= local.x < size && 0 <= local.y < size
        && FromLocal(local, p.at, size) == at
        ensures p.at.col == col && p.at.row == row
      {
        SquareOf(at.x, size, p.at.col);
        SquareOf(at.y, size, p.at.row);
      }
      if !Fits(col) || !Fits(row) {
        return None;
      }
      SquareOf(at.x, size, col);
      SquareOf(at.y, size, row);
      var square := Placement(col, row);
      if square !in bySquare {
        return None;
      }
      var local := ToLocal(at, square, size);
      if local.None? {
        return None;
      }
      WorldRoundTrips(at, square, size);
      assert Placed(bySquare[square], square) in placements;
      return Some((bySquare[square], local.value));
    }
  }

  lemma {:induction false} TopBit(n: u32)
    ensures Shr(n, 31) == 0 <==> n < 0x8000_0000
  {
    Pow2Of32();
    assert Pow2(32) == 2 * Pow2(31);
    ShrBounds(n, 31);
    if Shr(n, 31) >= 1 {
      MulLe(1, Shr(n, 31), Pow2(31));
    }
  }
}
