/** An open-addressed table at most half full, refining a finite map from ids to marks. */
module Ghosts {
  import opened Numbers
  import opened Probing

  const MIN_SLOTS := 16

  /** Ticks since a ghost was last a candidate, on wrapping ticks. */
  function Age(tick: u32, k: Known): u32 {
    WrapSub(tick, k.lastSeen)
  }

  // ----- what each operation does to the map -----

  function Sent(m: map<u32, Known>, id: u32, mark: u32, tick: u32): map<u32, Known> {
    m[id := Known(mark, tick, tick)]
  }

  function Seen(m: map<u32, Known>, id: u32, tick: u32): map<u32, Known> {
    if id in m then m[id := m[id].(lastSeen := tick)] else m
  }

  function Kept(m: map<u32, Known>, tick: u32, grace: u32): map<u32, Known> {
    map id | id in m && Age(tick, m[id]) <= grace :: m[id]
  }

  // ----- facts about probe paths -----

  /** The slots from an id's home up to but not including `i` are taken by others. */
  ghost predicate PathTaken(home: u32 -> nat, s: seq<Ghost>, id: u32, i: nat)
    requires Homes(home, |s|) && i < |s|
  {
    var h := home(id);
    forall j {:trigger Taken(s, j)} ::
      0 <= j < |s| && Dist(h, j, |s|) < Dist(h, i, |s|) ==> Taken(s, j) && s[j].id != id
  }

  lemma {:induction false} PathStarts(home: u32 -> nat, s: seq<Ghost>, id: u32)
    requires Homes(home, |s|)
    ensures PathTaken(home, s, id, home(id))
  {
    assert Dist(home(id), home(id), |s|) == 0;
  }

  lemma {:induction false} PathGrows(home: u32 -> nat, s: seq<Ghost>, id: u32, i: nat)
    requires Homes(home, |s|) && i < |s| && PathTaken(home, s, id, i)
    requires Taken(s, i) && s[i].id != id
    ensures PathTaken(home, s, id, if i + 1 == |s| then 0 else i + 1)
  {
    var next := if i + 1 == |s| then 0 else i + 1;
    forall j | 0 <= j < |s| && Dist(home(id), j, |s|) < Dist(home(id), next, |s|)
      ensures Taken(s, j) && s[j].id != id
    {
      assert j == i || Taken(s, j);
    }
  }

  /** A vacant slot at the end of an id's path means the table does not hold the id. */
  lemma {:induction false} VacantEndsProbe(home: u32 -> nat, s: seq<Ghost>, id: u32, i: nat)
    requires Homes(home, |s|) && i < |s| && ProbesUnbroken(s, home, NO_HOLE)
    requires id != EMPTY && !Taken(s, i) && PathTaken(home, s, id, i)
    ensures forall k :: 0 <= k < |s| ==> s[k].id != id
  {
    forall k | 0 <= k < |s|
      ensures s[k].id != id
    {
      if s[k].id == id {
        assert Taken(s, k);
      }
    }
  }

  /** Placing an entry at the vacant slot its probe ends on keeps the table well formed. */
  lemma {:induction false} PutKeepsTable(home: u32 -> nat, s: seq<Ghost>, i: nat, g: Ghost)
    requires Homes(home, |s|) && UniqueIds(s) && ProbesUnbroken(s, home, NO_HOLE)
    requires i < |s| && !Taken(s, i) && g.id != EMPTY && PathTaken(home, s, g.id, i)
    ensures UniqueIds(s[i := g]) && ProbesUnbroken(s[i := g], home, NO_HOLE)
  {
    VacantEndsProbe(home, s, g.id, i);
    UniqueWith(s, i, g);
    var s' := s[i := g];
    forall k, j | 0 <= k < |s'| && 0 <= j < |s'| && Taken(s', k) && j != NO_HOLE
      && Dist(home(s'[k].id), j, |s'|) < Dist(home(s'[k].id), k, |s'|)
      ensures Taken(s', j)
    {
      if k == i {
        assert Taken(s, j);
      } else if j != i {
        assert Taken(s, k) && Taken(s, j);
      }
    }
  }

  /** Rewriting an entry under its own id moves nothing. */
  lemma {:induction false} RewriteKeepsTable(home: u32 -> nat, s: seq<Ghost>, i: nat, g: Ghost)
    requires Homes(home, |s|) && UniqueIds(s) && ProbesUnbroken(s, home, NO_HOLE)
    requires i < |s| && Taken(s, i) && g.id == s[i].id
    ensures UniqueIds(s[i := g]) && ProbesUnbroken(s[i := g], home, NO_HOLE)
    ensures TakenSlots(s[i := g]) == TakenSlots(s)
    ensures Entries(s[i := g]) == Entries(s) - {s[i]} + {g}
  {
    var s' := s[i := g];
    forall k, j | 0 <= k < |s'| && 0 <= j < |s'| && Taken(s', k) && j != NO_HOLE
      && Dist(home(s'[k].id), j, |s'|) < Dist(home(s'[k].id), k, |s'|)
      ensures Taken(s', j)
    {
      assert Taken(s, k) && Taken(s, j);
    }
    assert TakenSlots(s') == TakenSlots(s);
    TakeOut(s, i);
    PutVacant(s[i := VACANT], i, g);
    assert s[i := VACANT][i := g] == s';
    forall a, b | 0 <= a < |s'| && 0 <= b < |s'| && Taken(s', a) && Taken(s', b) && s'[a].id == s'[b].id
      ensures a == b
    {
      DistinctSlots(s, a, b);
    }
  }

  // ----- backward-shift deletion -----

  /** Deletion in progress. Counting slots forward from the removal point `at`, the
      hole is `u` ahead and the scan `t` ahead. Everything between them is taken by
      entries that the hole is not on the probe path of. */
  ghost predicate Scanning(home: u32 -> nat, s: seq<Ghost>, at: nat, u: nat, t: nat)
    requires Homes(home, |s|) && at < |s|
  {
    && u < t < |s|
    && UniqueIds(s)
    && !Taken(s, Ahead(at, u, |s|))
    && ProbesUnbroken(s, home, Ahead(at, u, |s|))
    && (forall k {:trigger Taken(s, k)} :: 0 <= k < |s| && u < Dist(at, k, |s|) < t ==>
          Taken(s, k)
          && Dist(home(s[k].id), k, |s|) < Dist(Ahead(at, u, |s|), k, |s|))
  }

  lemma {:induction false} ScanStarts(home: u32 -> nat, s: seq<Ghost>, at: nat)
    requires Homes(home, |s|) && UniqueIds(s) && ProbesUnbroken(s, home, NO_HOLE)
    requires at < |s| && 1 < |s| && Taken(s, at)
    ensures Scanning(home, s[at := VACANT], at, 0, 1)
  {
    var s' := s[at := VACANT];
    TakeOut(s, at);
    assert Ahead(at, 0, |s|) == at;
    forall i, j | 0 <= i < |s'| && 0 <= j < |s'| && Taken(s', i) && j != at
      && Dist(home(s'[i].id), j, |s'|) < Dist(home(s'[i].id), i, |s'|)
      ensures Taken(s', j)
    {
      assert Taken(s, i) && Taken(s, j);
    }
  }

  lemma {:induction false} ScanSkips(home: u32 -> nat, s: seq<Ghost>, at: nat, u: nat, t: nat)
    requires Homes(home, |s|) && at < |s| && Scanning(home, s, at, u, t) && t + 1 < |s|
    requires var j := Ahead(at, t, |s|);
      Taken(s, j) && Dist(home(s[j].id), j, |s|) < Dist(Ahead(at, u, |s|), j, |s|)
    ensures Scanning(home, s, at, u, t + 1)
  {
    forall k | 0 <= k < |s| && u < Dist(at, k, |s|) < t + 1
      ensures Taken(s, k) && Dist(home(s[k].id), k, |s|) < Dist(Ahead(at, u, |s|), k, |s|)
    {
      if Dist(at, k, |s|) == t {
        assert k == Ahead(at, t, |s|);
      }
    }
  }

  lemma {:induction false} ScanShifts(home: u32 -> nat, s: seq<Ghost>, at: nat, u: nat, t: nat)
    requires Homes(home, |s|) && at < |s| && Scanning(home, s, at, u, t) && t + 1 < |s|
    requires var j := Ahead(at, t, |s|);
      Taken(s, j) && Dist(home(s[j].id), j, |s|) >= Dist(Ahead(at, u, |s|), j, |s|)
    ensures var j := Ahead(at, t, |s|);
      var s' := s[Ahead(at, u, |s|) := s[j]][j := VACANT];
      && Scanning(home, s', at, t, t + 1)
      && Entries(s') == Entries(s)
      && |TakenSlots(s')| == |TakenSlots(s)|
  {
    var n := |s|;
    var hole, j := Ahead(at, u, n), Ahead(at, t, n);
    var s' := s[hole := s[j]][j := VACANT];
    Shift(s, hole, j);
    forall i, k | 0 <= i < n && 0 <= k < n && Taken(s', i) && k != j
      && Dist(home(s'[i].id), k, n) < Dist(home(s'[i].id), i, n)
      ensures Taken(s', k)
    {
      if k != hole {
        if i == hole {
          assert Taken(s, j);
          assert Taken(s, k);
        } else {
          assert Taken(s, i) && Taken(s, k);
        }
      }
    }
  }

  /** When the scan reaches a vacant slot, nothing is left with the hole on its path. */
  lemma {:induction false} ScanEnds(home: u32 -> nat, s: seq<Ghost>, at: nat, u: nat, t: nat)
    requires Homes(home, |s|) && at < |s| && Scanning(home, s, at, u, t)
    requires !Taken(s, Ahead(at, t, |s|))
    ensures ProbesUnbroken(s, home, NO_HOLE)
  {
    var n := |s|;
    var hole := Ahead(at, u, n);
    forall i, k | 0 <= i < n && 0 <= k < n && Taken(s, i) && k != NO_HOLE
      && Dist(home(s[i].id), k, n) < Dist(home(s[i].id), i, n)
      ensures Taken(s, k)
    {
      if k == hole {
        assert false;
      }
    }
  }

  /** What a deletion at `at` has done so far to the table `was`. Slots not yet
      scanned are as they were, and a slot before the removal point only ever
      receives an entry that was already before it. */
  ghost predicate Deleting(home: u32 -> nat, was: seq<Ghost>, s: seq<Ghost>, at: nat, u: nat, t: nat)
    requires Homes(home, |was|) && |s| == |was| && at < |s|
  {
    && Scanning(home, s, at, u, t)
    && Entries(s) == Entries(was) - {was[at]}
    && |TakenSlots(s)| == |TakenSlots(was)| - 1
    && (forall k :: 0 <= k < |s| && Dist(at, k, |s|) >= t ==> s[k] == was[k])
    && FromBefore(was, s, at)
  }

  ghost predicate FromBefore(was: seq<Ghost>, s: seq<Ghost>, at: nat)
    requires |s| == |was| && at < |s|
  {
    forall k {:trigger Taken(s, k)} :: 0 <= k < at && Taken(s, k) ==> s[k] in was[..at]
  }

  lemma {:induction false} DeletingStarts(home: u32 -> nat, s: seq<Ghost>, at: nat)
    requires Homes(home, |s|) && UniqueIds(s) && ProbesUnbroken(s, home, NO_HOLE)
    requires at < |s| && 1 < |s| && Taken(s, at)
    ensures Deleting(home, s, s[at := VACANT], at, 0, 1)
  {
    ScanStarts(home, s, at);
    TakeOut(s, at);
    assert forall k :: 0 <= k < at ==> s[at := VACANT][k] == s[..at][k];
  }

  lemma {:induction false} DeletingShifts(home: u32 -> nat, was: seq<Ghost>, s: seq<Ghost>, at: nat, u: nat, t: nat)
    requires Homes(home, |was|) && |s| == |was| && at < |s| && t + 1 < |s|
    requires Deleting(home, was, s, at, u, t)
    requires var j := Ahead(at, t, |s|);
      Taken(s, j) && Dist(home(s[j].id), j, |s|) >= Dist(Ahead(at, u, |s|), j, |s|)
    ensures var j := Ahead(at, t, |s|);
      Deleting(home, was, s[Ahead(at, u, |s|) := s[j]][j := VACANT], at, t, t + 1)
  {
    ScanShifts(home, s, at, u, t);
    var n := |s|;
    var hole, j := Ahead(at, u, n), Ahead(at, t, n);
    var s' := s[hole := s[j]][j := VACANT];
    forall k | 0 <= k < at && Taken(s', k)
      ensures s'[k] in was[..at]
    {
      if k == hole {
        // The hole has wrapped, so the scan ahead of it has too.
        assert j < at;
        assert was[..at][j] == s[j];
      } else {
        assert Taken(s, k);
      }
    }
  }

  /** The rest of a deletion: from a hole `u` ahead of `at` and the scan `t` ahead,
      every entry whose probe path crosses the hole shifts back into it. */
  function Closed(home: u32 -> nat, s: seq<Ghost>, at: nat, u: nat, t: nat): (r: seq<Ghost>)
    requires Homes(home, |s|) && at < |s| && u < t < |s|
    ensures |r| == |s|
    decreases |s| - t
  {
    var n := |s|;
    var hole, j := Ahead(at, u, n), Ahead(at, t, n);
    if !Taken(s, j) || t + 1 == n then s
    else if Dist(home(s[j].id), j, n) >= Dist(hole, j, n) then
      Closed(home, s[hole := s[j]][j := VACANT], at, t, t + 1)
    else Closed(home, s, at, u, t + 1)
  }

  /** `r` is the well-formed table left when the entry at `at` is deleted from `was`. */
  ghost predicate Removed(home: u32 -> nat, was: seq<Ghost>, r: seq<Ghost>, at: nat)
    requires Homes(home, |was|) && |r| == |was| && at < |was|
  {
    && UniqueIds(r) && ProbesUnbroken(r, home, NO_HOLE) && FromBefore(was, r, at)
    && |TakenSlots(r)| == |TakenSlots(was)| - 1
    && Entries(r) == Entries(was) - {was[at]}
  }

  /** A scan on a taken slot is short of the vacant slot that ends the chain. */
  lemma {:induction false} ShortOfVacant(s: seq<Ghost>, at: nat, t: nat, e: nat)
    requires at < |s| && t < |s| && e < |s| && t <= Dist(at, e, |s|)
    requires Taken(s, Ahead(at, t, |s|)) && !Taken(s, e)
    ensures t + 1 <= Dist(at, e, |s|) && t + 1 < |s|
  {
    assert Ahead(at, Dist(at, e, |s|), |s|) == e;
  }

  lemma {:induction false} ClosedIsDeleted(home: u32 -> nat, was: seq<Ghost>, s: seq<Ghost>, at: nat, u: nat, t: nat,
      e: nat)
    requires Homes(home, |was|) && |s| == |was| && at < |s| && u < t < |s|
    requires Deleting(home, was, s, at, u, t)
    requires e < |was| && t <= Dist(at, e, |was|) && !Taken(was, e)
    ensures Removed(home, was, Closed(home, s, at, u, t), at)
    decreases |s| - t
  {
    assert s[e] == was[e];
    var hole, j := Ahead(at, u, |s|), Ahead(at, t, |s|);
    if !Taken(s, j) {
      DeletionEnds(home, was, s, at, u, t);
    } else {
      ShortOfVacant(s, at, t, e);
      if Dist(home(s[j].id), j, |s|) >= Dist(hole, j, |s|) {
        DeletingShifts(home, was, s, at, u, t);
        ClosedIsDeleted(home, was, s[hole := s[j]][j := VACANT], at, t, t + 1, e);
      } else {
        DeletingSkips(home, was, s, at, u, t);
        ClosedIsDeleted(home, was, s, at, u, t + 1, e);
      }
    }
  }

  lemma {:induction false} DeletingSkips(home: u32 -> nat, was: seq<Ghost>, s: seq<Ghost>, at: nat, u: nat, t: nat)
    requires Homes(home, |was|) && |s| == |was| && at < |s| && t + 1 < |s|
    requires Deleting(home, was, s, at, u, t)
    requires var j := Ahead(at, t, |s|);
      Taken(s, j) && Dist(home(s[j].id), j, |s|) < Dist(Ahead(at, u, |s|), j, |s|)
    ensures Deleting(home, was, s, at, u, t + 1)
  {
    ScanSkips(home, s, at, u, t);
  }

  lemma {:induction false} DeletionEnds(home: u32 -> nat, was: seq<Ghost>, s: seq<Ghost>, at: nat, u: nat, t: nat)
    requires Homes(home, |was|) && |s| == |was| && at < |s|
    requires Deleting(home, was, s, at, u, t) && !Taken(s, Ahead(at, t, |s|))
    ensures Removed(home, was, s, at)
  {
    ScanEnds(home, s, at, u, t);
  }

  /** `to` is well formed and holds just what `from` does. */
  ghost predicate MovedInto(home: u32 -> nat, from: seq<Ghost>, to: seq<Ghost>)
    requires Homes(home, |to|)
  {
    && UniqueIds(to)
    && ProbesUnbroken(to, home, NO_HOLE)
    && Entries(to) == Entries(from)
    && |TakenSlots(to)| == |TakenSlots(from)|
  }

  lemma {:induction false} NothingTaken(s: seq<Ghost>)
    requires forall i :: 0 <= i < |s| ==> i !in TakenSlots(s)
    ensures TakenSlots(s) == {} && Entries(s) == {} && UniqueIds(s)
    ensures forall i :: 0 <= i < |s| ==> s[i].id == EMPTY
  {
    forall i | 0 <= i < |s|
      ensures s[i].id == EMPTY
    {
      assert i !in TakenSlots(s);
    }
    assert forall i :: 0 <= i < |s| ==> !Taken(s, i);
  }

  lemma {:induction false} NothingMoved(home: u32 -> nat, to: seq<Ghost>)
    requires Homes(home, |to|) && TakenSlots(to) == {}
    ensures MovedInto(home, [], to)
  {
    NothingTaken(to);
    assert forall i :: 0 <= i < |to| ==> !Taken(to, i);
  }

  /** What one more slot of an old table adds to what has been moved out of it. */
  lemma {:induction false} MoreTaken(s: seq<Ghost>, k: nat)
    requires UniqueIds(s) && k < |s|
    ensures Entries(s[..k + 1]) == Entries(s[..k]) + (if Taken(s, k) then {s[k]} else {})
    ensures |TakenSlots(s[..k + 1])| == |TakenSlots(s[..k])| + (if Taken(s, k) then 1 else 0)
    ensures |TakenSlots(s[..k + 1])| <= |TakenSlots(s)|
    ensures forall g :: g in Entries(s[..k]) ==> g.id != s[k].id
  {
    assert s[..k + 1] == s[..k] + [s[k]];
    assert TakenSlots(s[..k + 1]) == TakenSlots(s[..k]) + (if Taken(s, k) then {k} else {});
    assert TakenSlots(s[..k + 1]) <= TakenSlots(s);
    SubsetSize(TakenSlots(s[..k + 1]), TakenSlots(s));
    forall g | g in Entries(s[..k])
      ensures g.id != s[k].id
    {
      var i :| 0 <= i < k && s[i] == g;
      if g.id == s[k].id {
        DistinctSlots(s, i, k);
      }
    }
  }

  /** Doubling past what is needed stays within the word if what is needed does. */
  lemma {:induction false} FitsWord(k: nat, needed: nat)
    requires needed <= 0x1_0000_0000 && Pow2(k) < 2 * needed
    ensures Pow2(k) <= 0x1_0000_0000
  {
    Pow2Of32();
    Pow2Add(1, 32);
    if k > 32 {
      Pow2Monotone(33, k);
    } else {
      Pow2Monotone(k, 32);
    }
  }

  // ----- the map a table stands for -----

  ghost function Stands(s: seq<Ghost>): (m: map<u32, Known>)
    requires UniqueIds(s)
  {
    EntriesDistinct(s);
    AsMap(Entries(s))
  }

  lemma {:induction false} StandsAt(s: seq<Ghost>, i: nat)
    requires UniqueIds(s) && i < |s| && Taken(s, i)
    ensures s[i].id in Stands(s) && Stands(s)[s[i].id] == Fact(s[i])
  {
    EntriesDistinct(s);
    assert s[i] in Entries(s);
  }

  lemma {:induction false} StandsNowhere(s: seq<Ghost>, id: u32)
    requires UniqueIds(s) && forall k :: 0 <= k < |s| ==> s[k].id != id
    ensures id !in Stands(s)
  {
    EntriesDistinct(s);
  }

  lemma {:induction false} StandsPut(s: seq<Ghost>, s': seq<Ghost>, g: Ghost)
    requires UniqueIds(s) && UniqueIds(s') && Entries(s') == Entries(s) + {g}
    ensures Stands(s') == Stands(s)[g.id := Fact(g)]
  {
    EntriesDistinct(s);
    EntriesDistinct(s');
    assert g in Entries(s');
    assert Stands(s').Keys == Stands(s).Keys + {g.id};
  }

  lemma {:induction false} StandsWithout(s: seq<Ghost>, s': seq<Ghost>, g: Ghost)
    requires UniqueIds(s) && UniqueIds(s') && g in Entries(s) && Entries(s') == Entries(s) - {g}
    ensures Stands(s') == Stands(s) - {g.id}
    ensures g.id in Stands(s) && Stands(s)[g.id] == Fact(g)
  {
    EntriesDistinct(s);
    EntriesDistinct(s');
    assert Stands(s').Keys == Stands(s).Keys - {g.id};
  }

  /** A table's length is the number of ghosts it stands for. */
  lemma {:induction false} LengthCountsGhosts(s: seq<Ghost>)
    requires UniqueIds(s)
    ensures |Stands(s)| == |TakenSlots(s)|
    decreases |TakenSlots(s)|
  {
    EntriesDistinct(s);
    if TakenSlots(s) == {} {
      NothingTaken(s);
    } else {
      var i :| i in TakenSlots(s);
      TakeOut(s, i);
      LengthCountsGhosts(s[i := VACANT]);
      StandsWithout(s, s[i := VACANT], s[i]);
      assert Stands(s).Keys == Stands(s[i := VACANT]).Keys + {s[i].id};
      assert |Stands(s).Keys| == |Stands(s[i := VACANT]).Keys| + 1;
    }
  }

  // ----- the table -----

  class GhostTable {
    var slots: array<Ghost>
    var len: nat

    ghost predicate Valid()
      reads this, slots
    {
      if slots.Length == 0 then len == 0 else Table(slots[..], len)
    }

    /** The map this table refines. */
    ghost function Contents(): (m: map<u32, Known>)
      reads this, slots
      requires Valid()
    {
      Stands(slots[..])
    }

    constructor ()
      ensures Valid() && fresh(slots) && Contents() == map[]
    {
      slots := new Ghost[0];
      len := 0;
      new;
      assert slots[..] == [];
    }

    /** An empty table with at least twice `ghosts` slots. */
    constructor WithCapacity(ghosts: nat)
      requires 2 * ghosts <= 0x1_0000_0000
      ensures Valid() && fresh(slots) && Contents() == map[]
      ensures 2 * ghosts <= slots.Length
    {
      slots := new Ghost[0];
      len := 0;
      new;
      assert slots[..] == [];
      if ghosts > 0 {
        // The next power of two, and no less than the smallest table.
        var cap := MIN_SLOTS;
        ghost var k: nat := 4;
        assert Pow2(4) == 16;
        while cap < 2 * ghosts
          invariant 16 <= cap == Pow2(k)
          invariant cap == 16 || cap < 4 * ghosts
          decreases 2 * ghosts - cap
        {
          cap, k := cap * 2, k + 1;
        }
        Pow2IsPowerOfTwo(k);
        if cap != 16 { FitsWord(k, 2 * ghosts); }
        Rehash(cap);
      }
    }

    /** Empties every slot; the slots stay. */
    method Clear()
      requires Valid()
      modifies this`len, slots
      ensures Valid() && slots == old(slots) && Contents() == map[]
    {
      forall i | 0 <= i < slots.Length {
        slots[i] := VACANT;
      }
      len := 0;
      assert forall i :: 0 <= i < |slots[..]| ==> !Taken(slots[..], i);
      assert TakenSlots(slots[..]) == {};
      assert Entries(slots[..]) == {};
    }

    /** The slot holding `id`, or the vacant slot it would occupy. */
    method Find(id: u32) returns (found: bool, at: nat)
      requires Valid() && slots.Length > 0 && id != EMPTY
      ensures at < slots.Length && PathTaken(HomeIn(slots.Length), slots[..], id, at)
      ensures found ==> slots[at].id == id
      ensures !found ==> !Taken(slots[..], at)
      ensures found == (id in Contents())
      ensures found ==> Contents()[id] == Fact(slots[at])
    {
      at := Probe(HomeIn(slots.Length), id);
      found := slots[at].id == id;
      if found {
        StandsAt(slots[..], at);
      } else {
        VacantEndsProbe(HomeIn(slots.Length), slots[..], id, at);
        StandsNowhere(slots[..], id);
      }
    }

    /** The first slot from an id's home that holds it or is vacant. */
    method Probe(home: u32 -> nat, id: u32) returns (at: nat)
      requires TableSize(slots.Length) && Homes(home, slots.Length)
      requires |TakenSlots(slots[..])| < slots.Length && id != EMPTY
      ensures at < slots.Length && PathTaken(home, slots[..], id, at)
      ensures slots[at].id == id || slots[at].id == EMPTY
    {
      var n := slots.Length;
      ghost var s := slots[..];
      ghost var e := SomeVacancy(s);
      at := home(id);
      PathStarts(home, s, id);
      while slots[at].id != id && slots[at].id != EMPTY
        invariant at < n && PathTaken(home, s, id, at)
        invariant Dist(home(id), at, n) <= Dist(home(id), e, n)
        decreases Dist(at, e, n)
      {
        assert Taken(s, at) && at != e;
        PathGrows(home, s, id, at);
        at := Next(at, n);
      }
    }

    lemma {:induction false} CountsGhosts()
      requires Valid()
      ensures len == |Contents()|
    {
      LengthCountsGhosts(slots[..]);
      if slots.Length == 0 {
        assert slots[..] == [];
        assert TakenSlots(slots[..]) == {};
      }
    }

    /** How many ghosts the client holds. */
    method Len() returns (n: nat)
      requires Valid()
      ensures n == |Contents()|
    {
      CountsGhosts();
      n := len;
    }

    /** The map's entry for `id`, if it has one. */
    method Held(id: u32) returns (held: bool, mark: u32, lastSent: u32)
      requires Valid() && id != EMPTY
      ensures held == (id in Contents())
      ensures held ==> mark == Contents()[id].mark && lastSent == Contents()[id].lastSent
    {
      held, mark, lastSent := false, 0, 0;
      if slots.Length > 0 {
        var at;
        held, at := Find(id);
        if held {
          mark, lastSent := slots[at].mark, slots[at].lastSent;
        }
      } else {
        assert slots[..] == [];
      }
    }

    /** Updates when an entry was last seen, and adds none. */
    method MarkSeen(id: u32, tick: u32) returns (held: bool, mark: u32)
      requires Valid() && id != EMPTY
      modifies slots
      ensures Valid()
      ensures held == (id in old(Contents())) && (held ==> mark == old(Contents())[id].mark)
      ensures Contents() == Seen(old(Contents()), id, tick)
    {
      held, mark := false, 0;
      if slots.Length > 0 {
        var at;
        held, at := Find(id);
        if held {
          ghost var s := slots[..];
          var g := slots[at].(lastSeen := tick);
          RewriteKeepsTable(HomeIn(slots.Length), s, at, g);
          slots[at] := g;
          assert slots[..] == s[at := g];
          Rewritten(s, at, g);
          mark := g.mark;
        }
      } else {
        assert slots[..] == [];
      }
    }

    /** Sets an entry whole, growing the table first if it must. */
    method MarkSent(id: u32, mark: u32, tick: u32)
      requires Valid() && id != EMPTY
      requires 2 * (len + 1) <= 0x1_0000_0000
      modifies this, slots
      ensures Valid() && (slots == old(slots) || fresh(slots))
      ensures Contents() == Sent(old(Contents()), id, mark, tick)
    {
      ReserveOne();
      var found, at := Find(id);
      ghost var s := slots[..];
      var g := Ghost(id, mark, tick, tick);
      if found {
        RewriteKeepsTable(HomeIn(slots.Length), s, at, g);
        slots[at] := g;
        assert slots[..] == s[at := g];
        Rewritten(s, at, g);
      } else {
        PutKeepsTable(HomeIn(slots.Length), s, at, g);
        PutVacant(s, at, g);
        slots[at] := g;
        len := len + 1;
        assert slots[..] == s[at := g];
        StandsPut(s, s[at := g], g);
      }
    }

    /** Leaves a slot to spare under half full, the map as it was. */
    method ReserveOne()
      requires Valid()
      requires 2 * (len + 1) <= 0x1_0000_0000
      modifies this, slots
      ensures Valid() && (slots == old(slots) || fresh(slots))
      ensures slots.Length >= 2 * (len + 1)
      ensures len == old(len) && Contents() == old(Contents())
    {
      var needed := (len + 1) * 2;
      if slots.Length >= needed {
        return;
      }
      var cap := Max(slots.Length, MIN_SLOTS);
      ghost var k: nat := if slots.Length == 0 then 4 else TrailingZeros(slots.Length);
      assert Pow2(4) == 16;
      while cap < needed
        invariant 16 <= cap == Pow2(k)
        invariant cap == 16 || cap < 2 * needed
        decreases needed - cap
      {
        cap, k := cap * 2, k + 1;
      }
      Pow2IsPowerOfTwo(k);
      if cap != 16 { FitsWord(k, needed); }
      Rehash(cap);
    }

    /** Puts a ghost the table does not hold into the first vacant slot from its home. */
    method Place(home: u32 -> nat, g: Ghost)
      requires TableSize(slots.Length) && Homes(home, slots.Length)
      requires UniqueIds(slots[..]) && ProbesUnbroken(slots[..], home, NO_HOLE)
      requires |TakenSlots(slots[..])| < slots.Length
      requires g.id != EMPTY && forall h :: h in Entries(slots[..]) ==> h.id != g.id
      modifies slots
      ensures UniqueIds(slots[..]) && ProbesUnbroken(slots[..], home, NO_HOLE)
      ensures Entries(slots[..]) == old(Entries(slots[..])) + {g}
      ensures |TakenSlots(slots[..])| == old(|TakenSlots(slots[..])|) + 1
    {
      var n := slots.Length;
      ghost var s := slots[..];
      ghost var e := SomeVacancy(s);
      var i: nat := home(g.id);
      PathStarts(home, s, g.id);
      while slots[i].id != EMPTY
        invariant i < n && slots[..] == s && PathTaken(home, s, g.id, i)
        invariant Dist(home(g.id), i, n) <= Dist(home(g.id), e, n)
        decreases Dist(i, e, n)
      {
        assert s[i] in Entries(s) && i != e;
        PathGrows(home, s, g.id, i);
        i := Next(i, n);
      }
      PutKeepsTable(home, s, i, g);
      PutVacant(s, i, g);
      slots[i] := g;
      assert slots[..] == s[i := g];
    }

    /** Places every ghost of `was` into this table's slots, all vacant. */
    method Refill(home: u32 -> nat, was: array<Ghost>)
      requires TableSize(slots.Length) && Homes(home, slots.Length)
      requires was != slots && UniqueIds(was[..]) && 2 * |TakenSlots(was[..])| <= slots.Length
      requires TakenSlots(slots[..]) == {}
      modifies slots
      ensures MovedInto(home, was[..], slots[..])
    {
      ghost var s := was[..];
      NothingMoved(home, slots[..]);
      assert s[..0] == [];
      for k := 0 to was.Length
        invariant was[..] == s && MovedInto(home, s[..k], slots[..])
      {
        MoreTaken(s, k);
        if was[k].id != EMPTY {
          Place(home, was[k]);
        }
      }
      assert s[..|s|] == s;
    }

    /** Moves every ghost into a table of `cap` slots. */
    method Rehash(cap: nat)
      requires Valid() && TableSize(cap) && 2 * len <= cap
      modifies this`slots
      ensures Valid() && fresh(slots) && slots.Length == cap
      ensures Contents() == old(Contents())
    {
      var was := slots;
      assert was.Length == 0 ==> TakenSlots(was[..]) == {};
      slots := new Ghost[cap](_ => VACANT);
      assert TakenSlots(slots[..]) == {};
      Refill(HomeIn(cap), was);
      EntriesDistinct(was[..]);
    }

    /** Restricts the map to what is within `grace`, in one pass over the slots, and lists what
        it took out, each once. */
    method Evict(tick: u32, grace: u32, departed: seq<u32>) returns (out: seq<u32>)
      requires Valid()
      modifies this`len, slots
      ensures Valid() && slots == old(slots)
      ensures Contents() == Kept(old(Contents()), tick, grace)
      ensures departed <= out && Distinct(out[|departed|..])
      ensures forall id :: id in out[|departed|..] <==>
        id in old(Contents()) && id !in Contents()
    {
      out := departed;
      if slots.Length == 0 {
        assert slots[..] == [];
        return;
      }
      ghost var m, gone: seq<u32> := Contents(), [];
      var i := 0;
      while i < slots.Length
        invariant Valid() && slots == old(slots) && i <= slots.Length
        invariant out == departed + gone
        invariant Evicting(m, slots[..], gone, i, tick, grace)
        decreases len, slots.Length - i
      {
        var g := slots[i];
        if g.id != EMPTY && WrapSub(tick, g.lastSeen) > grace {
          out := out + [g.id];
          ghost var s := slots[..];
          RemoveAt(i);
          EvictingDrops(m, s, slots[..], gone, i, tick, grace);
          gone := gone + [g.id];
          // The same slot again: deletion can move an entry back into it.
          continue;
        }
        i := i + 1;
      }
      EvictingEnds(m, slots[..], gone, tick, grace);
      assert out[|departed|..] == gone;
    }

    /** Knuth's backward-shift deletion of the entry at `at`. */
    method RemoveAt(at: nat)
      requires Valid() && at < slots.Length && Taken(slots[..], at)
      modifies this`len, slots
      ensures Valid() && slots == old(slots) && len == old(len) - 1
      ensures Contents() == old(Contents()) - {old(slots[at].id)}
      ensures FromBefore(old(slots[..]), slots[..], at)
    {
      ghost var s := slots[..];
      var home := HomeIn(slots.Length);
      ghost var e := SomeVacancy(s);
      assert at in TakenSlots(s);
      slots[at] := VACANT;
      len := len - 1;
      assert slots[..] == s[at := VACANT];
      CloseGap(home, at, e);
      DeletingStarts(home, s, at);
      ClosedIsDeleted(home, s, s[at := VACANT], at, 0, 1, e);
      StandsWithout(s, slots[..], s[at]);
    }

    /** The scan of a deletion, up to the slot after the probe chain: `e` at the latest. */
    method CloseGap(home: u32 -> nat, at: nat, ghost e: nat)
      requires TableSize(slots.Length) && Homes(home, slots.Length)
      requires at < slots.Length && e < slots.Length
      requires e != at && !Taken(slots[..], e)
      modifies slots
      ensures slots[..] == Closed(home, old(slots[..]), at, 0, 1)
    {
      var n := slots.Length;
      var hole: nat := at;
      var j := Next(hole, n);
      ghost var u: nat, t: nat := 0, 1;
      ghost var now := slots[..];
      ghost var closed := Closed(home, now, at, u, t);
      while slots[j].id != EMPTY
        invariant slots[..] == now && |now| == n && now[e].id == EMPTY
        invariant u < t <= Dist(at, e, n) && j == Ahead(at, t, n) && hole == Ahead(at, u, n)
        invariant Closed(home, now, at, u, t) == closed
        decreases n - t
      {
        assert Taken(now, j);
        var h := home(slots[j].id);
        var fromHome := MaskedDistance(h, j, n);
        var fromHole := MaskedDistance(hole, j, n);
        if fromHome >= fromHole {
          slots[hole] := slots[j];
          slots[j] := VACANT;
          now := now[hole := now[j]][j := VACANT];
          hole, u := j, t;
        }
        j := Next(j, n);
        t := t + 1;
      }
    }
  }

  /** The eviction cursor is at `i`: slots before it hold nothing stale, and what has
      left the map `m` is exactly `gone`, each id once and each one stale. */
  ghost predicate Evicting(m: map<u32, Known>, s: seq<Ghost>, gone: seq<u32>, i: nat, tick: u32, grace: u32)
    requires UniqueIds(s) && i <= |s|
  {
    && Stands(s) == m - (set id | id in gone)
    && Distinct(gone)
    && (forall id :: id in gone ==> id in m && Age(tick, m[id]) > grace)
    && (forall j :: 0 <= j < i ==> s[j].id == EMPTY || Age(tick, Fact(s[j])) <= grace)
  }

  predicate Distinct(ids: seq<u32>) {
    forall a, b :: 0 <= a < b < |ids| ==> ids[a] != ids[b]
  }

  lemma {:induction false} EvictingDrops(m: map<u32, Known>, s: seq<Ghost>, s': seq<Ghost>, gone: seq<u32>, i: nat,
      tick: u32, grace: u32)
    requires UniqueIds(s) && UniqueIds(s') && |s'| == |s| && i < |s|
    requires Evicting(m, s, gone, i, tick, grace)
    requires Taken(s, i) && Age(tick, Fact(s[i])) > grace
    requires Stands(s') == Stands(s) - {s[i].id} && FromBefore(s, s', i)
    ensures Evicting(m, s', gone + [s[i].id], i, tick, grace)
  {
    StandsAt(s, i);
    forall j | 0 <= j < i
      ensures s'[j].id == EMPTY || Age(tick, Fact(s'[j])) <= grace
    {
      if Taken(s', j) {
        var k :| 0 <= k < i && s[..i][k] == s'[j];
      }
    }
  }

  /** Once the cursor has passed every slot, what is left is what eviction keeps. */
  lemma {:induction false} EvictingEnds(m: map<u32, Known>, s: seq<Ghost>, gone: seq<u32>, tick: u32, grace: u32)
    requires UniqueIds(s) && Evicting(m, s, gone, |s|, tick, grace)
    ensures Stands(s) == Kept(m, tick, grace)
    ensures forall id :: id in gone <==> id in m && id !in Kept(m, tick, grace)
  {
    EntriesDistinct(s);
    forall id | id in Stands(s)
      ensures Age(tick, m[id]) <= grace
    {
      var g :| g in Entries(s) && g.id == id;
      var j :| 0 <= j < |s| && s[j] == g;
      StandsAt(s, j);
    }
  }

  lemma {:induction false} Rewritten(s: seq<Ghost>, i: nat, g: Ghost)
    requires i < |s| && Taken(s, i) && g.id == s[i].id
    requires UniqueIds(s) && UniqueIds(s[i := g])
    requires Entries(s[i := g]) == Entries(s) - {s[i]} + {g}
    ensures Stands(s[i := g]) == Stands(s)[g.id := Fact(g)]
    ensures Stands(s)[g.id] == Fact(s[i])
  {
    EntriesDistinct(s);
    EntriesDistinct(s[i := g]);
    StandsAt(s, i);
    assert g in Entries(s[i := g]);
    assert Stands(s[i := g]).Keys == Stands(s).Keys;
  }
}
