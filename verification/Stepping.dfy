/** The columns of a region as its game changes them, and what its moves report. */
module Stepping {
  import opened Numbers
  import opened Config

  datatype Collision = Collision(id: nat, target: Pos3)

  class World {
    const cfg: WorldConfig
    var at: seq<Pos3>
    var tags: seq<u16>
    var names: seq<u64>
    /** Held at the box by its last move. */
    var atWall: seq<bool>
    /** Everything alive, and everything alive but the shadows. */
    var live: set<nat>
    var shown: set<nat>
    var despawned: seq<nat>
    var collisions: seq<Collision>

    /** Columns are parallel, ids alive are covered, and what is alive stands in the box. */
    ghost predicate Valid()
      reads this
    {
      && cfg.Valid() && cfg.verticalExtent > 0
      && |tags| == |names| == |atWall| == |at|
      && shown <= live
      && (forall id :: id in live ==> id < |at| && cfg.Contains(at[id]))
      && (forall i :: 0 <= i < |despawned| ==> despawned[i] < |at| && despawned[i] !in live)
    }

    /** Columns only grow, and what is shown again was shown before: no id comes back. */
    twostate predicate Onward()
      reads this
    {
      |old(at)| <= |at| && forall id :: id in shown && id < |old(at)| ==> id in old(shown)
    }

    /** What a run of moves changes of one entity. */
    ghost function Mover(id: nat): Moving
      reads this
      requires Valid() && id < |at|
    {
      Moving(at[id], atWall[id], collisions)
    }

    constructor (cfg: WorldConfig)
      requires cfg.Valid() && cfg.verticalExtent > 0
      ensures Valid() && live == {} && at == [] && this.cfg == cfg
    {
      this.cfg := cfg;
      at, tags, names, atWall, live, shown, despawned, collisions := [], [], [], [], {}, {}, [], [];
    }

    /** Moves an entity, clamped to the box. Nothing else changes. */
    method MoveTo(id: nat, target: Pos3)
      requires Valid()
      modifies this`at, this`atWall, this`collisions
      ensures Valid() && Onward() && |at| == |old(at)|
      ensures id !in live ==> at == old(at) && atWall == old(atWall) && collisions == old(collisions)
      ensures id in live ==>
        && Mover(id) == Moved(cfg, id, old(Mover(id)), target)
        && at == old(at)[id := at[id]] && atWall == old(atWall)[id := atWall[id]]
        && cfg.Contains(at[id]) && (cfg.Contains(target) ==> at[id] == target)
    {
      if id !in live {
        return;
      }
      ClampHolds(cfg, target);
      if cfg.Contains(target) {
        atWall := atWall[id := false];
        at := at[id := target];
        return;
      }
      at := at[id := cfg.Clamp(target)];
      if !atWall[id] {
        atWall := atWall[id := true];
        collisions := collisions + [Collision(id, target)];
      }
    }

    /** A new entity, alive and shown, under the next id. */
    method Spawn(pos: Pos3, tag: u16) returns (id: nat)
      requires Valid() && cfg.Contains(pos)
      modifies this
      ensures Valid() && Onward() && id == |old(at)| && id !in old(live)
      ensures at == old(at) + [pos] && tags == old(tags) + [tag] && names == old(names) + [0]
      ensures atWall == old(atWall) + [false] && live == old(live) + {id} && shown == old(shown) + {id}
      ensures collisions == old(collisions) && despawned == old(despawned)
    {
      id := Append(pos, tag);
      live, shown := live + {id}, shown + {id};
    }

    /** A new shadow: alive, untagged, and not shown. */
    method SpawnShadow(pos: Pos3) returns (id: nat)
      requires Valid() && cfg.Contains(pos)
      modifies this
      ensures Valid() && Onward() && id == |old(at)| && id !in old(live) && id !in shown
      ensures at == old(at) + [pos] && tags == old(tags) + [0] && names == old(names) + [0]
      ensures atWall == old(atWall) + [false] && live == old(live) + {id} && shown == old(shown)
      ensures collisions == old(collisions) && despawned == old(despawned)
    {
      id := Append(pos, 0);
      live := live + {id};
    }

    method Append(pos: Pos3, tag: u16) returns (id: nat)
      requires Valid()
      modifies this`at, this`tags, this`names, this`atWall
      ensures Valid() && Onward() && id == |old(at)| && id !in live && at == old(at) + [pos]
      ensures tags == old(tags) + [tag] && names == old(names) + [0] && atWall == old(atWall) + [false]
    {
      id := |at|;
      at, tags, names, atWall := at + [pos], tags + [tag], names + [0], atWall + [false];
    }

    method SetTag(id: nat, tag: u16)
      requires Valid()
      modifies this`tags
      ensures Valid() && Onward() && tags == if id in live then old(tags)[id := tag] else old(tags)
    {
      if id in live {
        tags := tags[id := tag];
      }
    }

    /** Gives a live entity the name it was asked for under. */
    method SetName(id: nat, name: u64)
      requires Valid()
      modifies this`names
      ensures Valid() && Onward() && names == if id in live then old(names)[id := name] else old(names)
    {
      if id in live {
        names := names[id := name];
      }
    }

    /** Takes an entity out of what is alive and shown, and lists it if it was alive. Its
        place in the columns stays. */
    method Despawn(id: nat)
      requires Valid()
      modifies this`live, this`shown, this`despawned
      ensures Valid() && Onward() && live == old(live) - {id} && shown == old(shown) - {id}
      ensures despawned == old(despawned) + (if id in old(live) then [id] else [])
    {
      if id in live {
        live, shown, despawned := live - {id}, shown - {id}, despawned + [id];
      }
    }
  }

  /** Where an entity stands, whether its last move was held at the box, and what has been
      reported. */
  datatype Moving = Moving(at: Pos3, atWall: bool, reports: seq<Collision>)

  /** One move: to where the box holds it, with a report if it leaves the box from inside. */
  function Moved(cfg: WorldConfig, id: nat, m: Moving, target: Pos3): Moving
    requires cfg.Valid()
  {
    var inside := cfg.Contains(target);
    Moving(if inside then target else cfg.Clamp(target), !inside,
           m.reports + (if inside || m.atWall then [] else [Collision(id, target)]))
  }

  /** Held inside the box, a position is in it, and one already there is itself. */
  lemma {:induction false} ClampHolds(cfg: WorldConfig, p: Pos3)
    requires cfg.Valid() && cfg.verticalExtent > 0
    ensures cfg.Contains(cfg.Clamp(p))
    ensures cfg.Contains(p) <==> cfg.Clamp(p) == p
  {
  }

  /** Nothing in the box is nearer a position than where the box holds it, on any axis. */
  lemma {:induction false} ClampIsNearest(cfg: WorldConfig, p: Pos3, q: Pos3)
    requires cfg.Valid() && cfg.Contains(q)
    ensures Abs(cfg.Clamp(p).x - p.x) <= Abs(q.x - p.x)
    ensures Abs(cfg.Clamp(p).y - p.y) <= Abs(q.y - p.y)
    ensures Abs(cfg.Clamp(p).z - p.z) <= Abs(q.z - p.z)
  {
  }

  // ----- over a run of moves -----

  function MovedAll(cfg: WorldConfig, id: nat, m: Moving, targets: seq<Pos3>): Moving
    requires cfg.Valid()
  {
    if targets == [] then m
    else Moved(cfg, id, MovedAll(cfg, id, m, targets[..|targets| - 1]), targets[|targets| - 1])
  }

  /** A move that leaves the box: to a place outside, after one inside. */
  predicate Leaves(cfg: WorldConfig, atWall: bool, targets: seq<Pos3>, k: nat)
    requires k < |targets|
  {
    !cfg.Contains(targets[k]) && (if k == 0 then !atWall else cfg.Contains(targets[k - 1]))
  }

  /** `ks` picks out the moves that leave the box, in order. */
  ghost predicate Departures(cfg: WorldConfig, atWall: bool, targets: seq<Pos3>, ks: seq<nat>) {
    && (forall i, j :: 0 <= i < j < |ks| ==> ks[i] < ks[j])
    && (forall k :: k in ks ==> k < |targets|)
    && (forall k :: 0 <= k < |targets| ==> (k in ks <==> Leaves(cfg, atWall, targets, k)))
  }

  lemma {:induction false} LeavesFront(cfg: WorldConfig, atWall: bool, targets: seq<Pos3>, k: nat)
    requires k < |targets| - 1
    ensures Leaves(cfg, atWall, targets[..|targets| - 1], k) <==> Leaves(cfg, atWall, targets, k)
  {
  }

  /** The departures of a run, with one more move. */
  function WithLast(cfg: WorldConfig, atWall: bool, targets: seq<Pos3>, front: seq<nat>): seq<nat>
    requires targets != []
  {
    if Leaves(cfg, atWall, targets, |targets| - 1) then front + [|targets| - 1] else front
  }

  lemma {:induction false} DeparturesNext(cfg: WorldConfig, atWall: bool, targets: seq<Pos3>, front: seq<nat>)
    requires targets != [] && Departures(cfg, atWall, targets[..|targets| - 1], front)
    ensures Departures(cfg, atWall, targets, WithLast(cfg, atWall, targets, front))
  {
    var n, ks := |targets| - 1, WithLast(cfg, atWall, targets, front);
    forall i, j | 0 <= i < j < |ks|
      ensures ks[i] < ks[j]
    {
      assert front[i] in front;
    }
    forall k
      ensures k in ks <==> k in front || (k == n && Leaves(cfg, atWall, targets, n))
    {
    }
    forall k | 0 <= k < |targets|
      ensures k in ks <==> Leaves(cfg, atWall, targets, k)
    {
      if k < n {
        LeavesFront(cfg, atWall, targets, k);
      } else {
        assert k !in front;
      }
    }
  }

  function ReportsOf(id: nat, targets: seq<Pos3>, ks: seq<nat>): (r: seq<Collision>)
    requires forall k :: k in ks ==> k < |targets|
    ensures |r| == |ks|
  {
    seq(|ks|, i requires 0 <= i < |ks| => assert ks[i] in ks; Collision(id, targets[ks[i]]))
  }

  /** Whatever an entity is moved to, one target after another, it ends where the box holds
      the last, and what is reported is exactly the moves that leave the box, each once and
      in order. */
  lemma {:induction false} ReportsAreDepartures(cfg: WorldConfig, id: nat, m: Moving, targets: seq<Pos3>)
      returns (ks: seq<nat>)
    requires cfg.Valid()
    ensures Departures(cfg, m.atWall, targets, ks)
    ensures MovedAll(cfg, id, m, targets).reports == m.reports + ReportsOf(id, targets, ks)
    ensures targets != [] ==> MovedAll(cfg, id, m, targets).atWall == !cfg.Contains(targets[|targets| - 1])
    ensures targets != [] ==> MovedAll(cfg, id, m, targets).at == cfg.Clamp(targets[|targets| - 1])
  {
    ks := [];
    if targets != [] {
      var n := |targets| - 1;
      var front := ReportsAreDepartures(cfg, id, m, targets[..n]);
      ClampHolds(cfg, targets[n]);
      DeparturesNext(cfg, m.atWall, targets, front);
      ks := WithLast(cfg, m.atWall, targets, front);
      ReportsNext(cfg, m.atWall, id, targets, front);
    }
  }

  lemma {:induction false} ReportsNext(cfg: WorldConfig, atWall: bool, id: nat, targets: seq<Pos3>, front: seq<nat>)
    requires targets != [] && (forall k :: k in front ==> k < |targets| - 1)
    ensures forall k :: k in WithLast(cfg, atWall, targets, front) ==> k < |targets|
    ensures ReportsOf(id, targets, WithLast(cfg, atWall, targets, front)) ==
      ReportsOf(id, targets[..|targets| - 1], front)
        + (if Leaves(cfg, atWall, targets, |targets| - 1) then [Collision(id, targets[|targets| - 1])] else [])
  {
    var n, ks := |targets| - 1, WithLast(cfg, atWall, targets, front);
    forall i | 0 <= i < |front|
      ensures ReportsOf(id, targets, ks)[i] == ReportsOf(id, targets[..n], front)[i]
    {
      assert front[i] in front;
    }
  }
}
