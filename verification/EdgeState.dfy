/** The edge as a value, and its operations as functions on that value. */
module EdgeState {
  import opened Numbers
  import opened Config
  import opened WorldFrame

  type Key = nat
  type Region = nat
  type Id = nat
  type ClientId = nat
  type Handle = nat
  type Place = (Region, Id)
  type Body = seq<byte>

  /** Into the frame of a region: where a world position is there, if its numbers hold it. */
  type Framing = (Region, WorldPos) -> Option<Pos3>

  datatype Kind = Unattended | Observer | Shadow

  /** What an entity in transit is waiting for, and what has come for it meanwhile. */
  datatype Transition = Transition(to: Key, dest: Region, heldMove: Option<WorldPos>, heldMessages: seq<Body>)

  datatype Entity = Entity(client: Option<ClientId>, handle: Option<Handle>, region: Region, kind: Kind, id: Option<Id>,
      pending: Option<Pos3>, doomed: bool, copyOf: Option<Key>, shadows: seq<Key>, shadowOf: Option<Key>, name: nat,
      standing: Option<Body>, transition: Option<Transition>)

  datatype Client = Client(handles: map<Handle, Key>, keys: set<Key>, leaving: bool)

  datatype Transit = Transit(from: Key, to: Key, deadline: nat)

  /** Something said to a region. */
  datatype Outgoing =
    | Spawn(region: Region, token: Key, kind: Kind, at: Pos3, name: nat)
    | Despawn(region: Region, id: Id)
    | Message(region: Region, id: Id, body: Body)

  /** The edge's maps, queues and counters; the ids it has minted; which clients it has
      reported gone; and what the regions have said: the entities they announced and
      removed, and the tokens they answered. */
  datatype State = State(byKey: map<Key, Entity>, byId: map<Place, Key>, clients: map<ClientId, Client>,
      moves: map<Place, Pos3>, transits: seq<Transit>, outbound: seq<Outgoing>, observers: int, shadows: int,
      next: Key, nextClient: ClientId, disconnected: seq<ClientId>,
      announced: set<Place>, removed: set<Place>, answered: set<Key>)

  function Start(): State {
    State(map[], map[], map[], map[], [], [], 0, 0, 0, 0, [], {}, {}, {})
  }

  function Tell(s: State, what: Outgoing): State {
    s.(outbound := s.outbound + [what])
  }

  function Put(s: State, k: Key, e: Entity): State {
    s.(byKey := s.byKey[k := e])
  }

  // ----- clients -----

  function Connect(s: State): State {
    s.(clients := s.clients[s.nextClient := Client(map[], {}, false)], nextClient := s.nextClient + 1)
  }

  /** The entity a client's handle names, if any. */
  function KeyOf(s: State, c: ClientId, h: Handle): Option<Key> {
    if c in s.clients && h in s.clients[c].handles then Some(s.clients[c].handles[h]) else None
  }

  /** A client's record with one more entity. */
  function WithKey(held: Client, k: Key, handle: Option<Handle>): Client {
    held.(keys := held.keys + {k}, handles := if handle.Some? then held.handles[handle.value := k] else held.handles)
  }

  /** A client's record without one of its entities. */
  function WithoutKey(held: Client, k: Key, handle: Option<Handle>): Client {
    held.(keys := held.keys - {k}, handles := if handle.Some? then held.handles - {handle.value} else held.handles)
  }

  // ----- asking and giving back -----

  function Asked(key: Key, client: Option<ClientId>, handle: Option<Handle>, region: Region, kind: Kind,
      shadowOf: Option<Key>, name: Option<nat>): Entity
  {
    Entity(client, handle, region, kind, None, None, false, None, [], shadowOf,
           if name.Some? then name.value else key, None, None)
  }

  /** The state with one more entity, keyed and by default named `s.next`, its spawn queued. */
  function AskFor(s: State, client: Option<ClientId>, handle: Option<Handle>, region: Region, at: Pos3, kind: Kind,
      shadowOf: Option<Key>, name: Option<nat>): State
  {
    var key := s.next;
    var e := Asked(key, client, handle, region, kind, shadowOf, name);
    s.(byKey := s.byKey[key := e],
       clients := if client.Some? && client.value in s.clients
                  then s.clients[client.value := WithKey(s.clients[client.value], key, handle)] else s.clients,
       observers := if kind.Observer? then s.observers + 1 else s.observers,
       outbound := s.outbound + [Spawn(region, key, kind, at, e.name)],
       next := key + 1)
  }

  /** The state with one more shadow, hung from `owner`. */
  function AskShadow(s: State, owner: Key, client: Option<ClientId>, region: Region, at: Pos3): State {
    AskFor(s, client, None, region, at, Shadow, Some(owner), None).(shadows := s.shadows + 1)
  }

  /** The state in which no map, index or counter knows of `k`. */
  function Forget(s: State, k: Key): State {
    if k !in s.byKey then s
    else
      var e := s.byKey[k];
      s.(byKey := s.byKey - {k},
         byId := if e.id.Some? then s.byId - {(e.region, e.id.value)} else s.byId,
         shadows := if e.kind.Shadow? then s.shadows - 1 else s.shadows,
         observers := if e.kind.Observer? then s.observers - 1 else s.observers,
         clients := if e.client.Some? && e.client.value in s.clients
                    then s.clients[e.client.value := WithoutKey(s.clients[e.client.value], k, e.handle)] else s.clients)
  }

  /** The state once `k` is not wanted: without it if it has no id yet, and otherwise with it
      marked, unmoved, and its despawn queued. */
  function Release(s: State, k: Key): State {
    if k !in s.byKey then s
    else
      var e := s.byKey[k].(pending := None);
      if e.id.None? then Forget(Put(s, k, e), k)
      else
        var place := (e.region, e.id.value);
        Tell(Put(s, k, e.(doomed := true)).(moves := s.moves - {place}), Despawn(place.0, place.1))
  }

  function ReleaseAll(s: State, ks: seq<Key>): State {
    if ks == [] then s else Release(ReleaseAll(s, ks[..|ks| - 1]), ks[|ks| - 1])
  }

  // ----- positions -----

  /** Where one entity should be: queued if its region has answered, kept for it if not. */
  function SetPosition(s: State, k: Key, to: Pos3): State {
    if k !in s.byKey || s.byKey[k].doomed then s
    else if s.byKey[k].id.Some? then s.(moves := s.moves[(s.byKey[k].region, s.byKey[k].id.value) := to])
    else Put(s, k, s.byKey[k].(pending := Some(to)))
  }

  function SetPositions(s: State, moves: seq<(Key, Pos3)>): State {
    if moves == [] then s
    else SetPosition(SetPositions(s, moves[..|moves| - 1]), moves[|moves| - 1].0, moves[|moves| - 1].1)
  }

  /** A position for an entity in transit waits with it. */
  function HoldMove(s: State, k: Key, to: WorldPos): State {
    if k in s.byKey && s.byKey[k].transition.Some?
    then Put(s, k, s.byKey[k].(transition := Some(s.byKey[k].transition.value.(heldMove := Some(to)))))
    else s
  }

  function HoldMoves(s: State, moves: seq<(Key, WorldPos)>): State {
    if moves == [] then s
    else HoldMove(HoldMoves(s, moves[..|moves| - 1]), moves[|moves| - 1].0, moves[|moves| - 1].1)
  }

  /** The positions of a batch that fall to be queued now, each in its entity's frame. */
  function Local(s: State, moves: seq<(Key, WorldPos)>, frame: Framing): seq<(Key, Pos3)> {
    if moves == [] then []
    else
      var front, (k, to) := Local(s, moves[..|moves| - 1], frame), moves[|moves| - 1];
      if k in s.byKey && s.byKey[k].transition.None? && frame(s.byKey[k].region, to).Some?
      then front + [(k, frame(s.byKey[k].region, to).value)] else front
  }

  function SetWorldPositions(s: State, moves: seq<(Key, WorldPos)>, frame: Framing): State {
    SetPositions(HoldMoves(s, moves), Local(s, moves, frame))
  }

  /** The state with no move left to publish. */
  function Flush(s: State): State {
    s.(moves := map[])
  }

  // ----- messages -----

  function Messages(region: Region, id: Id, bodies: seq<Body>): (out: seq<Outgoing>)
    ensures |out| == |bodies|
  {
    seq(|bodies|, i requires 0 <= i < |bodies| => Message(region, id, bodies[i]))
  }

  /** A client's word to its entity: held in transit, forwarded and remembered otherwise. */
  function EntityMessage(s: State, c: ClientId, h: Handle, body: Body): State {
    var key := KeyOf(s, c, h);
    if key.None? || key.value !in s.byKey then s
    else
      var k, e := key.value, s.byKey[key.value];
      if e.transition.Some?
      then Put(s, k,
          e.(transition := Some(e.transition.value.(heldMessages := e.transition.value.heldMessages + [body]))))
      else
        var said := Put(s, k, e.(standing := Some(body)));
        if e.id.Some? then Tell(said, Message(e.region, e.id.value, body)) else said
  }

  // ----- teleports -----

  /** Whether a teleport may start: the entity is held, not given back, not in transit and
      not already there, and the game allows it. */
  predicate MayTeleport(s: State, k: Key, dest: Region, allowed: bool) {
    k in s.byKey && !s.byKey[k].doomed && s.byKey[k].transition.None? && s.byKey[k].region != dest && allowed
  }

  /** The state with `k` in transit and an unanswered copy of it, under its name, in `dest`. */
  function BeginTeleport(s: State, k: Key, dest: Region, at: Pos3, allowed: bool, deadline: nat): State {
    if !MayTeleport(s, k, dest, allowed) then s
    else
      var e, to := s.byKey[k], s.next;
      var asked := AskFor(s, e.client, None, dest, at, e.kind, None, Some(e.name));
      asked.(byKey := asked.byKey[k := e.(transition := Some(Transition(to, dest, None, [])))]
                                 [to := Asked(to, e.client, None, dest, e.kind, None, Some(e.name))
                                          .(copyOf := Some(k))],
             transits := s.transits + [Transit(k, to, deadline)])
  }

  /** Moves a client's handle from the entity that left onto the one that arrived. */
  function Rehandled(s: State, client: Option<ClientId>, handle: Option<Handle>, from: Key, to: Key): State {
    if client.Some? && handle.Some? && client.value in s.clients
    then
      var held := s.clients[client.value];
      s.(clients := s.clients[client.value := held.(handles := held.handles[handle.value := to],
          keys := held.keys - {from})])
    else s
  }

  /** The entity that left: out of both maps, its handle on the one that arrived. */
  function Departed(s: State, from: Key, to: Key): State
    requires from in s.byKey && to in s.byKey && from != to
  {
    var was := s.byKey[from];
    s.(byKey := s.byKey[to := if was.handle.Some? then s.byKey[to].(handle := was.handle) else s.byKey[to]] - {from},
       byId := if was.id.Some? then s.byId - {(was.region, was.id.value)} else s.byId,
       observers := if was.kind.Unattended? then s.observers else s.observers - 1)
  }

  /** The origin's copy is given back to it. */
  function GivenBackAt(s: State, region: Region, id: Option<Id>): State {
    if id.Some? then Tell(s.(moves := s.moves - {(region, id.value)}), Despawn(region, id.value)) else s
  }

  function Queued(s: State, place: Place, to: Option<Pos3>): State {
    if to.Some? then s.(moves := s.moves[place := to.value]) else s
  }

  /** What stood and what was held meanwhile, forwarded to where the entity has landed. */
  function Forwarded(s: State, place: Place, standing: Option<Body>, t: Option<Transition>, frame: Framing): State {
    var repeated := if standing.Some? then Tell(s, Message(place.0, place.1, standing.value)) else s;
    if t.None? then repeated
    else
      Queued(repeated, place, if t.value.heldMove.Some? then frame(place.0, t.value.heldMove.value) else None)
        .(outbound := repeated.outbound + Messages(place.0, place.1, t.value.heldMessages))
  }

  /** The destination reported its copy `to`, already identified: the remap, or giving the
      copy back if what it replaces is gone. */
  function CompleteTeleport(s: State, from: Key, to: Key, place: Place, pending: Option<Pos3>, frame: Framing): State
    requires to in s.byKey && from != to
  {
    var transits := Without(s.transits, to);
    if from !in s.byKey then Forget(Tell(s, Despawn(place.0, place.1)), to).(transits := transits)
    else
      var was := s.byKey[from];
      var left := ReleaseAll(Departed(s, from, to), was.shadows).(transits := transits);
      var named := Rehandled(left, s.byKey[to].client, was.handle, from, to);
      var freed := Queued(GivenBackAt(named, was.region, was.id), place, pending);
      var told := Forwarded(freed, place, was.standing, was.transition, frame);
      if was.standing.Some? && to in told.byKey
      then Put(told, to, told.byKey[to].(standing := was.standing)) else told
  }

  function Without(transits: seq<Transit>, to: Key): seq<Transit> {
    if transits == [] then []
    else
      var front, t := Without(transits[..|transits| - 1], to), transits[|transits| - 1];
      if t.to == to then front else front + [t]
  }

  function Due(transits: seq<Transit>, now: nat, due: bool): seq<Transit> {
    if transits == [] then []
    else
      var front, t := Due(transits[..|transits| - 1], now, due), transits[|transits| - 1];
      if (t.deadline <= now) == due then front + [t] else front
  }

  /** Gives up one teleport the destination has not confirmed. */
  function ExpireOne(s: State, from: Key, to: Key, frame: Framing): State {
    if to in s.byKey && s.byKey[to].id.Some? then s
    else if from !in s.byKey || s.byKey[from].transition.None? || s.byKey[from].transition.value.to != to then s
    else
      var e, t := s.byKey[from], s.byKey[from].transition.value;
      var dropped := Forget(Put(s, from, e.(transition := None)), to);
      var moved := if t.heldMove.Some? then SetWorldPositions(dropped, [(from, t.heldMove.value)], frame) else dropped;
      if e.id.Some? then moved.(outbound := moved.outbound + Messages(e.region, e.id.value, t.heldMessages)) else moved
  }

  function ExpireAll(s: State, due: seq<Transit>, frame: Framing): State {
    if due == [] then s
    else ExpireOne(ExpireAll(s, due[..|due| - 1], frame), due[|due| - 1].from, due[|due| - 1].to, frame)
  }

  function Expire(s: State, now: nat, frame: Framing): State {
    ExpireAll(s.(transits := Due(s.transits, now, false)), Due(s.transits, now, true), frame)
  }

  // ----- what regions report -----

  function Added(s: State, place: Place, token: Key, frame: Framing): State {
    var heard := s.(announced := s.announced + {place}, answered := s.answered + {token});
    if token !in s.byKey then Tell(heard, Despawn(place.0, place.1))
    else
      var e := s.byKey[token];
      var known := Put(heard, token,
          e.(id := Some(place.1), pending := None, copyOf := None)).(byId := s.byId[place := token]);
      if e.copyOf.Some? && e.copyOf.value != token
      then CompleteTeleport(known, e.copyOf.value, token, place, e.pending, frame)
      else Queued(known, place, e.pending)
  }

  /** An observer's held shadows and the regions they stand in. */
  function Existing(byKey: map<Key, Entity>, shadows: seq<Key>): seq<(Key, Region)> {
    if shadows == [] then []
    else
      var front, k := Existing(byKey, shadows[..|shadows| - 1]), shadows[|shadows| - 1];
      if k in byKey then front + [(k, byKey[k].region)] else front
  }

  function InRegion(existing: seq<(Key, Region)>, r: Region): Option<Key> {
    if existing == [] then None
    else
      var front := InRegion(existing[..|existing| - 1], r);
      if front.Some? then front
      else if existing[|existing| - 1].1 == r then Some(existing[|existing| - 1].0) else None
  }

  /** A shadow kept or asked for in one region in view, and listed. */
  function ShadowNext(s: State, keep: seq<Key>, owner: Key, client: Option<ClientId>, existing: seq<(Key, Region)>,
      region: Region, point: Pos3): (State, seq<Key>)
  {
    var kept := InRegion(existing, region);
    if kept.Some? then (SetPosition(s, kept.value, point), keep + [kept.value])
    else (AskShadow(s, owner, client, region, point), keep + [s.next])
  }

  /** A shadow in each region in view, and the list of them. */
  function Shadowed(s: State, owner: Key, client: Option<ClientId>, existing: seq<(Key, Region)>,
      view: seq<(Region, Pos3)>): (r: (State, seq<Key>))
    ensures |r.1| == |view|
  {
    if view == [] then (s, [])
    else
      var front := Shadowed(s, owner, client, existing, view[..|view| - 1]);
      ShadowNext(front.0, front.1, owner, client, existing, view[|view| - 1].0, view[|view| - 1].1)
  }

  /** The existing shadows not kept. */
  function Unkept(existing: seq<(Key, Region)>, keep: seq<Key>): seq<Key> {
    if existing == [] then []
    else
      var front, k := Unkept(existing[..|existing| - 1], keep), existing[|existing| - 1].0;
      if k in keep then front else front + [k]
  }

  function WithShadows(s: State, owner: Key, keep: seq<Key>): State {
    if owner in s.byKey then Put(s, owner, s.byKey[owner].(shadows := keep)) else s
  }

  /** The state in which an observer keeps one shadow for each entry of `reached` and no other;
      no list at all when the region has no place on the map or no known world. */
  function ViewCollision(s: State, place: Place, reached: Option<seq<(Region, Pos3)>>): State {
    if place !in s.byId || s.byId[place] !in s.byKey || s.byKey[s.byId[place]].shadowOf.Some? || reached.None? then s
    else
      var owner, e := s.byId[place], s.byKey[s.byId[place]];
      var existing := Existing(s.byKey, e.shadows);
      var (asked, keep) := Shadowed(s, owner, e.client, existing, reached.value);
      WithShadows(ReleaseAll(asked, Unkept(existing, keep)), owner, keep)
  }

  function ViewCleared(s: State, place: Place): State {
    if place !in s.byId || s.byId[place] !in s.byKey then s
    else
      var owner, e := s.byId[place], s.byKey[s.byId[place]];
      ReleaseAll(Put(s, owner, e.(shadows := [])), e.shadows)
  }

  /** An entity reached its region's box. `beyond` is the placed region past it. */
  function BoundaryCollision(s: State, place: Place, beyond: Option<(Region, Pos3)>, allowed: bool,
      deadline: nat): State
  {
    if place !in s.byId || s.byId[place] !in s.byKey then s
    else
      var k, e := s.byId[place], s.byKey[s.byId[place]];
      if e.shadowOf.Some? || e.doomed || e.transition.Some? || beyond.None? || beyond.value.0 == place.0 then s
      else BeginTeleport(s, k, beyond.value.0, beyond.value.1, allowed, deadline)
  }

  function Unlisted(shadows: seq<Key>, k: Key): seq<Key> {
    if shadows == [] then []
    else
      var front, x := Unlisted(shadows[..|shadows| - 1], k), shadows[|shadows| - 1];
      if x == k then front else front + [x]
  }

  function Removed(s: State, place: Place): State {
    var heard := s.(removed := s.removed + {place});
    if place !in s.byId || s.byId[place] !in s.byKey then heard
    else
      var k, e := s.byId[place], s.byKey[s.byId[place]];
      var gone := Forget(heard, k);
      if e.shadowOf.Some? then
        var owner := e.shadowOf.value;
        if owner in gone.byKey then WithShadows(gone, owner, Unlisted(gone.byKey[owner].shadows, k)) else gone
      else
        var freed := ReleaseAll(gone, e.shadows);
        if e.client.Some? then FinishLeaving(freed, e.client.value) else freed
  }

  // ----- leaving -----

  /** Reports a client gone once it is leaving and owns nothing. */
  function FinishLeaving(s: State, c: ClientId): State {
    if c in s.clients && s.clients[c].leaving && s.clients[c].keys == {}
    then s.(clients := s.clients - {c}, disconnected := s.disconnected + [c])
    else s
  }

  /** The state with a client leaving and its `keys` released, reported if that leaves none. */
  function Sweep(s: State, c: ClientId, keys: seq<Key>): State {
    if c !in s.clients || s.clients[c].leaving then s
    else FinishLeaving(ReleaseAll(s.(clients := s.clients[c := s.clients[c].(leaving := true)]), keys), c)
  }
}
