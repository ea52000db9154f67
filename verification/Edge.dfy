/** The edge's handlers, changing its maps, queues and counters in place. Each does to them
    exactly what the function of its name says. */
module Edge {
  import opened Numbers
  import opened Config
  import opened WorldFrame
  import opened EdgeState
  import S = EdgeState
  import opened EdgeInvariant
  import opened EdgeTeleports
  import opened EdgeReports
  import opened EdgeRun
  import opened EdgeReturns

  class Shared {
    var byKey: map<Key, Entity>
    var byId: map<Place, Key>
    var clients: map<ClientId, Client>
    /** The latest position queued of each place, until a flush. */
    var moves: map<Place, Pos3>
    /** In the order they started. */
    var transits: seq<Transit>
    /** Everything handed to the thread that speaks to regions. */
    var outbound: seq<Outgoing>
    var observers: int
    var shadows: int
    var next: Key
    var nextClient: ClientId
    /** The game's `disconnected` calls. */
    var disconnected: seq<ClientId>
    ghost var announced: set<Place>
    ghost var removed: set<Place>
    ghost var answered: set<Key>

    /** The edge as a value. */
    ghost function Value(): State
      reads this
    {
      State(byKey, byId, clients, moves, transits, outbound, observers, shadows, next, nextClient, disconnected,
            announced, removed, answered)
    }

    /** Some run of handlers leads here: everything true of every reachable edge is true of
        this one, and every handler leaves it so. */
    ghost predicate Valid()
      reads this
    {
      Reachable(Value())
    }

    constructor ()
      ensures Valid() && Value() == S.Start()
    {
      StartIsReachable();
      byKey, byId, clients, moves, transits, outbound := map[], map[], map[], map[], [], [];
      observers, shadows, next, nextClient, disconnected := 0, 0, 0, 0, [];
      announced, removed, answered := {}, {}, {};
    }

    method Connect() returns (c: ClientId)
      requires Valid()
      modifies this
      ensures Value() == S.Connect(old(Value())) && c == old(nextClient)
      ensures Valid() && c in clients && c !in old(clients) && c !in disconnected
      ensures forall k :: k in byKey ==> byKey[k].client != Some(c)
    {
      StepReaches(Value(), Event.Connected);
      ClientIsNew(Value());
      c := nextClient;
      nextClient := nextClient + 1;
      clients := clients[c := Client(map[], {}, false)];
    }

    method TellRegion(what: Outgoing)
      modifies this
      ensures Value() == S.Tell(old(Value()), what)
    {
      outbound := outbound + [what];
    }

    /** One more entity, under the next key, and the spawn queued for it. */
    method AskFor(client: Option<ClientId>, handle: Option<Handle>, region: Region, at: Pos3, kind: Kind,
        shadowOf: Option<Key>, name: Option<nat>)
      returns (key: Key)
      modifies this
      ensures Value() == S.AskFor(old(Value()), client, handle, region, at, kind, shadowOf, name) && key == old(next)
    {
      ghost var s := Value();
      key := next;
      next := next + 1;
      var e := Asked(key, client, handle, region, kind, shadowOf, name);
      byKey := byKey[key := e];
      Enrol(client, key, handle);
      if kind.Observer? {
        observers := observers + 1;
      }
      outbound := outbound + [Spawn(region, key, kind, at, e.name)];
      AskedIs(s, Value(), client, handle, region, at, kind, shadowOf, name);
    }

    /** Gives a client a key, under a handle if there is one. */
    method Enrol(client: Option<ClientId>, key: Key, handle: Option<Handle>)
      modifies this`clients
      ensures clients == if client.Some? && client.value in old(clients)
                         then old(clients)[client.value := WithKey(old(clients)[client.value], key, handle)]
                         else old(clients)
    {
      if client.Some? && client.value in clients {
        clients := clients[client.value := WithKey(clients[client.value], key, handle)];
      }
    }

    /** One more shadow, counted, with no handle and no name but its own. */
    method AskShadow(owner: Key, client: Option<ClientId>, region: Region, at: Pos3) returns (key: Key)
      modifies this
      ensures Value() == S.AskShadow(old(Value()), owner, client, region, at) && key == old(next)
    {
      key := AskFor(client, None, region, at, Shadow, Some(owner), None);
      shadows := shadows + 1;
    }

    /** Takes an entity out of every map and count, and says nothing. */
    method Forget(k: Key)
      modifies this
      ensures Value() == S.Forget(old(Value()), k)
    {
      if k !in byKey {
        return;
      }
      var e := byKey[k];
      byKey := byKey - {k};
      if e.kind.Shadow? {
        shadows := shadows - 1;
      } else if e.kind.Observer? {
        observers := observers - 1;
      }
      if e.id.Some? {
        byId := byId - {(e.region, e.id.value)};
      }
      if e.client.Some? && e.client.value in clients {
        clients := clients[e.client.value := WithoutKey(clients[e.client.value], k, e.handle)];
      }
    }

    /** Marks an entity given back and queues its despawn, or forgets one nobody answered for. */
    method Release(k: Key)
      modifies this
      ensures Value() == S.Release(old(Value()), k)
    {
      if k !in byKey {
        return;
      }
      var e := byKey[k].(pending := None);
      byKey := byKey[k := e];
      if e.id.None? {
        Forget(k);
        return;
      }
      byKey := byKey[k := e.(doomed := true)];
      moves := moves - {(e.region, e.id.value)};
      outbound := outbound + [Despawn(e.region, e.id.value)];
    }

    method ReleaseAll(ks: seq<Key>)
      modifies this
      ensures Value() == S.ReleaseAll(old(Value()), ks)
    {
      for i := 0 to |ks|
        invariant Value() == S.ReleaseAll(old(Value()), ks[..i])
      {
        assert ks[..i + 1][..i] == ks[..i];
        Release(ks[i]);
      }
      assert ks[..|ks|] == ks;
    }

    /** A batch of moves, queued or kept waiting; those of entities not held, or given back, do nothing. */
    method SetPositions(batch: seq<(Key, Pos3)>)
      modifies this
      ensures Value() == S.SetPositions(old(Value()), batch)
    {
      var queued: map<Place, Pos3> := map[];
      for i := 0 to |batch|
        invariant moves == old(moves)
        invariant Value().(moves := moves + queued) == S.SetPositions(old(Value()), batch[..i])
      {
        assert batch[..i + 1][..i] == batch[..i];
        var (k, to) := batch[i];
        if k in byKey && !byKey[k].doomed {
          var held := byKey[k];
          if held.id.Some? {
            ghost var before := moves + queued;
            queued := queued[(held.region, held.id.value) := to];
            assert moves + queued == before[(held.region, held.id.value) := to];
          } else {
            byKey := byKey[k := held.(pending := Some(to))];
          }
        }
      }
      assert batch[..|batch|] == batch;
      moves := moves + queued;
    }

    /** A batch of moves in the shared frame: each localised, or kept with an entity that is
        in transit. */
    method SetWorldPositions(batch: seq<(Key, WorldPos)>, frame: Framing)
      modifies this
      ensures Value() == S.SetWorldPositions(old(Value()), batch, frame)
      ensures old(Valid()) ==> Valid()
    {
      if Valid() {
        StepReaches(Value(), Moved(batch, frame));
      }
      var local: seq<(Key, Pos3)> := [];
      for i := 0 to |batch|
        invariant Value() == S.HoldMoves(old(Value()), batch[..i])
        invariant local == S.Local(old(Value()), batch[..i], frame)
      {
        assert batch[..i + 1][..i] == batch[..i];
        var (k, to) := batch[i];
        HoldMovesLeaves(old(Value()), batch[..i], k);
        if k in byKey {
          var held := byKey[k];
          if held.transition.Some? {
            byKey := byKey[k := held.(transition := Some(held.transition.value.(heldMove := Some(to))))];
          } else {
            var at := frame(held.region, to);
            if at.Some? {
              local := local + [(k, at.value)];
            }
          }
        }
      }
      assert batch[..|batch|] == batch;
      SetPositions(local);
    }

    method FlushMoves() returns (batch: map<Place, Pos3>)
      requires Valid()
      modifies this
      ensures Value() == S.Flush(old(Value())) && batch == old(moves)
      ensures Valid() && moves == map[] && Value() == old(Value()).(moves := map[])
    {
      StepReaches(Value(), Flushed);
      batch := moves;
      moves := map[];
    }

    /** A client's word to its entity. */
    method EntityMessage(c: ClientId, h: Handle, body: Body)
      requires Valid()
      modifies this
      ensures Value() == S.EntityMessage(old(Value()), c, h, body)
      ensures Valid()
    {
      StepReaches(Value(), Said(c, h, body));
      var key := KeyOf(c, h);
      if key.None? || key.value !in byKey {
        return;
      }
      var held := byKey[key.value];
      if held.transition.Some? {
        var t := held.transition.value;
        byKey := byKey[key.value := held.(transition := Some(t.(heldMessages := t.heldMessages + [body])))];
      } else {
        byKey := byKey[key.value := held.(standing := Some(body))];
        if held.id.Some? {
          TellRegion(Message(held.region, held.id.value, body));
        }
      }
    }

    method KeyOf(c: ClientId, h: Handle) returns (k: Option<Key>)
      ensures k == S.KeyOf(Value(), c, h)
    {
      k := if c in clients && h in clients[c].handles then Some(clients[c].handles[h]) else None;
    }

    // ----- commands -----

    /** The game's own request, for a client or for nobody. */
    method GameSpawn(client: Option<ClientId>, region: Region, at: Pos3, kind: Kind) returns (key: Key)
      requires Valid() && Enabled(Value(), Event.GameSpawn(client, region, at, kind))
      modifies this
      ensures Value() == Step(old(Value()), Event.GameSpawn(client, region, at, kind)) && key == old(next)
      ensures Valid()
    {
      StepReaches(Value(), Event.GameSpawn(client, region, at, kind));
      key := AskFor(client, None, region, at, kind, None, None);
    }

    method ClientSpawn(c: ClientId, h: Handle, located: Option<(Region, Pos3)>, kind: Kind)
      requires Valid() && Enabled(Value(), Event.ClientSpawn(c, h, located, kind))
      modifies this
      ensures Value() == ClientSpawned(old(Value()), c, h, located, kind)
      ensures Valid()
    {
      StepReaches(Value(), Event.ClientSpawn(c, h, located, kind));
      // Refused without a word, like a position off the map.
      var taken := KeyOf(c, h);
      if kind.Shadow? || taken.Some? || located.None? {
        return;
      }
      var key := AskFor(Some(c), Some(h), located.value.0, located.value.1, kind, None, None);
    }

    /** The game gives an entity back. */
    method GameDespawn(k: Key)
      requires Valid()
      modifies this
      ensures Value() == S.Release(old(Value()), k)
      ensures Valid() && Returned(old(Value()), Value(), k)
    {
      StepReaches(Value(), Despawned(k));
      Freed(Value(), Despawned(k));
      Release(k);
    }

    method ClientDespawn(c: ClientId, h: Handle)
      requires Valid()
      modifies this
      ensures Value() == ClientDespawned(old(Value()), c, h)
      ensures Valid() && GivesBack(old(Value()), Event.ClientDespawn(c, h), Value())
    {
      StepReaches(Value(), Event.ClientDespawn(c, h));
      Freed(Value(), Event.ClientDespawn(c, h));
      var key := KeyOf(c, h);
      if key.Some? {
        Release(key.value);
      }
    }

    method ClientTeleport(c: ClientId, h: Handle, dest: Option<(Region, Pos3)>, allowed: bool, deadline: nat)
        returns (to: Option<Key>)
      requires Valid()
      modifies this
      ensures Value() == ClientTeleported(old(Value()), c, h, dest, allowed, deadline)
      ensures Valid()
    {
      StepReaches(Value(), TeleportAsked(c, h, dest, allowed, deadline));
      var key := KeyOf(c, h);
      if key.None? || dest.None? {
        return None;
      }
      to := BeginTeleport(key.value, dest.value.0, dest.value.1, allowed, deadline);
    }

    // ----- teleports -----

    /** Starts a teleport. Nothing is a refusal. */
    method BeginTeleport(k: Key, dest: Region, at: Pos3, allowed: bool, deadline: nat) returns (copy: Option<Key>)
      modifies this
      ensures Value() == S.BeginTeleport(old(Value()), k, dest, at, allowed, deadline)
      ensures copy == if MayTeleport(old(Value()), k, dest, allowed) then Some(old(next)) else None
    {
      if k !in byKey || byKey[k].doomed || byKey[k].transition.Some? || byKey[k].region == dest || !allowed {
        return None;
      }
      var e := byKey[k];
      var to := AskFor(e.client, None, dest, at, e.kind, None, Some(e.name));
      byKey := byKey[k := e.(transition := Some(Transition(to, dest, None, [])))];
      byKey := byKey[to := Asked(to, e.client, None, dest, e.kind, None, Some(e.name)).(copyOf := Some(k))];
      transits := transits + [Transit(k, to, deadline)];
      return Some(to);
    }

    method DropTransit(to: Key)
      modifies this
      ensures Value() == old(Value()).(transits := S.Without(old(transits), to))
    {
      var kept: seq<Transit> := [];
      for i := 0 to |transits|
        invariant Value() == old(Value()) && kept == S.Without(transits[..i], to)
      {
        assert transits[..i + 1][..i] == transits[..i];
        if transits[i].to != to {
          kept := kept + [transits[i]];
        }
      }
      assert transits[..|transits|] == transits;
      transits := kept;
    }

    /** The copy `to` takes over from `from`, or is given back if `from` is no longer held. */
    method CompleteTeleport(from: Key, to: Key, place: Place, pending: Option<Pos3>, frame: Framing)
      requires to in byKey && from != to
      modifies this
      ensures Value() == S.CompleteTeleport(old(Value()), from, to, place, pending, frame)
    {
      if from !in byKey {
        // Nothing to take over from.
        TellRegion(Despawn(place.0, place.1));
        Forget(to);
        DropTransit(to);
        return;
      }
      var was := byKey[from];
      var client := byKey[to].client;
      Depart(from, to);
      ReleaseAllTransits(Value(), was.shadows);
      ReleaseAll(was.shadows);
      DropTransit(to);
      Rehandle(client, was.handle, from, to);
      GiveBack(was.region, was.id);
      if pending.Some? {
        moves := moves[place := pending.value];
      }
      Forward(place, was.standing, was.transition, frame);
      if was.standing.Some? && to in byKey {
        byKey := byKey[to := byKey[to].(standing := was.standing)];
      }
    }

    /** Takes the entity that left out of both maps, its handle onto the one that arrived. */
    method Depart(from: Key, to: Key)
      requires from in byKey && to in byKey && from != to
      modifies this
      ensures Value() == S.Departed(old(Value()), from, to)
    {
      var was := byKey[from];
      if was.handle.Some? {
        byKey := byKey[to := byKey[to].(handle := was.handle)];
      }
      if was.id.Some? {
        byId := byId - {(was.region, was.id.value)};
      }
      byKey := byKey - {from};
      // The one that left goes without being forgotten, so it is uncounted here.
      if !was.kind.Unattended? {
        observers := observers - 1;
      }
    }

    /** Updates the client's handle: onto the new key, the old one no longer its own. */
    method Rehandle(client: Option<ClientId>, handle: Option<Handle>, from: Key, to: Key)
      modifies this
      ensures Value() == S.Rehandled(old(Value()), client, handle, from, to)
    {
      if client.Some? && handle.Some? && client.value in clients {
        var held := clients[client.value];
        clients := clients[client.value := held.(handles := held.handles[handle.value := to],
            keys := held.keys - {from})];
      }
    }

    method GiveBack(region: Region, id: Option<Id>)
      modifies this
      ensures Value() == S.GivenBackAt(old(Value()), region, id)
    {
      if id.Some? {
        moves := moves - {(region, id.value)};
        TellRegion(Despawn(region, id.value));
      }
    }

    /** The standing word, then the latest move and every word held meanwhile. */
    method Forward(place: Place, standing: Option<Body>, t: Option<Transition>, frame: Framing)
      modifies this
      ensures Value() == S.Forwarded(old(Value()), place, standing, t, frame)
    {
      if standing.Some? {
        TellRegion(Message(place.0, place.1, standing.value));
      }
      if t.Some? {
        if t.value.heldMove.Some? {
          var local := frame(place.0, t.value.heldMove.value);
          if local.Some? {
            moves := moves[place := local.value];
          }
        }
        SayAll(place, t.value.heldMessages);
      }
    }

    method SayAll(place: Place, bodies: seq<Body>)
      modifies this
      ensures Value() == old(Value()).(outbound := old(outbound) + Messages(place.0, place.1, bodies))
    {
      for i := 0 to |bodies|
        invariant Value() == old(Value()).(outbound := old(outbound) + Messages(place.0, place.1, bodies)[..i])
      {
        TellRegion(Message(place.0, place.1, bodies[i]));
      }
    }

    method ExpireOne(from: Key, to: Key, frame: Framing)
      modifies this
      ensures Value() == S.ExpireOne(old(Value()), from, to, frame)
    {
      // Answered for: not to be given up.
      if to in byKey && byKey[to].id.Some? {
        return;
      }
      if from !in byKey || byKey[from].transition.None? || byKey[from].transition.value.to != to {
        return;
      }
      var e, t := byKey[from], byKey[from].transition.value;
      byKey := byKey[from := e.(transition := None)];
      Forget(to);
      if t.heldMove.Some? {
        SetWorldPositions([(from, t.heldMove.value)], frame);
      }
      if e.id.Some? {
        SayAll((e.region, e.id.value), t.heldMessages);
      }
    }

    /** Splits the list by deadline, keeps the rest, and gives up the due ones in order. */
    method ExpireTransitions(now: nat, frame: Framing)
      requires Valid()
      modifies this
      ensures Value() == S.Expire(old(Value()), now, frame)
      ensures Valid()
    {
      StepReaches(Value(), Expired(now, frame));
      var due, waiting: seq<Transit> := [], [];
      for i := 0 to |transits|
        invariant Value() == old(Value())
        invariant due == S.Due(transits[..i], now, true) && waiting == S.Due(transits[..i], now, false)
      {
        assert transits[..i + 1][..i] == transits[..i];
        if transits[i].deadline <= now {
          due := due + [transits[i]];
        } else {
          waiting := waiting + [transits[i]];
        }
      }
      assert transits[..|transits|] == transits;
      transits := waiting;
      ghost var s := Value();
      for i := 0 to |due|
        invariant Value() == S.ExpireAll(s, due[..i], frame)
      {
        assert due[..i + 1][..i] == due[..i];
        ExpireOne(due[i].from, due[i].to, frame);
      }
      assert due[..|due|] == due;
    }

    // ----- what regions report -----

    method OnAdded(place: Place, token: Key, frame: Framing)
      requires Valid() && Answers(Value(), place, token)
      modifies this
      ensures Value() == S.Added(old(Value()), place, token, frame)
      ensures Valid() && GivesBack(old(Value()), Announced(place, token, frame), Value())
    {
      StepReaches(Value(), Announced(place, token, frame));
      Freed(Value(), Announced(place, token, frame));
      TakeAdded(place, token, frame);
    }

    method TakeAdded(place: Place, token: Key, frame: Framing)
      modifies this
      ensures Value() == S.Added(old(Value()), place, token, frame)
    {
      if token !in byKey {
        // Nobody is waiting for it.
        announced, answered := announced + {place}, answered + {token};
        outbound := outbound + [Despawn(place.0, place.1)];
        return;
      }
      var e := byKey[token];
      Identify(place, token);
      if e.copyOf.Some? && e.copyOf.value != token {
        CompleteTeleport(e.copyOf.value, token, place, e.pending, frame);
      } else if e.pending.Some? {
        moves := moves[place := e.pending.value];
      }
    }

    /** Records what the region calls an entity, taking what waited for that. */
    method Identify(place: Place, token: Key)
      requires token in byKey
      modifies this
      ensures Value() == S.Put(Heard(old(Value()), place, token), token,
          old(byKey)[token].(id := Some(place.1), pending := None, copyOf := None)).(byId := old(byId)[place := token])
    {
      announced, answered := announced + {place}, answered + {token};
      byKey := byKey[token := byKey[token].(id := Some(place.1), pending := None, copyOf := None)];
      byId := byId[place := token];
    }

    /** Keeps a shadow in each region the view reaches, and gives back the others. */
    method OnViewCollision(place: Place, reached: Option<seq<(Region, Pos3)>>)
      requires Valid() && (reached.Some? ==> Spread(reached.value))
      modifies this
      ensures Value() == S.ViewCollision(old(Value()), place, reached)
      ensures Valid() && GivesBack(old(Value()), ViewReached(place, reached), Value())
    {
      StepReaches(Value(), ViewReached(place, reached));
      Freed(Value(), ViewReached(place, reached));
      if place !in byId || byId[place] !in byKey || byKey[byId[place]].shadowOf.Some? || reached.None? {
        return;
      }
      var owner := byId[place];
      var e := byKey[owner];
      ghost var s := Value();
      var existing := S.Existing(byKey, e.shadows);
      var keep: seq<Key> := [];
      for i := 0 to |reached.value|
        invariant (Value(), keep) == S.Shadowed(s, owner, e.client, existing, reached.value[..i])
      {
        assert reached.value[..i + 1][..i] == reached.value[..i];
        var (region, point) := reached.value[i];
        var kept := S.InRegion(existing, region);
        if kept.Some? {
          SetPositions([(kept.value, point)]);
          OnePosition(S.Shadowed(s, owner, e.client, existing, reached.value[..i]).0, kept.value, point);
          keep := keep + [kept.value];
        } else {
          var shadow := AskShadow(owner, e.client, region, point);
          keep := keep + [shadow];
        }
      }
      assert reached.value[..|reached.value|] == reached.value;
      ReleaseAll(S.Unkept(existing, keep));
      if owner in byKey {
        byKey := byKey[owner := byKey[owner].(shadows := keep)];
      }
    }

    method OnViewCleared(place: Place)
      requires Valid()
      modifies this
      ensures Value() == S.ViewCleared(old(Value()), place)
      ensures Valid() && GivesBack(old(Value()), ViewLeft(place), Value())
    {
      StepReaches(Value(), ViewLeft(place));
      Freed(Value(), ViewLeft(place));
      if place !in byId || byId[place] !in byKey {
        return;
      }
      var owner := byId[place];
      var e := byKey[owner];
      byKey := byKey[owner := e.(shadows := [])];
      ReleaseAll(e.shadows);
    }

    method OnBoundaryCollision(place: Place, beyond: Option<(Region, Pos3)>, allowed: bool, deadline: nat)
      requires Valid()
      modifies this
      ensures Value() == S.BoundaryCollision(old(Value()), place, beyond, allowed, deadline)
      ensures Valid()
    {
      StepReaches(Value(), BoxReached(place, beyond, allowed, deadline));
      if place !in byId || byId[place] !in byKey {
        return;
      }
      var e := byKey[byId[place]];
      if e.shadowOf.Some? || e.doomed || e.transition.Some? {
        return;
      }
      // No other region to cross into.
      if beyond.None? || beyond.value.0 == place.0 {
        return;
      }
      var copy := BeginTeleport(byId[place], beyond.value.0, beyond.value.1, allowed, deadline);
    }

    method OnRemoved(place: Place)
      requires Valid()
      modifies this
      ensures Value() == S.Removed(old(Value()), place)
      ensures Valid() && GivesBack(old(Value()), Gone(place), Value())
    {
      StepReaches(Value(), Gone(place));
      Freed(Value(), Gone(place));
      TakeRemoved(place);
    }

    method TakeRemoved(place: Place)
      modifies this
      ensures Value() == S.Removed(old(Value()), place)
    {
      removed := removed + {place};
      if place !in byId || byId[place] !in byKey {
        return;
      }
      var k := byId[place];
      var e := byKey[k];
      Forget(k);
      if e.shadowOf.Some? {
        var owner := e.shadowOf.value;
        if owner in byKey {
          byKey := byKey[owner := byKey[owner].(shadows := S.Unlisted(byKey[owner].shadows, k))];
        }
        return;
      }
      ReleaseAll(e.shadows);
      if e.client.Some? {
        FinishLeaving(e.client.value);
      }
    }

    // ----- leaving -----

    /** Takes a client out and reports it, if it is leaving and has no keys. */
    method FinishLeaving(c: ClientId)
      modifies this
      ensures Value() == S.FinishLeaving(old(Value()), c)
    {
      if c !in clients || !clients[c].leaving || clients[c].keys != {} {
        return;
      }
      clients := clients - {c};
      disconnected := disconnected + [c];
    }

    /** Marks a client leaving and releases its `keys`, in whatever order they come. */
    method Sweep(c: ClientId, keys: seq<Key>)
      requires Valid() && (c in clients ==> Of(keys) == clients[c].keys)
      modifies this
      ensures Value() == S.Sweep(old(Value()), c, keys)
      ensures Valid() && GivesBack(old(Value()), Swept(c, keys), Value())
    {
      StepReaches(Value(), Swept(c, keys));
      Freed(Value(), Swept(c, keys));
      if c !in clients || clients[c].leaving {
        return;
      }
      clients := clients[c := clients[c].(leaving := true)];
      ReleaseAll(keys);
      FinishLeaving(c);
    }
  }

  /** Asking, map by map. */
  lemma {:induction false} AskedIs(s: State, t: State, client: Option<ClientId>, handle: Option<Handle>, region: Region,
      at: Pos3, kind: Kind, shadowOf: Option<Key>, name: Option<nat>)
    requires t == s.(byKey := t.byKey, clients := t.clients, observers := t.observers, outbound := t.outbound,
                     next := t.next)
    requires t.byKey == s.byKey[s.next := Asked(s.next, client, handle, region, kind, shadowOf, name)]
    requires t.clients == if client.Some? && client.value in s.clients
                          then s.clients[client.value := WithKey(s.clients[client.value], s.next, handle)]
                          else s.clients
    requires t.observers == if kind.Observer? then s.observers + 1 else s.observers
    requires t.outbound == s.outbound
      + [Spawn(region, s.next, kind, at, Asked(s.next, client, handle, region, kind, shadowOf, name).name)]
    requires t.next == s.next + 1
    ensures t == S.AskFor(s, client, handle, region, at, kind, shadowOf, name)
  {
  }

  /** Holding moves leaves whether an entity is held, where, and whether it is in transit. */
  lemma {:induction false} HoldMovesLeaves(s: State, batch: seq<(Key, WorldPos)>, k: Key)
    ensures var t := S.HoldMoves(s, batch);
      && (k in t.byKey <==> k in s.byKey)
      && (k in s.byKey ==>
          t.byKey[k].region == s.byKey[k].region && (t.byKey[k].transition.None? <==> s.byKey[k].transition.None?))
  {
    if batch != [] {
      HoldMovesLeaves(s, batch[..|batch| - 1], k);
    }
  }

  lemma {:induction false} ReleaseAllTransits(s: State, ks: seq<Key>)
    ensures S.ReleaseAll(s, ks).transits == s.transits
  {
    ReleaseAllFrame(s, ks);
  }

  lemma {:induction false} OnePosition(s: State, k: Key, to: Pos3)
    ensures S.SetPositions(s, [(k, to)]) == S.SetPosition(s, k, to)
  {
    assert [(k, to)][..0] == [];
  }
}
