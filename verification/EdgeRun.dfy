/** Every state an edge can reach, and what is true of all of them. */
module EdgeRun {
  import opened Numbers
  import opened Config
  import opened WorldFrame
  import opened EdgeState
  import opened EdgeInvariant
  import opened EdgeSteps
  import opened EdgeTeleports
  import opened EdgeReports

  /** One handler, run to its end. Where a position was located, in whose frame, whether the
      game allowed a teleport and when one is given up come from outside. */
  datatype Event =
    | Connected
    | ClientSpawn(c: ClientId, h: Handle, located: Option<(Region, Pos3)>, kind: Kind)
    | GameSpawn(client: Option<ClientId>, region: Region, at: Pos3, kind: Kind)
    | Moved(moves: seq<(Key, WorldPos)>, frame: Framing)
    | Despawned(k: Key)
    | ClientDespawn(c: ClientId, h: Handle)
    | Said(c: ClientId, h: Handle, body: Body)
    | TeleportAsked(c: ClientId, h: Handle, dest: Option<(Region, Pos3)>, allowed: bool, deadline: nat)
    | Announced(place: Place, token: Key, frame: Framing)
    | ViewReached(place: Place, reached: Option<seq<(Region, Pos3)>>)
    | ViewLeft(place: Place)
    | BoxReached(place: Place, beyond: Option<(Region, Pos3)>, allowed: bool, deadline: nat)
    | Gone(place: Place)
    | Swept(c: ClientId, keys: seq<Key>)
    | Expired(now: nat, frame: Framing)
    | Flushed

  /** Refused for the shadow role, a handle in use, or a position off the map. */
  function ClientSpawned(s: State, c: ClientId, h: Handle, located: Option<(Region, Pos3)>, kind: Kind): State {
    if kind.Shadow? || KeyOf(s, c, h).Some? || located.None? then s
    else AskFor(s, Some(c), Some(h), located.value.0, located.value.1, kind, None, None)
  }

  function ClientDespawned(s: State, c: ClientId, h: Handle): State {
    if KeyOf(s, c, h).Some? then Release(s, KeyOf(s, c, h).value) else s
  }

  function ClientTeleported(s: State, c: ClientId, h: Handle, dest: Option<(Region, Pos3)>, allowed: bool,
      deadline: nat): State
  {
    if KeyOf(s, c, h).None? || dest.None? then s
    else BeginTeleport(s, KeyOf(s, c, h).value, dest.value.0, dest.value.1, allowed, deadline)
  }

  /** What callers and regions promise: commands come from connected clients, a sweep takes
      all of a client's keys, a token is answered once, a view's regions are different. */
  ghost predicate Enabled(s: State, e: Event) {
    match e
    case ClientSpawn(c, h, located, kind) => c in s.clients
    case GameSpawn(client, region, at, kind) => (client.Some? ==> client.value in s.clients) && !kind.Shadow?
    case Announced(place, token, frame) => Answers(s, place, token)
    case ViewReached(place, reached) => reached.Some? ==> Spread(reached.value)
    case Swept(c, keys) => c in s.clients ==> Of(keys) == s.clients[c].keys
    case _ => true
  }

  function Step(s: State, e: Event): State {
    match e
    case Connected => Connect(s)
    case ClientSpawn(c, h, located, kind) => ClientSpawned(s, c, h, located, kind)
    case GameSpawn(client, region, at, kind) => AskFor(s, client, None, region, at, kind, None, None)
    case Moved(moves, frame) => SetWorldPositions(s, moves, frame)
    case Despawned(k) => Release(s, k)
    case ClientDespawn(c, h) => ClientDespawned(s, c, h)
    case Said(c, h, body) => EntityMessage(s, c, h, body)
    case TeleportAsked(c, h, dest, allowed, deadline) => ClientTeleported(s, c, h, dest, allowed, deadline)
    case Announced(place, token, frame) => Added(s, place, token, frame)
    case ViewReached(place, reached) => ViewCollision(s, place, reached)
    case ViewLeft(place) => ViewCleared(s, place)
    case BoxReached(place, beyond, allowed, deadline) => BoundaryCollision(s, place, beyond, allowed, deadline)
    case Gone(place) => Removed(s, place)
    case Swept(c, keys) => Sweep(s, c, keys)
    case Expired(now, frame) => Expire(s, now, frame)
    case Flushed => Flush(s)
  }

  lemma {:induction false} SpawnKeeps(s: State, client: Option<ClientId>, handle: Option<Handle>, region: Region,
      at: Pos3, kind: Kind)
    requires Inv(s, Settled()) && MayAsk(s.clients, client, handle) && !kind.Shadow?
    ensures Inv(AskFor(s, client, handle, region, at, kind, None, None), Settled())
  {
    var t := AskFor(s, client, handle, region, at, kind, None, None);
    AskForKeeps(s, Settled(), client, handle, region, at, kind, None);
    TightenLoose(t, Slack({} + {s.next}, {}, {}), s.next);
    assert {} + {s.next} - {s.next} == {};
  }

  /** A handle names no shadow and no copy. */
  lemma {:induction false} HandledIsPlain(s: State, c: ClientId, h: Handle)
    requires Inv(s, Settled()) && KeyOf(s, c, h).Some?
    ensures KeyOf(s, c, h).value in s.byKey
    ensures var e := s.byKey[KeyOf(s, c, h).value];
      e.client == Some(c) && e.handle == Some(h) && !e.kind.Shadow? && e.copyOf.None?
  {
    assert NamesAt(s.byKey, s.clients, {}, c, h);
    assert Cast(s.byKey[KeyOf(s, c, h).value]);
  }

  lemma {:induction false} TeleportKeeps(s: State, c: ClientId, h: Handle, dest: Option<(Region, Pos3)>, allowed: bool,
      deadline: nat)
    requires Inv(s, Settled())
    ensures Inv(ClientTeleported(s, c, h, dest, allowed, deadline), Settled())
  {
    if KeyOf(s, c, h).Some? && dest.Some? {
      HandledIsPlain(s, c, h);
      BeginKeeps(s, KeyOf(s, c, h).value, dest.value.0, dest.value.1, allowed, deadline);
    }
  }

  lemma {:induction false} CrossingKeeps(s: State, place: Place, beyond: Option<(Region, Pos3)>, allowed: bool,
      deadline: nat)
    requires Inv(s, Settled())
    ensures Inv(BoundaryCollision(s, place, beyond, allowed, deadline), Settled())
  {
    if place in s.byId && s.byId[place] in s.byKey && s.byKey[s.byId[place]].shadowOf.None? && beyond.Some? {
      OwnerIsObserver(s, place);
      BeginKeeps(s, s.byId[place], beyond.value.0, beyond.value.1, allowed, deadline);
    }
  }

  lemma {:induction false} StepKeeps(s: State, e: Event)
    requires Inv(s, Settled()) && Enabled(s, e)
    ensures Inv(Step(s, e), Settled())
  {
    match e
    case Connected => ConnectKeeps(s);
    case ClientSpawn(c, h, located, kind) =>
      if !kind.Shadow? && KeyOf(s, c, h).None? && located.Some? {
        SpawnKeeps(s, Some(c), Some(h), located.value.0, located.value.1, kind);
      }
    case GameSpawn(client, region, at, kind) => SpawnKeeps(s, client, None, region, at, kind);
    case Moved(moves, frame) => PositionsKeep(s, Settled(), moves, frame);
    case Despawned(k) => GivesBackKeeps(s, k);
    case ClientDespawn(c, h) =>
      if KeyOf(s, c, h).Some? {
        GivesBackKeeps(s, KeyOf(s, c, h).value);
      }
    case Said(c, h, body) =>
      EntityMessageAlike(s, c, h, body);
      AlikeKeeps(s, EntityMessage(s, c, h, body), Settled());
    case TeleportAsked(c, h, dest, allowed, deadline) => TeleportKeeps(s, c, h, dest, allowed, deadline);
    case Announced(place, token, frame) => AddedKeeps(s, place, token, frame);
    case ViewReached(place, reached) => ViewCollisionKeeps(s, place, reached);
    case ViewLeft(place) => ViewClearedKeeps(s, place);
    case BoxReached(place, beyond, allowed, deadline) => CrossingKeeps(s, place, beyond, allowed, deadline);
    case Gone(place) => RemovedKeeps(s, place);
    case Swept(c, keys) => SweepKeeps(s, c, keys);
    case Expired(now, frame) => ExpireKeeps(s, now, frame);
    case Flushed => FlushKeeps(s);
  }

  lemma {:induction false} GivesBackKeeps(s: State, k: Key)
    requires Inv(s, Settled())
    ensures Inv(Release(s, k), Settled())
  {
    ReleaseKeeps(s, Settled(), k);
    assert {} - {k} == {};
  }

  lemma {:induction false} ExpireKeeps(s: State, now: nat, frame: Framing)
    requires Inv(s, Settled())
    ensures Inv(Expire(s, now, frame), Settled())
  {
    var t := s.(transits := Due(s.transits, now, false));
    SameMaps(s, t);
    ExpireAllKeeps(t, Due(s.transits, now, true), frame);
  }

  lemma {:induction false} FlushKeeps(s: State)
    requires Inv(s, Settled())
    ensures Inv(Flush(s), Settled())
  {
    SameMaps(s, Flush(s));
  }

  /** Fewer moves and other transits are nothing to the invariant. */
  lemma {:induction false} SameMaps(s: State, t: State)
    requires Inv(s, Settled()) && t == s.(moves := t.moves, transits := t.transits) && t.moves.Keys <= s.moves.Keys
    ensures Inv(t, Settled())
  {
    forall k | k in t.byKey
      ensures LocatedAt(t.byKey[k], t, k)
    {
      assert LocatedAt(s.byKey[k], s, k);
    }
  }

  // ----- runs -----

  ghost predicate Legal(s: State, events: seq<Event>)
    decreases |events|
  {
    events == [] || (Enabled(s, events[0]) && Legal(Step(s, events[0]), events[1..]))
  }

  function End(s: State, events: seq<Event>): State
    decreases |events|
  {
    if events == [] then s else End(Step(s, events[0]), events[1..])
  }

  lemma {:induction false} RunKeeps(s: State, events: seq<Event>)
    requires Inv(s, Settled()) && Legal(s, events)
    ensures Inv(End(s, events), Settled())
    decreases |events|
  {
    if events != [] {
      StepKeeps(s, events[0]);
      RunKeeps(Step(s, events[0]), events[1..]);
    }
  }

  /** Some sequence of handlers leads here from an edge that has done nothing. */
  ghost predicate Reachable(s: State) {
    exists events :: Legal(Start(), events) && End(Start(), events) == s
  }

  lemma {:induction false} RunThen(s: State, events: seq<Event>, e: Event)
    requires Legal(s, events) && Enabled(End(s, events), e)
    ensures Legal(s, events + [e]) && End(s, events + [e]) == Step(End(s, events), e)
    decreases |events|
  {
    if events == [] {
      assert [] + [e] == [e] && [e][1..] == [];
    } else {
      RunThen(Step(s, events[0]), events[1..], e);
      assert (events + [e])[1..] == events[1..] + [e];
    }
  }

  lemma {:induction false} StartIsReachable()
    ensures Reachable(Start())
  {
    assert Legal(Start(), []) && End(Start(), []) == Start();
  }

  /** A handler leads from what can be reached to what can be reached. */
  lemma {:induction false} StepReaches(s: State, e: Event)
    requires Reachable(s) && Enabled(s, e)
    ensures Reachable(Step(s, e))
  {
    var events :| Legal(Start(), events) && End(Start(), events) == s;
    RunThen(Start(), events, e);
  }

  lemma {:induction false} ReachableKeeps(s: State)
    requires Reachable(s)
    ensures Inv(s, Settled())
  {
    var events :| Legal(Start(), events) && End(Start(), events) == s;
    StartKeeps();
    RunKeeps(Start(), events);
  }

  // ----- what is true of every reachable state -----

  /** Ids and keys are mutual inverses. */
  lemma {:induction false} IdsAndKeysAgree(s: State, p: Place, k: Key)
    requires Reachable(s)
    ensures p in s.byId && s.byId[p] == k <==> k in s.byKey && s.byKey[k].region == p.0 && s.byKey[k].id == Some(p.1)
  {
    ReachableKeeps(s);
    if k in s.byKey {
      assert LocatedAt(s.byKey[k], s, k);
    }
  }

  /** A client's handle names an entity exactly when that entity is the client's, under that
      handle; and everything a client owns is in its keys. */
  lemma {:induction false} HandlesAreExact(s: State, c: ClientId, h: Handle, k: Key)
    requires Reachable(s)
    ensures KeyOf(s, c, h) == Some(k) <==> k in s.byKey && s.byKey[k].client == Some(c) && s.byKey[k].handle == Some(h)
    ensures k in s.byKey && s.byKey[k].client == Some(c) ==> c in s.clients && k in s.clients[c].keys
  {
    ReachableKeeps(s);
    assert NamesAt(s.byKey, s.clients, {}, c, h);
    if k in s.byKey {
      assert OwnedAt(s.byKey[k], s.clients, {}, k);
    }
  }

  lemma {:induction false} CountersAreTrue(s: State)
    requires Reachable(s)
    ensures s.observers == |set k | k in s.byKey && s.byKey[k].kind == Observer|
    ensures s.shadows == |set k | k in s.byKey && s.byKey[k].kind == Shadow|
  {
    ReachableKeeps(s);
    assert OfKind(s.byKey, Observer) == set k | k in s.byKey && s.byKey[k].kind == Observer;
    assert OfKind(s.byKey, Shadow) == set k | k in s.byKey && s.byKey[k].kind == Shadow;
  }

  /** No queued move names an entity given back to its region. */
  lemma {:induction false} NoMoveForGivenBack(s: State, p: Place)
    requires Reachable(s) && p in s.moves
    ensures Despawn(p.0, p.1) !in s.outbound
  {
    ReachableKeeps(s);
    assert !GivenBack(s.outbound, p);
  }

  /** No region entity is stranded: announced and not reported removed, it is held by its id
      or a despawn for it has been queued. */
  lemma {:induction false} NothingStranded(s: State, p: Place)
    requires Reachable(s) && p in s.announced && p !in s.removed
    ensures (p in s.byId && s.byId[p] in s.byKey) || Despawn(p.0, p.1) in s.outbound
  {
    ReachableKeeps(s);
    assert GivenBack(s.outbound, p) <==> Despawn(p.0, p.1) in s.outbound;
  }

  /** Two entities share a name only while one is the in-flight copy of the other, which is
      waiting for it. */
  lemma {:induction false} NamesAreShared(s: State, a: Key, b: Key)
    requires Reachable(s) && a in s.byKey && b in s.byKey && a != b && s.byKey[a].name == s.byKey[b].name
    ensures InFlight(s, a, b) || InFlight(s, b, a)
  {
    ReachableKeeps(s);
    assert Apart(s.byKey, a, b) && CopiesAt(s.byKey, a) && CopiesAt(s.byKey, b) && Cast(s.byKey[a]) && Cast(s.byKey[b]);
  }

  /** `copy` is on its way to taking the place of `from`: its region has not answered, and
      `from` holds what arrives for both. */
  ghost predicate InFlight(s: State, from: Key, copy: Key) {
    && from in s.byKey && copy in s.byKey
    && s.byKey[copy].copyOf == Some(from) && s.byKey[copy].id.None?
    && s.byKey[from].transition.Some? && s.byKey[from].transition.value.to == copy
  }

  /** Every shadow not given back has an owner that is held and lists it, and no owner lists
      two held shadows in one region. */
  lemma {:induction false} NoShadowOrphaned(s: State, k: Key)
    requires Reachable(s) && k in s.byKey && s.byKey[k].kind == Shadow && !s.byKey[k].doomed
    ensures s.byKey[k].shadowOf.Some? && s.byKey[k].shadowOf.value in s.byKey
    ensures var list := s.byKey[s.byKey[k].shadowOf.value].shadows;
      && k in list
      && forall j :: 0 <= j < |list| && list[j] in s.byKey && s.byKey[list[j]].region == s.byKey[k].region ==>
        list[j] == k
  {
    ReachableKeeps(s);
    assert Cast(s.byKey[k]) && AttachedAt(s.byKey, {}, k);
    var owner := s.byKey[k].shadowOf.value;
    assert Shades(s.byKey, owner, s.byKey[owner].shadows);
    var list := s.byKey[owner].shadows;
    var i :| 0 <= i < |list| && list[i] == k;
  }

  /** A client is reported gone at most once, and from then on no entity names it. */
  lemma {:induction false} ReportedGoneOnce(s: State, i: nat)
    requires Reachable(s) && i < |s.disconnected|
    ensures s.disconnected[i] !in s.clients
    ensures forall j :: 0 <= j < |s.disconnected| && j != i ==> s.disconnected[j] != s.disconnected[i]
    ensures forall k :: k in s.byKey ==> s.byKey[k].client != Some(s.disconnected[i])
  {
    ReachableKeeps(s);
    forall k | k in s.byKey
      ensures s.byKey[k].client != Some(s.disconnected[i])
    {
      assert OwnedAt(s.byKey[k], s.clients, {}, k);
    }
  }
}
