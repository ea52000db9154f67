/** What an entity in transit has been told: its own client's words, and nobody else's. */
module EdgeTransit {
  import opened Numbers
  import opened Config
  import opened WorldFrame
  import opened EdgeState
  import opened EdgeInvariant
  import opened EdgeSteps
  import opened EdgeTeleports
  import opened EdgeReports
  import opened EdgeRun
  import opened EdgeWords

  ghost predicate SameTalk(a: Transition, b: Transition) {
    a.to == b.to && a.dest == b.dest && a.heldMessages == b.heldMessages
  }

  /** Every entity in transit was so before, on the same way, having been told the same. */
  ghost predicate StillAt(m: Entities, n: Entities, k: Key) {
    k in n && n[k].transition.Some? ==>
      k in m && m[k].transition.Some? && SameTalk(m[k].transition.value, n[k].transition.value)
  }

  ghost predicate Still(m: Entities, n: Entities) {
    forall k {:trigger StillAt(m, n, k)} :: StillAt(m, n, k)
  }

  lemma {:induction false} StillChain(m: Entities, n: Entities, o: Entities)
    requires Still(m, n) && Still(n, o)
    ensures Still(m, o)
  {
    forall k
      ensures StillAt(m, o, k)
    {
      assert StillAt(m, n, k) && StillAt(n, o, k);
    }
  }

  lemma {:induction false} ReleaseAllStill(s: State, ks: seq<Key>)
    ensures Still(s.byKey, ReleaseAll(s, ks).byKey)
  {
    forall k
      ensures StillAt(s.byKey, ReleaseAll(s, ks).byKey, k)
    {
      ReleaseAllLessens(s, ks, k);
    }
  }

  lemma {:induction false} SetPositionsStill(s: State, moves: seq<(Key, Pos3)>)
    ensures Still(s.byKey, SetPositions(s, moves).byKey)
  {
    if moves != [] {
      var n := |moves| - 1;
      SetPositionsStill(s, moves[..n]);
      StillChain(s.byKey, SetPositions(s, moves[..n]).byKey, SetPositions(s, moves).byKey);
    }
  }

  lemma {:induction false} HoldMovesStill(s: State, moves: seq<(Key, WorldPos)>)
    ensures Still(s.byKey, HoldMoves(s, moves).byKey)
  {
    if moves != [] {
      var n := |moves| - 1;
      HoldMovesStill(s, moves[..n]);
      StillChain(s.byKey, HoldMoves(s, moves[..n]).byKey, HoldMoves(s, moves).byKey);
    }
  }

  lemma {:induction false} MovedStill(s: State, moves: seq<(Key, WorldPos)>, frame: Framing)
    ensures Still(s.byKey, SetWorldPositions(s, moves, frame).byKey)
  {
    HoldMovesStill(s, moves);
    SetPositionsStill(HoldMoves(s, moves), Local(s, moves, frame));
    StillChain(s.byKey, HoldMoves(s, moves).byKey, SetWorldPositions(s, moves, frame).byKey);
  }

  lemma {:induction false} ShadowedStill(s: State, owner: Key, client: Option<ClientId>, existing: seq<(Key, Region)>,
      reached: seq<(Region, Pos3)>)
    ensures Still(s.byKey, Shadowed(s, owner, client, existing, reached).0.byKey)
  {
    if reached != [] {
      var n := |reached| - 1;
      ShadowedStill(s, owner, client, existing, reached[..n]);
      var t := Shadowed(s, owner, client, existing, reached[..n]).0;
      StillChain(s.byKey, t.byKey, Shadowed(s, owner, client, existing, reached).0.byKey);
    }
  }

  lemma {:induction false} ViewReachedStill(s: State, place: Place, reached: Option<seq<(Region, Pos3)>>)
    ensures Still(s.byKey, ViewCollision(s, place, reached).byKey)
  {
    if place in s.byId && s.byId[place] in s.byKey && s.byKey[s.byId[place]].shadowOf.None? && reached.Some? {
      var owner, e := s.byId[place], s.byKey[s.byId[place]];
      var existing := Existing(s.byKey, e.shadows);
      var r := Shadowed(s, owner, e.client, existing, reached.value);
      var u := ReleaseAll(r.0, Unkept(existing, r.1));
      ShadowedStill(s, owner, e.client, existing, reached.value);
      ReleaseAllStill(r.0, Unkept(existing, r.1));
      StillChain(s.byKey, r.0.byKey, u.byKey);
      StillChain(s.byKey, u.byKey, WithShadows(u, owner, r.1).byKey);
    }
  }

  lemma {:induction false} ViewLeftStill(s: State, place: Place)
    ensures Still(s.byKey, ViewCleared(s, place).byKey)
  {
    if place in s.byId && s.byId[place] in s.byKey {
      var owner, e := s.byId[place], s.byKey[s.byId[place]];
      var t := Put(s, owner, e.(shadows := []));
      ReleaseAllStill(t, e.shadows);
      StillChain(s.byKey, t.byKey, ViewCleared(s, place).byKey);
    }
  }

  lemma {:induction false} GoneStill(s: State, place: Place)
    ensures Still(s.byKey, Removed(s, place).byKey)
  {
    if place in s.byId && s.byId[place] in s.byKey {
      var k, e := s.byId[place], s.byKey[s.byId[place]];
      var gone := Forget(s.(removed := s.removed + {place}), k);
      if e.shadowOf.None? {
        ReleaseAllStill(gone, e.shadows);
        StillChain(s.byKey, gone.byKey, ReleaseAll(gone, e.shadows).byKey);
      }
    }
  }

  lemma {:induction false} SweptStill(s: State, c: ClientId, keys: seq<Key>)
    ensures Still(s.byKey, Sweep(s, c, keys).byKey)
  {
    if c in s.clients && !s.clients[c].leaving {
      ReleaseAllStill(s.(clients := s.clients[c := s.clients[c].(leaving := true)]), keys);
    }
  }

  lemma {:induction false} ExpireAllStill(s: State, due: seq<Transit>, frame: Framing)
    ensures Still(s.byKey, ExpireAll(s, due, frame).byKey)
  {
    if due != [] {
      var n := |due| - 1;
      var t := ExpireAll(s, due[..n], frame);
      ExpireAllStill(s, due[..n], frame);
      ExpireOneStill(t, due[n].from, due[n].to, frame);
      StillChain(s.byKey, t.byKey, ExpireAll(s, due, frame).byKey);
    }
  }

  lemma {:induction false} ExpireOneStill(s: State, from: Key, to: Key, frame: Framing)
    ensures Still(s.byKey, ExpireOne(s, from, to, frame).byKey)
  {
    if !(to in s.byKey && s.byKey[to].id.Some?) && from in s.byKey && s.byKey[from].transition.Some?
      && s.byKey[from].transition.value.to == to
    {
      var t := s.byKey[from].transition.value;
      var dropped := Forget(Put(s, from, s.byKey[from].(transition := None)), to);
      assert Still(s.byKey, dropped.byKey);
      if t.heldMove.Some? {
        MovedStill(dropped, [(from, t.heldMove.value)], frame);
        StillChain(s.byKey, dropped.byKey, SetWorldPositions(dropped, [(from, t.heldMove.value)], frame).byKey);
      }
    }
  }

  lemma {:induction false} RemappedStill(s: State, place: Place, from: Key, to: Key)
    requires from in s.byKey && to in s.byKey && from != to && s.byKey[to].handle.None?
    ensures Still(s.byKey, Remapped(s, place, from, to).byKey)
  {
    LandedIs(s, place, from, to);
    var landed := Landed(s, place, from, to);
    assert Still(s.byKey, landed.byKey);
    ReleaseAllStill(landed, s.byKey[from].shadows);
    StillChain(s.byKey, landed.byKey, ReleaseAll(landed, s.byKey[from].shadows).byKey);
  }

  lemma {:induction false} CompletedStill(s: State, place: Place, from: Key, to: Key, frame: Framing)
    requires Inv(s, Settled()) && Answers(s, place, to) && from in s.byKey && to in s.byKey
    requires s.byKey[to].copyOf == Some(from)
    ensures Still(s.byKey, Added(s, place, to, frame).byKey)
  {
    assert MintedAt(s.byKey[to], s.next, to) && Cast(s.byKey[to]);
    CompletionIs(s, place, from, to, frame);
    RemappedStill(s, place, from, to);
    StillChain(s.byKey, Remapped(s, place, from, to).byKey, Added(s, place, to, frame).byKey);
  }

  lemma {:induction false} OrphanStill(s: State, place: Place, from: Key, to: Key, frame: Framing)
    requires Inv(s, Settled()) && Answers(s, place, to) && from !in s.byKey && to in s.byKey
    requires s.byKey[to].copyOf == Some(from)
    ensures Still(s.byKey, Added(s, place, to, frame).byKey)
  {
    assert LocatedAt(s.byKey[to], s, to) && MintedAt(s.byKey[to], s.next, to);
    NeverHeardOf(s, place);
    OrphanIs(s, place, from, to, frame);
  }

  lemma {:induction false} ConfirmedStill(s: State, place: Place, token: Key, frame: Framing)
    requires token in s.byKey ==> s.byKey[token].copyOf.None?
    ensures Still(s.byKey, Added(s, place, token, frame).byKey)
  {
  }

  lemma {:induction false} AnnouncedStill(s: State, place: Place, token: Key, frame: Framing)
    requires Inv(s, Settled()) && Answers(s, place, token)
    ensures Still(s.byKey, Added(s, place, token, frame).byKey)
  {
    if token !in s.byKey || s.byKey[token].copyOf.None? {
      ConfirmedStill(s, place, token, frame);
    } else if s.byKey[token].copyOf.value in s.byKey {
      CompletedStill(s, place, s.byKey[token].copyOf.value, token, frame);
    } else {
      OrphanStill(s, place, s.byKey[token].copyOf.value, token, frame);
    }
  }

  /** What an event says to an entity: its client's word. */
  function Word(s: State, e: Event, k: Key): seq<Body> {
    if e.Said? && KeyOf(s, e.c, e.h) == Some(k) then [e.body] else []
  }

  /** Where an entity is on its way to, and what it has been told since it left. */
  ghost predicate OnItsWay(s: State, k: Key, to: Key, said: seq<Body>) {
    && k in s.byKey && s.byKey[k].transition.Some?
    && s.byKey[k].transition.value.to == to && s.byKey[k].transition.value.heldMessages == said
  }

  lemma {:induction false} BeginStill(s: State, j: Key, dest: Region, at: Pos3, allowed: bool, deadline: nat, k: Key)
    ensures var n := BeginTeleport(s, j, dest, at, allowed, deadline).byKey;
      StillAt(s.byKey, n, k) || (k in n && n[k].transition.Some? && n[k].transition.value.to == s.next)
  {
  }

  lemma {:induction false} ReleaseStill(s: State, k: Key)
    ensures Still(s.byKey, Release(s, k).byKey)
  {
  }

  lemma {:induction false} AskForStill(s: State, client: Option<ClientId>, handle: Option<Handle>, region: Region,
      at: Pos3, kind: Kind)
    ensures Still(s.byKey, AskFor(s, client, handle, region, at, kind, None, None).byKey)
  {
  }

  lemma {:induction false} CommandStill(s: State, e: Event)
    requires e.Connected? || e.ClientSpawn? || e.GameSpawn? || e.Despawned? || e.ClientDespawn? || e.Flushed?
    ensures Still(s.byKey, Step(s, e).byKey)
  {
    match e
    case ClientSpawn(c, h, located, kind) =>
      if located.Some? {
        AskForStill(s, Some(c), Some(h), located.value.0, located.value.1, kind);
      }
    case GameSpawn(client, region, at, kind) => AskForStill(s, client, None, region, at, kind);
    case Despawned(k) => ReleaseStill(s, k);
    case ClientDespawn(c, h) =>
      if KeyOf(s, c, h).Some? {
        ReleaseStill(s, KeyOf(s, c, h).value);
      }
    case _ =>
  }

  lemma {:induction false} SetsOutStill(s: State, e: Event, k: Key)
    requires e.TeleportAsked? || e.BoxReached?
    ensures var n := Step(s, e).byKey;
      StillAt(s.byKey, n, k) || (k in n && n[k].transition.Some? && n[k].transition.value.to == s.next)
  {
    match e
    case TeleportAsked(c, h, dest, allowed, deadline) =>
      if KeyOf(s, c, h).Some? && dest.Some? {
        BeginStill(s, KeyOf(s, c, h).value, dest.value.0, dest.value.1, allowed, deadline, k);
      }
    case BoxReached(place, beyond, allowed, deadline) =>
      if place in s.byId && beyond.Some? {
        BeginStill(s, s.byId[place], beyond.value.0, beyond.value.1, allowed, deadline, k);
      }
  }

  /** A handler that neither starts a teleport nor carries a word leaves an entity in transit
      as it was. */
  lemma {:induction false} StepLeaves(s: State, e: Event, k: Key)
    requires Inv(s, Settled()) && Enabled(s, e) && !e.Said? && !e.TeleportAsked? && !e.BoxReached?
    ensures StillAt(s.byKey, Step(s, e).byKey, k)
  {
    match e
    case Moved(moves, frame) => MovedStill(s, moves, frame);
    case Announced(place, token, frame) => AnnouncedStill(s, place, token, frame);
    case ViewReached(place, reached) => ViewReachedStill(s, place, reached);
    case ViewLeft(place) => ViewLeftStill(s, place);
    case Gone(place) => GoneStill(s, place);
    case Swept(c, keys) => SweptStill(s, c, keys);
    case Expired(now, frame) => ExpiredStill(s, now, frame);
    case _ => CommandStill(s, e);
  }

  /** Any handler but a client's word leaves an entity in transit as it was, or sets it out
      on a way nobody was on before. */
  lemma {:induction false} StepStill(s: State, e: Event, k: Key)
    requires Inv(s, Settled()) && Enabled(s, e) && !e.Said?
    ensures var n := Step(s, e).byKey;
      StillAt(s.byKey, n, k) || (k in n && n[k].transition.Some? && n[k].transition.value.to == s.next)
  {
    if e.TeleportAsked? || e.BoxReached? {
      SetsOutStill(s, e, k);
    } else {
      StepLeaves(s, e, k);
    }
  }

  lemma {:induction false} ExpiredStill(s: State, now: nat, frame: Framing)
    ensures Still(s.byKey, Expire(s, now, frame).byKey)
  {
    ExpireAllStill(s.(transits := Due(s.transits, now, false)), Due(s.transits, now, true), frame);
  }

  /** Going back over one handler takes at most one word off what an entity in transit has
      been told, and only if that handler was its client's word. */
  lemma {:induction false} StepSays(s: State, e: Event, k: Key, to: Key, said: seq<Body>) returns (before: seq<Body>)
    requires Inv(s, Settled()) && Enabled(s, e) && to < s.next && OnItsWay(Step(s, e), k, to, said)
    ensures OnItsWay(s, k, to, before) && said == before + Word(s, e, k)
  {
    if e.Said? {
      before := SaidAdds(s, e.c, e.h, e.body, k, to, said);
    } else {
      StepStill(s, e, k);
      before := said;
      assert said + [] == said;
    }
  }

  lemma {:induction false} SaidAdds(s: State, c: ClientId, h: Handle, body: Body, k: Key, to: Key, said: seq<Body>)
      returns (before: seq<Body>)
    requires OnItsWay(EntityMessage(s, c, h, body), k, to, said)
    ensures OnItsWay(s, k, to, before) && said == before + Word(s, Said(c, h, body), k)
  {
    before := s.byKey[k].transition.value.heldMessages;
    assert before + [] == before;
  }

  // ----- over a run -----

  /** Every word an entity's client says to it along a run. */
  function Words(s: State, events: seq<Event>, k: Key): seq<Body>
    decreases |events|
  {
    if events == [] then [] else Word(s, events[0], k) + Words(Step(s, events[0]), events[1..], k)
  }

  lemma {:induction false} ViewGrows(s: State, place: Place, reached: seq<(Region, Pos3)>)
    requires place in s.byId && s.byId[place] in s.byKey
    ensures s.next <= ViewCollision(s, place, Some(reached)).next
  {
    var e := s.byKey[s.byId[place]];
    var existing := Existing(s.byKey, e.shadows);
    ShadowedGrows(s, s.byId[place], e.client, existing, reached);
    var r := Shadowed(s, s.byId[place], e.client, existing, reached);
    ReleaseAllFrame(r.0, Unkept(existing, r.1));
  }

  lemma {:induction false} ReleasesFrame(s: State, e: Event)
    requires e.ViewLeft? || e.Gone? || e.Swept?
    ensures Step(s, e).next == s.next
  {
    match e
    case ViewLeft(place) =>
      if place in s.byId && s.byId[place] in s.byKey {
        ReleaseAllFrame(Put(s, s.byId[place], s.byKey[s.byId[place]].(shadows := [])), s.byKey[s.byId[place]].shadows);
      }
    case Gone(place) =>
      if place in s.byId && s.byId[place] in s.byKey {
        ReleaseAllFrame(Forget(s.(removed := s.removed + {place}), s.byId[place]), s.byKey[s.byId[place]].shadows);
      }
    case Swept(c, keys) =>
      if c in s.clients {
        ReleaseAllFrame(s.(clients := s.clients[c := s.clients[c].(leaving := true)]), keys);
      }
  }

  lemma {:induction false} NextGrows(s: State, e: Event)
    requires Inv(s, Settled()) && Enabled(s, e)
    ensures s.next <= Step(s, e).next
  {
    match e
    case Moved(moves, frame) => MovedFrame(s, moves, frame);
    case Announced(place, token, frame) => AnnouncedFrame(s, place, token, frame);
    case ViewReached(place, reached) =>
      if place in s.byId && s.byId[place] in s.byKey && reached.Some? {
        ViewGrows(s, place, reached.value);
      }
    case ViewLeft(place) => ReleasesFrame(s, e);
    case Gone(place) => ReleasesFrame(s, e);
    case Swept(c, keys) => ReleasesFrame(s, e);
    case Expired(now, frame) =>
      ExpireAllFrame(s.(transits := Due(s.transits, now, false)), Due(s.transits, now, true), frame);
    case _ =>
  }

  lemma {:induction false} MovedFrame(s: State, moves: seq<(Key, WorldPos)>, frame: Framing)
    ensures SetWorldPositions(s, moves, frame).next == s.next
  {
    HoldMovesAlike(s, moves);
    SetPositionsFrame(HoldMoves(s, moves), Local(s, moves, frame));
  }

  lemma {:induction false} SetPositionsFrame(s: State, moves: seq<(Key, Pos3)>)
    ensures SetPositions(s, moves).next == s.next
  {
    if moves != [] {
      SetPositionsFrame(s, moves[..|moves| - 1]);
    }
  }

  lemma {:induction false} AnnouncedFrame(s: State, place: Place, token: Key, frame: Framing)
    requires Inv(s, Settled())
    ensures Added(s, place, token, frame).next == s.next
  {
    if token in s.byKey && s.byKey[token].copyOf.Some? && s.byKey[token].copyOf.value in s.byKey {
      var from := s.byKey[token].copyOf.value;
      assert MintedAt(s.byKey[token], s.next, token);
      AddedIs(s, place, from, token, frame);
      RemappedFrame(s, place, from, token);
      ForwardedIs(Queued(Remapped(s, place, from, token), place, s.byKey[token].pending), place,
          s.byKey[from].standing, s.byKey[from].transition, frame);
    }
  }

  lemma {:induction false} RemappedFrame(s: State, place: Place, from: Key, to: Key)
    requires from in s.byKey && to in s.byKey && from != to
    ensures Remapped(s, place, from, to).next == s.next
  {
    ReleaseAllFrame(Landed(s, place, from, to), s.byKey[from].shadows);
  }

  lemma {:induction false} ShadowedGrows(s: State, owner: Key, client: Option<ClientId>, existing: seq<(Key, Region)>,
      reached: seq<(Region, Pos3)>)
    ensures s.next <= Shadowed(s, owner, client, existing, reached).0.next
  {
    if reached != [] {
      ShadowedGrows(s, owner, client, existing, reached[..|reached| - 1]);
    }
  }

  lemma {:induction false} ExpireAllFrame(s: State, due: seq<Transit>, frame: Framing)
    ensures ExpireAll(s, due, frame).next == s.next
  {
    if due != [] {
      var n := |due| - 1;
      var t := ExpireAll(s, due[..n], frame);
      ExpireAllFrame(s, due[..n], frame);
      if due[n].from in t.byKey && t.byKey[due[n].from].transition.Some?
        && t.byKey[due[n].from].transition.value.heldMove.Some?
      {
        var e := t.byKey[due[n].from];
        MovedFrame(Forget(Put(t, due[n].from, e.(transition := None)), due[n].to),
            [(due[n].from, e.transition.value.heldMove.value)], frame);
      }
    }
  }

  /** Going back over a run takes off what an entity has been told the run's words to it, no
      more and no fewer, if it was on that way throughout. */
  lemma {:induction false} TransitHoldsEveryWord(s: State, events: seq<Event>, k: Key, to: Key, said: seq<Body>)
      returns (before: seq<Body>)
    requires Inv(s, Settled()) && Legal(s, events) && to < s.next && OnItsWay(End(s, events), k, to, said)
    ensures OnItsWay(s, k, to, before) && said == before + Words(s, events, k)
    decreases |events|
  {
    if events == [] {
      before := said;
      assert said + [] == said;
    } else {
      var e, rest := events[0], events[1..];
      StepKeeps(s, e);
      NextGrows(s, e);
      var middle := TransitHoldsEveryWord(Step(s, e), rest, k, to, said);
      before := StepSays(s, e, k, to, middle);
      Regrouped(before, Word(s, e, k), Words(Step(s, e), rest, k));
    }
  }

  lemma {:induction false} Regrouped(a: seq<Body>, b: seq<Body>, c: seq<Body>)
    ensures (a + b) + c == a + (b + c)
  {
  }

  /** From its start to its end, a teleport carries every word said to the entity on the way:
      what the destination is told after the remap is the word that stood, then those, each
      once and in order. */
  lemma {:induction false} TeleportForwardsEveryWord(s: State, from: Key, dest: Region, at: Pos3, deadline: nat,
      events: seq<Event>, place: Place, frame: Framing)
    requires Reachable(s) && MayTeleport(s, from, dest, true) && !s.byKey[from].kind.Shadow?
    requires s.byKey[from].copyOf.None?
    requires Legal(BeginTeleport(s, from, dest, at, true, deadline), events)
    requires var t, to := End(BeginTeleport(s, from, dest, at, true, deadline), events), s.next;
      Answers(t, place, to) && from in t.byKey && to in t.byKey && t.byKey[to].copyOf == Some(from)
    ensures from != s.next
    ensures var t, to := End(BeginTeleport(s, from, dest, at, true, deadline), events), s.next;
      Added(t, place, to, frame).outbound == Remapped(t, place, from, to).outbound
        + Messages(place.0, place.1, (if t.byKey[from].standing.Some? then [t.byKey[from].standing.value] else [])
                                     + Words(BeginTeleport(s, from, dest, at, true, deadline), events, from))
  {
    var begun, to := BeginTeleport(s, from, dest, at, true, deadline), s.next;
    var t := End(begun, events);
    ReachableKeeps(s);
    BeginKeeps(s, from, dest, at, true, deadline);
    RunKeeps(begun, events);
    CompletionIs(t, place, from, to, frame);
    assert CopiesAt(t.byKey, to) && MintedAt(s.byKey[from], s.next, from);
    var said := t.byKey[from].transition.value.heldMessages;
    var before := TransitHoldsEveryWord(begun, events, from, to, said);
    assert before == [] && [] + Words(begun, events, from) == Words(begun, events, from);
  }
}
