/** What a teleport carries across: an entity's name, its handle, and every word said to it
    on the way, in order. */
module EdgeWords {
  import opened Numbers
  import opened Config
  import opened WorldFrame
  import opened EdgeState
  import opened EdgeInvariant
  import opened EdgeSteps
  import opened EdgeTeleports
  import opened EdgeReports
  import opened EdgeRun

  // ----- completion -----

  /** The state at the remap of a completed teleport, before anything is forwarded. */
  function Remapped(s: State, place: Place, from: Key, to: Key): State
    requires from in s.byKey && to in s.byKey && from != to
  {
    var o := s.byKey[from];
    var left := ReleaseAll(Landed(s, place, from, to), o.shadows).(transits := Without(s.transits, to));
    GivenBackAt(Rehandled(left, s.byKey[to].client, o.handle, from, to), o.region, o.id)
  }

  /** The entity that landed, at the remap. */
  lemma {:induction false} RemapRecord(s: State, place: Place, from: Key, to: Key)
    requires Inv(s, Settled()) && Answers(s, place, to) && from in s.byKey && to in s.byKey
    requires s.byKey[to].copyOf == Some(from)
    ensures from != to && from !in Remapped(s, place, from, to).byKey && to in Remapped(s, place, from, to).byKey
    ensures Remapped(s, place, from, to).byKey[to] == Arrived(s.byKey[to], place.1, s.byKey[from].handle)
    ensures Remapped(s, place, from, to).transits == Without(s.transits, to)
  {
    LeftKeeps(s, place, from, to);
  }

  /** What was said to the entity that left and goes to where it has landed: the standing
      word first, then those held on the way. */
  function Owed(o: Entity): seq<Body> {
    (if o.standing.Some? then [o.standing.value] else [])
    + (if o.transition.Some? then o.transition.value.heldMessages else [])
  }

  lemma {:induction false} ForwardedIs(s: State, place: Place, standing: Option<Body>, t: Option<Transition>,
      frame: Framing)
    ensures Forwarded(s, place, standing, t, frame).outbound == s.outbound
      + Messages(place.0, place.1,
          (if standing.Some? then [standing.value] else []) + (if t.Some? then t.value.heldMessages else []))
    ensures Forwarded(s, place, standing, t, frame) ==
      s.(outbound := Forwarded(s, place, standing, t, frame).outbound,
          moves := Forwarded(s, place, standing, t, frame).moves)
  {
    var first: seq<Body> := if standing.Some? then [standing.value] else [];
    var held := if t.Some? then t.value.heldMessages else [];
    assert Messages(place.0, place.1, first + held) ==
      Messages(place.0, place.1, first) + Messages(place.0, place.1, held);
    assert standing.Some? ==> Messages(place.0, place.1, first) == [Message(place.0, place.1, standing.value)];
    assert s.outbound + (Messages(place.0, place.1, first) + Messages(place.0, place.1, held))
      == s.outbound + Messages(place.0, place.1, first) + Messages(place.0, place.1, held);
  }

  /** The one that landed takes over the standing word of the one that left. */
  function CarriedOn(s: State, to: Key, standing: Option<Body>): State {
    if standing.Some? && to in s.byKey then Put(s, to, s.byKey[to].(standing := standing)) else s
  }

  /** An entity with a standing word, if there is one to take over. */
  function Carrying(e: Entity, standing: Option<Body>): Entity {
    if standing.Some? then e.(standing := standing) else e
  }

  /** A completed teleport is its remap, then a position, then the words owed. */
  lemma {:induction false} AddedIs(s: State, place: Place, from: Key, to: Key, frame: Framing)
    requires from in s.byKey && to in s.byKey && from != to && s.byKey[to].copyOf == Some(from)
    ensures var o := s.byKey[from];
      Added(s, place, to, frame) ==
        CarriedOn(Forwarded(Queued(Remapped(s, place, from, to), place, s.byKey[to].pending), place, o.standing,
            o.transition, frame), to, o.standing)
  {
  }

  lemma {:induction false} CarriedIs(f: State, place: Place, pending: Option<Pos3>, o: Entity, to: Key, frame: Framing)
    requires to in f.byKey
    ensures var t := CarriedOn(Forwarded(Queued(f, place, pending), place, o.standing, o.transition, frame), to,
        o.standing);
      && t.outbound == f.outbound + Messages(place.0, place.1, Owed(o))
      && t.byKey == f.byKey[to := Carrying(f.byKey[to], o.standing)]
      && t.clients == f.clients && t.transits == f.transits
  {
    ForwardedIs(Queued(f, place, pending), place, o.standing, o.transition, frame);
  }

  /** Completion in one equation: the remap, then the words owed, in order and each once. */
  lemma {:induction false} CompletionIs(s: State, place: Place, from: Key, to: Key, frame: Framing)
    requires Inv(s, Settled()) && Answers(s, place, to) && from in s.byKey && to in s.byKey
    requires s.byKey[to].copyOf == Some(from)
    ensures from != to && to in Remapped(s, place, from, to).byKey
    ensures var t, freed, o := Added(s, place, to, frame), Remapped(s, place, from, to), s.byKey[from];
      && t.outbound == freed.outbound + Messages(place.0, place.1, Owed(o))
      && t.byKey == freed.byKey[to := Carrying(freed.byKey[to], o.standing)]
      && t.clients == freed.clients && t.transits == freed.transits
  {
    RemapRecord(s, place, from, to);
    AddedIs(s, place, from, to, frame);
    CarriedIs(Remapped(s, place, from, to), place, s.byKey[to].pending, s.byKey[from], to, frame);
  }

  lemma {:induction false} WithoutHolds(transits: seq<Transit>, to: Key)
    ensures forall t :: t in Without(transits, to) <==> t in transits && t.to != to
  {
    if transits != [] {
      var n := |transits| - 1;
      WithoutHolds(transits[..n], to);
      assert transits == transits[..n] + [transits[n]];
    }
  }

  /** A completed teleport keeps the entity's name and its client's handle, leaves nobody
      else under that name, and is no longer in flight. */
  lemma {:induction false} CompletionKeepsIdentity(s: State, place: Place, from: Key, to: Key, frame: Framing)
    requires Reachable(s) && Answers(s, place, to) && from in s.byKey && to in s.byKey
    requires s.byKey[to].copyOf == Some(from)
    ensures var t, o := Added(s, place, to, frame), s.byKey[from];
      && to in t.byKey && t.byKey[to].name == o.name && t.byKey[to].handle == o.handle
      && t.byKey[to].id == Some(place.1) && t.byKey[to].region == place.0 && from !in t.byKey
      && t.byKey[to].kind == o.kind && t.byKey[to].client == o.client && !t.byKey[to].doomed
      && (forall x :: x in t.byKey && x != to ==> t.byKey[x].name != o.name)
      && (o.handle.Some? ==>
            && o.client.Some? && KeyOf(t, o.client.value, o.handle.value) == Some(to)
            && to in t.clients[o.client.value].keys && from !in t.clients[o.client.value].keys)
      && (forall x :: x in t.transits ==> x.to != to)
  {
    ReachableKeeps(s);
    var t, o := Added(s, place, to, frame), s.byKey[from];
    assert OwnedAt(o, s.clients, {}, from);
    CompletionLands(s, place, from, to, frame);
    CompletesKeeps(s, place, from, to, frame);
    if o.handle.Some? {
      OldKeyIsStruck(s, place, from, to, frame);
    }
    forall x | x in t.byKey && x != to
      ensures t.byKey[x].name != o.name
    {
      NameIsSole(t.byKey, to, x);
    }
    assert OwnedAt(t.byKey[to], t.clients, {}, to);
  }

  /** A handle carried over leaves the original's key behind. */
  lemma {:induction false} OldKeyIsStruck(s: State, place: Place, from: Key, to: Key, frame: Framing)
    requires Inv(s, Settled()) && Answers(s, place, to) && from in s.byKey && to in s.byKey
    requires s.byKey[to].copyOf == Some(from) && s.byKey[from].handle.Some?
    ensures var t, o := Added(s, place, to, frame), s.byKey[from];
      && o.client.Some? && o.client.value in t.clients && from !in t.clients[o.client.value].keys
  {
    assert OwnedAt(s.byKey[from], s.clients, {}, from) && CopiesAt(s.byKey, to);
    CompletionIs(s, place, from, to, frame);
    RehandledStrikes(s, place, from, to);
  }

  lemma {:induction false} RehandledStrikes(s: State, place: Place, from: Key, to: Key)
    requires from in s.byKey && to in s.byKey && from != to && s.byKey[from].handle.Some?
    requires s.byKey[to].client == s.byKey[from].client
    requires s.byKey[from].client.Some? && s.byKey[from].client.value in s.clients
    ensures var c, u := s.byKey[from].client.value, Remapped(s, place, from, to);
      c in u.clients && from !in u.clients[c].keys
  {
    ReleaseAllClients(Landed(s, place, from, to), s.byKey[from].shadows, s.byKey[from].client.value);
  }

  lemma {:induction false} ReleaseAllClients(s: State, ks: seq<Key>, c: ClientId)
    ensures c in ReleaseAll(s, ks).clients <==> c in s.clients
    ensures c in s.clients ==> ReleaseAll(s, ks).clients[c].leaving == s.clients[c].leaving
    ensures c in s.clients ==> ReleaseAll(s, ks).clients[c].keys <= s.clients[c].keys
  {
    if ks != [] {
      ReleaseAllClients(s, ks[..|ks| - 1], c);
    }
  }

  /** The record that lands, and that nothing of the original is left. */
  lemma {:induction false} CompletionLands(s: State, place: Place, from: Key, to: Key, frame: Framing)
    requires Inv(s, Settled()) && Answers(s, place, to) && from in s.byKey && to in s.byKey
    requires s.byKey[to].copyOf == Some(from)
    ensures var t, o := Added(s, place, to, frame), s.byKey[from];
      && to in t.byKey && t.byKey[to] == Carrying(Arrived(s.byKey[to], place.1, o.handle), o.standing)
      && t.byKey[to].name == o.name && t.byKey[to].kind == o.kind && t.byKey[to].client == o.client
      && t.byKey[to].region == place.0 && !t.byKey[to].doomed && t.byKey[to].transition.None?
      && t.byKey[to].copyOf.None? && from !in t.byKey && forall x :: x in t.transits ==> x.to != to
  {
    assert Cast(s.byKey[to]) && CopiesAt(s.byKey, to);
    CompletionIs(s, place, from, to, frame);
    RemapRecord(s, place, from, to);
    WithoutHolds(s.transits, to);
  }

  /** Between the old queue and the words forwarded, completion queues only despawns: a word
      is forwarded exactly once, to the destination. */
  lemma {:induction false} RemapOnlyDespawns(s: State, place: Place, from: Key, to: Key)
    requires from in s.byKey && to in s.byKey && from != to
    ensures var out := Remapped(s, place, from, to).outbound;
      && |s.outbound| <= |out| && out[..|s.outbound|] == s.outbound
      && forall i :: |s.outbound| <= i < |out| ==> out[i].Despawn?
  {
    ReleaseAllDespawns(Landed(s, place, from, to), s.byKey[from].shadows);
  }

  lemma {:induction false} ReleaseAllDespawns(s: State, ks: seq<Key>)
    ensures var out := ReleaseAll(s, ks).outbound;
      && |s.outbound| <= |out| && out[..|s.outbound|] == s.outbound
      && forall i :: |s.outbound| <= i < |out| ==> out[i].Despawn?
  {
    if ks != [] {
      ReleaseAllDespawns(s, ks[..|ks| - 1]);
    }
  }

  // ----- giving up -----

  lemma {:induction false} SetPositionsSilent(s: State, moves: seq<(Key, Pos3)>)
    ensures SetPositions(s, moves).outbound == s.outbound
  {
    if moves != [] {
      SetPositionsSilent(s, moves[..|moves| - 1]);
    }
  }

  lemma {:induction false} HoldMovesSilent(s: State, moves: seq<(Key, WorldPos)>)
    ensures HoldMoves(s, moves).outbound == s.outbound
  {
    if moves != [] {
      HoldMovesSilent(s, moves[..|moves| - 1]);
    }
  }

  /** A teleport given up leaves one bearer of the name, unmoved and with its handle; and queues
      the words held on the way, in order and once, if its region has answered for it. */
  lemma {:induction false} TimeoutKeepsIdentity(s: State, from: Key, to: Key, frame: Framing)
    requires Inv(s, Settled()) && from in s.byKey && s.byKey[from].transition.Some?
    requires s.byKey[from].transition.value.to == to
    requires to in s.byKey ==> s.byKey[to].id.None?
    ensures var t, o := ExpireOne(s, from, to, frame), s.byKey[from];
      && to !in t.byKey && from in t.byKey
      && t.byKey[from].name == o.name && t.byKey[from].handle == o.handle && t.byKey[from].transition.None?
      && (forall x :: x in t.byKey && x != from ==> t.byKey[x].name != o.name)
      && t.outbound == s.outbound
        + (if o.id.Some? then Messages(o.region, o.id.value, o.transition.value.heldMessages) else [])
  {
    var o := s.byKey[from];
    assert MintedAt(o, s.next, from) && Cast(o);
    ExpireOneKeeps(s, from, to, frame);
    TimeoutIs(s, from, to, frame);
    var t := ExpireOne(s, from, to, frame);
    forall x | x in t.byKey && x != from
      ensures t.byKey[x].name != o.name
    {
      NameIsSole(t.byKey, from, x);
    }
  }

  /** What giving up leaves of the two entities, and says to the one that stays. */
  lemma {:induction false} TimeoutIs(s: State, from: Key, to: Key, frame: Framing)
    requires from in s.byKey && from != to && s.byKey[from].transition.Some? && s.byKey[from].transition.value.to == to
    requires to in s.byKey ==> s.byKey[to].id.None?
    ensures var t, o := ExpireOne(s, from, to, frame), s.byKey[from];
      && to !in t.byKey && from in t.byKey && SameRecord(o.(transition := None), t.byKey[from])
      && t.outbound == s.outbound
        + (if o.id.Some? then Messages(o.region, o.id.value, o.transition.value.heldMessages) else [])
  {
    var o := s.byKey[from];
    var dropped := Forget(Put(s, from, o.(transition := None)), to);
    if o.transition.value.heldMove.Some? {
      SetWorldPositionsIs(dropped, [(from, o.transition.value.heldMove.value)], frame);
    }
  }

  lemma {:induction false} SetWorldPositionsIs(s: State, moves: seq<(Key, WorldPos)>, frame: Framing)
    ensures var t := SetWorldPositions(s, moves, frame);
      && t.outbound == s.outbound && SameRecords(s.byKey, t.byKey)
  {
    HoldMovesSilent(s, moves);
    SetPositionsSilent(HoldMoves(s, moves), Local(s, moves, frame));
    HoldMovesAlike(s, moves);
    SetPositionsRecords(HoldMoves(s, moves), Local(s, moves, frame));
    forall k | k in s.byKey
      ensures SameRecord(s.byKey[k], SetWorldPositions(s, moves, frame).byKey[k])
    {
      assert SameRecord(s.byKey[k], HoldMoves(s, moves).byKey[k]);
      assert SameRecord(HoldMoves(s, moves).byKey[k], SetWorldPositions(s, moves, frame).byKey[k]);
    }
  }

  lemma {:induction false} SetPositionsRecords(s: State, moves: seq<(Key, Pos3)>)
    ensures SameRecords(s.byKey, SetPositions(s, moves).byKey)
  {
    if moves != [] {
      var n := |moves| - 1;
      var t := SetPositions(s, moves[..n]);
      SetPositionsRecords(s, moves[..n]);
      forall k | k in s.byKey
        ensures SameRecord(s.byKey[k], SetPositions(s, moves).byKey[k])
      {
        assert SameRecord(s.byKey[k], t.byKey[k]);
      }
    }
  }
}
