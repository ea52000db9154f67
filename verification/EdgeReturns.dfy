/** What is given back reaches its region, what a region reports gone is forgotten, and a client
    that leaves is reported. */
module EdgeReturns {
  import opened Numbers
  import opened Config
  import opened WorldFrame
  import opened EdgeState
  import opened EdgeInvariant
  import opened EdgeSteps
  import opened EdgeTeleports
  import opened EdgeReports
  import opened EdgeRun
  import opened EdgeWords

  // ----- giving back -----

  /** An entity a region knows is marked as given back exactly when its despawn is queued. */
  lemma {:induction false} MarkedIffReturned(s: State, k: Key)
    requires Reachable(s) && k in s.byKey && s.byKey[k].id.Some?
    ensures s.byKey[k].doomed <==> Despawn(s.byKey[k].region, s.byKey[k].id.value) in s.outbound
  {
    ReachableKeeps(s);
    assert LocatedAt(s.byKey[k], s, k);
  }

  /** Since `s`, an entity has been given back: its despawn is queued to its region if the
      region knows it, and it is in no map if not. */
  ghost predicate Returned(s: State, t: State, k: Key) {
    k in s.byKey ==>
      var e := s.byKey[k];
      if e.id.Some? then Despawn(e.region, e.id.value) in t.outbound else k !in t.byKey
  }

  lemma {:induction false} ReturnedStays(s: State, t: State, k: Key, j: Key)
    requires Returned(s, t, k)
    ensures Returned(s, Release(t, j), k)
  {
  }

  /** The same entity, to a region. */
  ghost predicate SamePlace(s: State, t: State, k: Key) {
    k in t.byKey ==> k in s.byKey && t.byKey[k].id == s.byKey[k].id && t.byKey[k].region == s.byKey[k].region
  }

  lemma {:induction false} ReleaseReturns(s: State, t: State, k: Key)
    requires SamePlace(s, t, k) && (k in t.byKey || Returned(s, t, k))
    ensures Returned(s, Release(t, k), k)
  {
    if k in t.byKey && t.byKey[k].id.Some? {
      var u := Release(t, k);
      assert u.outbound[|u.outbound| - 1] == Despawn(t.byKey[k].region, t.byKey[k].id.value);
    }
  }

  lemma {:induction false} ReleaseAllReturns(s: State, t: State, ks: seq<Key>, k: Key)
    requires SamePlace(s, t, k) && (k in s.byKey ==> k in t.byKey) && k in ks
    ensures Returned(s, ReleaseAll(t, ks), k)
  {
    var n := |ks| - 1;
    var front := ReleaseAll(t, ks[..n]);
    assert ks == ks[..n] + [ks[n]];
    if k in ks[..n] {
      ReleaseAllReturns(s, t, ks[..n], k);
      ReturnedStays(s, front, k, ks[n]);
    } else {
      ReleaseAllOthers(t, ks[..n], k);
      ReleaseReturns(s, front, k);
    }
  }

  // ----- which handlers give what back -----

  /** An owner found by its id. */
  ghost predicate OwnsAt(s: State, place: Place, k: Key) {
    && place in s.byId && s.byId[place] in s.byKey && s.byKey[s.byId[place]].shadowOf.None?
    && k in s.byKey[s.byId[place]].shadows
  }

  /** Whom a handler is to give back: the one named, all that a swept client has, the shadows of
      a view cleared or of an owner gone, the shadows a view no longer reaches, and what a
      completed teleport leaves behind. */
  ghost predicate Frees(s: State, e: Event, k: Key) {
    match e
    case Despawned(j) => k == j
    case ClientDespawn(c, h) => KeyOf(s, c, h) == Some(k)
    case Swept(c, keys) => c in s.clients && !s.clients[c].leaving && k in s.clients[c].keys
    case ViewLeft(place) => OwnsAt(s, place, k)
    case Gone(place) => OwnsAt(s, place, k)
    case ViewReached(place, reached) =>
      && OwnsAt(s, place, k) && k in s.byKey && reached.Some?
      && forall r :: r in reached.value ==> r.0 != s.byKey[k].region
    case Announced(place, token, frame) =>
      && token in s.byKey && s.byKey[token].copyOf.Some? && s.byKey[token].copyOf.value in s.byKey
      && (k == s.byKey[token].copyOf.value || k in s.byKey[s.byKey[token].copyOf.value].shadows)
    case _ => false
  }

  lemma {:induction false} SweepReturns(s: State, c: ClientId, keys: seq<Key>, k: Key)
    requires Enabled(s, Swept(c, keys)) && Frees(s, Swept(c, keys), k)
    ensures Returned(s, Sweep(s, c, keys), k)
  {
    var t := s.(clients := s.clients[c := s.clients[c].(leaving := true)]);
    assert k in Of(keys);
    ReleaseAllReturns(s, t, keys, k);
  }

  lemma {:induction false} ViewClearedReturns(s: State, place: Place, k: Key)
    requires OwnsAt(s, place, k)
    ensures Returned(s, ViewCleared(s, place), k)
  {
    var owner, e := s.byId[place], s.byKey[s.byId[place]];
    ReleaseAllReturns(s, Put(s, owner, e.(shadows := [])), e.shadows, k);
  }

  lemma {:induction false} RemovedReturns(s: State, place: Place, k: Key)
    requires Inv(s, Settled()) && OwnsAt(s, place, k)
    ensures Returned(s, Removed(s, place), k)
  {
    var owner, e := s.byId[place], s.byKey[s.byId[place]];
    var gone := Forget(s.(removed := s.removed + {place}), owner);
    assert Shades(s.byKey, owner, e.shadows);
    var i :| 0 <= i < |e.shadows| && e.shadows[i] == k;
    ReleaseAllReturns(s, gone, e.shadows, k);
  }

  /** A shadow in no region a view reaches is not kept. */
  lemma {:induction false} UnreachedIsUnkept(s: State, t: State, owner: Key, existing: seq<(Key, Region)>,
      reached: seq<(Region, Pos3)>, keep: seq<Key>, k: Key)
    requires Extends(s.byKey, t.byKey, owner, reached, keep) && k in s.byKey && (k, s.byKey[k].region) in existing
    requires forall r :: r in reached ==> r.0 != s.byKey[k].region
    ensures k in Unkept(existing, keep) && SamePlace(s, t, k) && k in t.byKey
  {
    UnkeptHolds(existing, keep);
    assert SameRecord(s.byKey[k], t.byKey[k]);
    forall i | 0 <= i < |keep|
      ensures keep[i] != k
    {
      assert Stands(t.byKey, owner, keep[i], reached[i].0);
      assert reached[i] in reached;
    }
  }

  lemma {:induction false} ViewCollisionReturns(s: State, place: Place, reached: seq<(Region, Pos3)>, k: Key)
    requires Inv(s, Settled()) && Frees(s, ViewReached(place, Some(reached)), k)
    ensures Returned(s, ViewCollision(s, place, Some(reached)), k)
  {
    var owner, e := s.byId[place], s.byKey[s.byId[place]];
    var existing := Existing(s.byKey, e.shadows);
    assert Shades(s.byKey, owner, e.shadows);
    ExistingIsKnown(s, owner);
    ExistingHolds(s, e.shadows);
    ShadowedHolds(s, owner, e.client, existing, reached);
    var r := Shadowed(s, owner, e.client, existing, reached);
    UnreachedIsUnkept(s, r.0, owner, existing, reached, r.1, k);
    ReleaseAllReturns(s, r.0, Unkept(existing, r.1), k);
    RelistReturns(s, ReleaseAll(r.0, Unkept(existing, r.1)), owner, r.1, k);
  }

  lemma {:induction false} RelistReturns(s: State, t: State, owner: Key, keep: seq<Key>, k: Key)
    requires Returned(s, t, k)
    ensures Returned(s, WithShadows(t, owner, keep), k)
  {
  }

  /** What a completed teleport leaves: the original itself. */
  lemma {:induction false} OriginalReturns(s: State, place: Place, from: Key, to: Key)
    requires from in s.byKey && to in s.byKey && from != to
    requires from !in Remapped(s, place, from, to).byKey
    ensures Returned(s, Remapped(s, place, from, to), from)
  {
    var o, u := s.byKey[from], Remapped(s, place, from, to);
    if o.id.Some? {
      assert u.outbound[|u.outbound| - 1] == Despawn(o.region, o.id.value);
    }
  }

  /** And its shadows. */
  lemma {:induction false} ShadowsReturn(s: State, place: Place, from: Key, to: Key, k: Key)
    requires Inv(s, Settled()) && from in s.byKey && to in s.byKey && from != to && s.byKey[to].handle.None?
    requires s.byKey[to].copyOf == Some(from) && k in s.byKey[from].shadows && !s.byKey[from].kind.Shadow?
    ensures Returned(s, Remapped(s, place, from, to), k)
  {
    var o, d, u := s.byKey[from], Landed(s, place, from, to), Remapped(s, place, from, to);
    LandedIs(s, place, from, to);
    var i :| 0 <= i < |o.shadows| && o.shadows[i] == k;
    if k in s.byKey {
      ShadowsAreBare(s.byKey, s.next, {}, from, i);
    }
    assert Cast(o);
    ReleaseAllReturns(s, d, o.shadows, k);
    var left := ReleaseAll(d, o.shadows);
    assert u.byKey == left.byKey && left.outbound <= u.outbound;
  }

  lemma {:induction false} CompletionReturns(s: State, place: Place, from: Key, to: Key, frame: Framing, k: Key)
    requires Inv(s, Settled()) && Answers(s, place, to) && from in s.byKey && to in s.byKey
    requires s.byKey[to].copyOf == Some(from) && (k == from || k in s.byKey[from].shadows)
    ensures Returned(s, Added(s, place, to, frame), k)
  {
    var freed, t := Remapped(s, place, from, to), Added(s, place, to, frame);
    assert CopiesAt(s.byKey, to) && Cast(s.byKey[to]);
    CompletionIs(s, place, from, to, frame);
    RemapRecord(s, place, from, to);
    if k == from {
      OriginalReturns(s, place, from, to);
    } else {
      ShadowsReturn(s, place, from, to, k);
    }
    assert freed.outbound <= t.outbound && t.byKey.Keys == freed.byKey.Keys;
  }

  /** Every handler gives back whom it is to: gone from the maps, or its despawn queued. */
  lemma {:induction false} FreedIsReturned(s: State, e: Event, k: Key)
    requires Inv(s, Settled()) && Enabled(s, e) && Frees(s, e, k)
    ensures Returned(s, Step(s, e), k)
  {
    match e
    case Despawned(j) => ReleaseReturns(s, s, k);
    case ClientDespawn(c, h) => ReleaseReturns(s, s, k);
    case Swept(c, keys) => SweepReturns(s, c, keys, k);
    case ViewLeft(place) => ViewClearedReturns(s, place, k);
    case Gone(place) => RemovedReturns(s, place, k);
    case ViewReached(place, reached) => ViewCollisionReturns(s, place, reached.value, k);
    case Announced(place, token, frame) =>
      CompletionReturns(s, place, s.byKey[token].copyOf.value, token, frame, k);
  }

  /** A handler that led from `s` to `t` has given back all it is to. */
  ghost predicate GivesBack(s: State, e: Event, t: State) {
    forall k :: Frees(s, e, k) ==> Returned(s, t, k)
  }

  lemma {:induction false} Freed(s: State, e: Event)
    requires Reachable(s) && Enabled(s, e)
    ensures GivesBack(s, e, Step(s, e))
  {
    ReachableKeeps(s);
    forall k: Key | Frees(s, e, k)
      ensures Returned(s, Step(s, e), k)
    {
      FreedIsReturned(s, e, k);
    }
  }

  /** An arrival nobody waits for, or whose original is gone, is given straight back. */
  lemma {:induction false} StrangerIsReturned(s: State, place: Place, token: Key, frame: Framing)
    requires Inv(s, Settled()) && Answers(s, place, token)
    requires token in s.byKey ==> s.byKey[token].copyOf.Some? && s.byKey[token].copyOf.value !in s.byKey
    ensures var t := Added(s, place, token, frame);
      Despawn(place.0, place.1) in t.outbound && token !in t.byKey && place !in t.byId
  {
    NeverHeardOf(s, place);
    if token in s.byKey {
      assert LocatedAt(s.byKey[token], s, token) && MintedAt(s.byKey[token], s.next, token);
      OrphanIs(s, place, s.byKey[token].copyOf.value, token, frame);
    }
    var t := Added(s, place, token, frame);
    assert t.outbound[|t.outbound| - 1] == Despawn(place.0, place.1);
  }

  // ----- forgetting and leaving -----

  /** The next client has never been, is not reported gone, and owns nothing. */
  lemma {:induction false} ClientIsNew(s: State)
    requires Reachable(s)
    ensures s.nextClient !in s.clients && s.nextClient !in s.disconnected
    ensures forall k :: k in s.byKey ==> s.byKey[k].client != Some(s.nextClient)
  {
    ReachableKeeps(s);
    forall k | k in s.byKey
      ensures s.byKey[k].client != Some(s.nextClient)
    {
      assert OwnedAt(s.byKey[k], s.clients, {}, k);
    }
  }

  /** A client that is leaving and owns nothing has been reported and is held no more. */
  ghost predicate Dismissed(s: State, t: State, c: ClientId) {
    if c in t.clients then (t.clients[c].leaving ==> t.clients[c].keys != {}) && t.disconnected == s.disconnected
    else t.disconnected == s.disconnected + [c]
  }

  lemma {:induction false} FinishDismisses(s: State, c: ClientId)
    requires c in s.clients
    ensures Dismissed(s, FinishLeaving(s, c), c)
    ensures FinishLeaving(s, c).byKey == s.byKey && FinishLeaving(s, c).byId == s.byId
  {
  }

  /** A sweep leaves the client reported, or leaving with something still to come back. */
  lemma {:induction false} SweptIsDismissed(s: State, c: ClientId, keys: seq<Key>)
    requires c in s.clients && !s.clients[c].leaving
    ensures Dismissed(s, Sweep(s, c, keys), c)
    ensures c in Sweep(s, c, keys).clients ==> Sweep(s, c, keys).clients[c].leaving
  {
    var t := s.(clients := s.clients[c := s.clients[c].(leaving := true)]);
    ReleaseAllClients(t, keys, c);
    ReleaseAllFrame(t, keys);
    FinishDismisses(ReleaseAll(t, keys), c);
  }

  /** An entity given back before its region answered is its client's no more, and its handle is
      free again. */
  lemma {:induction false} UnansweredIsStruck(s: State, k: Key)
    requires Inv(s, Settled()) && k in s.byKey && s.byKey[k].id.None? && s.byKey[k].client.Some?
    ensures var t, e := Release(s, k), s.byKey[k];
      && e.client.value in t.clients && k !in t.clients[e.client.value].keys
      && (e.handle.Some? ==> KeyOf(t, e.client.value, e.handle.value) == None)
      && t.outbound == s.outbound
  {
    assert OwnedAt(s.byKey[k], s.clients, {}, k);
  }

  /** What a region reports gone is in no map and no list, and if it was the last a leaving
      client had, the client is reported. */
  lemma {:induction false} GoneIsForgotten(s: State, place: Place)
    requires Inv(s, Settled()) && place in s.byId
    ensures var k, t := s.byId[place], Removed(s, place);
      && k in s.byKey && k !in t.byKey && place !in t.byId
      && (s.byKey[k].shadowOf.Some? && s.byKey[k].shadowOf.value in t.byKey ==>
            k !in t.byKey[s.byKey[k].shadowOf.value].shadows)
      && (s.byKey[k].shadowOf.None? && s.byKey[k].client.Some? ==>
            var c := s.byKey[k].client.value; Dismissed(s, t, c) && (c in t.clients ==> k !in t.clients[c].keys))
  {
    var k, e := s.byId[place], s.byKey[s.byId[place]];
    var gone := Forget(s.(removed := s.removed + {place}), k);
    assert OwnedAt(e, s.clients, {}, k);
    if e.shadowOf.Some? {
      if e.shadowOf.value in gone.byKey {
        UnlistedHolds(gone.byKey[e.shadowOf.value].shadows, k);
      }
    } else {
      var freed := ReleaseAll(gone, e.shadows);
      ReleaseAllLessens(gone, e.shadows, k);
      ReleaseAllFrame(gone, e.shadows);
      ReleaseAllPlaces(gone, e.shadows, place);
      if e.client.Some? {
        ReleaseAllClients(gone, e.shadows, e.client.value);
        FinishDismisses(freed, e.client.value);
      }
    }
  }

  lemma {:induction false} ReleaseAllPlaces(s: State, ks: seq<Key>, place: Place)
    requires place !in s.byId
    ensures place !in ReleaseAll(s, ks).byId
  {
    if ks != [] {
      ReleaseAllPlaces(s, ks[..|ks| - 1], place);
    }
  }
}
