/** What a region's reports, a client's leaving and the edge's own sweeps keep. */
module EdgeReports {
  import opened Numbers
  import opened Config
  import opened WorldFrame
  import opened EdgeState
  import opened EdgeInvariant
  import opened EdgeSteps
  import opened EdgeTeleports

  // ----- a spawn confirmed -----

  lemma {:induction false} ReleaseAllFrame(s: State, ks: seq<Key>)
    ensures var t := ReleaseAll(s, ks);
      && t.announced == s.announced && t.removed == s.removed && t.answered == s.answered && t.next == s.next
      && t.nextClient == s.nextClient && t.disconnected == s.disconnected && t.transits == s.transits
  {
    if ks != [] {
      ReleaseAllFrame(s, ks[..|ks| - 1]);
    }
  }

  /** No shadow an entity lists has a handle or stands for another. */
  lemma {:induction false} ShadowsAreBare(m: Entities, next: Key, loose: set<Key>, k: Key, i: nat)
    requires Family(m, next, loose) && k in m && i < |m[k].shadows| && m[k].shadows[i] in m
    ensures m[m[k].shadows[i]].handle.None? && m[m[k].shadows[i]].copyOf.None? && m[m[k].shadows[i]].shadowOf == Some(k)
  {
    assert Shades(m, k, m[k].shadows) && Cast(m[m[k].shadows[i]]);
  }

  /** What the original leaves behind, released: its shadows given back, its handle still
      adrift and its place still owed. */
  lemma {:induction false} LeftKeeps(s: State, place: Place, from: Key, to: Key)
    requires Inv(s, Settled()) && Answers(s, place, to) && from in s.byKey && to in s.byKey
    requires s.byKey[to].copyOf == Some(from)
    ensures from != to && s.byKey[to].handle.None?
    ensures var o, left := s.byKey[from], ReleaseAll(Landed(s, place, from, to), s.byKey[from].shadows);
      && Inv(left, Slack({}, PlaceOf(o), {from}))
      && from !in left.byKey && to in left.byKey
      && left.byKey[to] == Arrived(s.byKey[to], place.1, o.handle)
      && SameHandles(s, left) && SoleBearer(left.byKey, o.client, o.handle, to)
      && left.announced == s.announced + {place}
  {
    var o := s.byKey[from];
    DepartKeeps(s, place, from, to);
    LandedIs(s, place, from, to);
    var d := Landed(s, place, from, to);
    forall i | 0 <= i < |o.shadows| && o.shadows[i] in s.byKey
      ensures s.byKey[o.shadows[i]].handle.None? && o.shadows[i] != to
    {
      ShadowsAreBare(s.byKey, s.next, {}, from, i);
    }
    ReleaseAllKeeps(d, Slack(Of(o.shadows), PlaceOf(o), {from}), o.shadows);
    assert Of(o.shadows) - Of(o.shadows) == {};
    ReleaseAllOthers(d, o.shadows, to);
    ReleaseAllLessens(d, o.shadows, from);
    ReleaseAllHandles(d, o.shadows);
    ReleaseAllFrame(d, o.shadows);
    BearerIsSole(s, from, to, d, o.shadows, place);
  }

  lemma {:induction false} BearerIsSole(s: State, from: Key, to: Key, d: State, ks: seq<Key>, place: Place)
    requires Owned(s.byKey, s.clients, {}) && from in s.byKey && to in s.byKey && from != to
    requires d.byKey == (s.byKey - {from})[to := Arrived(s.byKey[to], place.1, s.byKey[from].handle)]
    ensures SoleBearer(ReleaseAll(d, ks).byKey, s.byKey[from].client, s.byKey[from].handle, to)
  {
    var left, o := ReleaseAll(d, ks), s.byKey[from];
    forall j | j in left.byKey && o.handle.Some? && left.byKey[j].client == o.client && left.byKey[j].handle == o.handle
      ensures j == to
    {
      ReleaseAllLessens(d, ks, j);
    }
  }

  lemma {:induction false} HandleIsAdrift(s: State, from: Key, clients: map<ClientId, Client>)
    requires Clientele(s.byKey, s.clients, {}) && from in s.byKey
    requires clients.Keys == s.clients.Keys && forall c :: c in s.clients ==> clients[c].handles == s.clients[c].handles
    ensures OnlyAdrift(clients, from, s.byKey[from].client, s.byKey[from].handle)
  {
    assert OwnedAt(s.byKey[from], s.clients, {}, from);
    forall c, h
      ensures AdriftAt(clients, from, s.byKey[from].client, s.byKey[from].handle, c, h)
    {
      assert NamesAt(s.byKey, s.clients, {}, c, h);
    }
  }

  /** The remap: the handle on the copy, the origin's entity given back. */
  lemma {:induction false} RemapKeeps(s: State, place: Place, from: Key, to: Key, transits: seq<Transit>)
    requires Inv(s, Settled()) && Answers(s, place, to) && from in s.byKey && to in s.byKey
    requires s.byKey[to].copyOf == Some(from)
    ensures from != to
    ensures var o := s.byKey[from];
      var left := ReleaseAll(Landed(s, place, from, to), o.shadows).(transits := transits);
      var freed := GivenBackAt(Rehandled(left, s.byKey[to].client, o.handle, from, to), o.region, o.id);
      Inv(freed, Settled()) && Held(freed, place) && to in freed.byKey && freed.byKey[to].handle == o.handle
        && freed.byKey[to].name == o.name && freed.byKey[to].id == Some(place.1)
  {
    var o := s.byKey[from];
    LeftKeeps(s, place, from, to);
    assert CopiesAt(s.byKey, to) && LocatedAt(o, s, from) && LocatedAt(s.byKey[to], s, to) && Cast(s.byKey[to]);
    var left := ReleaseAll(Landed(s, place, from, to), o.shadows).(transits := transits);
    TransitsAside(ReleaseAll(Landed(s, place, from, to), o.shadows), Slack({}, PlaceOf(o), {from}), transits);
    HandleIsAdrift(s, from, left.clients);
    RehandledKeeps(left, {}, PlaceOf(o), o.client, o.handle, from, to);
    var named := Rehandled(left, o.client, o.handle, from, to);
    NotThere(s, place, from, to, left);
    assert LocatedAt(named.byKey[to], named, to);
    GivenBackKeeps(named, place, o.region, o.id);
  }

  /** Once released, the original's place is in no map. */
  lemma {:induction false} NotThere(s: State, place: Place, from: Key, to: Key, left: State)
    requires Inv(s, Settled()) && Answers(s, place, to) && from in s.byKey && to in s.byKey
    requires s.byKey[to].copyOf == Some(from)
    requires from != to && s.byKey[to].handle.None?
    requires left.byKey == ReleaseAll(Landed(s, place, from, to), s.byKey[from].shadows).byKey
    requires left.byId == ReleaseAll(Landed(s, place, from, to), s.byKey[from].shadows).byId
    ensures forall p :: p in PlaceOf(s.byKey[from]) ==> p !in left.byId
  {
    LandedIs(s, place, from, to);
    ReleaseAllPlaces(Landed(s, place, from, to), s.byKey[from].shadows);
  }

  lemma {:induction false} ReleaseAllPlaces(s: State, ks: seq<Key>)
    ensures ReleaseAll(s, ks).byId.Keys <= s.byId.Keys
  {
    if ks != [] {
      ReleaseAllPlaces(s, ks[..|ks| - 1]);
    }
  }

  lemma {:induction false} CompletesKeeps(s: State, place: Place, from: Key, to: Key, frame: Framing)
    requires Inv(s, Settled()) && Answers(s, place, to) && from in s.byKey && to in s.byKey
    requires s.byKey[to].copyOf == Some(from)
    ensures Inv(Added(s, place, to, frame), Settled())
  {
    var o, e := s.byKey[from], s.byKey[to];
    var transits := Without(s.transits, to);
    RemapKeeps(s, place, from, to, transits);
    var left := ReleaseAll(Landed(s, place, from, to), o.shadows).(transits := transits);
    var freed := GivenBackAt(Rehandled(left, e.client, o.handle, from, to), o.region, o.id);
    QueuedKeeps(freed, Settled(), place, e.pending);
    var queued := Queued(freed, place, e.pending);
    ForwardedKeeps(queued, place, o.standing, o.transition, frame);
    var told := Forwarded(queued, place, o.standing, o.transition, frame);
    if to in told.byKey {
      StandingKeeps(told, to, o.standing);
    }
  }

  /** Hearing of a copy and forgetting it is forgetting it and hearing of a stranger. */
  lemma {:induction false} OrphanIs(s: State, place: Place, from: Key, to: Key, frame: Framing)
    requires from !in s.byKey && to in s.byKey && s.byKey[to].copyOf == Some(from) && from != to
    requires s.byKey[to].id.None? && s.byKey[to].region == place.0 && place !in s.byId
    ensures Added(s, place, to, frame) ==
      Tell(Heard(Forget(s, to), place, to), Despawn(place.0, place.1)).(transits := Without(s.transits, to))
  {
    var t, u := Added(s, place, to, frame), Tell(Heard(Forget(s, to), place, to), Despawn(place.0, place.1));
    assert t.byId == u.byId;
    assert t.byKey == u.byKey;
  }

  /** A copy that lands after its original was forgotten is despawned where it landed. */
  lemma {:induction false} OrphanKeeps(s: State, place: Place, from: Key, to: Key, frame: Framing)
    requires Inv(s, Settled()) && Answers(s, place, to) && from !in s.byKey && to in s.byKey
    requires s.byKey[to].copyOf == Some(from)
    ensures Inv(Added(s, place, to, frame), Settled())
  {
    assert LocatedAt(s.byKey[to], s, to) && Cast(s.byKey[to]);
    NeverHeardOf(s, place);
    OrphanIs(s, place, from, to, frame);
    ForgetUnanswered(s, to);
    StrangerKeeps(Forget(s, to), Settled(), place, to);
  }

  lemma {:induction false} NeverHeardOf(s: State, place: Place)
    requires Regional(s, {}) && place !in s.announced
    ensures place !in s.byId
  {
    forall p | p in s.byId
      ensures p in s.announced
    {
      assert LocatedAt(s.byKey[s.byId[p]], s, s.byId[p]);
    }
  }

  lemma {:induction false} AddedKeeps(s: State, place: Place, token: Key, frame: Framing)
    requires Inv(s, Settled()) && Answers(s, place, token)
    ensures Inv(Added(s, place, token, frame), Settled())
  {
    if token !in s.byKey {
      StrangerKeeps(s, Settled(), place, token);
    } else {
      var e := s.byKey[token];
      assert MintedAt(e, s.next, token) && Cast(e);
      if e.copyOf.None? {
        ConfirmedKeeps(s, place, token);
        var t := Put(Heard(s, place, token), token, Arrived(e, place.1, e.handle)).(byId := s.byId[place := token]);
        QueuedKeeps(t, Settled(), place, e.pending);
      } else if e.copyOf.value in s.byKey {
        CompletesKeeps(s, place, e.copyOf.value, token, frame);
      } else {
        OrphanKeeps(s, place, e.copyOf.value, token, frame);
      }
    }
  }

  // ----- views -----

  lemma {:induction false} ListFamily(m: Entities, next: Key, loose: set<Key>, after: set<Key>, owner: Key,
      keep: seq<Key>)
    requires Family(m, next, loose) && owner in m && !m[owner].kind.Shadow? && m[owner].id.Some?
    requires Shades(m, owner, keep) && forall x :: x in keep ==> x < next
    requires forall k :: k in m && !m[k].doomed && k !in after && (k in loose || m[k].shadowOf == Some(owner)) ==>
      m[k].shadowOf == Some(owner) && k in keep
    ensures Family(m[owner := m[owner].(shadows := keep)], next, after)
  {
    var n := m[owner := m[owner].(shadows := keep)];
    forall j | j in n
      ensures MintedAt(n[j], next, j) && Cast(n[j]) && CopiesAt(n, j) && AttachedAt(n, after, j)
      ensures Shades(n, j, n[j].shadows)
    {
      assert MintedAt(m[j], next, j) && Cast(m[j]) && CopiesAt(m, j) && AttachedAt(m, loose, j);
      assert Shades(m, j, m[j].shadows);
    }
    forall a, b | a in n && b in n
      ensures Apart(n, a, b)
    {
      assert Apart(m, a, b);
    }
  }

  /** Rewriting an owner's list touches nothing but the family. */
  lemma {:induction false} ListKeeps(s: State, sl: Slack, after: set<Key>, owner: Key, keep: seq<Key>)
    requires Inv(s, sl) && owner in s.byKey && !s.byKey[owner].kind.Shadow? && s.byKey[owner].id.Some?
    requires Shades(s.byKey, owner, keep) && forall x :: x in keep ==> x < s.next
    requires forall k :: k in s.byKey && !s.byKey[k].doomed && k !in after ==>
      k in sl.loose || s.byKey[k].shadowOf == Some(owner) ==>
      s.byKey[k].shadowOf == Some(owner) && k in keep
    ensures Inv(WithShadows(s, owner, keep), Slack(after, sl.owed, sl.adrift))
  {
    var f := s.byKey[owner].(shadows := keep);
    ListFamily(s.byKey, s.next, sl.loose, after, owner, keep);
    ListClientele(s.byKey, s.clients, sl.adrift, owner, f);
    ListRegional(s, sl.owed, owner, f);
    DoomCounts(s.byKey, owner, f);
  }

  lemma {:induction false} ListClientele(m: Entities, clients: map<ClientId, Client>, adrift: set<Key>, k: Key,
      f: Entity)
    requires Clientele(m, clients, adrift) && k in m && f == m[k].(shadows := f.shadows)
    ensures Clientele(m[k := f], clients, adrift)
  {
    var n := m[k := f];
    forall j | j in n
      ensures OwnedAt(n[j], clients, adrift, j)
    {
      assert OwnedAt(m[j], clients, adrift, j);
    }
    forall c, h
      ensures NamesAt(n, clients, adrift, c, h)
    {
      assert NamesAt(m, clients, adrift, c, h);
    }
  }

  lemma {:induction false} ListRegional(s: State, owed: set<Place>, k: Key, f: Entity)
    requires Regional(s, owed) && k in s.byKey && f == s.byKey[k].(shadows := f.shadows)
    ensures Regional(Put(s, k, f), owed)
  {
    var t := Put(s, k, f);
    forall j | j in t.byKey
      ensures LocatedAt(t.byKey[j], t, j)
    {
      assert LocatedAt(s.byKey[j], s, j);
    }
  }

  /** An observer found by its id may list shadows. */
  lemma {:induction false} OwnerIsObserver(s: State, place: Place)
    requires Inv(s, Settled()) && place in s.byId && s.byId[place] in s.byKey && s.byKey[s.byId[place]].shadowOf.None?
    ensures var e := s.byKey[s.byId[place]]; !e.kind.Shadow? && e.id.Some? && e.copyOf.None? && s.byId[place] < s.next
  {
    assert Cast(s.byKey[s.byId[place]]) && MintedAt(s.byKey[s.byId[place]], s.next, s.byId[place]);
  }

  lemma {:induction false} ViewClearedKeeps(s: State, place: Place)
    requires Inv(s, Settled())
    ensures Inv(ViewCleared(s, place), Settled())
  {
    if place in s.byId && s.byId[place] in s.byKey {
      var owner, e := s.byId[place], s.byKey[s.byId[place]];
      assert Cast(e) && Shades(s.byKey, owner, e.shadows);
      if e.kind.Shadow? {
        assert Put(s, owner, e.(shadows := [])).byKey == s.byKey && ReleaseAll(s, []) == s;
      } else {
        OwnerIsObserver(s, place);
        forall k | k in s.byKey && !s.byKey[k].doomed && s.byKey[k].shadowOf == Some(owner)
          ensures k in Of(e.shadows)
        {
          assert AttachedAt(s.byKey, {}, k);
        }
        ListKeeps(s, Settled(), Of(e.shadows), owner, []);
        ReleaseAllKeeps(Put(s, owner, e.(shadows := [])), Slack(Of(e.shadows), {}, {}), e.shadows);
        assert Of(e.shadows) - Of(e.shadows) == {};
      }
    }
  }

  // ----- removal and leaving -----

  lemma {:induction false} FinishKeeps(s: State, c: ClientId)
    requires Inv(s, Settled())
    ensures Inv(FinishLeaving(s, c), Settled())
  {
    if c in s.clients && s.clients[c].leaving && s.clients[c].keys == {} {
      FinishClientele(s.byKey, s.clients, c);
      SameRegional(s, FinishLeaving(s, c), {});
    }
  }

  lemma {:induction false} FinishClientele(m: Entities, clients: map<ClientId, Client>, c: ClientId)
    requires Clientele(m, clients, {}) && c in clients && clients[c].keys == {}
    ensures Clientele(m, clients - {c}, {})
  {
    forall k | k in m
      ensures OwnedAt(m[k], clients - {c}, {}, k)
    {
      assert OwnedAt(m[k], clients, {}, k);
    }
    forall d, h
      ensures NamesAt(m, clients - {c}, {}, d, h)
    {
      assert NamesAt(m, clients, {}, d, h);
    }
  }

  /** A report that an entity has gone settles the place it is owed. */
  lemma {:induction false} GoneKeeps(s: State, place: Place)
    requires Inv(s, Settled()) && place in s.byId && s.byId[place] in s.byKey
    ensures Inv(Forget(s.(removed := s.removed + {place}), s.byId[place]),
        Slack(Of(s.byKey[s.byId[place]].shadows), {}, {}))
  {
    var k := s.byId[place];
    var heard := s.(removed := s.removed + {place});
    assert LocatedAt(s.byKey[k], s, k);
    RemovedKeepsInv(s, place);
    ForgetKeeps(heard, Settled(), k);
    var t := Forget(heard, k);
    assert {} + Of(s.byKey[k].shadows) == Of(s.byKey[k].shadows) && {} + PlaceOf(s.byKey[k]) == {place};
    assert Unstranded(t, {place}) && Unstranded(t, {});
  }

  lemma {:induction false} RemovedKeepsInv(s: State, place: Place)
    requires Inv(s, Settled())
    ensures Inv(s.(removed := s.removed + {place}), Settled())
  {
    var t := s.(removed := s.removed + {place});
    forall k | k in t.byKey
      ensures LocatedAt(t.byKey[k], t, k)
    {
      assert LocatedAt(s.byKey[k], s, k);
    }
  }

  lemma {:induction false} UnlistedHolds(list: seq<Key>, k: Key)
    ensures forall x :: x in Unlisted(list, k) <==> x in list && x != k
  {
    if list != [] {
      var n := |list| - 1;
      UnlistedHolds(list[..n], k);
      assert list == list[..n] + [list[n]];
    }
  }

  lemma {:induction false} UnlistedShades(m: Entities, owner: Key, list: seq<Key>, k: Key)
    requires Shades(m, owner, list)
    ensures Shades(m, owner, Unlisted(list, k))
  {
    if list != [] {
      var n := |list| - 1;
      var front := Unlisted(list[..n], k);
      UnlistedShades(m, owner, list[..n], k);
      UnlistedHolds(list[..n], k);
      if list[n] != k {
        forall i | 0 <= i < |front| && front[i] in m && list[n] in m
          ensures m[front[i]].region != m[list[n]].region
        {
          assert front[i] in list[..n];
          var j :| 0 <= j < n && list[j] == front[i];
        }
      }
    }
  }

  /** Taking a key that is no longer held off its owner's list. */
  lemma {:induction false} UnlistKeeps(s: State, owner: Key, k: Key)
    requires Inv(s, Settled()) && owner in s.byKey && k !in s.byKey
    ensures Inv(WithShadows(s, owner, Unlisted(s.byKey[owner].shadows, k)), Settled())
  {
    var o := s.byKey[owner];
    var keep := Unlisted(o.shadows, k);
    assert MintedAt(o, s.next, owner) && Cast(o) && Shades(s.byKey, owner, o.shadows);
    UnlistedHolds(o.shadows, k);
    UnlistedShades(s.byKey, owner, o.shadows, k);
    if o.kind.Shadow? || o.id.None? {
      assert o.shadows == [] && WithShadows(s, owner, keep).byKey == s.byKey;
    } else {
      forall x | x in s.byKey && !s.byKey[x].doomed && s.byKey[x].shadowOf == Some(owner)
        ensures x in keep
      {
        assert AttachedAt(s.byKey, {}, x);
      }
      ListKeeps(s, Settled(), {}, owner, keep);
    }
  }

  lemma {:induction false} ShadowRemovedKeeps(s: State, place: Place)
    requires Inv(s, Settled()) && place in s.byId && s.byId[place] in s.byKey && s.byKey[s.byId[place]].shadowOf.Some?
    ensures Inv(Removed(s, place), Settled())
  {
    var k, e := s.byId[place], s.byKey[s.byId[place]];
    assert Cast(e);
    GoneKeeps(s, place);
    assert Of(e.shadows) == {};
    var gone := Forget(s.(removed := s.removed + {place}), k);
    if e.shadowOf.value in gone.byKey {
      UnlistKeeps(gone, e.shadowOf.value, k);
    }
  }

  lemma {:induction false} RemovedKeeps(s: State, place: Place)
    requires Inv(s, Settled())
    ensures Inv(Removed(s, place), Settled())
  {
    if place in s.byId && s.byId[place] in s.byKey {
      var k, e := s.byId[place], s.byKey[s.byId[place]];
      if e.shadowOf.Some? {
        ShadowRemovedKeeps(s, place);
      } else {
        GoneKeeps(s, place);
        var gone := Forget(s.(removed := s.removed + {place}), k);
        ReleaseAllKeeps(gone, Slack(Of(e.shadows), {}, {}), e.shadows);
        assert Of(e.shadows) - Of(e.shadows) == {};
        if e.client.Some? {
          FinishKeeps(ReleaseAll(gone, e.shadows), e.client.value);
        }
      }
    } else {
      RemovedKeepsInv(s, place);
    }
  }

  lemma {:induction false} LeavingKeeps(s: State, c: ClientId)
    requires Inv(s, Settled()) && c in s.clients
    ensures Inv(s.(clients := s.clients[c := s.clients[c].(leaving := true)]), Settled())
  {
    var t := s.(clients := s.clients[c := s.clients[c].(leaving := true)]);
    forall k | k in t.byKey
      ensures OwnedAt(t.byKey[k], t.clients, {}, k) && LocatedAt(t.byKey[k], t, k)
    {
      assert OwnedAt(s.byKey[k], s.clients, {}, k) && LocatedAt(s.byKey[k], s, k);
    }
    forall d, h
      ensures NamesAt(t.byKey, t.clients, {}, d, h)
    {
      assert NamesAt(s.byKey, s.clients, {}, d, h);
    }
  }

  lemma {:induction false} SweepKeeps(s: State, c: ClientId, keys: seq<Key>)
    requires Inv(s, Settled())
    ensures Inv(Sweep(s, c, keys), Settled())
  {
    if c in s.clients && !s.clients[c].leaving {
      var t := s.(clients := s.clients[c := s.clients[c].(leaving := true)]);
      LeavingKeeps(s, c);
      ReleaseAllKeeps(t, Settled(), keys);
      assert {} - Of(keys) == {};
      FinishKeeps(ReleaseAll(t, keys), c);
    }
  }

  lemma {:induction false} ConnectKeeps(s: State)
    requires Inv(s, Settled())
    ensures Inv(Connect(s), Settled())
  {
    var t := Connect(s);
    forall k | k in t.byKey
      ensures OwnedAt(t.byKey[k], t.clients, {}, k) && LocatedAt(t.byKey[k], t, k)
    {
      assert OwnedAt(s.byKey[k], s.clients, {}, k) && LocatedAt(s.byKey[k], s, k);
    }
    forall c, h
      ensures NamesAt(t.byKey, t.clients, {}, c, h)
    {
      assert NamesAt(s.byKey, s.clients, {}, c, h);
    }
  }

  // ----- a view reaching past its region -----

  /** The regions of a view are different regions. */
  ghost predicate Spread(reached: seq<(Region, Pos3)>) {
    forall i, j :: 0 <= i < j < |reached| ==> reached[i].0 != reached[j].0
  }

  lemma {:induction false} ExistingHolds(s: State, shadows: seq<Key>)
    ensures forall p :: p in Existing(s.byKey, shadows) ==>
      p.0 in shadows && p.0 in s.byKey && p.1 == s.byKey[p.0].region
    ensures forall k :: k in shadows && k in s.byKey ==> (k, s.byKey[k].region) in Existing(s.byKey, shadows)
  {
    if shadows != [] {
      var n := |shadows| - 1;
      ExistingHolds(s, shadows[..n]);
      assert shadows == shadows[..n] + [shadows[n]];
    }
  }

  lemma {:induction false} InRegionHolds(existing: seq<(Key, Region)>, r: Region)
    ensures InRegion(existing, r).Some? ==> (InRegion(existing, r).value, r) in existing
  {
    if existing != [] {
      var n := |existing| - 1;
      InRegionHolds(existing[..n], r);
      assert existing == existing[..n] + [existing[n]];
    }
  }

  lemma {:induction false} UnkeptHolds(existing: seq<(Key, Region)>, keep: seq<Key>)
    ensures forall k :: k in Unkept(existing, keep) ==> k !in keep && exists r :: (k, r) in existing
    ensures forall p :: p in existing ==> p.0 in keep || p.0 in Unkept(existing, keep)
  {
    if existing != [] {
      var n := |existing| - 1;
      UnkeptHolds(existing[..n], keep);
      assert existing == existing[..n] + [existing[n]];
      forall k | k in Unkept(existing, keep)
        ensures exists r :: (k, r) in existing
      {
        if k in Unkept(existing[..n], keep) {
          var r :| (k, r) in existing[..n];
          assert (k, r) in existing;
        } else {
          assert (k, existing[n].1) in existing;
        }
      }
    }
  }

  /** A shadow of `owner`, standing in `region`. */
  ghost predicate Stands(m: Entities, owner: Key, k: Key, region: Region) {
    k in m && m[k].shadowOf == Some(owner) && m[k].region == region
  }

  /** Midway through a view report: every entity of before is as it was, what was asked
      for since is listed, and each region seen to so far has its shadow. */
  ghost predicate Extends(m: Entities, n: Entities, owner: Key, reached: seq<(Region, Pos3)>, keep: seq<Key>) {
    && |keep| == |reached|
    && (forall k :: k in m ==> k in n && SameRecord(m[k], n[k]))
    && (forall k :: k in n && k !in m ==> k in keep && n[k].shadowOf == Some(owner))
    && (forall i :: 0 <= i < |keep| ==> Stands(n, owner, keep[i], reached[i].0))
  }

  /** The shadows asked for since hang loose. */
  function Since(s: State, t: State): Slack {
    Slack(t.byKey.Keys - s.byKey.Keys, {}, {})
  }

  ghost predicate Shadowing(s: State, t: State, owner: Key, reached: seq<(Region, Pos3)>, keep: seq<Key>) {
    Inv(t, Since(s, t)) && s.next <= t.next && Extends(s.byKey, t.byKey, owner, reached, keep)
  }

  /** The shadows an observer is known to keep, where they stand. */
  ghost predicate Known(m: Entities, owner: Key, existing: seq<(Key, Region)>) {
    forall p :: p in existing ==> Stands(m, owner, p.0, p.1)
  }

  lemma {:induction false} ExtendsKept(m: Entities, n: Entities, u: Entities, owner: Key, reached: seq<(Region, Pos3)>,
      keep: seq<Key>, k: Key, region: Region, to: Pos3)
    requires Extends(m, n, owner, reached, keep) && SameRecords(n, u) && Stands(m, owner, k, region)
    ensures Extends(m, u, owner, reached + [(region, to)], keep + [k])
  {
    forall j | j in m
      ensures SameRecord(m[j], u[j])
    {
      assert SameRecord(m[j], n[j]) && SameRecord(n[j], u[j]);
    }
    forall j | j in u && j !in m
      ensures j in keep + [k] && u[j].shadowOf == Some(owner)
    {
      assert SameRecord(n[j], u[j]);
    }
    forall i | 0 <= i < |keep|
      ensures Stands(u, owner, keep[i], reached[i].0)
    {
      assert Stands(n, owner, keep[i], reached[i].0) && SameRecord(n[keep[i]], u[keep[i]]);
    }
  }

  lemma {:induction false} ExtendsAsked(m: Entities, n: Entities, owner: Key, reached: seq<(Region, Pos3)>,
      keep: seq<Key>, next: Key, e: Entity, region: Region, to: Pos3)
    requires Extends(m, n, owner, reached, keep) && next !in n && e.shadowOf == Some(owner) && e.region == region
    ensures Extends(m, n[next := e], owner, reached + [(region, to)], keep + [next])
  {
    var u, more := n[next := e], keep + [next];
    assert more[|keep|] == next;
    forall j | j in u && j !in m
      ensures j in more && u[j].shadowOf == Some(owner)
    {
      assert j == next || j in keep;
    }
    forall i | 0 <= i < |keep|
      ensures Stands(u, owner, keep[i], reached[i].0)
    {
      assert Stands(n, owner, keep[i], reached[i].0);
    }
  }

  lemma {:induction false} KeepsOne(s: State, t: State, owner: Key, reached: seq<(Region, Pos3)>, keep: seq<Key>,
      k: Key, to: Pos3, region: Region)
    requires Shadowing(s, t, owner, reached, keep) && Stands(s.byKey, owner, k, region)
    ensures Shadowing(s, SetPosition(t, k, to), owner, reached + [(region, to)], keep + [k])
  {
    var u := SetPosition(t, k, to);
    SetPositionAlike(t, k, to);
    AlikeKeeps(t, u, Since(s, t));
    ExtendsKept(s.byKey, t.byKey, u.byKey, owner, reached, keep, k, region, to);
  }

  lemma {:induction false} AskShadowKeeps(t: State, sl: Slack, owner: Key, client: Option<ClientId>, region: Region,
      to: Pos3)
    requires Inv(t, sl) && owner in t.byKey && t.byKey[owner].client == client
    ensures var u := AskShadow(t, owner, client, region, to);
      && t.next !in t.byKey
      && u.byKey == t.byKey[t.next := Asked(t.next, client, None, region, Shadow, Some(owner), None)]
      && u.next == t.next + 1 && Inv(u, sl.(loose := sl.loose + {t.next}))
  {
    OwnerMayAsk(t, sl, owner);
    AskForKeeps(t, sl, client, None, region, to, Shadow, Some(owner));
  }

  lemma {:induction false} OwnerMayAsk(t: State, sl: Slack, owner: Key)
    requires Inv(t, sl) && owner in t.byKey
    ensures owner < t.next && MayAsk(t.clients, t.byKey[owner].client, None)
  {
    assert MintedAt(t.byKey[owner], t.next, owner) && OwnedAt(t.byKey[owner], t.clients, sl.adrift, owner);
  }

  lemma {:induction false} SinceAsked(s: State, t: State, u: State)
    requires t.next !in s.byKey && u.byKey.Keys == t.byKey.Keys + {t.next}
    ensures Since(s, u) == Since(s, t).(loose := Since(s, t).loose + {t.next})
  {
    assert u.byKey.Keys - s.byKey.Keys == Since(s, t).loose + {t.next};
  }

  lemma {:induction false} AsksLoose(s: State, t: State, owner: Key, client: Option<ClientId>, region: Region, to: Pos3)
    requires Inv(t, Since(s, t)) && owner in t.byKey && t.byKey[owner].client == client && s.byKey.Keys <= t.byKey.Keys
    ensures var u := AskShadow(t, owner, client, region, to);
      && t.next !in t.byKey
      && u.byKey == t.byKey[t.next := Asked(t.next, client, None, region, Shadow, Some(owner), None)]
      && u.next == t.next + 1 && Inv(u, Since(s, u))
  {
    AskShadowKeeps(t, Since(s, t), owner, client, region, to);
    SinceAsked(s, t, AskShadow(t, owner, client, region, to));
  }

  lemma {:induction false} AsksOne(s: State, t: State, owner: Key, reached: seq<(Region, Pos3)>, keep: seq<Key>,
      client: Option<ClientId>, region: Region, to: Pos3)
    requires Shadowing(s, t, owner, reached, keep) && owner in s.byKey && s.byKey[owner].client == client
    ensures Shadowing(s, AskShadow(t, owner, client, region, to), owner, reached + [(region, to)], keep + [t.next])
  {
    assert SameRecord(s.byKey[owner], t.byKey[owner]);
    AsksLoose(s, t, owner, client, region, to);
    ExtendsAsked(s.byKey, t.byKey, owner, reached, keep, t.next,
        Asked(t.next, client, None, region, Shadow, Some(owner), None), region, to);
  }

  lemma {:induction false} NextShadow(s: State, t: State, owner: Key, client: Option<ClientId>,
      existing: seq<(Key, Region)>, reached: seq<(Region, Pos3)>, keep: seq<Key>, region: Region, to: Pos3)
    requires Shadowing(s, t, owner, reached, keep) && Known(s.byKey, owner, existing)
    requires owner in s.byKey && s.byKey[owner].client == client
    ensures var r := ShadowNext(t, keep, owner, client, existing, region, to);
      Shadowing(s, r.0, owner, reached + [(region, to)], r.1)
  {
    InRegionHolds(existing, region);
    var kept := InRegion(existing, region);
    if kept.Some? {
      assert Stands(s.byKey, owner, kept.value, region);
      KeepsOne(s, t, owner, reached, keep, kept.value, to, region);
    } else {
      AsksOne(s, t, owner, reached, keep, client, region, to);
    }
  }

  lemma {:induction false} FrontAndLast(reached: seq<(Region, Pos3)>)
    requires reached != []
    ensures reached == reached[..|reached| - 1] + [(reached[|reached| - 1].0, reached[|reached| - 1].1)]
  {
  }

  lemma {:induction false} ShadowedHolds(s: State, owner: Key, client: Option<ClientId>, existing: seq<(Key, Region)>,
      reached: seq<(Region, Pos3)>)
    requires Inv(s, Settled()) && Known(s.byKey, owner, existing)
    requires owner in s.byKey && s.byKey[owner].client == client
    ensures Shadowing(s, Shadowed(s, owner, client, existing, reached).0, owner, reached,
        Shadowed(s, owner, client, existing, reached).1)
  {
    if reached == [] {
      assert s.byKey.Keys - s.byKey.Keys == {};
    } else {
      var front, last := reached[..|reached| - 1], reached[|reached| - 1];
      FrontAndLast(reached);
      ShadowedHolds(s, owner, client, existing, front);
      var r := Shadowed(s, owner, client, existing, front);
      NextShadow(s, r.0, owner, client, existing, front, r.1, last.0, last.1);
    }
  }

  /** Whatever is released is gone or marked. */
  lemma {:induction false} ReleaseAllDooms(s: State, ks: seq<Key>, k: Key)
    requires k in ks
    ensures k in ReleaseAll(s, ks).byKey ==> ReleaseAll(s, ks).byKey[k].doomed
  {
    var n := |ks| - 1;
    assert ks == ks[..n] + [ks[n]];
    if k in ks[..n] {
      ReleaseAllDooms(s, ks[..n], k);
    }
  }

  /** The unkept given back, the list is exactly what stands. */
  lemma {:induction false} RelistKeeps(s: State, t: State, owner: Key, existing: seq<(Key, Region)>,
      reached: seq<(Region, Pos3)>, keep: seq<Key>)
    requires Inv(s, Settled()) && owner in s.byKey && !s.byKey[owner].kind.Shadow? && s.byKey[owner].id.Some?
    requires s.byKey[owner].shadowOf.None?
    requires Known(s.byKey, owner, existing) && Spread(reached) && Shadowing(s, t, owner, reached, keep)
    requires forall k :: k in s.byKey[owner].shadows && k in s.byKey ==> (k, s.byKey[k].region) in existing
    ensures Inv(WithShadows(ReleaseAll(t, Unkept(existing, keep)), owner, keep), Settled())
  {
    var drop := Unkept(existing, keep);
    var sl := Since(s, t);
    var u := ReleaseAll(t, drop);
    UnkeptHolds(existing, keep);
    ReleaseAllKeeps(t, sl, drop);
    ReleaseAllFrame(t, drop);
    assert SameRecord(s.byKey[owner], t.byKey[owner]);
    OwnerStays(s, t, owner, existing, keep);
    forall i | 0 <= i < |keep|
      ensures Stands(u.byKey, owner, keep[i], reached[i].0) && keep[i] < u.next
    {
      assert Stands(t.byKey, owner, keep[i], reached[i].0) && MintedAt(t.byKey[keep[i]], t.next, keep[i]);
      ReleaseAllOthers(t, drop, keep[i]);
    }
    forall k | k in u.byKey && !u.byKey[k].doomed && (k in sl.loose - Of(drop) || u.byKey[k].shadowOf == Some(owner))
      ensures u.byKey[k].shadowOf == Some(owner) && k in keep
    {
      ReleaseAllLessens(t, drop, k);
      if k in drop {
        ReleaseAllDooms(t, drop, k);
      }
      if k in s.byKey {
        assert SameRecord(s.byKey[k], t.byKey[k]) && AttachedAt(s.byKey, {}, k);
      }
    }
    ListKeeps(u, Slack(sl.loose - Of(drop), {}, {}), {}, owner, keep);
  }

  lemma {:induction false} OwnerStays(s: State, t: State, owner: Key, existing: seq<(Key, Region)>, keep: seq<Key>)
    requires owner in s.byKey && owner in t.byKey && s.byKey[owner].shadowOf.None? && Known(s.byKey, owner, existing)
    ensures owner in ReleaseAll(t, Unkept(existing, keep)).byKey
    ensures ReleaseAll(t, Unkept(existing, keep)).byKey[owner] == t.byKey[owner]
  {
    UnkeptHolds(existing, keep);
    forall k | k in Unkept(existing, keep)
      ensures k != owner
    {
      var r :| (k, r) in existing;
      assert Stands(s.byKey, owner, k, r);
    }
    ReleaseAllOthers(t, Unkept(existing, keep), owner);
  }

  lemma {:induction false} ExistingIsKnown(s: State, owner: Key)
    requires owner in s.byKey && Shades(s.byKey, owner, s.byKey[owner].shadows)
    ensures Known(s.byKey, owner, Existing(s.byKey, s.byKey[owner].shadows))
  {
    var list := s.byKey[owner].shadows;
    ExistingHolds(s, list);
    forall p | p in Existing(s.byKey, list)
      ensures Stands(s.byKey, owner, p.0, p.1)
    {
      var i :| 0 <= i < |list| && list[i] == p.0;
    }
  }

  lemma {:induction false} ViewCollisionKeeps(s: State, place: Place, reached: Option<seq<(Region, Pos3)>>)
    requires Inv(s, Settled()) && (reached.Some? ==> Spread(reached.value))
    ensures Inv(ViewCollision(s, place, reached), Settled())
  {
    if place in s.byId && s.byId[place] in s.byKey && s.byKey[s.byId[place]].shadowOf.None? && reached.Some? {
      var owner, e := s.byId[place], s.byKey[s.byId[place]];
      var existing := Existing(s.byKey, e.shadows);
      OwnerIsObserver(s, place);
      assert Shades(s.byKey, owner, e.shadows);
      ExistingIsKnown(s, owner);
      ExistingHolds(s, e.shadows);
      ShadowedHolds(s, owner, e.client, existing, reached.value);
      var r := Shadowed(s, owner, e.client, existing, reached.value);
      RelistKeeps(s, r.0, owner, existing, reached.value, r.1);
    }
  }
}
