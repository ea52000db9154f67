/** What asking for entities, giving them back and moving them between regions keep. */
module EdgeSteps {
  import opened Numbers
  import opened Config
  import opened WorldFrame
  import opened EdgeState
  import opened EdgeInvariant

  // ----- asking -----

  /** A new entity, under a fresh key. A shadow hangs loose until it is listed. */
  lemma {:induction false} InsertFamily(m: Entities, next: Key, loose: set<Key>, e: Entity)
    requires Family(m, next, loose) && next !in m
    requires Cast(e) && MintedAt(e, next + 1, next) && e.shadows == []
    requires e.shadowOf != Some(next) && CopiesAt(m[next := e], next)
    requires forall a :: a in m && m[a].name == e.name ==> e.copyOf == Some(a)
    ensures Family(m[next := e], next + 1, loose + {next})
  {
    var n := m[next := e];
    forall k | k in n
      ensures MintedAt(n[k], next + 1, k) && Cast(n[k]) && CopiesAt(n, k) && AttachedAt(n, loose + {next}, k)
      ensures Shades(n, k, n[k].shadows)
    {
      if k != next {
        assert MintedAt(m[k], next, k) && Cast(m[k]) && CopiesAt(m, k) && AttachedAt(m, loose, k);
        assert Shades(m, k, m[k].shadows);
        forall i | 0 <= i < |m[k].shadows|
          ensures m[k].shadows[i] != next
        {
          assert m[k].shadows[i] in m[k].shadows;
        }
      }
    }
    forall a, b | a in n && b in n
      ensures Apart(n, a, b)
    {
      if a != next && b != next {
        assert Apart(m, a, b);
      }
    }
  }

  /** Whom an entity may be asked for: a connected client or nobody, under an unused handle. */
  ghost predicate MayAsk(clients: map<ClientId, Client>, client: Option<ClientId>, handle: Option<Handle>) {
    && (client.Some? ==> client.value in clients)
    && (handle.Some? ==> client.Some? && handle.value !in clients[client.value].handles)
  }

  function Enrolled(clients: map<ClientId, Client>, k: Key, e: Entity): map<ClientId, Client> {
    if e.client.Some? && e.client.value in clients
    then clients[e.client.value := WithKey(clients[e.client.value], k, e.handle)] else clients
  }

  lemma {:induction false} InsertClientele(m: Entities, next: Key, clients: map<ClientId, Client>, adrift: set<Key>,
      e: Entity)
    requires Clientele(m, clients, adrift) && next !in m && MayAsk(clients, e.client, e.handle)
    ensures Clientele(m[next := e], Enrolled(clients, next, e), adrift)
  {
    var n, after := m[next := e], Enrolled(clients, next, e);
    forall k | k in n
      ensures OwnedAt(n[k], after, adrift, k)
    {
      if k != next {
        assert OwnedAt(m[k], clients, adrift, k);
      }
    }
    forall c, h
      ensures NamesAt(n, after, adrift, c, h)
    {
      assert NamesAt(m, clients, adrift, c, h);
    }
  }

  lemma {:induction false} EnrolledReports(clients: map<ClientId, Client>, k: Key, e: Entity, nextClient: ClientId,
      gone: seq<ClientId>)
    requires Reported(clients, nextClient, gone)
    ensures Reported(Enrolled(clients, k, e), nextClient, gone)
  {
  }

  lemma {:induction false} InsertCounts(m: Entities, next: Key, e: Entity, observers: int, shadows: int)
    requires Counted(m, observers, shadows) && next !in m
    ensures Counted(m[next := e], observers + (if e.kind.Observer? then 1 else 0),
        shadows + (if e.kind.Shadow? then 1 else 0))
  {
    InsertKind(m, next, e, Observer);
    InsertKind(m, next, e, Shadow);
  }

  lemma {:induction false} InsertKind(m: Entities, next: Key, e: Entity, kind: Kind)
    requires next !in m
    ensures |OfKind(m[next := e], kind)| == |OfKind(m, kind)| + (if e.kind == kind then 1 else 0)
  {
    assert OfKind(m[next := e], kind) == OfKind(m, kind) + (if e.kind == kind then {next} else {});
  }

  /** Entities not yet identified, and words that give nothing back, are nothing to a region. */
  lemma {:induction false} InsertRegional(s: State, t: State, owed: set<Place>, e: Entity, what: Outgoing)
    requires Regional(s, owed) && s.next !in s.byKey && e.id.None? && !what.Despawn?
    requires t.byKey == s.byKey[s.next := e] && t.outbound == s.outbound + [what] && t.byId == s.byId
    requires t.moves == s.moves
    requires t.announced == s.announced && t.removed == s.removed && t.answered == s.answered
    ensures Regional(t, owed)
  {
    forall p: Place
      ensures GivenBack(t.outbound, p) <==> GivenBack(s.outbound, p)
    {
    }
    forall k | k in t.byKey
      ensures LocatedAt(t.byKey[k], t, k)
    {
      if k != s.next {
        assert LocatedAt(s.byKey[k], s, k);
      }
    }
  }

  /** An entity asked for under a name of its own. */
  lemma {:induction false} AskForKeeps(s: State, sl: Slack, client: Option<ClientId>, handle: Option<Handle>,
      region: Region, at: Pos3, kind: Kind, shadowOf: Option<Key>)
    requires Inv(s, sl) && MayAsk(s.clients, client, handle)
    requires (kind.Shadow? <==> shadowOf.Some?) && (kind.Shadow? ==> handle.None? && shadowOf.value < s.next)
    ensures s.next !in s.byKey
    ensures var t := AskFor(s, client, handle, region, at, kind, shadowOf, None);
      Inv(if kind.Shadow? then t.(shadows := s.shadows + 1) else t, sl.(loose := sl.loose + {s.next}))
  {
    var e := Asked(s.next, client, handle, region, kind, shadowOf, None);
    var t := AskFor(s, client, handle, region, at, kind, shadowOf, None);
    NextIsFresh(s.byKey, s.next);
    forall a | a in s.byKey
      ensures s.byKey[a].name != e.name
    {
      assert MintedAt(s.byKey[a], s.next, a);
    }
    InsertFamily(s.byKey, s.next, sl.loose, e);
    InsertClientele(s.byKey, s.next, s.clients, sl.adrift, e);
    EnrolledReports(s.clients, s.next, e, s.nextClient, s.disconnected);
    InsertCounts(s.byKey, s.next, e, s.observers, s.shadows);
    InsertRegional(s, if kind.Shadow? then t.(shadows := s.shadows + 1) else t, sl.owed, e,
        Spawn(region, s.next, kind, at, e.name));
  }

  /** An entity that is no shadow hangs from nothing. */
  lemma {:induction false} TightenLoose(s: State, sl: Slack, k: Key)
    requires Inv(s, sl) && (k in s.byKey ==> AttachedAt(s.byKey, {}, k))
    ensures Inv(s, sl.(loose := sl.loose - {k}))
  {
    forall j | j in s.byKey
      ensures AttachedAt(s.byKey, sl.loose - {k}, j)
    {
      assert AttachedAt(s.byKey, sl.loose, j);
    }
  }

  // ----- forgetting -----

  lemma {:induction false} RemoveFamily(m: Entities, next: Key, loose: set<Key>, k: Key)
    requires Family(m, next, loose) && k in m
    ensures Family(m - {k}, next, loose + Of(m[k].shadows))
  {
    var n, more := m - {k}, loose + Of(m[k].shadows);
    forall j | j in n
      ensures MintedAt(n[j], next, j) && Cast(n[j]) && CopiesAt(n, j) && AttachedAt(n, more, j)
      ensures Shades(n, j, n[j].shadows)
    {
      assert MintedAt(m[j], next, j) && Cast(m[j]) && CopiesAt(m, j) && AttachedAt(m, loose, j);
      assert Shades(m, j, m[j].shadows);
    }
    forall a, b | a in n && b in n
      ensures Apart(n, a, b)
    {
      assert Apart(m, a, b);
    }
  }

  function Struck(clients: map<ClientId, Client>, k: Key, e: Entity): map<ClientId, Client> {
    if e.client.Some? && e.client.value in clients
    then clients[e.client.value := WithoutKey(clients[e.client.value], k, e.handle)] else clients
  }

  lemma {:induction false} RemoveClientele(m: Entities, clients: map<ClientId, Client>, adrift: set<Key>, k: Key)
    requires Clientele(m, clients, adrift) && k in m && (m[k].handle.None? || adrift == {})
    ensures Clientele(m - {k}, Struck(clients, k, m[k]), adrift)
  {
    var n, after := m - {k}, Struck(clients, k, m[k]);
    assert OwnedAt(m[k], clients, adrift, k);
    forall j | j in n
      ensures OwnedAt(n[j], after, adrift, j)
    {
      assert OwnedAt(m[j], clients, adrift, j);
    }
    forall c, h
      ensures NamesAt(n, after, adrift, c, h)
    {
      assert NamesAt(m, clients, adrift, c, h);
    }
  }

  lemma {:induction false} StruckReports(clients: map<ClientId, Client>, k: Key, e: Entity, nextClient: ClientId,
      gone: seq<ClientId>)
    requires Reported(clients, nextClient, gone)
    ensures Reported(Struck(clients, k, e), nextClient, gone)
  {
  }

  lemma {:induction false} RemoveCounts(m: Entities, k: Key, observers: int, shadows: int)
    requires Counted(m, observers, shadows) && k in m
    ensures Counted(m - {k}, if m[k].kind.Observer? then observers - 1 else observers,
        if m[k].kind.Shadow? then shadows - 1 else shadows)
  {
    RemoveKind(m, k, Observer);
    RemoveKind(m, k, Shadow);
  }

  lemma {:induction false} RemoveKind(m: Entities, k: Key, kind: Kind)
    requires k in m
    ensures |OfKind(m - {k}, kind)| == |OfKind(m, kind)| - (if m[k].kind == kind then 1 else 0)
  {
    if m[k].kind == kind {
      assert OfKind(m, kind) == OfKind(m - {k}, kind) + {k};
    } else {
      assert OfKind(m, kind) == OfKind(m - {k}, kind);
    }
  }

  function PlaceOf(e: Entity): set<Place> {
    if e.id.Some? then {(e.region, e.id.value)} else {}
  }

  lemma {:induction false} RemoveRegional(s: State, t: State, owed: set<Place>, k: Key)
    requires Regional(s, owed) && k in s.byKey
    requires t.byKey == s.byKey - {k} && t.byId == s.byId - PlaceOf(s.byKey[k])
    requires t.outbound == s.outbound && t.moves == s.moves
    requires t.announced == s.announced && t.removed == s.removed && t.answered == s.answered
    ensures Regional(t, owed + PlaceOf(s.byKey[k]))
  {
    assert LocatedAt(s.byKey[k], s, k);
    forall j | j in t.byKey
      ensures LocatedAt(t.byKey[j], t, j)
    {
      assert LocatedAt(s.byKey[j], s, j);
    }
  }

  /** Forgetting an entity leaves its shadows loose and its place owed. */
  lemma {:induction false} ForgetKeeps(s: State, sl: Slack, k: Key)
    requires Inv(s, sl) && k in s.byKey && (s.byKey[k].handle.None? || sl.adrift == {})
    ensures Inv(Forget(s, k), Slack(sl.loose + Of(s.byKey[k].shadows), sl.owed + PlaceOf(s.byKey[k]), sl.adrift))
  {
    var t := Forget(s, k);
    RemoveFamily(s.byKey, s.next, sl.loose, k);
    RemoveClientele(s.byKey, s.clients, sl.adrift, k);
    StruckReports(s.clients, k, s.byKey[k], s.nextClient, s.disconnected);
    RemoveCounts(s.byKey, k, s.observers, s.shadows);
    RemoveRegional(s, t, sl.owed, k);
  }

  // ----- giving back -----

  lemma {:induction false} DoomFamily(m: Entities, next: Key, loose: set<Key>, k: Key)
    requires Family(m, next, loose) && k in m && m[k].id.Some?
    ensures Family(m[k := m[k].(pending := None, doomed := true)], next, loose - {k})
  {
    var n := m[k := m[k].(pending := None, doomed := true)];
    forall j | j in n
      ensures MintedAt(n[j], next, j) && Cast(n[j]) && CopiesAt(n, j) && AttachedAt(n, loose - {k}, j)
      ensures Shades(n, j, n[j].shadows)
    {
      assert MintedAt(m[j], next, j) && Cast(m[j]) && CopiesAt(m, j) && AttachedAt(m, loose, j);
      assert Shades(m, j, m[j].shadows);
    }
    forall a, b | a in n && b in n
      ensures Apart(n, a, b)
    {
      assert Apart(m, a, b);
    }
  }

  lemma {:induction false} DoomClientele(m: Entities, clients: map<ClientId, Client>, adrift: set<Key>, k: Key)
    requires Clientele(m, clients, adrift) && k in m
    ensures Clientele(m[k := m[k].(pending := None, doomed := true)], clients, adrift)
  {
    var n := m[k := m[k].(pending := None, doomed := true)];
    forall j | j in n
      ensures OwnedAt(n[j], clients, adrift, j)
    {
      assert OwnedAt(m[j], clients, adrift, j);
    }
    forall c, h
      ensures NamesAt(n, clients, adrift, c, h)
    {
      assert NamesAt(m, clients, adrift, c, h);
    }
  }

  lemma {:induction false} DespawnGivesBack(outbound: seq<Outgoing>, at: Place)
    ensures forall p: Place :: GivenBack(outbound + [Despawn(at.0, at.1)], p) <==> GivenBack(outbound, p) || p == at
  {
    var more := outbound + [Despawn(at.0, at.1)];
    forall p: Place
      ensures GivenBack(more, p) <==> GivenBack(outbound, p) || p == at
    {
      assert more[|outbound|] == Despawn(at.0, at.1);
    }
  }

  lemma {:induction false} DoomRegional(s: State, owed: set<Place>, k: Key)
    requires Regional(s, owed) && k in s.byKey && s.byKey[k].id.Some?
    ensures Regional(Release(s, k), owed)
  {
    var t := Release(s, k);
    var at := (s.byKey[k].region, s.byKey[k].id.value);
    DespawnGivesBack(s.outbound, at);
    assert LocatedAt(s.byKey[k], s, k);
    forall j | j in t.byKey
      ensures LocatedAt(t.byKey[j], t, j)
    {
      assert LocatedAt(s.byKey[j], s, j);
    }
  }

  lemma {:induction false} DoomCounts(m: Entities, k: Key, e: Entity)
    requires k in m && e.kind == m[k].kind
    ensures OfKind(m[k := e], Observer) == OfKind(m, Observer) && OfKind(m[k := e], Shadow) == OfKind(m, Shadow)
  {
  }

  lemma {:induction false} UnansweredKeeps(s: State, sl: Slack, k: Key)
    requires Inv(s, sl) && k in s.byKey && s.byKey[k].id.None? && (s.byKey[k].handle.None? || sl.adrift == {})
    ensures Inv(Release(s, k), sl)
  {
    var e := s.byKey[k].(pending := None);
    assert Cast(s.byKey[k]);
    PutAlike(s, k, e);
    AlikeKeeps(s, Put(s, k, e), sl);
    ForgetKeeps(Put(s, k, e), sl, k);
    OwesNothing(sl, e);
  }

  lemma {:induction false} OwesNothing(sl: Slack, e: Entity)
    requires e.id.None? && e.shadows == []
    ensures Slack(sl.loose + Of(e.shadows), sl.owed + PlaceOf(e), sl.adrift) == sl
  {
    assert Of(e.shadows) == {};
    assert sl.loose + {} == sl.loose && sl.owed + {} == sl.owed;
  }

  lemma {:induction false} AnsweredKeeps(s: State, sl: Slack, k: Key)
    requires Inv(s, sl) && k in s.byKey && s.byKey[k].id.Some?
    ensures Inv(Release(s, k), sl.(loose := sl.loose - {k}))
  {
    DoomFamily(s.byKey, s.next, sl.loose, k);
    DoomClientele(s.byKey, s.clients, sl.adrift, k);
    DoomRegional(s, sl.owed, k);
    DoomCounts(s.byKey, k, s.byKey[k].(pending := None, doomed := true));
  }

  /** Giving an entity back, answered for or not, strands nothing and ties up a shadow. */
  lemma {:induction false} ReleaseKeeps(s: State, sl: Slack, k: Key)
    requires Inv(s, sl) && (k in s.byKey ==> s.byKey[k].handle.None? || sl.adrift == {})
    ensures Inv(Release(s, k), sl.(loose := sl.loose - {k}))
  {
    if k in s.byKey && s.byKey[k].id.Some? {
      AnsweredKeeps(s, sl, k);
    } else {
      if k in s.byKey {
        UnansweredKeeps(s, sl, k);
      }
      TightenLoose(Release(s, k), sl, k);
    }
  }

  /** None of these has a handle a release could take away while one is adrift. */
  ghost predicate Handleless(s: State, ks: seq<Key>) {
    forall i :: 0 <= i < |ks| && ks[i] in s.byKey ==> s.byKey[ks[i]].handle.None?
  }

  /** What a release does to the others: nothing. */
  lemma {:induction false} ReleaseOthers(s: State, k: Key, j: Key)
    requires j != k
    ensures (j in Release(s, k).byKey <==> j in s.byKey)
    ensures j in s.byKey ==> Release(s, k).byKey[j] == s.byKey[j]
  {
  }

  lemma {:induction false} ReleaseAllOthers(s: State, ks: seq<Key>, j: Key)
    requires j !in ks
    ensures (j in ReleaseAll(s, ks).byKey <==> j in s.byKey)
    ensures j in s.byKey ==> ReleaseAll(s, ks).byKey[j] == s.byKey[j]
  {
    if ks != [] {
      var n := |ks| - 1;
      assert ks == ks[..n] + [ks[n]];
      ReleaseAllOthers(s, ks[..n], j);
      ReleaseOthers(ReleaseAll(s, ks[..n]), ks[n], j);
    }
  }

  /** A release never brings an entity back, and leaves an entity's handle, client, name,
      region, kind and lists as they were. */
  ghost predicate Lessened(e: Entity, f: Entity) {
    f == e.(pending := f.pending, doomed := f.doomed)
  }

  lemma {:induction false} ReleaseAllLessens(s: State, ks: seq<Key>, j: Key)
    ensures j in ReleaseAll(s, ks).byKey ==> j in s.byKey && Lessened(s.byKey[j], ReleaseAll(s, ks).byKey[j])
  {
    if ks != [] {
      ReleaseAllLessens(s, ks[..|ks| - 1], j);
    }
  }

  lemma {:induction false} ReleaseAllKeeps(s: State, sl: Slack, ks: seq<Key>)
    requires Inv(s, sl) && (Handleless(s, ks) || sl.adrift == {})
    ensures Inv(ReleaseAll(s, ks), sl.(loose := sl.loose - Of(ks)))
  {
    if ks == [] {
      assert sl.loose - Of(ks) == sl.loose;
    } else {
      var n := |ks| - 1;
      var front := ReleaseAll(s, ks[..n]);
      ReleaseAllKeeps(s, sl, ks[..n]);
      ReleaseAllLessens(s, ks[..n], ks[n]);
      ReleaseKeeps(front, sl.(loose := sl.loose - Of(ks[..n])), ks[n]);
      assert ks == ks[..n] + [ks[n]];
      assert Of(ks) == Of(ks[..n]) + {ks[n]};
      assert sl.loose - Of(ks[..n]) - {ks[n]} == sl.loose - Of(ks);
    }
  }
}
