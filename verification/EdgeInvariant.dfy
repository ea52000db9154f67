/** What an edge's state keeps, part by part. */
module EdgeInvariant {
  import opened Numbers
  import opened Config
  import opened WorldFrame
  import opened EdgeState

  type Entities = map<Key, Entity>

  /** What is owed while an operation is under way: shadows whose owner no longer lists
      them, region entities in no map, and entities only a handle still names. */
  datatype Slack = Slack(loose: set<Key>, owed: set<Place>, adrift: set<Key>)

  /** The keys of a list. */
  function Of(ks: seq<Key>): set<Key> {
    set x | x in ks
  }

  function Settled(): Slack {
    Slack({}, {}, {})
  }

  /** A despawn has been queued to the entity's region. */
  ghost predicate GivenBack(outbound: seq<Outgoing>, p: Place) {
    Despawn(p.0, p.1) in outbound
  }

  // ----- keys -----

  /** Every key and name an entity mentions has been minted. */
  ghost predicate MintedAt(e: Entity, next: Key, k: Key) {
    && k < next && e.name < next
    && (e.copyOf.Some? ==> e.copyOf.value < next && e.copyOf.value != k)
    && (e.shadowOf.Some? ==> e.shadowOf.value < next)
    && (e.transition.Some? ==> e.transition.value.to != k)
    && (forall x :: x in e.shadows ==> x < next)
  }

  ghost predicate Minted(m: Entities, next: Key) {
    forall k :: k in m ==> MintedAt(m[k], next, k)
  }

  /** What an entity's role allows. */
  ghost predicate Cast(e: Entity) {
    && (e.kind.Shadow? <==> e.shadowOf.Some?)
    && (e.kind.Shadow? ==> e.handle.None? && e.copyOf.None? && e.transition.None?)
    && (e.kind.Shadow? || e.id.None? ==> e.shadows == [])
    && (e.copyOf.Some? ==> e.id.None? && e.transition.None? && e.handle.None?)
    && (e.doomed ==> e.id.Some?)
  }

  ghost predicate Casting(m: Entities) {
    forall k :: k in m ==> Cast(m[k])
  }

  // ----- clients -----

  /** A client-owned entity is in its connected client's keys, and its handle names it. */
  ghost predicate OwnedAt(e: Entity, clients: map<ClientId, Client>, adrift: set<Key>, k: Key) {
    && (e.client.Some? ==> e.client.value in clients && k in clients[e.client.value].keys)
    && (e.handle.Some? ==>
          && e.client.Some?
          && e.handle.value in clients[e.client.value].handles
          && (clients[e.client.value].handles[e.handle.value] == k
              || clients[e.client.value].handles[e.handle.value] in adrift))
  }

  ghost predicate Owned(m: Entities, clients: map<ClientId, Client>, adrift: set<Key>) {
    forall k :: k in m ==> OwnedAt(m[k], clients, adrift, k)
  }

  /** A handle names an entity of that client under that handle. */
  ghost predicate NamesAt(m: Entities, clients: map<ClientId, Client>, adrift: set<Key>, c: ClientId, h: Handle) {
    c in clients && h in clients[c].handles ==>
      var k := clients[c].handles[h];
      k in adrift || (k in m && m[k].client == Some(c) && m[k].handle == Some(h))
  }

  ghost predicate Indexed(m: Entities, clients: map<ClientId, Client>, adrift: set<Key>) {
    forall c, h {:trigger NamesAt(m, clients, adrift, c, h)} :: NamesAt(m, clients, adrift, c, h)
  }

  // ----- ids -----

  /** An identified entity is found by its id, and marked exactly when it was given back. */
  ghost predicate LocatedAt(e: Entity, s: State, k: Key) {
    e.id.Some? ==>
      var p := (e.region, e.id.value);
      && p in s.byId && s.byId[p] == k && p in s.announced && k in s.answered
      && (GivenBack(s.outbound, p) <==> e.doomed)
  }

  ghost predicate Located(s: State) {
    forall k :: k in s.byKey ==> LocatedAt(s.byKey[k], s, k)
  }

  ghost predicate Identified(m: Entities, byId: map<Place, Key>) {
    forall p :: p in byId ==> byId[p] in m && m[byId[p]].id == Some(p.1) && m[byId[p]].region == p.0
  }

  // ----- copies and names -----

  /** A copy is the one its original waits for, under the same name and client. */
  ghost predicate CopiesAt(m: Entities, k: Key)
    requires k in m
  {
    var e := m[k];
    e.copyOf.Some? && e.copyOf.value in m ==>
      var o := m[e.copyOf.value];
      && o.client == e.client && o.name == e.name && o.kind == e.kind && !o.kind.Shadow?
      && o.transition.Some? && o.transition.value.to == k
  }

  ghost predicate Copying(m: Entities) {
    forall k :: k in m ==> CopiesAt(m, k)
  }

  ghost predicate Apart(m: Entities, a: Key, b: Key)
    requires a in m && b in m
  {
    a != b && m[a].name == m[b].name ==> m[a].copyOf == Some(b) || m[b].copyOf == Some(a)
  }

  /** Two entities share a name only while one is the other's copy. */
  ghost predicate Distinct(m: Entities) {
    forall a, b {:trigger Apart(m, a, b)} :: a in m && b in m ==> Apart(m, a, b)
  }

  // ----- shadows -----

  /** A shadow not given back has an owner that is held and lists it. */
  ghost predicate AttachedAt(m: Entities, loose: set<Key>, k: Key)
    requires k in m
  {
    m[k].shadowOf.Some? && !m[k].doomed && k !in loose ==>
      m[k].shadowOf.value in m && k in m[m[k].shadowOf.value].shadows
  }

  ghost predicate Attached(m: Entities, loose: set<Key>) {
    forall k :: k in m ==> AttachedAt(m, loose, k)
  }

  /** An owner's held shadows are its own, no two in one region. */
  ghost predicate Shades(m: Entities, k: Key, list: seq<Key>) {
    && (forall i :: 0 <= i < |list| && list[i] in m ==> m[list[i]].shadowOf == Some(k))
    && (forall i, j :: 0 <= i < j < |list| && list[i] in m && list[j] in m ==> m[list[i]].region != m[list[j]].region)
  }

  ghost predicate Shaded(m: Entities) {
    forall k :: k in m ==> Shades(m, k, m[k].shadows)
  }

  // ----- counters, queues, reports -----

  function OfKind(m: Entities, kind: Kind): set<Key> {
    set k | k in m && m[k].kind == kind
  }

  ghost predicate Counted(m: Entities, observers: int, shadows: int) {
    observers == |OfKind(m, Observer)| && shadows == |OfKind(m, Shadow)|
  }

  /** No queued move names an entity given back, and only entities heard of are either. */
  ghost predicate Moving(moves: map<Place, Pos3>, outbound: seq<Outgoing>, announced: set<Place>) {
    && (forall p :: p in moves ==> !GivenBack(outbound, p) && p in announced)
    && (forall p: Place :: GivenBack(outbound, p) ==> p in announced)
  }

  /** What a region announced and has not reported removed is held or given back. */
  ghost predicate Unstranded(s: State, owed: set<Place>) {
    forall p :: p in s.announced ==> p in s.removed || p in s.byId || GivenBack(s.outbound, p) || p in owed
  }

  /** A client is reported gone once, after it is, and never comes back. */
  ghost predicate Reported(clients: map<ClientId, Client>, nextClient: ClientId, disconnected: seq<ClientId>) {
    && (forall c :: c in clients ==> c < nextClient)
    && (forall i :: 0 <= i < |disconnected| ==> disconnected[i] < nextClient && disconnected[i] !in clients)
    && (forall i, j :: 0 <= i < j < |disconnected| ==> disconnected[i] != disconnected[j])
  }

  /** The maps of entities alone. */
  ghost predicate Family(m: Entities, next: Key, loose: set<Key>) {
    Minted(m, next) && Casting(m) && Copying(m) && Distinct(m) && Attached(m, loose) && Shaded(m)
  }

  /** Entities against clients. */
  ghost predicate Clientele(m: Entities, clients: map<ClientId, Client>, adrift: set<Key>) {
    Owned(m, clients, adrift) && Indexed(m, clients, adrift)
  }

  /** Entities against what regions have said and been told. */
  ghost predicate Regional(s: State, owed: set<Place>) {
    Located(s) && Identified(s.byKey, s.byId) && Moving(s.moves, s.outbound, s.announced) && Unstranded(s, owed)
  }

  ghost predicate Inv(s: State, sl: Slack) {
    && Family(s.byKey, s.next, sl.loose)
    && Clientele(s.byKey, s.clients, sl.adrift)
    && Regional(s, sl.owed)
    && Counted(s.byKey, s.observers, s.shadows)
    && Reported(s.clients, s.nextClient, s.disconnected)
  }

  lemma {:induction false} StartKeeps()
    ensures Inv(Start(), Settled())
  {
    assert OfKind(map[], Observer) == {} && OfKind(map[], Shadow) == {};
  }

  lemma {:induction false} NextIsFresh(m: Entities, next: Key)
    requires Minted(m, next)
    ensures next !in m
  {
  }

  // ----- positions and messages touch nothing the maps rely on -----

  /** The same entity, but for where it should be and what it has been told. */
  ghost predicate SameRecord(e: Entity, f: Entity) {
    && f.(pending := e.pending, standing := e.standing, transition := e.transition) == e
    && (e.transition.Some? <==> f.transition.Some?)
    && (e.transition.Some? ==>
        f.transition.value.to == e.transition.value.to && f.transition.value.dest == e.transition.value.dest)
  }

  ghost predicate SameRecords(m: Entities, n: Entities) {
    m.Keys == n.Keys && forall k :: k in m ==> SameRecord(m[k], n[k])
  }

  lemma {:induction false} SameFamily(m: Entities, n: Entities, next: Key, loose: set<Key>)
    requires SameRecords(m, n) && Family(m, next, loose)
    ensures Family(n, next, loose)
  {
    forall k | k in n
      ensures MintedAt(n[k], next, k) && Cast(n[k]) && CopiesAt(n, k) && AttachedAt(n, loose, k)
      ensures Shades(n, k, n[k].shadows)
    {
      assert SameRecord(m[k], n[k]) && MintedAt(m[k], next, k) && Cast(m[k]) && CopiesAt(m, k);
      assert AttachedAt(m, loose, k);
      assert Shades(m, k, m[k].shadows);
      forall x | x in n
        ensures x in m && SameRecord(m[x], n[x])
      {
      }
    }
    forall a, b | a in n && b in n
      ensures Apart(n, a, b)
    {
      assert Apart(m, a, b) && SameRecord(m[a], n[a]) && SameRecord(m[b], n[b]);
    }
  }

  lemma {:induction false} SameCounts(m: Entities, n: Entities)
    requires SameRecords(m, n)
    ensures OfKind(n, Observer) == OfKind(m, Observer) && OfKind(n, Shadow) == OfKind(m, Shadow)
  {
    forall k | k in m
      ensures n[k].kind == m[k].kind
    {
      assert SameRecord(m[k], n[k]);
    }
  }

  lemma {:induction false} SameClientele(m: Entities, n: Entities, clients: map<ClientId, Client>, adrift: set<Key>)
    requires SameRecords(m, n) && Clientele(m, clients, adrift)
    ensures Clientele(n, clients, adrift)
  {
    forall k | k in n
      ensures OwnedAt(n[k], clients, adrift, k)
    {
      assert SameRecord(m[k], n[k]) && OwnedAt(m[k], clients, adrift, k);
    }
    forall c, h
      ensures NamesAt(n, clients, adrift, c, h)
    {
      assert NamesAt(m, clients, adrift, c, h);
      if c in clients && h in clients[c].handles && clients[c].handles[h] in m {
        assert SameRecord(m[clients[c].handles[h]], n[clients[c].handles[h]]);
      }
    }
  }

  /** An operation that queues positions of entities still held, and messages. */
  ghost predicate Alike(s: State, t: State) {
    && SameRecords(s.byKey, t.byKey)
    && t == s.(byKey := t.byKey, moves := t.moves, outbound := t.outbound)
    && (forall p: Place :: GivenBack(t.outbound, p) <==> GivenBack(s.outbound, p))
    && (forall p :: p in t.moves ==> p in s.moves || Held(s, p))
  }

  /** A place an entity not given back is found at. */
  ghost predicate Held(s: State, p: Place) {
    p in s.byId && s.byId[p] in s.byKey && !s.byKey[s.byId[p]].doomed
  }

  lemma {:induction false} AlikeRegional(s: State, t: State, owed: set<Place>)
    requires Regional(s, owed) && Alike(s, t)
    ensures Regional(t, owed)
  {
    forall k | k in t.byKey
      ensures LocatedAt(t.byKey[k], t, k)
    {
      assert LocatedAt(s.byKey[k], s, k) && SameRecord(s.byKey[k], t.byKey[k]);
    }
    forall p | p in t.byId
      ensures t.byId[p] in t.byKey && t.byKey[t.byId[p]].id == Some(p.1) && t.byKey[t.byId[p]].region == p.0
    {
      assert SameRecord(s.byKey[s.byId[p]], t.byKey[s.byId[p]]);
    }
    forall p | p in t.moves
      ensures !GivenBack(t.outbound, p) && p in t.announced
    {
      if p !in s.moves {
        assert Held(s, p) && LocatedAt(s.byKey[s.byId[p]], s, s.byId[p]);
      }
    }
  }

  lemma {:induction false} AlikeKeeps(s: State, t: State, sl: Slack)
    requires Inv(s, sl) && Alike(s, t)
    ensures Inv(t, sl)
  {
    SameFamily(s.byKey, t.byKey, s.next, sl.loose);
    SameClientele(s.byKey, t.byKey, s.clients, sl.adrift);
    SameCounts(s.byKey, t.byKey);
    AlikeRegional(s, t, sl.owed);
  }

  lemma {:induction false} AlikeChain(s: State, t: State, u: State)
    requires Alike(s, t) && Alike(t, u)
    ensures Alike(s, u)
  {
    forall k | k in s.byKey
      ensures SameRecord(s.byKey[k], u.byKey[k])
    {
      assert SameRecord(s.byKey[k], t.byKey[k]) && SameRecord(t.byKey[k], u.byKey[k]);
    }
    forall p | p in u.moves
      ensures p in s.moves || Held(s, p)
    {
      if p !in t.moves {
        assert Held(t, p) && SameRecord(s.byKey[s.byId[p]], t.byKey[s.byId[p]]);
      }
    }
  }

  /** What is said of regions reads neither clients nor transits. */
  lemma {:induction false} SameRegional(s: State, t: State, owed: set<Place>)
    requires Regional(s, owed)
    requires t.byKey == s.byKey && t.byId == s.byId && t.moves == s.moves && t.outbound == s.outbound
    requires t.announced == s.announced && t.removed == s.removed && t.answered == s.answered
    ensures Regional(t, owed)
  {
    forall k | k in t.byKey
      ensures LocatedAt(t.byKey[k], t, k)
    {
      assert LocatedAt(s.byKey[k], s, k);
    }
  }

  lemma {:induction false} TransitsAside(s: State, sl: Slack, transits: seq<Transit>)
    requires Inv(s, sl)
    ensures Inv(s.(transits := transits), sl)
  {
    SameRegional(s, s.(transits := transits), sl.owed);
  }

  /** Rewriting one entity's record. */
  lemma {:induction false} PutAlike(s: State, k: Key, e: Entity)
    requires k in s.byKey && SameRecord(s.byKey[k], e)
    ensures Alike(s, Put(s, k, e))
  {
  }

  lemma {:induction false} QueueAlike(s: State, p: Place, to: Pos3)
    requires Held(s, p)
    ensures Alike(s, s.(moves := s.moves[p := to]))
  {
  }

  lemma {:induction false} MessageAlike(s: State, said: seq<Outgoing>)
    requires forall i :: 0 <= i < |said| ==> !said[i].Despawn?
    ensures Alike(s, s.(outbound := s.outbound + said))
  {
    forall p: Place
      ensures GivenBack(s.outbound + said, p) <==> GivenBack(s.outbound, p)
    {
    }
  }

  lemma {:induction false} SetPositionAlike(s: State, k: Key, to: Pos3)
    requires Located(s)
    ensures Alike(s, SetPosition(s, k, to))
  {
    if k in s.byKey && !s.byKey[k].doomed {
      if s.byKey[k].id.Some? {
        assert LocatedAt(s.byKey[k], s, k);
        QueueAlike(s, (s.byKey[k].region, s.byKey[k].id.value), to);
      } else {
        PutAlike(s, k, s.byKey[k].(pending := Some(to)));
      }
    }
  }

  lemma {:induction false} SetPositionsAlike(s: State, sl: Slack, moves: seq<(Key, Pos3)>)
    requires Inv(s, sl)
    ensures Alike(s, SetPositions(s, moves))
  {
    if moves != [] {
      var n := |moves| - 1;
      var t := SetPositions(s, moves[..n]);
      SetPositionsAlike(s, sl, moves[..n]);
      AlikeKeeps(s, t, sl);
      SetPositionAlike(t, moves[n].0, moves[n].1);
      AlikeChain(s, t, SetPositions(s, moves));
    }
  }

  lemma {:induction false} HoldMovesAlike(s: State, moves: seq<(Key, WorldPos)>)
    ensures Alike(s, HoldMoves(s, moves))
  {
    if moves != [] {
      var n := |moves| - 1;
      var t := HoldMoves(s, moves[..n]);
      HoldMovesAlike(s, moves[..n]);
      HoldMoveAlike(t, moves[n].0, moves[n].1);
      AlikeChain(s, t, HoldMoves(s, moves));
    }
  }

  lemma {:induction false} HoldMoveAlike(s: State, k: Key, to: WorldPos)
    ensures Alike(s, HoldMove(s, k, to))
  {
    if k in s.byKey && s.byKey[k].transition.Some? {
      PutAlike(s, k, HoldMove(s, k, to).byKey[k]);
    }
  }

  lemma {:induction false} PositionsKeep(s: State, sl: Slack, moves: seq<(Key, WorldPos)>, frame: Framing)
    requires Inv(s, sl)
    ensures Alike(s, SetWorldPositions(s, moves, frame)) && Inv(SetWorldPositions(s, moves, frame), sl)
  {
    var t := HoldMoves(s, moves);
    HoldMovesAlike(s, moves);
    AlikeKeeps(s, t, sl);
    SetPositionsAlike(t, sl, Local(s, moves, frame));
    AlikeChain(s, t, SetWorldPositions(s, moves, frame));
    AlikeKeeps(s, SetWorldPositions(s, moves, frame), sl);
  }

  lemma {:induction false} EntityMessageAlike(s: State, c: ClientId, h: Handle, body: Body)
    ensures Alike(s, EntityMessage(s, c, h, body))
  {
    var key := KeyOf(s, c, h);
    if key.Some? && key.value in s.byKey {
      var k, e := key.value, s.byKey[key.value];
      if e.transition.Some? {
        PutAlike(s, k, EntityMessage(s, c, h, body).byKey[k]);
      } else {
        var said := Put(s, k, e.(standing := Some(body)));
        PutAlike(s, k, e.(standing := Some(body)));
        if e.id.Some? {
          MessageAlike(said, [Message(e.region, e.id.value, body)]);
          AlikeChain(s, said, EntityMessage(s, c, h, body));
        }
      }
    }
  }
}
