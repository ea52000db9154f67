/** What starting, completing and giving up a teleport keep. */
module EdgeTeleports {
  import opened Numbers
  import opened Config
  import opened WorldFrame
  import opened EdgeState
  import opened EdgeInvariant
  import opened EdgeSteps

  // ----- rewriting one entity's transition -----

  /** The same entity to every map, but for its transition. */
  ghost predicate SameButTransition(e: Entity, f: Entity) {
    f == e.(transition := f.transition)
  }

  lemma {:induction false} TransitionKeeps(s: State, sl: Slack, k: Key, f: Entity)
    requires Inv(s, sl) && k in s.byKey && SameButTransition(s.byKey[k], f)
    requires Cast(f) && (f.transition.Some? ==> f.transition.value.to != k)
    requires forall x :: x in s.byKey ==> s.byKey[x].copyOf != Some(k)
    ensures Inv(Put(s, k, f), sl)
  {
    TransitionFamily(s.byKey, s.next, sl.loose, k, f);
    TransitionClientele(s.byKey, s.clients, sl.adrift, k, f);
    TransitionRegional(s, sl.owed, k, f);
    DoomCounts(s.byKey, k, f);
  }

  lemma {:induction false} TransitionFamily(m: Entities, next: Key, loose: set<Key>, k: Key, f: Entity)
    requires Family(m, next, loose) && k in m && SameButTransition(m[k], f)
    requires Cast(f) && (f.transition.Some? ==> f.transition.value.to != k)
    requires forall x :: x in m ==> m[x].copyOf != Some(k)
    ensures Family(m[k := f], next, loose)
  {
    var n := m[k := f];
    forall j | j in n
      ensures MintedAt(n[j], next, j) && Cast(n[j]) && CopiesAt(n, j) && AttachedAt(n, loose, j)
      ensures Shades(n, j, n[j].shadows)
    {
      assert MintedAt(m[j], next, j) && Cast(m[j]) && CopiesAt(m, j) && AttachedAt(m, loose, j);
      assert Shades(m, j, m[j].shadows);
    }
    forall a, b | a in n && b in n
      ensures Apart(n, a, b)
    {
      assert Apart(m, a, b);
    }
  }

  lemma {:induction false} TransitionRegional(s: State, owed: set<Place>, k: Key, f: Entity)
    requires Regional(s, owed) && k in s.byKey && SameButTransition(s.byKey[k], f)
    ensures Regional(Put(s, k, f), owed)
  {
    var t := Put(s, k, f);
    forall j | j in t.byKey
      ensures LocatedAt(t.byKey[j], t, j)
    {
      assert LocatedAt(s.byKey[j], s, j);
    }
  }

  lemma {:induction false} TransitionClientele(m: Entities, clients: map<ClientId, Client>, adrift: set<Key>, k: Key,
      f: Entity)
    requires Clientele(m, clients, adrift) && k in m && SameButTransition(m[k], f)
    ensures Clientele(m[k := f], clients, adrift)
  {
    var n := m[k := f];
    forall j | j in n
      ensures OwnedAt(n[j], clients, adrift, j)
    {
      assert OwnedAt(m[j], clients, adrift, j);
    }
    forall c, h
      ensures NamesAt(n, clients, adrift, c, h)
    {
      assert NamesAt(m, clients, adrift, c, h);
    }
  }

  // ----- starting -----

  /** An entity not in transit has no copy. */
  lemma {:induction false} NotInTransit(m: Entities, k: Key, x: Key)
    requires Copying(m) && k in m && m[k].transition.None? && x in m
    ensures m[x].copyOf != Some(k)
  {
    assert CopiesAt(m, x);
  }

  /** Only one entity that is no copy and has none bears a name. */
  lemma {:induction false} NameIsSole(m: Entities, k: Key, x: Key)
    requires Copying(m) && Distinct(m) && k in m && x in m && x != k
    requires m[k].transition.None? && m[k].copyOf.None?
    ensures m[x].name != m[k].name
  {
    assert Apart(m, x, k);
    NotInTransit(m, k, x);
  }

  lemma {:induction false} BeginKeeps(s: State, k: Key, dest: Region, at: Pos3, allowed: bool, deadline: nat)
    requires Inv(s, Settled())
    requires k in s.byKey ==> !s.byKey[k].kind.Shadow? && s.byKey[k].copyOf.None?
    ensures Inv(BeginTeleport(s, k, dest, at, allowed, deadline), Settled())
  {
    if MayTeleport(s, k, dest, allowed) {
      var e := s.byKey[k];
      var f := e.(transition := Some(Transition(s.next, dest, None, [])));
      var copy, what := CopyFor(s, e, k, dest), Spawn(dest, s.next, e.kind, at, e.name);
      SetsOut(s, k, f);
      CopyKeeps(Put(s, k, f), k, copy, what);
      TransitsAside(WithCopy(Put(s, k, f), copy, what), Settled(), s.transits + [Transit(k, s.next, deadline)]);
      BeginIs(s, k, dest, at, allowed, deadline);
    }
  }

  function CopyFor(s: State, e: Entity, k: Key, dest: Region): Entity {
    Asked(s.next, e.client, None, dest, e.kind, None, Some(e.name)).(copyOf := Some(k))
  }

  /** An entity that sets out: nobody else bears its name, or copies it yet. */
  lemma {:induction false} SetsOut(s: State, k: Key, f: Entity)
    requires Inv(s, Settled()) && k in s.byKey && SameButTransition(s.byKey[k], f)
    requires s.byKey[k].transition.None? && s.byKey[k].copyOf.None? && !s.byKey[k].kind.Shadow?
    requires f.transition.Some? && f.transition.value.to == s.next
    ensures s.next !in s.byKey && k < s.next && f.name < s.next && Inv(Put(s, k, f), Settled())
    ensures forall x :: x in s.byKey && x != k ==> s.byKey[x].name != f.name
  {
    NextIsFresh(s.byKey, s.next);
    assert Cast(s.byKey[k]) && MintedAt(s.byKey[k], s.next, k);
    forall x | x in s.byKey
      ensures s.byKey[x].copyOf != Some(k) && (x != k ==> s.byKey[x].name != f.name)
    {
      NotInTransit(s.byKey, k, x);
      if x != k {
        NameIsSole(s.byKey, k, x);
      }
    }
    TransitionKeeps(s, Settled(), k, f);
  }

  /** Marking the one that leaves and adding the copy, in one step or two. */
  lemma {:induction false} BeginIs(s: State, k: Key, dest: Region, at: Pos3, allowed: bool, deadline: nat)
    requires MayTeleport(s, k, dest, allowed) && s.next !in s.byKey
    ensures var e := s.byKey[k];
      BeginTeleport(s, k, dest, at, allowed, deadline) ==
        WithCopy(Put(s, k, e.(transition := Some(Transition(s.next, dest, None, [])))), CopyFor(s, e, k, dest),
                 Spawn(dest, s.next, e.kind, at, e.name)).(transits := s.transits + [Transit(k, s.next, deadline)])
  {
    var e := s.byKey[k];
    var f := e.(transition := Some(Transition(s.next, dest, None, [])));
    assert BeginTeleport(s, k, dest, at, allowed, deadline).byKey == s.byKey[k := f][s.next := CopyFor(s, e, k, dest)];
  }

  /** The state once the destination has been asked for a copy. */
  function WithCopy(s: State, copy: Entity, what: Outgoing): State {
    s.(byKey := s.byKey[s.next := copy], clients := Enrolled(s.clients, s.next, copy),
       observers := if copy.kind.Observer? then s.observers + 1 else s.observers,
       outbound := s.outbound + [what], next := s.next + 1)
  }

  lemma {:induction false} CopyKeeps(s: State, k: Key, copy: Entity, what: Outgoing)
    requires Inv(s, Settled()) && k in s.byKey && s.next !in s.byKey && !what.Despawn?
    requires Cast(copy) && MintedAt(copy, s.next + 1, s.next) && copy.id.None? && !copy.kind.Shadow?
    requires copy.copyOf == Some(k)
    requires s.byKey[k].transition.Some? && s.byKey[k].transition.value.to == s.next && !s.byKey[k].kind.Shadow?
    requires copy.client == s.byKey[k].client && copy.name == s.byKey[k].name && copy.shadows == []
    requires copy.kind == s.byKey[k].kind
    requires forall x :: x in s.byKey && x != k ==> s.byKey[x].name != copy.name
    ensures Inv(WithCopy(s, copy, what), Settled())
  {
    var t := WithCopy(s, copy, what);
    assert OwnedAt(s.byKey[k], s.clients, {}, k);
    CopyFamily(s.byKey, s.next, copy);
    InsertClientele(s.byKey, s.next, s.clients, {}, copy);
    EnrolledReports(s.clients, s.next, copy, s.nextClient, s.disconnected);
    InsertCounts(s.byKey, s.next, copy, s.observers, s.shadows);
    InsertRegional(s, t, {}, copy, what);
  }

  lemma {:induction false} CopyFamily(m: Entities, next: Key, copy: Entity)
    requires Family(m, next, {}) && next !in m && Cast(copy) && MintedAt(copy, next + 1, next) && copy.shadows == []
    requires !copy.kind.Shadow? && CopiesAt(m[next := copy], next)
    requires forall a :: a in m && m[a].name == copy.name ==> copy.copyOf == Some(a)
    ensures Family(m[next := copy], next + 1, {})
  {
    InsertFamily(m, next, {}, copy);
    var n := m[next := copy];
    forall j | j in n
      ensures AttachedAt(n, {}, j)
    {
      assert AttachedAt(n, {} + {next}, j);
    }
  }

  // ----- giving up -----

  lemma {:induction false} ForgetUnanswered(s: State, k: Key)
    requires Inv(s, Settled()) && (k in s.byKey ==> s.byKey[k].id.None?)
    ensures Inv(Forget(s, k), Settled())
  {
    if k in s.byKey {
      assert Cast(s.byKey[k]);
      ForgetKeeps(s, Settled(), k);
      OwesNothing(Settled(), s.byKey[k]);
    }
  }

  lemma {:induction false} ForgetCommutes(s: State, from: Key, to: Key, f: Entity)
    requires from in s.byKey && from != to
    ensures Forget(Put(s, from, f), to) == Put(Forget(s, to), from, f)
  {
    if to in s.byKey {
      assert s.byKey[from := f] - {to} == (s.byKey - {to})[from := f];
    }
  }

  /** Nobody copies an entity once the one it waits for is forgotten. */
  lemma {:induction false} UncopiedKeeps(s: State, from: Key, to: Key)
    requires Inv(s, Settled()) && from in s.byKey && from != to && (to in s.byKey ==> s.byKey[to].id.None?)
    requires s.byKey[from].transition.Some? && s.byKey[from].transition.value.to == to
    ensures Inv(Put(Forget(s, to), from, s.byKey[from].(transition := None)), Settled())
  {
    var less, f := Forget(s, to), s.byKey[from].(transition := None);
    assert Cast(s.byKey[from]);
    ForgetUnanswered(s, to);
    forall x | x in less.byKey
      ensures less.byKey[x].copyOf != Some(from)
    {
      assert CopiesAt(s.byKey, x);
    }
    TransitionKeeps(less, Settled(), from, f);
  }

  /** `from` waits for a copy no region has answered for. */
  predicate Unconfirmed(s: State, from: Key, to: Key) {
    && (to in s.byKey ==> s.byKey[to].id.None?)
    && from in s.byKey && s.byKey[from].transition.Some? && s.byKey[from].transition.value.to == to
  }

  lemma {:induction false} ExpireOneKeeps(s: State, from: Key, to: Key, frame: Framing)
    requires Inv(s, Settled())
    ensures Inv(ExpireOne(s, from, to, frame), Settled())
  {
    if Unconfirmed(s, from, to) {
      var e, t := s.byKey[from], s.byKey[from].transition.value;
      assert MintedAt(e, s.next, from);
      UncopiedKeeps(s, from, to);
      ForgetCommutes(s, from, to, e.(transition := None));
      HandOver(Forget(Put(s, from, e.(transition := None)), to), from, t, e, frame);
      GivesUp(s, from, to, frame);
    }
  }

  /** What giving up one teleport comes to, where there is one to give up. */
  lemma {:induction false} GivesUp(s: State, from: Key, to: Key, frame: Framing)
    requires Unconfirmed(s, from, to)
    ensures var e := s.byKey[from];
      ExpireOne(s, from, to, frame) ==
        HandedOver(Forget(Put(s, from, e.(transition := None)), to), from, e.transition.value, e, frame)
  {
  }

  function HandedOver(s: State, from: Key, t: Transition, e: Entity, frame: Framing): State {
    var moved := if t.heldMove.Some? then SetWorldPositions(s, [(from, t.heldMove.value)], frame) else s;
    if e.id.Some? then moved.(outbound := moved.outbound + Messages(e.region, e.id.value, t.heldMessages)) else moved
  }

  /** Handing a held move and held words to the one that stayed keeps the invariant. */
  lemma {:induction false} HandOver(s: State, from: Key, t: Transition, e: Entity, frame: Framing)
    requires Inv(s, Settled())
    ensures Inv(HandedOver(s, from, t, e, frame), Settled())
  {
    var moved := if t.heldMove.Some? then SetWorldPositions(s, [(from, t.heldMove.value)], frame) else s;
    if t.heldMove.Some? {
      PositionsKeep(s, Settled(), [(from, t.heldMove.value)], frame);
    }
    if e.id.Some? {
      SaidKeeps(moved, Messages(e.region, e.id.value, t.heldMessages));
    }
  }

  lemma {:induction false} ExpireAllKeeps(s: State, due: seq<Transit>, frame: Framing)
    requires Inv(s, Settled())
    ensures Inv(ExpireAll(s, due, frame), Settled())
  {
    if due != [] {
      var n := |due| - 1;
      ExpireAllKeeps(s, due[..n], frame);
      ExpireOneKeeps(ExpireAll(s, due[..n], frame), due[n].from, due[n].to, frame);
    }
  }

  // ----- arriving -----

  /** A region says a token once, from where it was asked, with an id it never used. */
  ghost predicate Answers(s: State, place: Place, token: Key) {
    && place !in s.announced && token !in s.answered
    && (token in s.byKey ==> s.byKey[token].region == place.0)
  }

  function Heard(s: State, place: Place, token: Key): State {
    s.(announced := s.announced + {place}, answered := s.answered + {token})
  }

  /** A token nobody is waiting for: its entity is given straight back. */
  lemma {:induction false} StrangerKeeps(s: State, sl: Slack, place: Place, token: Key)
    requires Inv(s, sl) && place !in s.announced && token !in s.byKey
    ensures Inv(Tell(Heard(s, place, token), Despawn(place.0, place.1)), sl)
  {
    var t := Tell(Heard(s, place, token), Despawn(place.0, place.1));
    DespawnGivesBack(s.outbound, place);
    forall k | k in t.byKey
      ensures LocatedAt(t.byKey[k], t, k)
    {
      assert LocatedAt(s.byKey[k], s, k);
    }
  }

  /** An entity's id arrives, and with it what it is no longer a copy of. */
  function Arrived(e: Entity, id: Id, handle: Option<Handle>): Entity {
    e.(id := Some(id), pending := None, copyOf := None, handle := handle)
  }

  lemma {:induction false} ArriveFamily(m: Entities, next: Key, loose: set<Key>, k: Key, id: Id, handle: Option<Handle>)
    requires Family(m, next, loose) && k in m && m[k].id.None?
    requires m[k].copyOf.Some? ==> m[k].copyOf.value !in m
    requires m[k].kind.Shadow? ==> handle.None?
    ensures Family(m[k := Arrived(m[k], id, handle)], next, loose)
  {
    var n := m[k := Arrived(m[k], id, handle)];
    forall j | j in n
      ensures MintedAt(n[j], next, j) && Cast(n[j]) && CopiesAt(n, j) && AttachedAt(n, loose, j)
      ensures Shades(n, j, n[j].shadows)
    {
      assert MintedAt(m[j], next, j) && Cast(m[j]) && CopiesAt(m, j) && AttachedAt(m, loose, j);
      assert Shades(m, j, m[j].shadows);
    }
    forall a, b | a in n && b in n
      ensures Apart(n, a, b)
    {
      assert Apart(m, a, b);
    }
  }

  lemma {:induction false} ArriveRegional(s: State, t: State, owed: set<Place>, k: Key, place: Place,
      handle: Option<Handle>)
    requires Regional(s, owed) && k in s.byKey && s.byKey[k].id.None? && s.byKey[k].region == place.0
    requires !s.byKey[k].doomed
    requires place !in s.announced
    requires t.byKey == s.byKey[k := Arrived(s.byKey[k], place.1, handle)] && t.byId == s.byId[place := k]
    requires t.outbound == s.outbound && t.moves == s.moves && t.removed == s.removed
    requires t.announced == s.announced + {place} && t.answered == s.answered + {k}
    ensures Regional(t, owed)
  {
    forall j | j in t.byKey
      ensures LocatedAt(t.byKey[j], t, j)
    {
      if j != k {
        assert LocatedAt(s.byKey[j], s, j);
      }
    }
  }

  /** A spawn confirmed, nothing to replace. */
  lemma {:induction false} ConfirmedKeeps(s: State, place: Place, token: Key)
    requires Inv(s, Settled()) && Answers(s, place, token) && token in s.byKey && s.byKey[token].copyOf.None?
    ensures var e := s.byKey[token];
      var t := Put(Heard(s, place, token), token, Arrived(e, place.1, e.handle)).(byId := s.byId[place := token]);
      Inv(t, Settled()) && Held(t, place)
  {
    var e := s.byKey[token];
    var t := Put(Heard(s, place, token), token, Arrived(e, place.1, e.handle)).(byId := s.byId[place := token]);
    assert LocatedAt(e, s, token) && Cast(e);
    ArriveFamily(s.byKey, s.next, {}, token, place.1, e.handle);
    ArriveClientele(s.byKey, s.clients, token, place.1);
    ArriveRegional(s, t, {}, token, place, e.handle);
    DoomCounts(s.byKey, token, t.byKey[token]);
  }

  lemma {:induction false} ArriveClientele(m: Entities, clients: map<ClientId, Client>, k: Key, id: Id)
    requires Clientele(m, clients, {}) && k in m
    ensures Clientele(m[k := Arrived(m[k], id, m[k].handle)], clients, {})
  {
    var n := m[k := Arrived(m[k], id, m[k].handle)];
    forall j | j in n
      ensures OwnedAt(n[j], clients, {}, j)
    {
      assert OwnedAt(m[j], clients, {}, j);
    }
    forall c, h
      ensures NamesAt(n, clients, {}, c, h)
    {
      assert NamesAt(m, clients, {}, c, h);
    }
  }

  /** Queueing a move for a place that is held keeps the invariant. */
  lemma {:induction false} QueuedKeeps(s: State, sl: Slack, place: Place, to: Option<Pos3>)
    requires Inv(s, sl) && Held(s, place)
    ensures Inv(Queued(s, place, to), sl) && Held(Queued(s, place, to), place)
  {
    if to.Some? {
      QueueAlike(s, place, to.value);
      AlikeKeeps(s, Queued(s, place, to), sl);
    }
  }

  // ----- completing -----

  /** The copy takes its original's place: out of both maps, its handle carried over. */
  lemma {:induction false} DepartClientele(m: Entities, clients: map<ClientId, Client>, from: Key, to: Key, id: Id)
    requires Clientele(m, clients, {}) && from in m && to in m && from != to
    requires m[to].client == m[from].client && m[to].handle.None?
    ensures Clientele((m - {from})[to := Arrived(m[to], id, m[from].handle)], clients, {from})
  {
    var n := (m - {from})[to := Arrived(m[to], id, m[from].handle)];
    assert OwnedAt(m[from], clients, {}, from) && OwnedAt(m[to], clients, {}, to);
    forall j | j in n
      ensures OwnedAt(n[j], clients, {from}, j)
    {
      assert OwnedAt(m[j], clients, {}, j);
    }
    forall c, h
      ensures NamesAt(n, clients, {from}, c, h)
    {
      assert NamesAt(m, clients, {}, c, h);
    }
  }

  /** The destination's report, and the state it leaves once the original is out. */
  function Landed(s: State, place: Place, from: Key, to: Key): State
    requires from in s.byKey && to in s.byKey && from != to
  {
    Departed(Put(Heard(s, place, to), to,
        Arrived(s.byKey[to], place.1, s.byKey[to].handle)).(byId := s.byId[place := to]), from, to)
  }

  lemma {:induction false} LandedIs(s: State, place: Place, from: Key, to: Key)
    requires from in s.byKey && to in s.byKey && from != to && s.byKey[to].handle.None?
    ensures Landed(s, place, from, to).byKey ==
      (s.byKey - {from})[to := Arrived(s.byKey[to], place.1, s.byKey[from].handle)]
    ensures Landed(s, place, from, to).byId == s.byId[place := to] - PlaceOf(s.byKey[from])
  {
  }

  lemma {:induction false} DepartFamily(m: Entities, next: Key, from: Key, to: Key, id: Id)
    requires Family(m, next, {}) && from in m && to in m && from != to && m[to].copyOf == Some(from)
    ensures Family((m - {from})[to := Arrived(m[to], id, m[from].handle)], next, Of(m[from].shadows))
  {
    assert Cast(m[to]);
    RemoveFamily(m, next, {}, from);
    assert {} + Of(m[from].shadows) == Of(m[from].shadows);
    ArriveFamily(m - {from}, next, Of(m[from].shadows), to, id, m[from].handle);
  }

  lemma {:induction false} DepartCounts(m: Entities, from: Key, to: Key, id: Id, observers: int, shadows: int)
    requires Counted(m, observers, shadows) && from in m && to in m && from != to && !m[from].kind.Shadow?
    ensures Counted((m - {from})[to := Arrived(m[to], id, m[from].handle)],
        if m[from].kind.Unattended? then observers else observers - 1, shadows)
  {
    RemoveCounts(m, from, observers, shadows);
    DoomCounts(m - {from}, to, Arrived(m[to], id, m[from].handle));
  }

  /** A departure is owed its place, leaves its shadows loose and its handle adrift. */
  lemma {:induction false} DepartKeeps(s: State, place: Place, from: Key, to: Key)
    requires Inv(s, Settled()) && Answers(s, place, to) && from in s.byKey && to in s.byKey
    requires s.byKey[to].copyOf == Some(from)
    ensures from != to && s.byKey[to].handle.None?
    ensures Inv(Landed(s, place, from, to), Slack(Of(s.byKey[from].shadows), PlaceOf(s.byKey[from]), {from}))
    ensures Held(Landed(s, place, from, to), place)
  {
    var m := s.byKey;
    assert MintedAt(m[to], s.next, to) && Cast(m[to]) && CopiesAt(m, to) && LocatedAt(m[to], s, to);
    LandedIs(s, place, from, to);
    DepartFamily(m, s.next, from, to, place.1);
    DepartClientele(m, s.clients, from, to, place.1);
    DepartRegional(s, Landed(s, place, from, to), place, from, to);
    DepartCounts(m, from, to, place.1, s.observers, s.shadows);
  }

  lemma {:induction false} DepartRegional(s: State, d: State, place: Place, from: Key, to: Key)
    requires Regional(s, {}) && from in s.byKey && to in s.byKey && from != to
    requires place !in s.announced && s.byKey[to].id.None? && s.byKey[to].region == place.0 && !s.byKey[to].doomed
    requires d.byKey == (s.byKey - {from})[to := Arrived(s.byKey[to], place.1, s.byKey[from].handle)]
    requires d.byId == s.byId[place := to] - PlaceOf(s.byKey[from])
    requires d.outbound == s.outbound && d.moves == s.moves && d.removed == s.removed
    requires d.announced == s.announced + {place} && d.answered == s.answered + {to}
    ensures Regional(d, PlaceOf(s.byKey[from])) && Held(d, place)
  {
    assert LocatedAt(s.byKey[from], s, from);
    forall j | j in d.byKey
      ensures LocatedAt(d.byKey[j], d, j)
    {
      if j != to {
        assert LocatedAt(s.byKey[j], s, j);
      }
    }
  }

  /** Releasing entities without handles changes no handle index. */
  ghost predicate SameHandles(s: State, t: State) {
    t.clients.Keys == s.clients.Keys && forall c :: c in s.clients ==> t.clients[c].handles == s.clients[c].handles
  }

  lemma {:induction false} ReleaseAllHandles(s: State, ks: seq<Key>)
    requires Handleless(s, ks)
    ensures SameHandles(s, ReleaseAll(s, ks))
  {
    if ks != [] {
      var n := |ks| - 1;
      ReleaseAllHandles(s, ks[..n]);
      ReleaseAllLessens(s, ks[..n], ks[n]);
    }
  }

  /** The only handle adrift is the departed entity's own. */
  ghost predicate AdriftAt(clients: map<ClientId, Client>, from: Key, client: Option<ClientId>, handle: Option<Handle>,
      c: ClientId, h: Handle)
  {
    c in clients && h in clients[c].handles && clients[c].handles[h] == from ==> client == Some(c) && handle == Some(h)
  }

  ghost predicate OnlyAdrift(clients: map<ClientId, Client>, from: Key, client: Option<ClientId>,
      handle: Option<Handle>)
  {
    && (handle.Some? ==> client.Some?)
    && forall c, h {:trigger AdriftAt(clients, from, client, handle, c, h)} ::
         AdriftAt(clients, from, client, handle, c, h)
  }

  /** Nobody else bears this client's handle. */
  ghost predicate SoleBearer(m: Entities, client: Option<ClientId>, handle: Option<Handle>, k: Key) {
    forall j :: j in m && handle.Some? && m[j].client == client && m[j].handle == handle ==> j == k
  }

  lemma {:induction false} RehandledKeeps(s: State, loose: set<Key>, owed: set<Place>, client: Option<ClientId>,
      handle: Option<Handle>, from: Key, to: Key)
    requires Inv(s, Slack(loose, owed, {from})) && OnlyAdrift(s.clients, from, client, handle)
    requires from !in s.byKey && to in s.byKey && s.byKey[to].client == client && s.byKey[to].handle == handle
    requires SoleBearer(s.byKey, client, handle, to)
    ensures Inv(Rehandled(s, client, handle, from, to), Slack(loose, owed, {}))
  {
    var t := Rehandled(s, client, handle, from, to);
    assert OwnedAt(s.byKey[to], s.clients, {from}, to);
    RehandledClientele(s, t, client, handle, from, to);
  }

  lemma {:induction false} RehandledClientele(s: State, t: State, client: Option<ClientId>, handle: Option<Handle>,
      from: Key, to: Key)
    requires Clientele(s.byKey, s.clients, {from}) && OnlyAdrift(s.clients, from, client, handle)
    requires from !in s.byKey && to in s.byKey && s.byKey[to].client == client && s.byKey[to].handle == handle
    requires SoleBearer(s.byKey, client, handle, to)
    requires t == Rehandled(s, client, handle, from, to)
    ensures Clientele(t.byKey, t.clients, {})
  {
    assert OwnedAt(s.byKey[to], s.clients, {from}, to);
    forall j | j in t.byKey
      ensures OwnedAt(t.byKey[j], t.clients, {}, j)
    {
      var e := s.byKey[j];
      assert OwnedAt(e, s.clients, {from}, j);
      if e.handle.Some? {
        assert AdriftAt(s.clients, from, client, handle, e.client.value, e.handle.value);
      }
    }
    forall c, h
      ensures NamesAt(t.byKey, t.clients, {}, c, h)
    {
      assert NamesAt(s.byKey, s.clients, {from}, c, h) && AdriftAt(s.clients, from, client, handle, c, h);
    }
  }

  /** The origin's copy given back settles the place it is owed. */
  lemma {:induction false} GivenBackKeeps(s: State, place: Place, region: Region, id: Option<Id>)
    requires Inv(s, Slack({}, if id.Some? then {(region, id.value)} else {}, {})) && Held(s, place)
    requires id.Some? ==> (region, id.value) !in s.byId && (region, id.value) in s.announced
    ensures Inv(GivenBackAt(s, region, id), Settled()) && Held(GivenBackAt(s, region, id), place)
  {
    if id.Some? {
      var at := (region, id.value);
      var t := GivenBackAt(s, region, id);
      DespawnGivesBack(s.outbound, at);
      forall j | j in t.byKey
        ensures LocatedAt(t.byKey[j], t, j)
      {
        assert LocatedAt(s.byKey[j], s, j);
      }
    }
  }

  lemma {:induction false} SaidKeeps(s: State, said: seq<Outgoing>)
    requires Inv(s, Settled()) && forall i :: 0 <= i < |said| ==> !said[i].Despawn?
    ensures Inv(s.(outbound := s.outbound + said), Settled())
  {
    MessageAlike(s, said);
    AlikeKeeps(s, s.(outbound := s.outbound + said), Settled());
  }

  lemma {:induction false} ForwardedKeeps(s: State, place: Place, standing: Option<Body>, t: Option<Transition>,
      frame: Framing)
    requires Inv(s, Settled()) && Held(s, place)
    ensures Inv(Forwarded(s, place, standing, t, frame), Settled())
  {
    var repeated := if standing.Some? then Tell(s, Message(place.0, place.1, standing.value)) else s;
    if standing.Some? {
      SaidKeeps(s, [Message(place.0, place.1, standing.value)]);
    }
    if t.Some? {
      var to := if t.value.heldMove.Some? then frame(place.0, t.value.heldMove.value) else None;
      QueuedKeeps(repeated, Settled(), place, to);
      SaidKeeps(Queued(repeated, place, to), Messages(place.0, place.1, t.value.heldMessages));
    }
  }

  lemma {:induction false} StandingKeeps(s: State, k: Key, standing: Option<Body>)
    requires Inv(s, Settled()) && k in s.byKey
    ensures Inv(Put(s, k, s.byKey[k].(standing := standing)), Settled())
  {
    PutAlike(s, k, s.byKey[k].(standing := standing));
    AlikeKeeps(s, Put(s, k, s.byKey[k].(standing := standing)), Settled());
  }
}
