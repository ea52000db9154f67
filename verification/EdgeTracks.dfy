/** What follows an entity on its way: its teleport is in the list, its copy is its own, and
    its region hears nothing for it until it lands or stays. */
module EdgeTracks {
  import opened Numbers
  import opened Config
  import opened WorldFrame
  import opened EdgeState
  import opened EdgeInvariant
  import opened EdgeSteps
  import opened EdgeTeleports
  import opened EdgeReports
  import opened EdgeRun
  import opened EdgeWords
  import opened EdgeTransit

  // ----- handlers that start, end and say nothing -----

  /** The same entity as far as its region, its role and its copies go. */
  ghost predicate SameKin(e: Entity, f: Entity) {
    f.copyOf == e.copyOf && f.region == e.region && f.id == e.id && f.kind == e.kind && f.name == e.name
  }

  /** Whoever is held was held as the same, or is new. */
  ghost predicate KinAt(m: Entities, n: Entities, next: Key, x: Key) {
    x in n ==> (x in m && SameKin(m[x], n[x])) || next <= x
  }

  ghost predicate Kin(m: Entities, n: Entities, next: Key) {
    forall x {:trigger KinAt(m, n, next, x)} :: KinAt(m, n, next, x)
  }

  ghost predicate NoWords(said: seq<Outgoing>) {
    forall i :: 0 <= i < |said| ==> !said[i].Message?
  }

  /** More of the queue, and no word in it. */
  ghost predicate Wordless(before: seq<Outgoing>, after: seq<Outgoing>) {
    before <= after && NoWords(after[|before|..])
  }

  /** The keys spawns were queued under, in order. */
  function Tokens(out: seq<Outgoing>): seq<Key> {
    if out == [] then []
    else
      var last := out[|out| - 1];
      Tokens(out[..|out| - 1]) + (if last.Spawn? then [last.token] else [])
  }

  /** The keys from one to another. */
  function Span(a: Key, b: Key): (ks: seq<Key>)
    requires a <= b
    ensures |ks| == b - a
  {
    seq(b - a, i requires 0 <= i < b - a => a + i)
  }

  lemma {:induction false} TokensMore(out: seq<Outgoing>, said: seq<Outgoing>)
    ensures Tokens(out + said) == Tokens(out) + Tokens(said)
  {
    if said == [] {
      assert out + [] == out;
    } else {
      var n := |said| - 1;
      TokensMore(out, said[..n]);
      assert (out + said)[..|out + said| - 1] == out + said[..n];
    }
  }

  lemma {:induction false} SpansJoin(a: Key, b: Key, c: Key)
    requires a <= b <= c
    ensures Span(a, b) + Span(b, c) == Span(a, c)
  {
  }

  /** Its spawn has been queued, to its region, in its role and under its name. */
  ghost predicate WasAsked(e: Entity, k: Key, out: seq<Outgoing>) {
    exists at :: Spawn(e.region, k, e.kind, at, e.name) in out
  }

  ghost predicate NewlyAsked(s: State, t: State, x: Key) {
    x in t.byKey && x !in s.byKey ==> x < t.next && WasAsked(t.byKey[x], x, t.outbound)
  }

  /** Whoever is new was asked for, and every key minted since has had one spawn queued. */
  ghost predicate Asks(s: State, t: State) {
    && s.next <= t.next && s.outbound <= t.outbound
    && Tokens(t.outbound) == Tokens(s.outbound) + Span(s.next, t.next)
    && forall x {:trigger NewlyAsked(s, t, x)} :: NewlyAsked(s, t, x)
  }

  lemma {:induction false} AsksChain(s: State, t: State, u: State)
    requires Asks(s, t) && Asks(t, u) && Kin(t.byKey, u.byKey, t.next)
    ensures Asks(s, u)
  {
    SpansJoin(s.next, t.next, u.next);
    var before := Tokens(s.outbound);
    assert before + Span(s.next, t.next) + Span(t.next, u.next) == before + Span(s.next, u.next);
    forall x: Key
      ensures NewlyAsked(s, u, x)
    {
      assert NewlyAsked(s, t, x) && NewlyAsked(t, u, x) && KinAt(t.byKey, u.byKey, t.next, x);
      if x in u.byKey && x !in s.byKey && x in t.byKey {
        var at :| Spawn(t.byKey[x].region, x, t.byKey[x].kind, at, t.byKey[x].name) in t.outbound;
        assert Spawn(u.byKey[x].region, x, u.byKey[x].kind, at, u.byKey[x].name) in u.outbound;
      }
    }
  }

  /** Nobody new, and nothing queued but what asks for nobody. */
  lemma {:induction false} AsksNobody(s: State, t: State, said: seq<Outgoing>)
    requires t.next == s.next && t.outbound == s.outbound + said && forall i :: 0 <= i < |said| ==> !said[i].Spawn?
    requires t.byKey.Keys <= s.byKey.Keys
    ensures Asks(s, t)
  {
    TokensMore(s.outbound, said);
    NoTokens(said);
  }

  lemma {:induction false} AsksOne(s: State, t: State, region: Region, kind: Kind, at: Pos3, name: nat)
    requires t.outbound == s.outbound + [Spawn(region, s.next, kind, at, name)] && t.next == s.next + 1
    requires t.byKey.Keys == s.byKey.Keys + {s.next}
    requires t.byKey[s.next].region == region && t.byKey[s.next].kind == kind && t.byKey[s.next].name == name
    ensures Asks(s, t)
  {
    TokensMore(s.outbound, [Spawn(region, s.next, kind, at, name)]);
    assert [Spawn(region, s.next, kind, at, name)][..0] == [];
    assert t.outbound[|s.outbound|] == Spawn(region, s.next, kind, at, name);
  }

  lemma {:induction false} NoTokens(said: seq<Outgoing>)
    requires forall i :: 0 <= i < |said| ==> !said[i].Spawn?
    ensures Tokens(said) == []
  {
    if said != [] {
      NoTokens(said[..|said| - 1]);
    }
  }

  /** No teleport starts or ends, no word is said, and everybody stays who they are. */
  ghost predicate Quiet(s: State, t: State) {
    && t.transits == s.transits && Kin(s.byKey, t.byKey, s.next) && Wordless(s.outbound, t.outbound) && Asks(s, t)
  }

  lemma {:induction false} WordlessChain(a: seq<Outgoing>, b: seq<Outgoing>, c: seq<Outgoing>)
    requires Wordless(a, b) && Wordless(b, c)
    ensures Wordless(a, c)
  {
    forall i | 0 <= i < |c[|a|..]|
      ensures !c[|a|..][i].Message?
    {
      if |a| + i < |b| {
        assert c[|a|..][i] == b[|a|..][i];
      } else {
        assert c[|a|..][i] == c[|b|..][|a| + i - |b|];
      }
    }
  }

  lemma {:induction false} QuietChain(s: State, t: State, u: State)
    requires Quiet(s, t) && Quiet(t, u)
    ensures Quiet(s, u)
  {
    WordlessChain(s.outbound, t.outbound, u.outbound);
    AsksChain(s, t, u);
    forall x
      ensures KinAt(s.byKey, u.byKey, s.next, x)
    {
      assert KinAt(s.byKey, t.byKey, s.next, x) && KinAt(t.byKey, u.byKey, t.next, x);
    }
  }

  lemma {:induction false} QuietSelf(s: State)
    ensures Quiet(s, s)
  {
    AsksNobody(s, s, []);
  }

  lemma {:induction false} ForgetQuiet(s: State, k: Key)
    ensures Quiet(s, Forget(s, k))
  {
    AsksNobody(s, Forget(s, k), []);
  }

  lemma {:induction false} ReleaseQuiet(s: State, k: Key)
    ensures Quiet(s, Release(s, k))
  {
    AsksNobody(s, Release(s, k), Release(s, k).outbound[|s.outbound|..]);
  }

  lemma {:induction false} ReleaseAllQuiet(s: State, ks: seq<Key>)
    ensures Quiet(s, ReleaseAll(s, ks))
  {
    if ks != [] {
      var t := ReleaseAll(s, ks[..|ks| - 1]);
      ReleaseAllQuiet(s, ks[..|ks| - 1]);
      ReleaseQuiet(t, ks[|ks| - 1]);
      QuietChain(s, t, ReleaseAll(s, ks));
    }
  }

  lemma {:induction false} AskForQuiet(s: State, client: Option<ClientId>, handle: Option<Handle>, region: Region,
      at: Pos3, kind: Kind, shadowOf: Option<Key>, name: Option<nat>)
    ensures Quiet(s, AskFor(s, client, handle, region, at, kind, shadowOf, name))
  {
    var t := AskFor(s, client, handle, region, at, kind, shadowOf, name);
    AsksOne(s, t, region, kind, at, t.byKey[s.next].name);
  }

  lemma {:induction false} AskShadowQuiet(s: State, owner: Key, client: Option<ClientId>, region: Region, at: Pos3)
    ensures Quiet(s, AskShadow(s, owner, client, region, at))
  {
    AskForQuiet(s, client, None, region, at, Shadow, Some(owner), None);
  }

  lemma {:induction false} SetPositionQuiet(s: State, k: Key, to: Pos3)
    ensures Quiet(s, SetPosition(s, k, to))
  {
    AsksNobody(s, SetPosition(s, k, to), []);
  }

  lemma {:induction false} SetPositionsQuiet(s: State, moves: seq<(Key, Pos3)>)
    ensures Quiet(s, SetPositions(s, moves))
  {
    if moves != [] {
      var n := |moves| - 1;
      var t := SetPositions(s, moves[..n]);
      SetPositionsQuiet(s, moves[..n]);
      SetPositionQuiet(t, moves[n].0, moves[n].1);
      QuietChain(s, t, SetPositions(s, moves));
    }
  }

  lemma {:induction false} HoldMovesQuiet(s: State, moves: seq<(Key, WorldPos)>)
    ensures Quiet(s, HoldMoves(s, moves))
  {
    if moves != [] {
      var n := |moves| - 1;
      var t := HoldMoves(s, moves[..n]);
      HoldMovesQuiet(s, moves[..n]);
      QuietChain(s, t, HoldMoves(s, moves));
    }
  }

  lemma {:induction false} MovedQuiet(s: State, moves: seq<(Key, WorldPos)>, frame: Framing)
    ensures Quiet(s, SetWorldPositions(s, moves, frame))
  {
    HoldMovesQuiet(s, moves);
    SetPositionsQuiet(HoldMoves(s, moves), Local(s, moves, frame));
    QuietChain(s, HoldMoves(s, moves), SetWorldPositions(s, moves, frame));
  }

  lemma {:induction false} ShadowedQuiet(s: State, owner: Key, client: Option<ClientId>, existing: seq<(Key, Region)>,
      reached: seq<(Region, Pos3)>)
    ensures Quiet(s, Shadowed(s, owner, client, existing, reached).0)
  {
    if reached != [] {
      var n := |reached| - 1;
      var t := Shadowed(s, owner, client, existing, reached[..n]).0;
      ShadowedQuiet(s, owner, client, existing, reached[..n]);
      var kept := InRegion(existing, reached[n].0);
      if kept.Some? {
        SetPositionQuiet(t, kept.value, reached[n].1);
      } else {
        AskShadowQuiet(t, owner, client, reached[n].0, reached[n].1);
      }
      QuietChain(s, t, Shadowed(s, owner, client, existing, reached).0);
    }
  }

  lemma {:induction false} RelistQuiet(s: State, owner: Key, keep: seq<Key>)
    ensures Quiet(s, WithShadows(s, owner, keep))
  {
    AsksNobody(s, WithShadows(s, owner, keep), []);
  }

  lemma {:induction false} ViewReachedQuiet(s: State, place: Place, reached: Option<seq<(Region, Pos3)>>)
    ensures Quiet(s, ViewCollision(s, place, reached))
  {
    if place in s.byId && s.byId[place] in s.byKey && s.byKey[s.byId[place]].shadowOf.None? && reached.Some? {
      var owner, e := s.byId[place], s.byKey[s.byId[place]];
      var existing := Existing(s.byKey, e.shadows);
      var r := Shadowed(s, owner, e.client, existing, reached.value);
      var u := ReleaseAll(r.0, Unkept(existing, r.1));
      ShadowedQuiet(s, owner, e.client, existing, reached.value);
      ReleaseAllQuiet(r.0, Unkept(existing, r.1));
      QuietChain(s, r.0, u);
      RelistQuiet(u, owner, r.1);
      QuietChain(s, u, WithShadows(u, owner, r.1));
    } else {
      QuietSelf(s);
    }
  }

  lemma {:induction false} ViewLeftQuiet(s: State, place: Place)
    ensures Quiet(s, ViewCleared(s, place))
  {
    if place in s.byId && s.byId[place] in s.byKey {
      var owner, e := s.byId[place], s.byKey[s.byId[place]];
      var t := Put(s, owner, e.(shadows := []));
      ReleaseAllQuiet(t, e.shadows);
      QuietChain(s, t, ViewCleared(s, place));
    }
  }

  lemma {:induction false} FinishQuiet(s: State, t: State, c: ClientId)
    requires Quiet(s, t)
    ensures Quiet(s, FinishLeaving(t, c))
  {
    AsksNobody(t, FinishLeaving(t, c), []);
    QuietChain(s, t, FinishLeaving(t, c));
  }

  lemma {:induction false} GoneQuiet(s: State, place: Place)
    ensures Quiet(s, Removed(s, place))
  {
    if place in s.byId && s.byId[place] in s.byKey {
      var k, e := s.byId[place], s.byKey[s.byId[place]];
      var heard := s.(removed := s.removed + {place});
      var gone := Forget(heard, k);
      ForgetQuiet(heard, k);
      assert Quiet(s, gone);
      if e.shadowOf.None? {
        ReleaseAllQuiet(gone, e.shadows);
        QuietChain(s, gone, ReleaseAll(gone, e.shadows));
        if e.client.Some? {
          FinishQuiet(s, ReleaseAll(gone, e.shadows), e.client.value);
        }
      } else {
        UnlistQuiet(s, gone, e.shadowOf.value, k);
      }
    }
  }

  lemma {:induction false} UnlistQuiet(s: State, gone: State, owner: Key, k: Key)
    requires Quiet(s, gone)
    ensures Quiet(s,
        if owner in gone.byKey then WithShadows(gone, owner, Unlisted(gone.byKey[owner].shadows, k)) else gone)
  {
    if owner in gone.byKey {
      QuietChain(s, gone, WithShadows(gone, owner, Unlisted(gone.byKey[owner].shadows, k)));
    }
  }

  lemma {:induction false} SweptQuiet(s: State, c: ClientId, keys: seq<Key>)
    ensures Quiet(s, Sweep(s, c, keys))
  {
    if c in s.clients && !s.clients[c].leaving {
      var t := s.(clients := s.clients[c := s.clients[c].(leaving := true)]);
      ReleaseAllQuiet(t, keys);
      QuietChain(s, t, ReleaseAll(t, keys));
      FinishQuiet(s, ReleaseAll(t, keys), c);
    } else {
      QuietSelf(s);
    }
  }

  /** Whatever starts or ends a teleport, or says a word. */
  predicate Eventful(e: Event) {
    e.Said? || e.TeleportAsked? || e.BoxReached? || e.Announced? || e.Expired?
  }

  lemma {:induction false} StepQuiet(s: State, e: Event)
    requires !Eventful(e)
    ensures Quiet(s, Step(s, e))
  {
    match e
    case ClientSpawn(c, h, located, kind) =>
      if located.Some? {
        AskForQuiet(s, Some(c), Some(h), located.value.0, located.value.1, kind, None, None);
      }
    case GameSpawn(client, region, at, kind) => AskForQuiet(s, client, None, region, at, kind, None, None);
    case Moved(moves, frame) => MovedQuiet(s, moves, frame);
    case Despawned(k) => ReleaseQuiet(s, k);
    case ClientDespawn(c, h) =>
      if KeyOf(s, c, h).Some? {
        ReleaseQuiet(s, KeyOf(s, c, h).value);
      }
    case ViewReached(place, reached) => ViewReachedQuiet(s, place, reached);
    case ViewLeft(place) => ViewLeftQuiet(s, place);
    case Gone(place) => GoneQuiet(s, place);
    case Swept(c, keys) => SweptQuiet(s, c, keys);
    case _ =>
  }

  // ----- the others -----

  lemma {:induction false} SaidKin(s: State, c: ClientId, h: Handle, body: Body, x: Key)
    ensures KinAt(s.byKey, EntityMessage(s, c, h, body).byKey, s.next, x)
  {
    EntityMessageAlike(s, c, h, body);
    if x in s.byKey {
      assert SameRecord(s.byKey[x], EntityMessage(s, c, h, body).byKey[x]);
    }
  }

  lemma {:induction false} BeginKin(s: State, k: Key, dest: Region, at: Pos3, allowed: bool, deadline: nat)
    ensures var t := BeginTeleport(s, k, dest, at, allowed, deadline);
      Kin(s.byKey, t.byKey, s.next) && Wordless(s.outbound, t.outbound) && s.transits <= t.transits && Asks(s, t)
  {
    var t := BeginTeleport(s, k, dest, at, allowed, deadline);
    if MayTeleport(s, k, dest, allowed) {
      AsksOne(s, t, dest, s.byKey[k].kind, at, s.byKey[k].name);
    } else {
      AsksNobody(s, s, []);
    }
  }

  lemma {:induction false} SetsOutKin(s: State, e: Event)
    requires e.TeleportAsked? || e.BoxReached?
    ensures var t := Step(s, e);
      Kin(s.byKey, t.byKey, s.next) && Wordless(s.outbound, t.outbound) && s.transits <= t.transits && Asks(s, t)
  {
    AsksNobody(s, s, []);
    match e
    case TeleportAsked(c, h, dest, allowed, deadline) =>
      if KeyOf(s, c, h).Some? && dest.Some? {
        BeginKin(s, KeyOf(s, c, h).value, dest.value.0, dest.value.1, allowed, deadline);
      }
    case BoxReached(place, beyond, allowed, deadline) =>
      if place in s.byId && beyond.Some? {
        BeginKin(s, s.byId[place], beyond.value.0, beyond.value.1, allowed, deadline);
      }
  }

  lemma {:induction false} RemappedKin(s: State, place: Place, from: Key, to: Key, x: Key)
    requires from in s.byKey && to in s.byKey && from != to && s.byKey[to].handle.None? && x != to
    ensures KinAt(s.byKey, Remapped(s, place, from, to).byKey, s.next, x) && from !in Remapped(s, place, from, to).byKey
  {
    LandedIs(s, place, from, to);
    ReleaseAllLessens(Landed(s, place, from, to), s.byKey[from].shadows, x);
    ReleaseAllLessens(Landed(s, place, from, to), s.byKey[from].shadows, from);
  }

  lemma {:induction false} CompletedKin(s: State, place: Place, from: Key, to: Key, frame: Framing, x: Key)
    requires Inv(s, Settled()) && Answers(s, place, to) && from in s.byKey && to in s.byKey
    requires s.byKey[to].copyOf == Some(from)
    requires x != to
    ensures KinAt(s.byKey, Added(s, place, to, frame).byKey, s.next, x) && from !in Added(s, place, to, frame).byKey
  {
    assert Cast(s.byKey[to]);
    CompletionIs(s, place, from, to, frame);
    RemappedKin(s, place, from, to, x);
  }

  lemma {:induction false} OrphanKin(s: State, place: Place, from: Key, to: Key, frame: Framing, x: Key)
    requires Inv(s, Settled()) && Answers(s, place, to) && from !in s.byKey && to in s.byKey
    requires s.byKey[to].copyOf == Some(from)
    requires x != to
    ensures KinAt(s.byKey, Added(s, place, to, frame).byKey, s.next, x)
  {
    assert LocatedAt(s.byKey[to], s, to) && MintedAt(s.byKey[to], s.next, to);
    NeverHeardOf(s, place);
    OrphanIs(s, place, from, to, frame);
  }

  lemma {:induction false} AnnouncedKin(s: State, place: Place, token: Key, frame: Framing, x: Key)
    requires Inv(s, Settled()) && Answers(s, place, token) && x != token
    ensures KinAt(s.byKey, Added(s, place, token, frame).byKey, s.next, x)
  {
    if token in s.byKey && s.byKey[token].copyOf.Some? {
      if s.byKey[token].copyOf.value in s.byKey {
        CompletedKin(s, place, s.byKey[token].copyOf.value, token, frame, x);
      } else {
        OrphanKin(s, place, s.byKey[token].copyOf.value, token, frame, x);
      }
    }
  }

  lemma {:induction false} ExpireOneKin(s: State, from: Key, to: Key, frame: Framing)
    ensures Kin(s.byKey, ExpireOne(s, from, to, frame).byKey, s.next) && ExpireOne(s, from, to, frame).next == s.next
  {
    if !(to in s.byKey && s.byKey[to].id.Some?) && from in s.byKey && s.byKey[from].transition.Some?
      && s.byKey[from].transition.value.to == to
    {
      var dropped := Forget(Put(s, from, s.byKey[from].(transition := None)), to);
      assert Kin(s.byKey, dropped.byKey, s.next);
      if s.byKey[from].transition.value.heldMove.Some? {
        var moves := [(from, s.byKey[from].transition.value.heldMove.value)];
        MovedQuiet(dropped, moves, frame);
        MovedFrame(dropped, moves, frame);
        KinChain(s.byKey, dropped.byKey, SetWorldPositions(dropped, moves, frame).byKey, s.next);
      }
    }
  }

  lemma {:induction false} KinChain(m: Entities, n: Entities, o: Entities, next: Key)
    requires Kin(m, n, next) && Kin(n, o, next)
    ensures Kin(m, o, next)
  {
    forall x
      ensures KinAt(m, o, next, x)
    {
      assert KinAt(m, n, next, x) && KinAt(n, o, next, x);
    }
  }

  lemma {:induction false} ExpireAllKin(s: State, due: seq<Transit>, frame: Framing)
    ensures Kin(s.byKey, ExpireAll(s, due, frame).byKey, s.next) && ExpireAll(s, due, frame).next == s.next
  {
    if due != [] {
      var n := |due| - 1;
      var t := ExpireAll(s, due[..n], frame);
      ExpireAllKin(s, due[..n], frame);
      ExpireOneKin(t, due[n].from, due[n].to, frame);
      KinChain(s.byKey, t.byKey, ExpireAll(s, due, frame).byKey, s.next);
    }
  }

  /** Nobody but the entity a report is about becomes somebody else. */
  lemma {:induction false} StepKin(s: State, e: Event, x: Key)
    requires Inv(s, Settled()) && Enabled(s, e) && (e.Announced? ==> e.token != x)
    ensures KinAt(s.byKey, Step(s, e).byKey, s.next, x)
  {
    match e
    case Said(c, h, body) => SaidKin(s, c, h, body, x);
    case TeleportAsked(_, _, _, _, _) => SetsOutKin(s, e);
    case BoxReached(_, _, _, _) => SetsOutKin(s, e);
    case Announced(place, token, frame) => AnnouncedKin(s, place, token, frame, x);
    case Expired(now, frame) =>
      ExpireAllKin(s.(transits := Due(s.transits, now, false)), Due(s.transits, now, true), frame);
    case _ => StepQuiet(s, e);
  }

  // ----- giving up all that are due -----

  lemma {:induction false} DueHolds(transits: seq<Transit>, now: nat, due: bool, x: Transit)
    ensures x in Due(transits, now, due) <==> x in transits && (x.deadline <= now) == due
  {
    if transits != [] {
      var n := |transits| - 1;
      DueHolds(transits[..n], now, due, x);
      assert transits == transits[..n] + [transits[n]];
    }
  }

  lemma {:induction false} OneMoveOthers(s: State, j: Key, at: WorldPos, frame: Framing, x: Key)
    requires x != j
    ensures var t := SetWorldPositions(s, [(j, at)], frame);
      (x in t.byKey <==> x in s.byKey) && (x in s.byKey ==> t.byKey[x] == s.byKey[x])
  {
    var moves := [(j, at)];
    assert moves[..0] == [];
    assert HoldMoves(s, moves) == HoldMove(s, j, at);
    var local := Local(s, moves, frame);
    assert Local(s, moves[..0], frame) == [];
    if local != [] {
      assert local[..0] == [];
      assert SetPositions(HoldMove(s, j, at), local) == SetPosition(HoldMove(s, j, at), local[0].0, local[0].1);
    }
  }

  /** A teleport given up touches the one that left and its copy, and nobody else. */
  lemma {:induction false} ExpireOneOthers(s: State, j: Key, y: Key, frame: Framing, x: Key)
    requires x != j && (x != y || (x in s.byKey && s.byKey[x].id.Some?))
    ensures var t := ExpireOne(s, j, y, frame);
      (x in t.byKey <==> x in s.byKey) && (x in s.byKey ==> t.byKey[x] == s.byKey[x])
  {
    if !(y in s.byKey && s.byKey[y].id.Some?) && j in s.byKey && s.byKey[j].transition.Some?
      && s.byKey[j].transition.value.to == y
    {
      var dropped := Forget(Put(s, j, s.byKey[j].(transition := None)), y);
      if s.byKey[j].transition.value.heldMove.Some? {
        OneMoveOthers(dropped, j, s.byKey[j].transition.value.heldMove.value, frame, x);
      }
    }
  }
}
