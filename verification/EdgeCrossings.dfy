/** When a teleport starts and what it starts, when it is given up, and what a word does. */
module EdgeCrossings {
  import opened Numbers
  import opened Config
  import opened WorldFrame
  import opened EdgeState
  import opened EdgeInvariant
  import opened EdgeSteps
  import opened EdgeTeleports
  import opened EdgeReports
  import opened EdgeRun
  import opened EdgeWords
  import opened EdgeTransit
  import opened EdgeTracks
  import opened EdgeTold

  // ----- starting -----

  /** `k` has set out for `dest`: it waits for a copy, in its own role, for its own client and
      under its own name, that `dest` has been asked for at `at`, until `deadline`. */
  ghost predicate SetOut(s: State, t: State, k: Key, dest: Region, at: Pos3, deadline: nat) {
    && k in s.byKey && k in t.byKey && s.next in t.byKey && s.byKey[k].transition.None?
    && t.byKey[k] == s.byKey[k].(transition := Some(Transition(s.next, dest, None, [])))
    && (var e, copy := s.byKey[k], t.byKey[s.next];
        && copy.copyOf == Some(k) && copy.region == dest && copy.id.None? && copy.handle.None?
        && copy.kind == e.kind && copy.client == e.client && copy.name == e.name && !copy.doomed
        && Spawn(dest, s.next, e.kind, at, e.name) in t.outbound)
    && Transit(k, s.next, deadline) in t.transits
  }

  /** Everybody but `k` and the copy is as before, and nothing is queued but the one spawn. */
  ghost predicate OnlyIt(s: State, t: State, k: Key) {
    && t.byKey.Keys == s.byKey.Keys + {s.next} && |t.outbound| == |s.outbound| + 1 && s.outbound <= t.outbound
    && (forall j :: j in s.byKey && j != k ==> t.byKey[j] == s.byKey[j])
    && t.byId == s.byId && t.moves == s.moves
  }

  lemma {:induction false} Starts(s: State, k: Key, dest: Region, at: Pos3, deadline: nat)
    requires s.next !in s.byKey && MayTeleport(s, k, dest, true)
    ensures SetOut(s, BeginTeleport(s, k, dest, at, true, deadline), k, dest, at, deadline)
  {
    var t := BeginTeleport(s, k, dest, at, true, deadline);
    assert t.outbound[|s.outbound|] == Spawn(dest, s.next, s.byKey[k].kind, at, s.byKey[k].name);
    assert t.transits[|s.transits|] == Transit(k, s.next, deadline);
  }

  lemma {:induction false} StartsAlone(s: State, k: Key, dest: Region, at: Pos3, deadline: nat)
    requires s.next !in s.byKey && MayTeleport(s, k, dest, true)
    ensures OnlyIt(s, BeginTeleport(s, k, dest, at, true, deadline), k)
  {
  }

  /** A teleport starts exactly when the entity is held, not given back, not in transit, not
      already there and allowed; otherwise nothing changes. */
  lemma {:induction false} StartsIff(s: State, k: Key, dest: Region, at: Pos3, allowed: bool, deadline: nat)
    requires Inv(s, Settled())
    ensures var t := BeginTeleport(s, k, dest, at, allowed, deadline);
      if k in s.byKey && !s.byKey[k].doomed && s.byKey[k].transition.None? && s.byKey[k].region != dest && allowed
      then SetOut(s, t, k, dest, at, deadline) && OnlyIt(s, t, k)
      else t == s
  {
    NextIsFresh(s.byKey, s.next);
    if MayTeleport(s, k, dest, allowed) {
      Starts(s, k, dest, at, deadline);
      StartsAlone(s, k, dest, at, deadline);
    }
  }

  /** Reaching a side of the box starts a teleport into the region beyond it, at the point
      there, exactly when there is another region, the game allows it, and the entity is no
      shadow, not given back and not already in transit. */
  lemma {:induction false} CrossesIff(s: State, place: Place, beyond: Option<(Region, Pos3)>, allowed: bool,
      deadline: nat)
    requires Inv(s, Settled()) && place in s.byId
    ensures var k, t := s.byId[place], BoundaryCollision(s, place, beyond, allowed, deadline);
      && k in s.byKey
      && if beyond.Some? && beyond.value.0 != place.0 && allowed && !s.byKey[k].kind.Shadow? && !s.byKey[k].doomed
           && s.byKey[k].transition.None?
         then SetOut(s, t, k, beyond.value.0, beyond.value.1, deadline) && OnlyIt(s, t, k)
         else t == s
  {
    var k := s.byId[place];
    assert Cast(s.byKey[k]);
    if beyond.Some? {
      StartsIff(s, k, beyond.value.0, beyond.value.1, allowed, deadline);
    }
  }

  /** A client's teleport starts under a handle of its own, onto the map and otherwise as any
      does. */
  lemma {:induction false} ClientStartsIff(s: State, c: ClientId, h: Handle, dest: Option<(Region, Pos3)>,
      allowed: bool, deadline: nat)
    requires Inv(s, Settled())
    ensures var t, key := ClientTeleported(s, c, h, dest, allowed, deadline), KeyOf(s, c, h);
      if key.Some? && dest.Some? && allowed && key.value in s.byKey && !s.byKey[key.value].doomed
        && s.byKey[key.value].transition.None? && s.byKey[key.value].region != dest.value.0
      then SetOut(s, t, key.value, dest.value.0, dest.value.1, deadline) && OnlyIt(s, t, key.value)
      else t == s
  {
    if KeyOf(s, c, h).Some? && dest.Some? {
      StartsIff(s, KeyOf(s, c, h).value, dest.value.0, dest.value.1, allowed, deadline);
    }
  }

  // ----- asking -----

  /** A new entity of a client or of nobody, unanswered, in the region and role it was asked
      for in and under a name of its own, its spawn queued with where it is to stand. */
  ghost predicate Entered(s: State, t: State, client: Option<ClientId>, handle: Option<Handle>, region: Region,
      at: Pos3, kind: Kind)
  {
    && s.next !in s.byKey && t.byKey.Keys == s.byKey.Keys + {s.next}
    && (forall j :: j in s.byKey ==> t.byKey[j] == s.byKey[j])
    && (var e := t.byKey[s.next];
        && e.client == client && e.handle == handle && e.region == region && e.kind == kind && e.name == s.next
        && e.id.None? && !e.doomed && e.copyOf.None? && e.transition.None? && e.pending.None? && e.standing.None?)
    && t.outbound == s.outbound + [Spawn(region, s.next, kind, at, s.next)]
    && (handle.Some? ==> client.Some? && KeyOf(t, client.value, handle.value) == Some(s.next))
  }

  /** So is whatever is asked for under the next key, once nobody has it. */
  lemma {:induction false} AskedEnters(s: State, client: Option<ClientId>, handle: Option<Handle>, region: Region,
      at: Pos3, kind: Kind)
    requires s.next !in s.byKey && (handle.Some? ==> client.Some? && client.value in s.clients)
    ensures Entered(s, AskFor(s, client, handle, region, at, kind, None, None), client, handle, region, at, kind)
  {
  }

  lemma {:induction false} GameEnters(s: State, client: Option<ClientId>, region: Region, at: Pos3, kind: Kind)
    requires Inv(s, Settled())
    ensures Entered(s, Step(s, GameSpawn(client, region, at, kind)), client, None, region, at, kind)
  {
    NextIsFresh(s.byKey, s.next);
    AskedEnters(s, client, None, region, at, kind);
  }

  /** A client's spawn is taken unless it is of a shadow, under a handle in use, or off the map;
      refused, it changes nothing. */
  lemma {:induction false} ClientEntersIff(s: State, c: ClientId, h: Handle, located: Option<(Region, Pos3)>,
      kind: Kind)
    requires Inv(s, Settled()) && c in s.clients
    ensures var t := ClientSpawned(s, c, h, located, kind);
      if kind != Shadow && h !in s.clients[c].handles && located.Some?
      then Entered(s, t, Some(c), Some(h), located.value.0, located.value.1, kind)
      else t == s
  {
    NextIsFresh(s.byKey, s.next);
    if kind != Shadow && h !in s.clients[c].handles && located.Some? {
      AskedEnters(s, Some(c), Some(h), located.value.0, located.value.1, kind);
    }
  }

  // ----- giving up -----

  /** No two entries of the list wait for one copy, and each waits for one that was minted. */
  ghost predicate OneEach(transits: seq<Transit>, next: Key) {
    && (forall i, j :: 0 <= i < j < |transits| ==> transits[i].to != transits[j].to)
    && (forall x :: x in transits ==> x.to < next)
  }

  lemma {:induction false} WithoutKeepsOne(transits: seq<Transit>, to: Key, next: Key)
    requires OneEach(transits, next)
    ensures OneEach(Without(transits, to), next)
  {
    if transits != [] {
      var n := |transits| - 1;
      WithoutKeepsOne(transits[..n], to, next);
      WithoutHolds(transits[..n], to);
      Apiece(transits, Without(transits[..n], to), next);
    }
  }

  lemma {:induction false} DueKeepsOne(transits: seq<Transit>, now: nat, due: bool, next: Key)
    requires OneEach(transits, next)
    ensures OneEach(Due(transits, now, due), next)
  {
    if transits != [] {
      var n := |transits| - 1;
      DueKeepsOne(transits[..n], now, due, next);
      forall x
        ensures x in Due(transits[..n], now, due) ==> x in transits[..n]
      {
        DueHolds(transits[..n], now, due, x);
      }
      Apiece(transits, Due(transits[..n], now, due), next);
    }
  }

  /** Part of all but the last, and the last. */
  lemma {:induction false} Apiece(transits: seq<Transit>, part: seq<Transit>, next: Key)
    requires transits != [] && OneEach(transits, next) && OneEach(part, next)
    requires forall x :: x in part ==> x in transits[..|transits| - 1]
    ensures OneEach(part + [transits[|transits| - 1]], next)
  {
    forall i | 0 <= i < |part|
      ensures part[i].to != transits[|transits| - 1].to
    {
      assert part[i] in part;
      var j :| 0 <= j < |transits| - 1 && transits[..|transits| - 1][j] == part[i];
      assert transits[j] == part[i];
    }
  }

  lemma {:induction false} AnnouncedOne(s: State, place: Place, token: Key, frame: Framing)
    requires Inv(s, Settled()) && Answers(s, place, token) && OneEach(s.transits, s.next)
    ensures OneEach(Added(s, place, token, frame).transits, s.next)
  {
    WithoutKeepsOne(s.transits, token, s.next);
    if token in s.byKey && s.byKey[token].copyOf.Some? {
      var from := s.byKey[token].copyOf.value;
      assert LocatedAt(s.byKey[token], s, token) && MintedAt(s.byKey[token], s.next, token);
      if from in s.byKey {
        CompletionIs(s, place, from, token, frame);
        RemapRecord(s, place, from, token);
      } else {
        NeverHeardOf(s, place);
        OrphanIs(s, place, from, token, frame);
      }
    }
  }

  lemma {:induction false} SetsOutOne(s: State, e: Event)
    requires OneEach(s.transits, s.next) && (e.TeleportAsked? || e.BoxReached?)
    ensures OneEach(Step(s, e).transits, Step(s, e).next)
  {
    match e
    case TeleportAsked(c, h, dest, allowed, deadline) =>
      if KeyOf(s, c, h).Some? && dest.Some? {
        BeginOne(s, KeyOf(s, c, h).value, dest.value.0, dest.value.1, allowed, deadline);
      }
    case BoxReached(place, beyond, allowed, deadline) =>
      if place in s.byId && beyond.Some? {
        BeginOne(s, s.byId[place], beyond.value.0, beyond.value.1, allowed, deadline);
      }
  }

  lemma {:induction false} BeginOne(s: State, k: Key, dest: Region, at: Pos3, allowed: bool, deadline: nat)
    requires OneEach(s.transits, s.next)
    ensures var t := BeginTeleport(s, k, dest, at, allowed, deadline); OneEach(t.transits, t.next)
  {
  }

  lemma {:induction false} StepKeepsOne(s: State, e: Event)
    requires Inv(s, Settled()) && Enabled(s, e) && OneEach(s.transits, s.next)
    ensures OneEach(Step(s, e).transits, Step(s, e).next)
  {
    NextGrows(s, e);
    if e.TeleportAsked? || e.BoxReached? {
      SetsOutOne(s, e);
    } else if e.Announced? {
      AnnouncedOne(s, e.place, e.token, e.frame);
    } else if e.Expired? {
      DueKeepsOne(s.transits, e.now, false, s.next);
      ExpireAllTransits(s.(transits := Due(s.transits, e.now, false)), Due(s.transits, e.now, true), e.frame);
    } else if e.Said? {
      EntityMessageAlike(s, e.c, e.h, e.body);
    } else {
      StepQuiet(s, e);
    }
  }

  lemma {:induction false} RunKeepsOne(s: State, events: seq<Event>)
    requires Inv(s, Settled()) && Legal(s, events) && OneEach(s.transits, s.next)
    ensures OneEach(End(s, events).transits, End(s, events).next)
    decreases |events|
  {
    if events != [] {
      StepKeeps(s, events[0]);
      StepKeepsOne(s, events[0]);
      RunKeepsOne(Step(s, events[0]), events[1..]);
    }
  }

  /** A sweep gives up exactly what is due: an entity known to its region is in the list under
      one deadline, and is in transit no more, its copy forgotten, if and only if that has
      passed. */
  lemma {:induction false} GivenUpIff(s: State, now: nat, frame: Framing, k: Key, p: Place) returns (d: nat)
    requires Reachable(s) && StandsAt(s, k, p) && s.byKey[k].transition.Some?
    ensures var t, to := Expire(s, now, frame), s.byKey[k].transition.value.to;
      && Transit(k, to, d) in s.transits && (forall x :: x in s.transits && x.to == to ==> x == Transit(k, to, d))
      && StandsAt(t, k, p)
      && (if d <= now then t.byKey[k].transition.None? && to !in t.byKey else t.byKey[k] == s.byKey[k])
  {
    var to := s.byKey[k].transition.value.to;
    d := InFlightIsListed(s, k);
    ReachableKeeps(s);
    var events :| Legal(Start(), events) && End(Start(), events) == s;
    StartKeeps();
    RunKeepsOne(Start(), events);
    OneEntry(s.transits, s.next, Transit(k, to, d));
    var due := Due(s.transits, now, true);
    var u := s.(transits := Due(s.transits, now, false));
    TransitsAside(s, Settled(), u.transits);
    ExpireAllTells(u, due, frame, k, to, p, s.byKey[k]);
    DueAmong(s.transits, now, k, to, d);
  }

  lemma {:induction false} OneEntry(transits: seq<Transit>, next: Key, t: Transit)
    requires OneEach(transits, next) && t in transits
    ensures t.to < next && forall x :: x in transits && x.to == t.to ==> x == t
  {
    var i :| 0 <= i < |transits| && transits[i] == t;
    forall x | x in transits && x.to == t.to
      ensures x == t
    {
      var j :| 0 <= j < |transits| && transits[j] == x;
    }
  }

  lemma {:induction false} DueAmong(transits: seq<Transit>, now: nat, k: Key, to: Key, d: nat)
    requires Transit(k, to, d) in transits
    requires forall x :: x in transits && x.from == k && x.to == to ==> x.deadline == d
    ensures Among(Due(transits, now, true), k, to) <==> d <= now
  {
    var due := Due(transits, now, true);
    DueHolds(transits, now, true, Transit(k, to, d));
    if d <= now {
      var i :| 0 <= i < |due| && due[i] == Transit(k, to, d);
      assert due[i].from == k && due[i].to == to;
    }
    if Among(due, k, to) {
      var i :| 0 <= i < |due| && due[i].from == k && due[i].to == to;
      DueHolds(transits, now, true, due[i]);
      assert due[i] in due;
    }
  }

  // ----- words -----

  /** A client's word to its entity: held behind what is held already if the entity is in
      transit; otherwise remembered as what stands, and told to its region, if that knows it,
      after all it was told before. Nobody else hears it. */
  lemma {:induction false} WordReaches(s: State, c: ClientId, h: Handle, body: Body, p: Place)
    requires Inv(s, Settled())
    ensures var t, key := EntityMessage(s, c, h, body), KeyOf(s, c, h);
      && (key.None? ==> t == s)
      && (key.Some? ==>
            && key.value in s.byKey && key.value in t.byKey
            && (if s.byKey[key.value].transition.Some?
                then
                  && t.byKey[key.value].transition.Some? && t.byKey[key.value].standing == s.byKey[key.value].standing
                  && t.byKey[key.value].transition.value.heldMessages ==
                       s.byKey[key.value].transition.value.heldMessages + [body]
                  && Told(t.outbound, p) == Told(s.outbound, p)
                else
                  && t.byKey[key.value].standing == Some(body) && t.byKey[key.value].transition.None?
                  && Told(t.outbound, p) == Told(s.outbound, p)
                       + (if StandsAt(s, key.value, p) then [body] else [])))
  {
    if KeyOf(s, c, h).Some? {
      HandledIsPlain(s, c, h);
      var e := s.byKey[KeyOf(s, c, h).value];
      if e.transition.None? && e.id.Some? {
        ToldElsewhere(s.outbound, e.region, e.id.value, [body], p);
        assert Messages(e.region, e.id.value, [body]) == [Message(e.region, e.id.value, body)];
      }
    }
  }
}
