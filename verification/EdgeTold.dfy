/** What each end of a teleport is told, from its start to its completion or its deadline. */
module EdgeTold {
  import opened Numbers
  import opened Config
  import opened WorldFrame
  import opened EdgeState
  import opened EdgeInvariant
  import opened EdgeSteps
  import opened EdgeTeleports
  import opened EdgeReports
  import opened EdgeRun
  import opened EdgeWords
  import opened EdgeTransit
  import opened EdgeTracks

  // ----- words to one place -----

  /** The words of a queue that go to one entity of one region, in order. */
  function Told(out: seq<Outgoing>, p: Place): seq<Body> {
    if out == [] then []
    else
      var last := out[|out| - 1];
      Told(out[..|out| - 1], p) + (if last.Message? && (last.region, last.id) == p then [last.body] else [])
  }

  lemma {:induction false} ToldMore(out: seq<Outgoing>, said: seq<Outgoing>, p: Place)
    ensures Told(out + said, p) == Told(out, p) + Told(said, p)
  {
    if said == [] {
      assert out + [] == out;
    } else {
      var n := |said| - 1;
      ToldMore(out, said[..n], p);
      assert (out + said)[..|out + said| - 1] == out + said[..n];
    }
  }

  lemma {:induction false} ToldNothing(said: seq<Outgoing>, p: Place)
    requires NoWords(said)
    ensures Told(said, p) == []
  {
    if said != [] {
      ToldNothing(said[..|said| - 1], p);
    }
  }

  lemma {:induction false} ToldWordless(before: seq<Outgoing>, after: seq<Outgoing>, p: Place)
    requires Wordless(before, after)
    ensures Told(after, p) == Told(before, p)
  {
    ToldMore(before, after[|before|..], p);
    ToldNothing(after[|before|..], p);
    assert after == before + after[|before|..];
  }

  lemma {:induction false} ToldMessages(region: Region, id: Id, bodies: seq<Body>, p: Place)
    ensures Told(Messages(region, id, bodies), p) == if p == (region, id) then bodies else []
  {
    if bodies != [] {
      var n := |bodies| - 1;
      ToldMessages(region, id, bodies[..n], p);
      assert Messages(region, id, bodies)[..n] == Messages(region, id, bodies[..n]);
      assert bodies == bodies[..n] + [bodies[n]];
    }
  }

  lemma {:induction false} ToldElsewhere(out: seq<Outgoing>, region: Region, id: Id, bodies: seq<Body>, p: Place)
    ensures Told(out + Messages(region, id, bodies), p) ==
      if p == (region, id) then Told(out, p) + bodies else Told(out, p)
  {
    ToldMore(out, Messages(region, id, bodies), p);
    ToldMessages(region, id, bodies, p);
  }

  // ----- giving up all that are due -----

  /** An entity the edge knows at `p`. */
  ghost predicate StandsAt(s: State, k: Key, p: Place) {
    k in s.byKey && s.byKey[k].region == p.0 && s.byKey[k].id == Some(p.1)
  }

  /** Known at `p`, on its way to a copy no region has answered for. */
  ghost predicate Waiting(s: State, k: Key, to: Key, p: Place, e: Entity) {
    && StandsAt(s, k, p) && s.byKey[k] == e && e.transition.Some? && e.transition.value.to == to
    && (to in s.byKey ==> s.byKey[to].id.None?)
  }

  /** Its teleport given up: the same entity, no longer in transit, and no copy of it. */
  ghost predicate Rested(s: State, k: Key, to: Key, p: Place, e: Entity) {
    StandsAt(s, k, p) && to !in s.byKey && SameRecord(e.(transition := None), s.byKey[k])
  }

  /** Two entities known are known at different places. */
  lemma {:induction false} PlacesDiffer(s: State, j: Key, k: Key, p: Place)
    requires Inv(s, Settled()) && StandsAt(s, k, p) && j in s.byKey && j != k
    ensures s.byKey[j].id.Some? ==> (s.byKey[j].region, s.byKey[j].id.value) != p
  {
    assert LocatedAt(s.byKey[k], s, k) && LocatedAt(s.byKey[j], s, j);
  }

  /** Giving up somebody else's teleport. */
  lemma {:induction false} ExpireElse(s: State, j: Key, y: Key, frame: Framing, k: Key, p: Place)
    requires Inv(s, Settled()) && StandsAt(s, k, p) && j != k
    ensures Told(ExpireOne(s, j, y, frame).outbound, p) == Told(s.outbound, p)
    ensures StandsAt(ExpireOne(s, j, y, frame), k, p) && ExpireOne(s, j, y, frame).byKey[k] == s.byKey[k]
  {
    ExpireOneOthers(s, j, y, frame, k);
    if !(y in s.byKey && s.byKey[y].id.Some?) && j in s.byKey && s.byKey[j].transition.Some?
      && s.byKey[j].transition.value.to == y
    {
      assert MintedAt(s.byKey[j], s.next, j);
      PlacesDiffer(s, j, k, p);
      TimeoutIs(s, j, y, frame);
      if s.byKey[j].id.Some? {
        ToldElsewhere(s.outbound, s.byKey[j].region, s.byKey[j].id.value, s.byKey[j].transition.value.heldMessages, p);
      } else {
        assert s.outbound + [] == s.outbound;
      }
    }
  }

  lemma {:induction false} CopyStaysUnanswered(s: State, j: Key, y: Key, frame: Framing, to: Key)
    requires to < s.next && (to in s.byKey ==> s.byKey[to].id.None?)
    ensures to in ExpireOne(s, j, y, frame).byKey ==> to in s.byKey && ExpireOne(s, j, y, frame).byKey[to].id.None?
  {
    ExpireOneKin(s, j, y, frame);
    assert KinAt(s.byKey, ExpireOne(s, j, y, frame).byKey, s.next, to);
  }

  lemma {:induction false} WaitsOn(s: State, j: Key, y: Key, frame: Framing, k: Key, to: Key, p: Place, e: Entity)
    requires Inv(s, Settled()) && to < s.next && Waiting(s, k, to, p, e) && !(j == k && y == to)
    ensures Waiting(ExpireOne(s, j, y, frame), k, to, p, e)
    ensures Told(ExpireOne(s, j, y, frame).outbound, p) == Told(s.outbound, p)
  {
    if j != k {
      ExpireElse(s, j, y, frame, k, p);
      CopyStaysUnanswered(s, j, y, frame, to);
    }
  }

  lemma {:induction false} GivesUp(s: State, frame: Framing, k: Key, to: Key, p: Place, e: Entity)
    requires Inv(s, Settled()) && Waiting(s, k, to, p, e)
    ensures Rested(ExpireOne(s, k, to, frame), k, to, p, e)
    ensures Told(ExpireOne(s, k, to, frame).outbound, p) == Told(s.outbound, p) + e.transition.value.heldMessages
  {
    assert MintedAt(e, s.next, k);
    TimeoutIs(s, k, to, frame);
    ToldElsewhere(s.outbound, p.0, p.1, e.transition.value.heldMessages, p);
  }

  lemma {:induction false} RestsOn(s: State, j: Key, y: Key, frame: Framing, k: Key, to: Key, p: Place, e: Entity)
    requires Inv(s, Settled()) && to < s.next && Rested(s, k, to, p, e)
    ensures Rested(ExpireOne(s, j, y, frame), k, to, p, e)
    ensures Told(ExpireOne(s, j, y, frame).outbound, p) == Told(s.outbound, p)
  {
    if j != k {
      ExpireElse(s, j, y, frame, k, p);
      CopyStaysUnanswered(s, j, y, frame, to);
    }
  }

  ghost predicate Among(due: seq<Transit>, k: Key, to: Key) {
    exists i :: 0 <= i < |due| && due[i].from == k && due[i].to == to
  }

  lemma {:induction false} AmongNext(due: seq<Transit>, k: Key, to: Key)
    requires due != []
    ensures var n := |due| - 1;
      Among(due, k, to) <==> Among(due[..n], k, to) || (due[n].from == k && due[n].to == to)
  {
    var n := |due| - 1;
    if Among(due[..n], k, to) {
      var i :| 0 <= i < n && due[..n][i].from == k && due[..n][i].to == to;
      assert due[i].from == k;
    }
    if Among(due, k, to) && !(due[n].from == k && due[n].to == to) {
      var i :| 0 <= i < |due| && due[i].from == k && due[i].to == to;
      assert due[..n][i].from == k;
    }
  }

  /** Whatever else is due, an entity whose teleport is due is told what was held for it,
      once, and one whose teleport is not is told nothing. */
  lemma {:induction false} ExpireAllTells(s: State, due: seq<Transit>, frame: Framing, k: Key, to: Key, p: Place,
      e: Entity)
    requires Inv(s, Settled()) && to < s.next && Waiting(s, k, to, p, e)
    ensures var u := ExpireAll(s, due, frame);
      if Among(due, k, to)
      then Rested(u, k, to, p, e) && Told(u.outbound, p) == Told(s.outbound, p) + e.transition.value.heldMessages
      else Waiting(u, k, to, p, e) && Told(u.outbound, p) == Told(s.outbound, p)
  {
    if due != [] {
      var n := |due| - 1;
      var t := ExpireAll(s, due[..n], frame);
      ExpireAllTells(s, due[..n], frame, k, to, p, e);
      ExpireAllKeeps(s, due[..n], frame);
      ExpireAllKin(s, due[..n], frame);
      AmongNext(due, k, to);
      if Among(due[..n], k, to) {
        RestsOn(t, due[n].from, due[n].to, frame, k, to, p, e);
      } else if due[n].from == k && due[n].to == to {
        GivesUp(t, frame, k, to, p, e);
      } else {
        WaitsOn(t, due[n].from, due[n].to, frame, k, to, p, e);
      }
    }
  }

  /** The same for an entity known or not: its teleport due, it is no longer in transit. */
  lemma {:induction false} ExpireAllClears(s: State, due: seq<Transit>, frame: Framing, k: Key, to: Key, i: nat)
    requires i < |due| && due[i].from == k && due[i].to == to && to < s.next && (to in s.byKey ==> s.byKey[to].id.None?)
    ensures var u := ExpireAll(s, due, frame);
      k in u.byKey && u.byKey[k].transition.Some? ==> u.byKey[k].transition.value.to != to
  {
    var n := |due| - 1;
    var t := ExpireAll(s, due[..n], frame);
    if i < n {
      assert due[..n][i] == due[i];
      ExpireAllClears(s, due[..n], frame, k, to, i);
      ExpireOneStill(t, due[n].from, due[n].to, frame);
      assert StillAt(t.byKey, ExpireAll(s, due, frame).byKey, k);
    } else {
      ExpireAllKin(s, due[..n], frame);
      assert KinAt(s.byKey, t.byKey, s.next, to);
      ExpireOneStill(t, k, to, frame);
      assert StillAt(t.byKey, ExpireAll(s, due, frame).byKey, k);
      ExpireOneClears(t, k, to, frame);
    }
  }

  lemma {:induction false} ExpireOneClears(s: State, k: Key, to: Key, frame: Framing)
    requires to in s.byKey ==> s.byKey[to].id.None?
    ensures var u := ExpireOne(s, k, to, frame);
      k in u.byKey && u.byKey[k].transition.Some? ==> u.byKey[k].transition.value.to != to
  {
    if k in s.byKey && s.byKey[k].transition.Some? && s.byKey[k].transition.value.to == to {
      var dropped := Forget(Put(s, k, s.byKey[k].(transition := None)), to);
      if s.byKey[k].transition.value.heldMove.Some? {
        MovedStill(dropped, [(k, s.byKey[k].transition.value.heldMove.value)], frame);
        assert StillAt(dropped.byKey,
            SetWorldPositions(dropped, [(k, s.byKey[k].transition.value.heldMove.value)], frame).byKey, k);
      }
    }
  }

  // ----- every teleport in flight is in the list -----

  ghost predicate OnWay(s: State, k: Key, to: Key) {
    k in s.byKey && s.byKey[k].transition.Some? && s.byKey[k].transition.value.to == to
  }

  /** A teleport is in the list, to be given up at `d`, and its copy, while held, is its own. */
  ghost predicate Followed(s: State, k: Key, to: Key, d: nat) {
    Transit(k, to, d) in s.transits && (to in s.byKey ==> s.byKey[to].copyOf == Some(k))
  }

  lemma {:induction false} SaidStays(s: State, c: ClientId, h: Handle, body: Body, k: Key, to: Key)
    requires OnWay(EntityMessage(s, c, h, body), k, to)
    ensures OnWay(s, k, to)
  {
    EntityMessageAlike(s, c, h, body);
    assert SameRecord(s.byKey[k], EntityMessage(s, c, h, body).byKey[k]);
  }

  lemma {:induction false} StepStays(s: State, e: Event, k: Key, to: Key)
    requires Inv(s, Settled()) && Enabled(s, e) && to < s.next && OnWay(Step(s, e), k, to)
    ensures OnWay(s, k, to)
  {
    if e.Said? {
      SaidStays(s, e.c, e.h, e.body, k, to);
    } else {
      StepStill(s, e, k);
    }
  }

  /** The copy of an entity on its way lands by ending that way. */
  lemma {:induction false} LandingEnds(s: State, place: Place, to: Key, frame: Framing, k: Key)
    requires Inv(s, Settled()) && Answers(s, place, to) && OnWay(s, k, to)
    requires (to in s.byKey ==> s.byKey[to].copyOf == Some(k))
    ensures to in s.byKey ==> k !in Added(s, place, to, frame).byKey
  {
    assert MintedAt(s.byKey[k], s.next, k);
    if to in s.byKey {
      CompletedKin(s, place, k, to, frame, k);
    }
  }

  lemma {:induction false} AnnouncedTransits(s: State, place: Place, token: Key, frame: Framing, x: Transit)
    requires Inv(s, Settled()) && Answers(s, place, token) && x in s.transits && (token !in s.byKey || x.to != token)
    ensures x in Added(s, place, token, frame).transits
  {
    WithoutHolds(s.transits, token);
    if token in s.byKey && s.byKey[token].copyOf.Some? {
      var from := s.byKey[token].copyOf.value;
      assert LocatedAt(s.byKey[token], s, token) && MintedAt(s.byKey[token], s.next, token);
      if from in s.byKey {
        CompletionIs(s, place, from, token, frame);
        RemapRecord(s, place, from, token);
      } else {
        NeverHeardOf(s, place);
        OrphanIs(s, place, from, token, frame);
      }
    }
  }

  lemma {:induction false} ExpireAllTransits(s: State, due: seq<Transit>, frame: Framing)
    ensures ExpireAll(s, due, frame).transits == s.transits
  {
    if due != [] {
      var n := |due| - 1;
      var t := ExpireAll(s, due[..n], frame);
      ExpireAllTransits(s, due[..n], frame);
      if due[n].from in t.byKey && t.byKey[due[n].from].transition.Some?
        && t.byKey[due[n].from].transition.value.heldMove.Some?
      {
        var e := t.byKey[due[n].from];
        MovedQuiet(Forget(Put(t, due[n].from, e.(transition := None)), due[n].to),
                   [(due[n].from, e.transition.value.heldMove.value)], frame);
      }
    }
  }

  lemma {:induction false} ExpiredTransits(s: State, now: nat, frame: Framing, k: Key, to: Key, d: nat)
    requires Inv(s, Settled()) && to < s.next && Followed(s, k, to, d) && OnWay(Expire(s, now, frame), k, to)
    ensures Transit(k, to, d) in Expire(s, now, frame).transits && d > now
  {
    var due := Due(s.transits, now, true);
    DueHolds(s.transits, now, true, Transit(k, to, d));
    DueHolds(s.transits, now, false, Transit(k, to, d));
    ExpireAllTransits(s.(transits := Due(s.transits, now, false)), due, frame);
    if d <= now {
      var i :| 0 <= i < |due| && due[i] == Transit(k, to, d);
      assert to in s.byKey ==> Cast(s.byKey[to]);
      ExpireAllClears(s.(transits := Due(s.transits, now, false)), due, frame, k, to, i);
    }
  }

  /** Handlers other than reports of entities added and the expiry only add to the list. */
  lemma {:induction false} ListGrows(s: State, e: Event)
    requires !e.Announced? && !e.Expired?
    ensures s.transits <= Step(s, e).transits
  {
    if e.Said? {
      EntityMessageAlike(s, e.c, e.h, e.body);
    } else if e.TeleportAsked? || e.BoxReached? {
      SetsOutKin(s, e);
    } else {
      StepQuiet(s, e);
    }
  }

  lemma {:induction false} StepTransits(s: State, e: Event, k: Key, to: Key, d: nat)
    requires Inv(s, Settled()) && Enabled(s, e) && to < s.next && OnWay(Step(s, e), k, to) && Followed(s, k, to, d)
    ensures Transit(k, to, d) in Step(s, e).transits
  {
    if e.Announced? {
      StepStays(s, e, k, to);
      if e.token == to {
        LandingEnds(s, e.place, to, e.frame, k);
      }
      AnnouncedTransits(s, e.place, e.token, e.frame, Transit(k, to, d));
    } else if e.Expired? {
      ExpiredTransits(s, e.now, e.frame, k, to, d);
    } else {
      ListGrows(s, e);
    }
  }

  lemma {:induction false} StepFollows(s: State, e: Event, k: Key, to: Key, d: nat)
    requires Inv(s, Settled()) && Enabled(s, e) && to < s.next && OnWay(Step(s, e), k, to) && Followed(s, k, to, d)
    ensures Followed(Step(s, e), k, to, d)
  {
    StepTransits(s, e, k, to, d);
    StepStays(s, e, k, to);
    if e.Announced? && e.token == to {
      LandingEnds(s, e.place, to, e.frame, k);
    } else {
      StepKin(s, e, to);
      assert KinAt(s.byKey, Step(s, e).byKey, s.next, to);
    }
  }

  lemma {:induction false} RunStays(s: State, events: seq<Event>, k: Key, to: Key)
    requires Inv(s, Settled()) && Legal(s, events) && to < s.next && OnWay(End(s, events), k, to)
    ensures OnWay(s, k, to)
    decreases |events|
  {
    if events != [] {
      StepKeeps(s, events[0]);
      NextGrows(s, events[0]);
      RunStays(Step(s, events[0]), events[1..], k, to);
      StepStays(s, events[0], k, to);
    }
  }

  lemma {:induction false} RunFollows(s: State, events: seq<Event>, k: Key, to: Key, d: nat)
    requires Inv(s, Settled()) && Legal(s, events) && to < s.next && OnWay(End(s, events), k, to)
    requires Followed(s, k, to, d)
    ensures Followed(End(s, events), k, to, d)
    decreases |events|
  {
    if events != [] {
      StepKeeps(s, events[0]);
      NextGrows(s, events[0]);
      RunStays(Step(s, events[0]), events[1..], k, to);
      StepFollows(s, events[0], k, to, d);
      RunFollows(Step(s, events[0]), events[1..], k, to, d);
    }
  }

  ghost predicate TrackedAt(s: State, k: Key) {
    k in s.byKey && s.byKey[k].transition.Some? ==>
      var to := s.byKey[k].transition.value.to;
      to < s.next && exists d :: Followed(s, k, to, d)
  }

  ghost predicate Tracked(s: State) {
    forall k {:trigger TrackedAt(s, k)} :: TrackedAt(s, k)
  }

  lemma {:induction false} BeginFollows(s: State, j: Key, dest: Region, at: Pos3, allowed: bool, deadline: nat, k: Key)
    requires s.next !in s.byKey && OnWay(BeginTeleport(s, j, dest, at, allowed, deadline), k, s.next)
    requires !OnWay(s, k, s.next)
    ensures Followed(BeginTeleport(s, j, dest, at, allowed, deadline), k, s.next, deadline)
    ensures s.next < BeginTeleport(s, j, dest, at, allowed, deadline).next
  {
    assert MayTeleport(s, j, dest, allowed);
  }

  lemma {:induction false} SetsOutFollows(s: State, e: Event, k: Key)
    requires Inv(s, Settled()) && (e.TeleportAsked? || e.BoxReached?)
    requires OnWay(Step(s, e), k, s.next) && !OnWay(s, k, s.next)
    ensures s.next < Step(s, e).next && exists d :: Followed(Step(s, e), k, s.next, d)
  {
    NextIsFresh(s.byKey, s.next);
    match e
    case TeleportAsked(c, h, dest, allowed, deadline) =>
      assert KeyOf(s, c, h).Some? && dest.Some?;
      BeginFollows(s, KeyOf(s, c, h).value, dest.value.0, dest.value.1, allowed, deadline, k);
    case BoxReached(place, beyond, allowed, deadline) =>
      assert place in s.byId && beyond.Some?;
      BeginFollows(s, s.byId[place], beyond.value.0, beyond.value.1, allowed, deadline, k);
  }

  lemma {:induction false} StepTracks(s: State, e: Event, k: Key)
    requires Inv(s, Settled()) && Enabled(s, e) && Tracked(s)
    ensures TrackedAt(Step(s, e), k)
  {
    var t := Step(s, e);
    NextGrows(s, e);
    if k in t.byKey && t.byKey[k].transition.Some? {
      var to := t.byKey[k].transition.value.to;
      assert TrackedAt(s, k);
      if OnWay(s, k, to) {
        var d :| Followed(s, k, to, d);
        StepFollows(s, e, k, to, d);
      } else if e.Said? {
        SaidStays(s, e.c, e.h, e.body, k, to);
      } else {
        StepStill(s, e, k);
        if e.TeleportAsked? || e.BoxReached? {
          SetsOutFollows(s, e, k);
        } else {
          StepLeaves(s, e, k);
        }
      }
    }
  }

  lemma {:induction false} RunTracks(s: State, events: seq<Event>)
    requires Inv(s, Settled()) && Legal(s, events) && Tracked(s)
    ensures Tracked(End(s, events))
    decreases |events|
  {
    if events != [] {
      forall k
        ensures TrackedAt(Step(s, events[0]), k)
      {
        StepTracks(s, events[0], k);
      }
      StepKeeps(s, events[0]);
      RunTracks(Step(s, events[0]), events[1..]);
    }
  }

  /** In every reachable state an entity in transit is in the list of teleports in flight, and
      the copy it waits for, while held, is its own and unanswered. */
  lemma {:induction false} InFlightIsListed(s: State, k: Key) returns (d: nat)
    requires Reachable(s) && k in s.byKey && s.byKey[k].transition.Some?
    ensures var to := s.byKey[k].transition.value.to;
      && Transit(k, to, d) in s.transits
      && (to in s.byKey ==> s.byKey[to].copyOf == Some(k) && s.byKey[to].id.None?)
  {
    var events :| Legal(Start(), events) && End(Start(), events) == s;
    StartKeeps();
    ReachableKeeps(s);
    forall j
      ensures TrackedAt(Start(), j)
    {
    }
    RunTracks(Start(), events);
    assert TrackedAt(s, k);
    var to := s.byKey[k].transition.value.to;
    d :| Followed(s, k, to, d);
    assert to in s.byKey ==> Cast(s.byKey[to]);
  }

  // ----- the origin, meanwhile -----

  lemma {:induction false} SaidSilent(s: State, c: ClientId, h: Handle, body: Body, k: Key, p: Place)
    requires Inv(s, Settled()) && StandsAt(s, k, p) && s.byKey[k].transition.Some?
    ensures Told(EntityMessage(s, c, h, body).outbound, p) == Told(s.outbound, p)
  {
    var key := KeyOf(s, c, h);
    if key.Some? && key.value in s.byKey && s.byKey[key.value].transition.None? && s.byKey[key.value].id.Some? {
      var e := s.byKey[key.value];
      PlacesDiffer(s, key.value, k, p);
      ToldMore(s.outbound, [Message(e.region, e.id.value, body)], p);
      assert [Message(e.region, e.id.value, body)][..0] == [];
    }
  }

  lemma {:induction false} DespawnSilent(out: seq<Outgoing>, at: Place, p: Place)
    ensures Told(out + [Despawn(at.0, at.1)], p) == Told(out, p)
  {
    ToldWordless(out, out + [Despawn(at.0, at.1)], p);
  }

  lemma {:induction false} CompletedSilent(s: State, place: Place, from: Key, to: Key, frame: Framing, p: Place)
    requires Inv(s, Settled()) && Answers(s, place, to) && from in s.byKey && to in s.byKey
    requires s.byKey[to].copyOf == Some(from)
    requires p != place
    ensures Told(Added(s, place, to, frame).outbound, p) == Told(s.outbound, p)
  {
    CompletionIs(s, place, from, to, frame);
    RemapOnlyDespawns(s, place, from, to);
    ToldWordless(s.outbound, Remapped(s, place, from, to).outbound, p);
    ToldElsewhere(Remapped(s, place, from, to).outbound, place.0, place.1, Owed(s.byKey[from]), p);
  }

  lemma {:induction false} AnnouncedSilent(s: State, place: Place, token: Key, frame: Framing, p: Place)
    requires Inv(s, Settled()) && Answers(s, place, token) && p != place
    ensures Told(Added(s, place, token, frame).outbound, p) == Told(s.outbound, p)
  {
    DespawnSilent(s.outbound, place, p);
    if token in s.byKey && s.byKey[token].copyOf.Some? {
      var from := s.byKey[token].copyOf.value;
      assert LocatedAt(s.byKey[token], s, token) && MintedAt(s.byKey[token], s.next, token);
      if from in s.byKey {
        CompletedSilent(s, place, from, token, frame, p);
      } else {
        NeverHeardOf(s, place);
        OrphanIs(s, place, from, token, frame);
      }
    }
  }

  lemma {:induction false} ExpiredSilent(s: State, now: nat, frame: Framing, k: Key, to: Key, d: nat, p: Place)
    requires Inv(s, Settled()) && to < s.next && OnWay(s, k, to) && Followed(s, k, to, d) && StandsAt(s, k, p)
    requires OnWay(Expire(s, now, frame), k, to)
    ensures StandsAt(Expire(s, now, frame), k, p) && Told(Expire(s, now, frame).outbound, p) == Told(s.outbound, p)
  {
    var t := s.(transits := Due(s.transits, now, false));
    SameMaps(s, t);
    assert to in s.byKey ==> Cast(s.byKey[to]);
    ExpireAllTells(t, Due(s.transits, now, true), frame, k, to, p, s.byKey[k]);
  }

  lemma {:induction false} KinStands(s: State, t: State, k: Key, p: Place)
    requires Inv(s, Settled()) && StandsAt(s, k, p) && k in t.byKey && KinAt(s.byKey, t.byKey, s.next, k)
    ensures StandsAt(t, k, p)
  {
    assert MintedAt(s.byKey[k], s.next, k);
  }

  /** While an entity stays on its way, no handler says a word to where it came from. */
  lemma {:induction false} StepSilent(s: State, e: Event, k: Key, to: Key, d: nat, p: Place)
    requires Inv(s, Settled()) && Enabled(s, e) && to < s.next && OnWay(Step(s, e), k, to) && Followed(s, k, to, d)
    requires StandsAt(s, k, p)
    ensures StandsAt(Step(s, e), k, p) && Told(Step(s, e).outbound, p) == Told(s.outbound, p)
  {
    StepStays(s, e, k, to);
    assert LocatedAt(s.byKey[k], s, k);
    if e.Expired? {
      ExpiredSilent(s, e.now, e.frame, k, to, d, p);
    } else {
      StepKin(s, e, k);
      KinStands(s, Step(s, e), k, p);
      if e.Said? {
        SaidSilent(s, e.c, e.h, e.body, k, p);
      } else if e.Announced? {
        AnnouncedSilent(s, e.place, e.token, e.frame, p);
      } else {
        OthersWordless(s, e);
        ToldWordless(s.outbound, Step(s, e).outbound, p);
      }
    }
  }

  lemma {:induction false} OthersWordless(s: State, e: Event)
    requires !e.Said? && !e.Announced? && !e.Expired?
    ensures Wordless(s.outbound, Step(s, e).outbound)
  {
    if e.TeleportAsked? || e.BoxReached? {
      SetsOutKin(s, e);
    } else {
      StepQuiet(s, e);
    }
  }

  lemma {:induction false} RunSilent(s: State, events: seq<Event>, k: Key, to: Key, d: nat, p: Place)
    requires Inv(s, Settled()) && Legal(s, events) && to < s.next && OnWay(End(s, events), k, to)
    requires Followed(s, k, to, d)
    requires StandsAt(s, k, p)
    ensures StandsAt(End(s, events), k, p) && Told(End(s, events).outbound, p) == Told(s.outbound, p)
    decreases |events|
  {
    if events != [] {
      StepKeeps(s, events[0]);
      NextGrows(s, events[0]);
      RunStays(Step(s, events[0]), events[1..], k, to);
      StepFollows(s, events[0], k, to, d);
      StepSilent(s, events[0], k, to, d, p);
      RunSilent(Step(s, events[0]), events[1..], k, to, d, p);
    }
  }

  // ----- a teleport, from its start to either end -----

  lemma {:induction false} RunGrows(s: State, events: seq<Event>)
    requires Inv(s, Settled()) && Legal(s, events)
    ensures s.next <= End(s, events).next
    decreases |events|
  {
    if events != [] {
      StepKeeps(s, events[0]);
      NextGrows(s, events[0]);
      RunGrows(Step(s, events[0]), events[1..]);
    }
  }

  /** A teleport that starts: what it leaves, and where its entity stands. */
  lemma {:induction false} Begins(s: State, from: Key, dest: Region, at: Pos3, deadline: nat)
    requires Inv(s, Settled()) && MayTeleport(s, from, dest, true) && !s.byKey[from].kind.Shadow?
    requires s.byKey[from].copyOf.None?
    ensures var begun := BeginTeleport(s, from, dest, at, true, deadline);
      && Inv(begun, Settled()) && s.next < begun.next && Followed(begun, from, s.next, deadline)
      && (forall p :: StandsAt(s, from, p) <==> StandsAt(begun, from, p)) && from != s.next
      && (forall p :: Told(begun.outbound, p) == Told(s.outbound, p))
      && OnItsWay(begun, from, s.next, [])
  {
    BeginKeeps(s, from, dest, at, true, deadline);
    assert MintedAt(s.byKey[from], s.next, from);
    NextIsFresh(s.byKey, s.next);
    BeginFollows(s, from, dest, at, true, deadline, from);
    BeginKin(s, from, dest, at, true, deadline);
    forall p: Place
      ensures Told(BeginTeleport(s, from, dest, at, true, deadline).outbound, p) == Told(s.outbound, p)
    {
      ToldWordless(s.outbound, BeginTeleport(s, from, dest, at, true, deadline).outbound, p);
    }
  }

  /** From its start to its deadline: the region the entity never left is told every word said
      meanwhile, each once and in order, whatever else is given up with it; and the entity
      stays, itself, with no copy. */
  lemma {:induction false} TimeoutReturnsEveryWord(s: State, from: Key, dest: Region, at: Pos3, deadline: nat,
      events: seq<Event>, p: Place, now: nat, frame: Framing)
    requires Reachable(s) && MayTeleport(s, from, dest, true) && !s.byKey[from].kind.Shadow?
    requires s.byKey[from].copyOf.None?
    requires Legal(BeginTeleport(s, from, dest, at, true, deadline), events)
    requires var t := End(BeginTeleport(s, from, dest, at, true, deadline), events);
      OnWay(t, from, s.next) && StandsAt(t, from, p) && deadline <= now
    ensures var begun := BeginTeleport(s, from, dest, at, true, deadline);
      var t, u := End(begun, events), Expire(End(begun, events), now, frame);
      && Rested(u, from, s.next, p, t.byKey[from])
      && Told(u.outbound, p) == Told(t.outbound, p) + Words(begun, events, from)
  {
    var begun, to := BeginTeleport(s, from, dest, at, true, deadline), s.next;
    var t := End(begun, events);
    ReachableKeeps(s);
    Begins(s, from, dest, at, deadline);
    RunKeeps(begun, events);
    RunGrows(begun, events);
    RunFollows(begun, events, from, to, deadline);
    var said := t.byKey[from].transition.value.heldMessages;
    var before := TransitHoldsEveryWord(begun, events, from, to, said);
    assert before == [] && [] + Words(begun, events, from) == Words(begun, events, from);
    GivenUp(t, now, frame, from, to, deadline, p);
  }

  lemma {:induction false} GivenUp(t: State, now: nat, frame: Framing, k: Key, to: Key, d: nat, p: Place)
    requires Inv(t, Settled()) && to < t.next && OnWay(t, k, to) && Followed(t, k, to, d) && StandsAt(t, k, p)
    requires d <= now
    ensures Rested(Expire(t, now, frame), k, to, p, t.byKey[k])
    ensures Told(Expire(t, now, frame).outbound, p) == Told(t.outbound, p) + t.byKey[k].transition.value.heldMessages
  {
    var due, rest := Due(t.transits, now, true), t.(transits := Due(t.transits, now, false));
    SameMaps(t, rest);
    DueHolds(t.transits, now, true, Transit(k, to, d));
    var i :| 0 <= i < |due| && due[i] == Transit(k, to, d);
    assert Among(due, k, to);
    assert to in t.byKey ==> Cast(t.byKey[to]);
    ExpireAllTells(rest, due, frame, k, to, p, t.byKey[k]);
  }

  /** From its start until its copy lands, and by the landing, the region the entity leaves is
      told nothing for it: every word goes to one end of a teleport and not to the other. */
  lemma {:induction false} OriginHearsNothing(s: State, from: Key, dest: Region, at: Pos3, deadline: nat,
      events: seq<Event>, p: Place, place: Place, frame: Framing)
    requires Reachable(s) && MayTeleport(s, from, dest, true) && !s.byKey[from].kind.Shadow?
    requires s.byKey[from].copyOf.None?
    requires Legal(BeginTeleport(s, from, dest, at, true, deadline), events) && StandsAt(s, from, p)
    requires OnWay(End(BeginTeleport(s, from, dest, at, true, deadline), events), from, s.next)
    requires Answers(End(BeginTeleport(s, from, dest, at, true, deadline), events), place, s.next)
    ensures var t := End(BeginTeleport(s, from, dest, at, true, deadline), events);
      && StandsAt(t, from, p) && place != p
      && Told(t.outbound, p) == Told(s.outbound, p)
      && Told(Added(t, place, s.next, frame).outbound, p) == Told(s.outbound, p)
  {
    var begun := BeginTeleport(s, from, dest, at, true, deadline);
    var t := End(begun, events);
    ReachableKeeps(s);
    Begins(s, from, dest, at, deadline);
    RunKeeps(begun, events);
    RunSilent(begun, events, from, s.next, deadline, p);
    assert LocatedAt(t.byKey[from], t, from);
    AnnouncedSilent(t, place, s.next, frame, p);
  }
}
