/** Every key the edge mints is asked for once, and every entity it holds was asked for as it is
    held: in its region, in its role, under its name. */
module EdgeAsked {
  import opened Numbers
  import opened Config
  import opened WorldFrame
  import opened EdgeState
  import opened EdgeInvariant
  import opened EdgeSteps
  import opened EdgeTeleports
  import opened EdgeReports
  import opened EdgeRun
  import opened EdgeWords
  import opened EdgeTransit
  import opened EdgeTracks

  lemma {:induction false} SaidAsks(s: State, c: ClientId, h: Handle, body: Body)
    ensures Asks(s, EntityMessage(s, c, h, body))
  {
    var t := EntityMessage(s, c, h, body);
    EntityMessageAlike(s, c, h, body);
    AsksNobody(s, t, t.outbound[|s.outbound|..]);
  }

  /** What giving up says and holds: words to the one that stays, and nobody new. */
  lemma {:induction false} HandedOverIs(s: State, from: Key, t: Transition, e: Entity, frame: Framing)
    ensures var u := HandedOver(s, from, t, e, frame);
      && u.byKey.Keys == s.byKey.Keys && u.next == s.next
      && u.outbound == s.outbound + (if e.id.Some? then Messages(e.region, e.id.value, t.heldMessages) else [])
  {
    if t.heldMove.Some? {
      SetWorldPositionsIs(s, [(from, t.heldMove.value)], frame);
      MovedFrame(s, [(from, t.heldMove.value)], frame);
    }
  }

  lemma {:induction false} ExpireOneAsks(s: State, from: Key, to: Key, frame: Framing)
    ensures Asks(s, ExpireOne(s, from, to, frame))
  {
    if Unconfirmed(s, from, to) {
      var e := s.byKey[from];
      var dropped := Forget(Put(s, from, e.(transition := None)), to);
      GivesUp(s, from, to, frame);
      HandedOverIs(dropped, from, e.transition.value, e, frame);
      AsksNobody(s, ExpireOne(s, from, to, frame),
                 if e.id.Some? then Messages(e.region, e.id.value, e.transition.value.heldMessages) else []);
    } else {
      AsksNobody(s, s, []);
    }
  }

  lemma {:induction false} ExpireAllAsks(s: State, due: seq<Transit>, frame: Framing)
    ensures Asks(s, ExpireAll(s, due, frame))
  {
    if due == [] {
      AsksNobody(s, s, []);
    } else {
      var n := |due| - 1;
      var t := ExpireAll(s, due[..n], frame);
      ExpireAllAsks(s, due[..n], frame);
      ExpireOneAsks(t, due[n].from, due[n].to, frame);
      ExpireOneKin(t, due[n].from, due[n].to, frame);
      AsksChain(s, t, ExpireAll(s, due, frame));
    }
  }

  lemma {:induction false} RemapAsks(s: State, place: Place, from: Key, to: Key, frame: Framing)
    requires Inv(s, Settled()) && Answers(s, place, to) && from in s.byKey && to in s.byKey
    requires s.byKey[to].copyOf == Some(from)
    ensures Asks(s, Added(s, place, to, frame))
  {
    var t, freed := Added(s, place, to, frame), Remapped(s, place, from, to);
    CompletionIs(s, place, from, to, frame);
    RemapOnlyDespawns(s, place, from, to);
    RemapKeys(s, place, from, to);
    AddedNext(s, place, from, to, frame);
    NothingAsked(s, t, freed.outbound, Messages(place.0, place.1, Owed(s.byKey[from])));
  }

  lemma {:induction false} NothingAsked(s: State, t: State, out: seq<Outgoing>, words: seq<Outgoing>)
    requires s.outbound <= out && forall i :: |s.outbound| <= i < |out| ==> out[i].Despawn?
    requires forall i :: 0 <= i < |words| ==> words[i].Message?
    requires t.outbound == out + words && t.next == s.next && t.byKey.Keys <= s.byKey.Keys
    ensures Asks(s, t)
  {
    var said := out[|s.outbound|..] + words;
    assert t.outbound == s.outbound + said;
    AsksNobody(s, t, said);
  }

  lemma {:induction false} RemapKeys(s: State, place: Place, from: Key, to: Key)
    requires from in s.byKey && to in s.byKey && from != to
    ensures Remapped(s, place, from, to).byKey.Keys <= s.byKey.Keys
  {
    var d := Landed(s, place, from, to);
    forall k | k in Remapped(s, place, from, to).byKey
      ensures k in s.byKey
    {
      ReleaseAllLessens(d, s.byKey[from].shadows, k);
    }
  }

  lemma {:induction false} AddedNext(s: State, place: Place, from: Key, to: Key, frame: Framing)
    requires from in s.byKey && to in s.byKey && from != to && s.byKey[to].copyOf == Some(from)
    ensures Added(s, place, to, frame).next == s.next
  {
    var freed := Remapped(s, place, from, to);
    RemapNext(s, place, from, to);
    AddedIs(s, place, from, to, frame);
    var o := s.byKey[from];
    ForwardedIs(Queued(freed, place, s.byKey[to].pending), place, o.standing, o.transition, frame);
  }

  lemma {:induction false} RemapNext(s: State, place: Place, from: Key, to: Key)
    requires from in s.byKey && to in s.byKey && from != to
    ensures Remapped(s, place, from, to).next == s.next
  {
    ReleaseAllFrame(Landed(s, place, from, to), s.byKey[from].shadows);
  }

  lemma {:induction false} OrphanAsks(s: State, place: Place, from: Key, to: Key, frame: Framing)
    requires from !in s.byKey && to in s.byKey && s.byKey[to].copyOf == Some(from) && from != to
    requires s.byKey[to].id.None? && s.byKey[to].region == place.0 && place !in s.byId
    ensures Asks(s, Added(s, place, to, frame))
  {
    OrphanIs(s, place, from, to, frame);
    AsksNobody(s, Added(s, place, to, frame), [Despawn(place.0, place.1)]);
  }

  lemma {:induction false} AnnouncedAsks(s: State, place: Place, token: Key, frame: Framing)
    requires Inv(s, Settled()) && Answers(s, place, token)
    ensures Asks(s, Added(s, place, token, frame))
  {
    if token in s.byKey && s.byKey[token].copyOf.Some? {
      var from := s.byKey[token].copyOf.value;
      assert LocatedAt(s.byKey[token], s, token) && MintedAt(s.byKey[token], s.next, token);
      if from in s.byKey {
        RemapAsks(s, place, from, token, frame);
      } else {
        NeverHeardOf(s, place);
        OrphanAsks(s, place, from, token, frame);
      }
    } else {
      AsksNobody(s, Added(s, place, token, frame), if token in s.byKey then [] else [Despawn(place.0, place.1)]);
    }
  }

  lemma {:induction false} AsksAside(s: State, t: State, u: State)
    requires t == s.(transits := t.transits) && Asks(t, u)
    ensures Asks(s, u)
  {
    forall x: Key
      ensures NewlyAsked(s, u, x)
    {
      assert NewlyAsked(t, u, x);
    }
  }

  lemma {:induction false} StepAsks(s: State, e: Event)
    requires Inv(s, Settled()) && Enabled(s, e)
    ensures Asks(s, Step(s, e))
  {
    match e
    case Said(c, h, body) => SaidAsks(s, c, h, body);
    case TeleportAsked(_, _, _, _, _) => SetsOutKin(s, e);
    case BoxReached(_, _, _, _) => SetsOutKin(s, e);
    case Announced(place, token, frame) => AnnouncedAsks(s, place, token, frame);
    case Expired(now, frame) =>
      var t := s.(transits := Due(s.transits, now, false));
      ExpireAllAsks(t, Due(s.transits, now, true), frame);
      AsksAside(s, t, Step(s, e));
    case _ => StepQuiet(s, e);
  }

  // ----- over a run -----

  /** Every key minted has had its one spawn queued, and whoever is held was asked for so. */
  ghost predicate Accounted(s: State) {
    Tokens(s.outbound) == Span(0, s.next) && forall k :: k in s.byKey ==> WasAsked(s.byKey[k], k, s.outbound)
  }

  /** An arrival is still in its region, in its role and under its name. */
  lemma {:induction false} ArrivesAsAsked(s: State, place: Place, token: Key, frame: Framing)
    requires Inv(s, Settled()) && Answers(s, place, token)
    ensures var t := Added(s, place, token, frame);
      token in t.byKey ==>
        && token in s.byKey && t.byKey[token].region == s.byKey[token].region
        && t.byKey[token].kind == s.byKey[token].kind && t.byKey[token].name == s.byKey[token].name
  {
    if token in s.byKey && s.byKey[token].copyOf.Some? {
      var from := s.byKey[token].copyOf.value;
      assert LocatedAt(s.byKey[token], s, token) && MintedAt(s.byKey[token], s.next, token);
      if from in s.byKey {
        CompletionLands(s, place, from, token, frame);
      } else {
        NeverHeardOf(s, place);
        OrphanIs(s, place, from, token, frame);
      }
    }
  }

  lemma {:induction false} StaysAsked(e: Entity, f: Entity, k: Key, before: seq<Outgoing>, after: seq<Outgoing>)
    requires WasAsked(e, k, before) && before <= after
    requires f.region == e.region && f.kind == e.kind && f.name == e.name
    ensures WasAsked(f, k, after)
  {
    var at :| Spawn(e.region, k, e.kind, at, e.name) in before;
    assert Spawn(f.region, k, f.kind, at, f.name) in after;
  }

  lemma {:induction false} StepAccounts(s: State, e: Event)
    requires Inv(s, Settled()) && Enabled(s, e) && Accounted(s)
    ensures Accounted(Step(s, e))
  {
    var t := Step(s, e);
    StepAsks(s, e);
    SpansJoin(0, s.next, t.next);
    forall k | k in t.byKey
      ensures WasAsked(t.byKey[k], k, t.outbound)
    {
      assert NewlyAsked(s, t, k);
      if k in s.byKey {
        if e.Announced? && e.token == k {
          ArrivesAsAsked(s, e.place, k, e.frame);
        } else {
          StepKin(s, e, k);
          NextIsBeyond(s, k);
        }
        StaysAsked(s.byKey[k], t.byKey[k], k, s.outbound, t.outbound);
      }
    }
  }

  lemma {:induction false} NextIsBeyond(s: State, k: Key)
    requires Inv(s, Settled()) && k in s.byKey
    ensures k < s.next
  {
    assert MintedAt(s.byKey[k], s.next, k);
  }

  lemma {:induction false} RunAccounts(s: State, events: seq<Event>)
    requires Inv(s, Settled()) && Legal(s, events) && Accounted(s)
    ensures Accounted(End(s, events))
    decreases |events|
  {
    if events != [] {
      StepKeeps(s, events[0]);
      StepAccounts(s, events[0]);
      RunAccounts(Step(s, events[0]), events[1..]);
    }
  }

  /** In every reachable state the spawns queued are one for each key minted, in order, and
      every entity held is in the region, the role and the name it was asked for. */
  lemma {:induction false} AskedForOnce(s: State)
    requires Reachable(s)
    ensures Tokens(s.outbound) == Span(0, s.next)
    ensures forall k :: k in s.byKey ==>
      exists at :: Spawn(s.byKey[k].region, k, s.byKey[k].kind, at, s.byKey[k].name) in s.outbound
  {
    var events :| Legal(Start(), events) && End(Start(), events) == s;
    StartKeeps();
    RunAccounts(Start(), events);
    forall k | k in s.byKey
      ensures exists at :: Spawn(s.byKey[k].region, k, s.byKey[k].kind, at, s.byKey[k].name) in s.outbound
    {
      assert WasAsked(s.byKey[k], k, s.outbound);
    }
  }
}
