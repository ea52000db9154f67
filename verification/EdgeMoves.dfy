/** Where positions end up: the latest a batch gives an entity is queued in its region's frame,
    kept until its region answers, or held until its teleport ends; none is lost. */
module EdgeMoves {
  import opened Numbers
  import opened Config
  import opened WorldFrame
  import opened EdgeState
  import opened EdgeInvariant
  import opened EdgeSteps
  import opened EdgeTeleports
  import opened EdgeReports
  import opened EdgeRun
  import opened EdgeWords
  import opened EdgeTransit

  /** The last position a batch gives an entity. */
  function Latest(moves: seq<(Key, WorldPos)>, k: Key): Option<WorldPos> {
    if moves == [] then None
    else if moves[|moves| - 1].0 == k then Some(moves[|moves| - 1].1)
    else Latest(moves[..|moves| - 1], k)
  }

  /** The last that the frame of its region can express. */
  function LatestIn(moves: seq<(Key, WorldPos)>, k: Key, region: Region, frame: Framing): Option<Pos3> {
    if moves == [] then None
    else
      var (j, to) := moves[|moves| - 1];
      if j == k && frame(region, to).Some? then frame(region, to) else LatestIn(moves[..|moves| - 1], k, region, frame)
  }

  function LatestOf(local: seq<(Key, Pos3)>, k: Key): Option<Pos3> {
    if local == [] then None
    else if local[|local| - 1].0 == k then Some(local[|local| - 1].1)
    else LatestOf(local[..|local| - 1], k)
  }

  /** One value, or another in its place. */
  function Rather<T>(first: Option<T>, second: Option<T>): Option<T> {
    if first.Some? then first else second
  }

  /** The position queued for a place. */
  function QueuedFor(s: State, p: Place): Option<Pos3> {
    if p in s.moves then Some(s.moves[p]) else None
  }

  lemma {:induction false} LocalHolds(s: State, moves: seq<(Key, WorldPos)>, frame: Framing, k: Key)
    requires k in s.byKey
    ensures LatestOf(Local(s, moves, frame), k) ==
      if s.byKey[k].transition.None? then LatestIn(moves, k, s.byKey[k].region, frame) else None
  {
    if moves != [] {
      var n := |moves| - 1;
      var front, j, to := Local(s, moves[..n], frame), moves[n].0, moves[n].1;
      LocalHolds(s, moves[..n], frame, k);
      if j in s.byKey && s.byKey[j].transition.None? && frame(s.byKey[j].region, to).Some? {
        assert (front + [(j, frame(s.byKey[j].region, to).value)])[..|front|] == front;
      }
    }
  }

  /** What an entity not given back is to be moved to: queued if its region knows it, kept with
      it if not. */
  function Target(s: State, k: Key): Option<Pos3>
    requires k in s.byKey
  {
    if s.byKey[k].id.Some? then QueuedFor(s, (s.byKey[k].region, s.byKey[k].id.value)) else s.byKey[k].pending
  }

  lemma {:induction false} PositionTargets(s: State, j: Key, to: Pos3, k: Key)
    requires Located(s) && k in s.byKey && !s.byKey[k].doomed
    ensures var t := SetPosition(s, j, to);
      && k in t.byKey && !t.byKey[k].doomed && Target(t, k) == if j == k then Some(to) else Target(s, k)
  {
    assert LocatedAt(s.byKey[k], s, k);
    if j in s.byKey {
      assert LocatedAt(s.byKey[j], s, j);
    }
  }

  lemma {:induction false} PositionsTarget(s: State, sl: Slack, local: seq<(Key, Pos3)>, k: Key)
    requires Inv(s, sl) && k in s.byKey && !s.byKey[k].doomed
    ensures var t := SetPositions(s, local);
      && k in t.byKey && !t.byKey[k].doomed && Target(t, k) == Rather(LatestOf(local, k), Target(s, k))
  {
    if local != [] {
      var n := |local| - 1;
      PositionsTarget(s, sl, local[..n], k);
      SetPositionsAlike(s, sl, local[..n]);
      AlikeKeeps(s, SetPositions(s, local[..n]), sl);
      PositionTargets(SetPositions(s, local[..n]), local[n].0, local[n].1, k);
    }
  }

  lemma {:induction false} HoldsLatest(s: State, moves: seq<(Key, WorldPos)>, k: Key)
    requires k in s.byKey
    ensures var t := HoldMoves(s, moves);
      && t.moves == s.moves && k in t.byKey
      && t.byKey[k] == (if s.byKey[k].transition.None? then s.byKey[k]
                        else s.byKey[k].(transition := Some(s.byKey[k].transition.value.(
                               heldMove := Rather(Latest(moves, k), s.byKey[k].transition.value.heldMove)))))
  {
    if moves != [] {
      HoldsLatest(s, moves[..|moves| - 1], k);
    }
  }

  lemma {:induction false} PositionsKeepTransition(s: State, local: seq<(Key, Pos3)>, k: Key)
    requires k in s.byKey
    ensures k in SetPositions(s, local).byKey && SetPositions(s, local).byKey[k].transition == s.byKey[k].transition
  {
    if local != [] {
      PositionsKeepTransition(s, local[..|local| - 1], k);
    }
  }

  /** After a batch an entity not given back is to go where the last position for it that fits
      its frame puts it, and if it is in transit, that last position is held for it instead. An
      entity the batch does not name is left as it was. */
  lemma {:induction false} LatestWins(s: State, sl: Slack, moves: seq<(Key, WorldPos)>, frame: Framing, k: Key)
    requires Inv(s, sl) && k in s.byKey && !s.byKey[k].doomed
    ensures var t, e := SetWorldPositions(s, moves, frame), s.byKey[k];
      && k in t.byKey && !t.byKey[k].doomed
      && (e.transition.None? ==>
            t.byKey[k].transition.None? && Target(t, k) == Rather(LatestIn(moves, k, e.region, frame), Target(s, k)))
      && (e.transition.Some? ==>
            && Target(t, k) == Target(s, k) && t.byKey[k].transition.Some?
            && t.byKey[k].transition.value.heldMove == Rather(Latest(moves, k), e.transition.value.heldMove))
  {
    var held, local := HoldMoves(s, moves), Local(s, moves, frame);
    HoldsLatest(s, moves, k);
    HoldMovesAlike(s, moves);
    AlikeKeeps(s, held, sl);
    LocalHolds(s, moves, frame, k);
    PositionsTarget(held, sl, local, k);
    PositionsKeepTransition(held, local, k);
  }

  /** A position kept for an unanswered entity is queued the moment its region answers. */
  lemma {:induction false} AnswerQueues(s: State, place: Place, token: Key, frame: Framing)
    requires Inv(s, Settled()) && Answers(s, place, token) && token in s.byKey && s.byKey[token].copyOf.None?
    ensures var t := Added(s, place, token, frame);
      && token in t.byKey && t.byKey[token].id == Some(place.1) && t.byKey[token].pending.None?
      && QueuedFor(t, place) == s.byKey[token].pending
  {
    assert LocatedAt(s.byKey[token], s, token);
    assert place !in s.moves;
  }

  /** A copy that lands is to go where its original was last told to while in transit, if its
      new frame can express that, and otherwise where it was itself last told to. */
  lemma {:induction false} LandingQueues(s: State, place: Place, from: Key, to: Key, frame: Framing)
    requires Inv(s, Settled()) && Answers(s, place, to) && from in s.byKey && to in s.byKey
    requires s.byKey[to].copyOf == Some(from)
    ensures s.byKey[from].transition.Some?
    ensures var held := s.byKey[from].transition.value.heldMove;
      QueuedFor(Added(s, place, to, frame), place) ==
        Rather(if held.Some? then frame(place.0, held.value) else None, s.byKey[to].pending)
  {
    assert CopiesAt(s.byKey, to) && LocatedAt(s.byKey[to], s, to) && LocatedAt(s.byKey[from], s, from);
    assert MintedAt(s.byKey[to], s.next, to);
    AddedIs(s, place, from, to, frame);
    assert place !in s.moves;
    ReleaseAllMoves(Landed(s, place, from, to), s.byKey[from].shadows, place);
  }

  lemma {:induction false} ReleaseAllMoves(s: State, ks: seq<Key>, p: Place)
    requires p !in s.moves
    ensures p !in ReleaseAll(s, ks).moves
  {
    if ks != [] {
      ReleaseAllMoves(s, ks[..|ks| - 1], p);
    }
  }

  lemma {:induction false} HandOverQueues(s: State, from: Key, t: Transition, e: Entity, frame: Framing)
    requires Inv(s, Settled()) && from in s.byKey && s.byKey[from] == e.(transition := None) && !e.doomed
    ensures var u := HandedOver(s, from, t, e, frame);
      && from in u.byKey
      && Target(u, from) ==
           Rather(if t.heldMove.Some? then frame(e.region, t.heldMove.value) else None, Target(s, from))
  {
    if t.heldMove.Some? {
      var moves := [(from, t.heldMove.value)];
      LatestWins(s, Settled(), moves, frame, from);
      assert LatestIn(moves[..0], from, e.region, frame) == None;
    }
  }

  /** A teleport given up hands what was held to the entity that stayed. */
  lemma {:induction false} TimeoutQueues(s: State, from: Key, to: Key, frame: Framing)
    requires Inv(s, Settled()) && Unconfirmed(s, from, to) && !s.byKey[from].doomed
    ensures var t, e := ExpireOne(s, from, to, frame), s.byKey[from];
      var held := e.transition.value.heldMove;
      && from in t.byKey
      && Target(t, from) == Rather(if held.Some? then frame(e.region, held.value) else None, Target(s, from))
  {
    var e := s.byKey[from];
    assert MintedAt(e, s.next, from);
    GivesUp(s, from, to, frame);
    UncopiedKeeps(s, from, to);
    ForgetCommutes(s, from, to, e.(transition := None));
    HandOverQueues(Forget(Put(s, from, e.(transition := None)), to), from, e.transition.value, e, frame);
  }
}
