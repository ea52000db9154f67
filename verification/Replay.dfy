/** A viewer's whole life, tick by tick: what the last record of an entity said, against
    where the entity is now. */
module Replay {
  import opened Numbers
  import opened Config
  import opened Probing
  import opened Ghosts
  import opened Snapshot
  import opened Gather
  import opened Select
  import opened Scoring
  import opened Rounds
  import opened Serve
  import opened Ticking
  import Odometer
  import Packet

  /** The readings and the server's side of one client, before the first tick and after
      each, under one policy, budget and codec. */
  datatype Life = Life(readings: seq<Odometer.Readings>, sides: seq<Replica>, beats: seq<Beat>,
      policy: Policy, budget: Budget, codec: Packet.RecordCodec)

  ghost predicate BeatAt(l: Life, k: int)
    requires |l.readings| == |l.sides| == |l.beats| + 1 && Packet.Codec(l.codec) && 0 <= k < |l.beats|
  {
    Beats(l.budget, l.codec, l.policy, l.readings[k], l.sides[k], l.beats[k], l.readings[k + 1], l.sides[k + 1])
  }

  /** Columns only grow, and what is shown again was shown before: no id comes back. */
  ghost predicate OnwardAt(l: Life, k: int)
    requires 0 <= k && k + 1 < |l.beats|
  {
    var now, next := l.beats[k].motion, l.beats[k + 1].motion;
    |now.at| <= |next.at| && forall id :: id in next.shown && id < |now.at| ==> id in now.shown
  }

  /** Ticks in order, from a client that holds nothing. */
  ghost predicate Lived(l: Life) {
    && |l.readings| == |l.sides| == |l.beats| + 1 && Packet.Codec(l.codec)
    && l.sides[0] == Replica(map[], [])
    && (forall k {:trigger BeatAt(l, k)} :: 0 <= k < |l.beats| ==> BeatAt(l, k))
    && (forall k {:trigger OnwardAt(l, k)} :: 0 <= k < |l.beats| - 1 ==> OnwardAt(l, k))
  }

  function Motions(l: Life): (m: seq<Odometer.Motion>)
    ensures |m| == |l.beats|
  {
    seq(|l.beats|, k requires 0 <= k < |l.beats| => l.beats[k].motion)
  }

  // ----- the last record of a ghost -----

  /** Tick `k` sent a record of `id`, ranked at `j`. */
  ghost predicate SentAt(b: Beat, id: u32, j: int) {
    && b.o.Served? && 0 <= j < b.o.selection.sent <= |b.o.selection.ranked|
    && b.o.selection.ranked[j].Index() < |b.o.found|
    && b.o.found[b.o.selection.ranked[j].Index()].id == id
  }

  ghost predicate Sends(b: Beat, id: u32) {
    exists j :: SentAt(b, id, j)
  }

  /** Tick `k` is the last, before `n`, to have sent `id`, and the ghost's mark is its
      reading then. */
  ghost predicate LastAt(l: Life, n: nat, id: u32, k: nat)
    requires Lived(l) && n <= |l.beats|
  {
    && k < n && Sends(l.beats[k], id) && (forall i :: k < i < n ==> !Sends(l.beats[i], id))
    && id in l.sides[n].ghosts && id < |l.beats[k].frame.readings|
    && l.sides[n].ghosts[id].mark == l.beats[k].frame.readings[id]
    && l.sides[n].ghosts[id].lastSent == l.beats[k].frame.tick
  }

  lemma {:induction false} RecordsAreSent(l: Life, k: nat, id: u32)
    requires Lived(l) && k < |l.beats| && l.beats[k].o.Served?
    ensures BeatAt(l, k)
    ensures id in RoundOf(l.beats[k].frame, l.beats[k].o).records <==> Sends(l.beats[k], id)
  {
    assert BeatAt(l, k);
    var b := l.beats[k];
    var records := RoundOf(b.frame, b.o).records;
    if id in records {
      var j :| 0 <= j < |records| && records[j] == id;
      assert SentAt(b, id, j);
    }
    if Sends(b, id) {
      var j :| SentAt(b, id, j);
      assert records[j] == id;
    }
  }

  /** What one serve does to a ghost it leaves: a fresh mark if it sent it, the old one if not. */
  lemma {:induction false} MarkAfter(s: Replica, r: Round, grace: u32, s': Replica, id: u32)
    requires Serves(s, r, grace, s') && id in s'.ghosts
    ensures id in r.records ==> s'.ghosts[id].mark == r.readings[id] && s'.ghosts[id].lastSent == r.tick
    ensures id !in r.records ==> id in s.ghosts && s'.ghosts[id].mark == s.ghosts[id].mark
    ensures id !in r.records ==> s'.ghosts[id].lastSent == s.ghosts[id].lastSent
  {
  }

  /** The same over one tick of a life. */
  lemma {:induction false} MarkStep(l: Life, n: nat, id: u32)
    requires Lived(l) && n < |l.beats| && id in l.sides[n + 1].ghosts
    ensures var b, g, was := l.beats[n], l.sides[n + 1].ghosts[id], l.sides[n].ghosts;
      if Sends(b, id)
      then id < |b.frame.readings| && g.mark == b.frame.readings[id] && g.lastSent == b.frame.tick
      else id in was && g.mark == was[id].mark && g.lastSent == was[id].lastSent
  {
    assert BeatAt(l, n);
    var b := l.beats[n];
    if b.o.Served? {
      RecordsAreSent(l, n, id);
      MarkAfter(l.sides[n], RoundOf(b.frame, b.o), l.policy.grace, l.sides[n + 1], id);
    }
  }

  lemma {:induction false} LastStays(l: Life, n: nat, id: u32, k: nat)
    requires Lived(l) && n < |l.beats| && LastAt(l, n, id, k) && !Sends(l.beats[n], id) && id in l.sides[n + 1].ghosts
    requires l.sides[n + 1].ghosts[id].mark == l.sides[n].ghosts[id].mark
    requires l.sides[n + 1].ghosts[id].lastSent == l.sides[n].ghosts[id].lastSent
    ensures LastAt(l, n + 1, id, k)
  {
  }

  /** Every ghost has a last record, and carries its mark. */
  lemma {:induction false} LastSent(l: Life, n: nat, id: u32) returns (k: nat)
    requires Lived(l) && n <= |l.beats| && id in l.sides[n].ghosts
    ensures LastAt(l, n, id, k)
  {
    if n == 0 {
      assert false;
    } else {
      MarkStep(l, n - 1, id);
      if Sends(l.beats[n - 1], id) {
        k := n - 1;
      } else {
        k := LastSent(l, n - 1, id);
        LastStays(l, n - 1, id, k);
      }
    }
  }

  /** Every id the server keeps for a client is one the columns cover. */
  ghost predicate Within(s: Replica, n: nat) {
    (forall id :: id in s.ghosts ==> id < n) && (forall id :: id in s.pending ==> id < n)
  }

  lemma {:induction false} ServeStaysWithin(s: Replica, r: Round, grace: u32, s': Replica, n: nat)
    requires Serves(s, r, grace, s') && Within(s, n) && |r.readings| <= n
    ensures Within(s', n)
  {
    MarkedKeys(s, r);
    forall id | id in s'.pending
      ensures id < n
    {
      assert id in s.pending || id in Marked(s, r);
    }
  }

  lemma {:induction false} BeatStaysWithin(l: Life, k: nat)
    requires Lived(l) && k < |l.beats| && Within(l.sides[k], |l.beats[k].motion.at|)
    ensures Within(l.sides[k + 1], |l.beats[k].motion.at|)
  {
    assert BeatAt(l, k);
    var b := l.beats[k];
    if b.o.Served? {
      ServeStaysWithin(l.sides[k], RoundOf(b.frame, b.o), l.policy.grace, l.sides[k + 1], |b.motion.at|);
    }
  }

  /** So over a life a viewer stays one its region can serve. */
  lemma {:induction false} StaysWithin(l: Life, k: nat)
    requires Lived(l) && k < |l.beats|
    ensures Within(l.sides[k], |l.beats[k].motion.at|) && Within(l.sides[k + 1], |l.beats[k].motion.at|)
  {
    if k > 0 {
      StaysWithin(l, k - 1);
      assert OnwardAt(l, k - 1);
    }
    BeatStaysWithin(l, k);
  }

  // ----- the path since -----

  lemma {:induction false} ShownAgain(l: Life, k: nat, i: nat, n: nat, id: nat)
    requires Lived(l) && k <= i <= n < |l.beats|
    requires id < |l.beats[k].motion.at| && id in l.beats[n].motion.shown
    ensures id in l.beats[i].motion.shown && id < |l.beats[i].motion.at|
    decreases n - i
  {
    ColumnsGrow(l, k, i);
    if i < n {
      ShownAgain(l, k, i + 1, n, id);
      assert OnwardAt(l, i);
    }
  }

  lemma {:induction false} ColumnsGrow(l: Life, k: nat, i: nat)
    requires Lived(l) && k <= i < |l.beats|
    ensures |l.beats[k].motion.at| <= |l.beats[i].motion.at|
  {
    if k < i {
      ColumnsGrow(l, k, i - 1);
      assert OnwardAt(l, i - 1);
    }
  }

  /** The ticks after `k` and up to `n` are a run of the odometer. */
  lemma {:induction false} Since(l: Life, k: nat, n: nat)
    requires Lived(l) && k < n < |l.beats|
    ensures Odometer.Runs(l.readings[k + 1..n + 2], Motions(l)[k + 1..n + 1], l.policy.unseenDrift)
  {
    var s, t := l.readings[k + 1..n + 2], Motions(l)[k + 1..n + 1];
    forall i {:trigger s[i]} | 0 <= i < |s|
      ensures Odometer.Parallel(s[i])
    {
      assert BeatAt(l, k + i);
    }
    forall i {:trigger t[i]} | 0 <= i < |t|
      ensures Odometer.Sensible(t[i]) && Odometer.Ticked(s[i], t[i], l.policy.unseenDrift, s[i + 1])
    {
      assert BeatAt(l, k + 1 + i);
    }
  }

  lemma {:induction false} ShownSince(l: Life, k: nat, n: nat, id: nat)
    requires Lived(l) && k < n < |l.beats|
    requires id < |l.beats[k].motion.at| && id in l.beats[n].motion.shown
    ensures Odometer.Shown(Motions(l)[k + 1..n + 1], id)
  {
    var t := Motions(l)[k + 1..n + 1];
    forall i | 0 <= i < |t|
      ensures id in t[i].shown
    {
      ShownAgain(l, k, k + 1 + i, n, id);
    }
  }

  /** How far an entity has come, tag bumps included, since tick `k`. */
  ghost function PathSince(l: Life, k: nat, n: nat, id: nat): nat
    requires Lived(l) && k < n < |l.beats|
    requires id < |l.beats[k].motion.at| && id in l.beats[n].motion.shown
  {
    Since(l, k, n);
    ShownSince(l, k, n, id);
    Odometer.Path(l.readings[k + 1..n + 2], Motions(l)[k + 1..n + 1], l.policy.unseenDrift, id)
  }

  // ----- what the record said -----

  /** The record tick `k` sent of `id`. */
  ghost function RecordSent(b: Beat, id: u32, j: int): Packet.Record
    requires SentAt(b, id, j) && Listed(b.frame.snap, b.o.found)
  {
    RecordOf(b.frame.snap.rows, b.o.found[b.o.selection.ranked[j].Index()])
  }

  /** A record says where its entity stood on its tick, and with what tag. */
  lemma {:induction false} RecordSays(l: Life, k: nat, id: u32, j: int)
    requires Lived(l) && k < |l.beats| && SentAt(l.beats[k], id, j)
    ensures var b := l.beats[k];
      && Listed(b.frame.snap, b.o.found) && id in b.motion.shown && id < |b.motion.at| == |b.motion.tags|
      && RecordSent(b, id, j).at == b.motion.at[id] && RecordSent(b, id, j).tag == b.motion.tags[id]
  {
    assert BeatAt(l, k);
    var b := l.beats[k];
    RowIsCurrent(b.frame, b.motion, l.readings[k + 1], b.o.found[b.o.selection.ranked[j].Index()].index);
  }

  /** After a tick that shows it, an entity has been read where it stands. */
  lemma {:induction false} ReadWhereItStands(l: Life, k: nat, id: nat)
    requires Lived(l) && k < |l.beats| && id in l.beats[k].motion.shown
    ensures var r, t := l.readings[k + 1], l.beats[k].motion;
      Odometer.Read(r, id) && id < |t.at| == |t.tags| && r.prev[id] == t.at[id] && r.tags[id] == t.tags[id]
  {
    assert BeatAt(l, k);
  }

  /** The run since a ghost's last record: from the reading it is marked with, where that
      record put the entity, to the reading now. */
  lemma {:induction false} SinceLast(l: Life, n: nat, id: u32, k: nat, j: int)
    requires Lived(l) && n < |l.beats| && LastAt(l, n, id, k) && SentAt(l.beats[k], id, j)
    requires id in l.beats[n].motion.shown
    ensures var b, s, t := l.beats[k], l.readings[k + 1..n + 2], Motions(l)[k + 1..n + 1];
      && Listed(b.frame.snap, b.o.found) && id < |b.motion.at|
      && Odometer.Runs(s, t, l.policy.unseenDrift) && Odometer.Shown(t, id) && |t| == n - k
      && Odometer.Read(s[0], id) && s[0].total[id] == l.sides[n].ghosts[id].mark
      && s[0].prev[id] == RecordSent(b, id, j).at && s[0].tags[id] == RecordSent(b, id, j).tag
  {
    RecordSays(l, k, id, j);
    ReadWhereItStands(l, k, id);
    Since(l, k, n);
    ShownSince(l, k, n, id);
    assert BeatAt(l, k);
  }

  lemma {:induction false} Now(l: Life, n: nat, id: nat, k: nat)
    requires Lived(l) && k < n < |l.beats| && id in l.beats[n].motion.shown
    ensures var last := l.readings[k + 1..n + 2][n - k];
      && last == l.readings[n + 1] && Odometer.Read(last, id) && id < |l.beats[n].motion.at| == |l.beats[n].motion.tags|
      && last.prev[id] == l.beats[n].motion.at[id] && last.tags[id] == l.beats[n].motion.tags[id]
      && l.beats[n].frame.readings == last.total
  {
    ReadWhereItStands(l, n, id);
    assert BeatAt(l, n);
  }

  /** What tick `n` scores candidate `i`. */
  ghost predicate Scores(l: Life, n: nat, i: nat, score: u32)
    requires Lived(l) && n < |l.beats|
  {
    var b := l.beats[n];
    && BeatAt(l, n) && b.o.Served? && i < |b.o.found|
    && RankOf(b.o.found[i], i, l.sides[n].ghosts, b.frame.readings, b.frame.tick, l.policy).score == score
  }

  lemma {:induction false} ZeroIsUndrifted(l: Life, n: nat, i: nat)
    requires Lived(l) && n < |l.beats| && Scores(l, n, i, 0) && l.policy.unseenDrift > 0
    ensures var b, id := l.beats[n], l.beats[n].o.found[i].id;
      && id in l.sides[n].ghosts && id < |b.frame.readings|
      && WrapSub(b.frame.readings[id], l.sides[n].ghosts[id].mark) == 0 && id in b.motion.shown
  {
    var b := l.beats[n];
    RowIsCurrent(b.frame, b.motion, l.readings[n + 1], b.o.found[i].index);
  }

  /** A ghost that scores zero is already correct: the last record sent of it put it where
      it is now, with the tag it has now, if its path since then is below 2^32. */
  lemma {:induction false} ZeroScoreIsCorrect(l: Life, n: nat, i: nat) returns (k: nat, j: int)
    requires Lived(l) && n < |l.beats| && Scores(l, n, i, 0) && l.policy.unseenDrift > 0
    ensures var id := l.beats[n].o.found[i].id;
      && id < EMPTY && LastAt(l, n, id, k) && SentAt(l.beats[k], id, j) && id in l.beats[n].motion.shown
      && id < |l.beats[k].motion.at| && id < |l.beats[n].motion.at| && id < |l.beats[n].motion.tags|
      && Listed(l.beats[k].frame.snap, l.beats[k].o.found)
      && (PathSince(l, k, n, id) < 0x1_0000_0000 ==>
            && RecordSent(l.beats[k], id, j).at == l.beats[n].motion.at[id]
            && RecordSent(l.beats[k], id, j).tag == l.beats[n].motion.tags[id])
  {
    var id: u32 := l.beats[n].o.found[i].id;
    ZeroIsUndrifted(l, n, i);
    k := LastSent(l, n, id);
    j :| SentAt(l.beats[k], id, j);
    SinceLast(l, n, id, k, j);
    Now(l, n, id, k);
    var s, t := l.readings[k + 1..n + 2], Motions(l)[k + 1..n + 1];
    if Odometer.Path(s, t, l.policy.unseenDrift, id) < 0x1_0000_0000 {
      Odometer.UnchangedIsStill(s, t, l.policy.unseenDrift, id);
    }
  }

  /** Drift never understates how far the last record of a ghost is from where it is now. */
  lemma {:induction false} DriftBoundsDisplacement(l: Life, n: nat, id: u32) returns (k: nat, j: int)
    requires Lived(l) && n < |l.beats| && id in l.sides[n].ghosts && id in l.beats[n].motion.shown
    ensures LastAt(l, n, id, k) && SentAt(l.beats[k], id, j) && Listed(l.beats[k].frame.snap, l.beats[k].o.found)
    ensures id < |l.beats[k].motion.at| && id < |l.beats[n].motion.at| && id < |l.beats[n].frame.readings|
    ensures PathSince(l, k, n, id) < 0x1_0000_0000 ==>
      DriftOf(id, l.sides[n].ghosts, l.beats[n].frame.readings[id], l.beats[n].frame.tick, l.policy) >=
        Min(Odometer.Manhattan(RecordSent(l.beats[k], id, j).at, l.beats[n].motion.at[id]), 0xFFFF_FFFF)
  {
    k := LastSent(l, n, id);
    j :| SentAt(l.beats[k], id, j);
    SinceLast(l, n, id, k, j);
    Now(l, n, id, k);
    var s, t := l.readings[k + 1..n + 2], Motions(l)[k + 1..n + 1];
    if Odometer.Path(s, t, l.policy.unseenDrift, id) < 0x1_0000_0000 {
      Odometer.DifferenceCovers(s, t, l.policy.unseenDrift, id);
    }
  }

  /** Until it goes stale, the drift of a ghost is the path of its entity since the last record
      sent of it, tag bumps included. */
  lemma {:induction false} DriftIsPath(l: Life, n: nat, id: u32) returns (k: nat)
    requires Lived(l) && n < |l.beats| && id in l.sides[n].ghosts && id in l.beats[n].motion.shown
    requires !Stale(id, l.sides[n].ghosts, l.beats[n].frame.tick, l.policy)
    ensures LastAt(l, n, id, k) && id < |l.beats[k].motion.at| && id < |l.beats[n].frame.readings|
    ensures PathSince(l, k, n, id) < 0x1_0000_0000 ==>
      DriftOf(id, l.sides[n].ghosts, l.beats[n].frame.readings[id], l.beats[n].frame.tick, l.policy)
        == PathSince(l, k, n, id)
  {
    k := LastSent(l, n, id);
    var j :| SentAt(l.beats[k], id, j);
    SinceLast(l, n, id, k, j);
    Now(l, n, id, k);
    Odometer.DifferenceIsPath(l.readings[k + 1..n + 2], Motions(l)[k + 1..n + 1], l.policy.unseenDrift, id);
  }
}
