/** One viewer over many serves: what its client holds, against what the server believes. */
module Rounds {
  import opened Numbers
  import opened Probing
  import opened Ghosts
  import opened Select

  /** What the server keeps for one client: its ghosts, and those it has yet to tell the
      client to drop. */
  datatype Replica = Replica(ghosts: map<u32, Known>, pending: seq<u32>)

  /** One serve: despawns drained into the packet, records sent, the rest of the ghost
      set, and the ghosts that aged out. */
  datatype Round = Round(tick: u32, drained: seq<u32>, records: seq<u32>, rest: seq<u32>, departed: seq<u32>,
      readings: seq<u32>)

  function Marked(s: Replica, r: Round): map<u32, Known>
    requires InUse(r.records, r.readings)
  {
    Committed(s.ghosts, r.records, r.rest, r.readings, r.tick)
  }

  /** What a serve does to the server's side. */
  ghost predicate Serves(s: Replica, r: Round, grace: u32, s': Replica) {
    && InUse(r.records, r.readings)
    && r.drained <= s.pending
    && s'.ghosts == Kept(Marked(s, r), r.tick, grace)
    && Distinct(r.departed)
    && (forall id :: id in r.departed <==> id in Marked(s, r) && id !in s'.ghosts)
    && s'.pending == s.pending[|r.drained|..] + r.departed
  }

  ghost predicate ServedAt(states: seq<Replica>, rounds: seq<Round>, grace: u32, k: int)
    requires |states| == |rounds| + 1 && 0 <= k < |rounds|
  {
    Serves(states[k], rounds[k], grace, states[k + 1])
  }

  /** Serves in order, from a client that holds nothing. */
  ghost predicate Run(states: seq<Replica>, rounds: seq<Round>, grace: u32) {
    && |states| == |rounds| + 1
    && states[0] == Replica(map[], [])
    && forall k {:trigger ServedAt(states, rounds, grace, k)} :: 0 <= k < |rounds| ==>
      ServedAt(states, rounds, grace, k)
  }

  function NamesOf(ids: set<u32>, name: u32 -> u64): set<u64> {
    set id | id in ids :: name(id)
  }

  /** The server's names for what a client may hold. */
  function Believed(s: Replica, name: u32 -> u64): set<u64> {
    NamesOf(s.ghosts.Keys, name) + NamesOf(SetOf(s.pending), name)
  }

  /** A client drops a packet's despawns, then adopts its records. */
  function Applied(held: set<u64>, r: Round, name: u32 -> u64): set<u64> {
    held - NamesOf(SetOf(r.drained), name) + NamesOf(SetOf(r.records), name)
  }

  /** What a client holds after receiving every packet in order. */
  function Held(rounds: seq<Round>, name: u32 -> u64): set<u64> {
    if rounds == [] then {} else Applied(Held(rounds[..|rounds| - 1], name), rounds[|rounds| - 1], name)
  }

  lemma {:induction false} RunFront(states: seq<Replica>, rounds: seq<Round>, grace: u32)
    requires Run(states, rounds, grace) && rounds != []
    ensures Run(states[..|rounds|], rounds[..|rounds| - 1], grace)
    ensures Serves(states[|rounds| - 1], rounds[|rounds| - 1], grace, states[|rounds|])
  {
    var k := |rounds| - 1;
    assert ServedAt(states, rounds, grace, k);
    var s, r := states[..k + 1], rounds[..k];
    forall i | 0 <= i < k
      ensures ServedAt(s, r, grace, i)
    {
      assert ServedAt(states, rounds, grace, i);
    }
  }

  // ----- the client never holds more than the server believes -----

  lemma {:induction false} MarkedKeys(s: Replica, r: Round)
    requires InUse(r.records, r.readings)
    ensures Marked(s, r).Keys == s.ghosts.Keys + SetOf(r.records)
  {
  }

  lemma {:induction false} ContainedStep(s: Replica, r: Round, grace: u32, s': Replica, held: set<u64>,
      name: u32 -> u64)
    requires Serves(s, r, grace, s') && held <= Believed(s, name)
    ensures Applied(held, r, name) <= Believed(s', name)
  {
    MarkedKeys(s, r);
    forall n | n in Applied(held, r, name)
      ensures n in Believed(s', name)
    {
      if n in NamesOf(SetOf(r.records), name) || n in NamesOf(s.ghosts.Keys, name) {
        var id :| id in Marked(s, r) && name(id) == n;
        assert id in s'.ghosts.Keys || id in SetOf(s'.pending);
      } else {
        var id :| id in SetOf(s.pending) && name(id) == n;
        assert s.pending == r.drained + s.pending[|r.drained|..];
        assert id in SetOf(r.drained) || id in SetOf(s'.pending);
      }
    }
  }

  /** Over every lossless run, whatever its names and however its queue was drained, a
      client holds nothing that is not in the ghost table or waiting to be despawned. */
  lemma {:induction false} ClientIsContained(states: seq<Replica>, rounds: seq<Round>, grace: u32, name: u32 -> u64)
    requires Run(states, rounds, grace)
    ensures Held(rounds, name) <= Believed(states[|rounds|], name)
    decreases |rounds|
  {
    if rounds != [] {
      var k := |rounds| - 1;
      RunFront(states, rounds, grace);
      ClientIsContained(states[..k + 1], rounds[..k], grace, name);
      ContainedStep(states[k], rounds[k], grace, states[k + 1], Held(rounds[..k], name), name);
    }
  }

  // ----- and holds exactly that when every queue is drained whole -----

  /** The serve drained its whole queue. */
  ghost predicate Drains(s: Replica, r: Round) {
    r.drained == s.pending
  }

  ghost predicate InStep(s: Replica, held: set<u64>, name: u32 -> u64) {
    && held == Believed(s, name)
    && s.ghosts.Keys !! SetOf(s.pending)
  }

  /** No despawn due goes by the name of a ghost, unless that name is sent again. */
  ghost predicate Clear(s: Replica, r: Round, name: u32 -> u64) {
    forall d: u32, g: u32 :: d in s.pending && g in s.ghosts && name(d) == name(g) ==>
      name(g) in NamesOf(SetOf(r.records), name)
  }

  /** No two entities the server keeps account of go by one name. */
  ghost predicate Apart(s: Replica, name: u32 -> u64) {
    var ids := s.ghosts.Keys + SetOf(s.pending);
    forall a: u32, b: u32 :: a in ids && b in ids && name(a) == name(b) ==> a == b
  }

  lemma {:induction false} ApartIsClear(s: Replica, r: Round, held: set<u64>, name: u32 -> u64)
    requires InStep(s, held, name) && Apart(s, name)
    ensures Clear(s, r, name)
  {
  }

  lemma {:induction false} ClearStep(s: Replica, r: Round, grace: u32, s': Replica, held: set<u64>, name: u32 -> u64)
    requires Serves(s, r, grace, s') && Drains(s, r) && Clear(s, r, name) && InStep(s, held, name)
    ensures InStep(s', Applied(held, r, name), name)
  {
    MarkedKeys(s, r);
    assert s'.pending == r.departed;
    ContainedStep(s, r, grace, s', held, name);
    forall n | n in Believed(s', name)
      ensures n in Applied(held, r, name)
    {
      var id: u32 :| (id in s'.ghosts.Keys || id in SetOf(s'.pending)) && name(id) == n;
      assert id in Marked(s, r);
      if id in SetOf(r.records) {
        assert n in NamesOf(SetOf(r.records), name);
      } else {
        assert n in NamesOf(s.ghosts.Keys, name) && n in held;
        if n in NamesOf(SetOf(r.drained), name) {
          var d: u32 :| d in SetOf(r.drained) && name(d) == n;
        }
      }
    }
  }

  lemma {:induction false} UnclearStep(s: Replica, r: Round, grace: u32, s': Replica, held: set<u64>, name: u32 -> u64)
    requires Serves(s, r, grace, s') && Drains(s, r) && !Clear(s, r, name)
    ensures !InStep(s', Applied(held, r, name), name)
  {
    MarkedKeys(s, r);
    var d: u32, g: u32 :| d in s.pending && g in s.ghosts && name(d) == name(g)
      && name(g) !in NamesOf(SetOf(r.records), name);
    assert d in SetOf(r.drained) && name(g) in NamesOf(SetOf(r.drained), name);
    assert g in Marked(s, r);
    assert g in s'.ghosts.Keys || g in SetOf(s'.pending);
    assert name(g) in Believed(s', name) && name(g) !in Applied(held, r, name);
  }

  /** In step after every one of the first `k` serves. */
  ghost predicate InStepAt(states: seq<Replica>, rounds: seq<Round>, name: u32 -> u64, k: int)
    requires |states| == |rounds| + 1 && 0 <= k <= |rounds|
  {
    InStep(states[k], Held(rounds[..k], name), name)
  }

  ghost predicate ClearAt(states: seq<Replica>, rounds: seq<Round>, name: u32 -> u64, k: int)
    requires |states| == |rounds| + 1 && 0 <= k < |rounds|
  {
    Clear(states[k], rounds[k], name)
  }

  lemma {:induction false} StepDecides(states: seq<Replica>, rounds: seq<Round>, grace: u32, name: u32 -> u64, k: nat)
    requires Run(states, rounds, grace) && k < |rounds| && Drains(states[k], rounds[k])
    requires InStepAt(states, rounds, name, k)
    ensures InStepAt(states, rounds, name, k + 1) <==> ClearAt(states, rounds, name, k)
  {
    assert ServedAt(states, rounds, grace, k);
    var held := Held(rounds[..k], name);
    assert rounds[..k + 1][..k] == rounds[..k];
    if Clear(states[k], rounds[k], name) {
      ClearStep(states[k], rounds[k], grace, states[k + 1], held, name);
    } else {
      UnclearStep(states[k], rounds[k], grace, states[k + 1], held, name);
    }
  }

  lemma {:induction false} InStepWhileClear(states: seq<Replica>, rounds: seq<Round>, grace: u32, name: u32 -> u64,
      k: nat)
    requires Run(states, rounds, grace) && k <= |rounds|
    requires forall i :: 0 <= i < |rounds| ==> Drains(states[i], rounds[i])
    requires forall i :: 0 <= i < k ==> ClearAt(states, rounds, name, i)
    ensures InStepAt(states, rounds, name, k)
  {
    if k == 0 {
      assert Believed(states[0], name) == {};
    } else {
      InStepWhileClear(states, rounds, grace, name, k - 1);
      StepDecides(states, rounds, grace, name, k - 1);
    }
  }

  /** In step before the first serve and after each. */
  ghost predicate AlwaysInStep(states: seq<Replica>, rounds: seq<Round>, name: u32 -> u64)
    requires |states| == |rounds| + 1
  {
    forall k {:trigger InStepAt(states, rounds, name, k)} :: 0 <= k <= |rounds| ==> InStepAt(states, rounds, name, k)
  }

  ghost predicate AlwaysClear(states: seq<Replica>, rounds: seq<Round>, name: u32 -> u64)
    requires |states| == |rounds| + 1
  {
    forall k {:trigger ClearAt(states, rounds, name, k)} :: 0 <= k < |rounds| ==> ClearAt(states, rounds, name, k)
  }

  /** If every serve drains its whole queue, the client holds exactly the ghosts and the
      pending despawns after each of them, no entity being both, exactly when no despawn
      ever went out under the name of a ghost that was not sent with it. */
  lemma {:induction false} ClientIsExact(states: seq<Replica>, rounds: seq<Round>, grace: u32, name: u32 -> u64)
    requires Run(states, rounds, grace)
    requires forall k :: 0 <= k < |rounds| ==> Drains(states[k], rounds[k])
    ensures AlwaysInStep(states, rounds, name) <==> AlwaysClear(states, rounds, name)
  {
    if AlwaysClear(states, rounds, name) {
      forall k | 0 <= k <= |rounds|
        ensures InStepAt(states, rounds, name, k)
      {
        InStepWhileClear(states, rounds, grace, name, k);
      }
    } else {
      var k :| 0 <= k < |rounds| && !ClearAt(states, rounds, name, k);
      if InStepAt(states, rounds, name, k) {
        StepDecides(states, rounds, grace, name, k);
        assert !InStepAt(states, rounds, name, k + 1);
      }
    }
  }

  /** In particular while the entities it keeps account of go by different names, as those
      of a region do until one comes back to it under the name it left with. */
  lemma {:induction false} ClientIsExactWhileApart(states: seq<Replica>, rounds: seq<Round>, grace: u32,
      name: u32 -> u64, k: nat)
    requires Run(states, rounds, grace) && k <= |rounds|
    requires forall i :: 0 <= i < |rounds| ==> Drains(states[i], rounds[i])
    requires forall i :: 0 <= i < k ==> Apart(states[i], name)
    ensures InStepAt(states, rounds, name, k)
  {
    if k == 0 {
      assert Believed(states[0], name) == {};
    } else {
      ClientIsExactWhileApart(states, rounds, grace, name, k - 1);
      ApartIsClear(states[k - 1], rounds[k - 1], Held(rounds[..k - 1], name), name);
      StepDecides(states, rounds, grace, name, k - 1);
    }
  }

  // ----- the ghost table is bounded -----

  function Stamped(r: Round): set<u32> {
    SetOf(r.records) + SetOf(r.rest)
  }

  /** Everything stamped by a serve at or after `oldest`. */
  function Recent(rounds: seq<Round>, oldest: int): set<u32> {
    if rounds == [] then {}
    else
      var front, last := rounds[..|rounds| - 1], rounds[|rounds| - 1];
      Recent(front, oldest) + (if last.tick >= oldest then Stamped(last) else {})
  }

  lemma {:induction false} RecentGrows(rounds: seq<Round>, oldest: int, older: int)
    requires older <= oldest
    ensures Recent(rounds, oldest) <= Recent(rounds, older)
  {
    if rounds != [] {
      RecentGrows(rounds[..|rounds| - 1], oldest, older);
    }
  }

  ghost predicate TicksRise(rounds: seq<Round>) {
    forall j, k :: 0 <= j < k < |rounds| ==> rounds[j].tick < rounds[k].tick
  }

  ghost predicate Capped(rounds: seq<Round>, cap: nat) {
    forall k :: 0 <= k < |rounds| ==> |rounds[k].records| + |rounds[k].rest| <= cap
  }

  lemma {:induction false} StampedSize(r: Round, cap: nat)
    requires |r.records| + |r.rest| <= cap
    ensures |Stamped(r)| <= cap
  {
    SetOfSize(r.records);
    SetOfSize(r.rest);
    UnionSize(SetOf(r.records), SetOf(r.rest));
  }

  /** Serves on distinct ticks: at most `cap` entities for each tick of the span. */
  lemma {:induction false} RecentSize(rounds: seq<Round>, oldest: int, cap: nat)
    requires TicksRise(rounds) && Capped(rounds, cap)
    ensures rounds == [] ==> Recent(rounds, oldest) == {}
    ensures rounds != [] ==> |Recent(rounds, oldest)| <= Max(0, rounds[|rounds| - 1].tick - oldest + 1) * cap
  {
    if rounds != [] {
      var front, last := rounds[..|rounds| - 1], rounds[|rounds| - 1];
      RecentSize(front, oldest, cap);
      if front != [] {
        MulLe(Max(0, front[|front| - 1].tick - oldest + 1), Max(0, last.tick - oldest), cap);
      }
      if last.tick >= oldest {
        StampedSize(last, cap);
        UnionSize(Recent(front, oldest), Stamped(last));
        MulLe(0, last.tick - oldest, cap);
        assert (last.tick - oldest + 1) * cap == (last.tick - oldest) * cap + cap;
      }
    }
  }

  lemma {:induction false} UnionSize<T>(a: set<T>, b: set<T>)
    ensures |a + b| <= |a| + |b|
  {
    assert a + b == a + (b - a);
    assert |b - a| <= |b| by {
      assert b == (b - a) + (b * a);
    }
  }

  /** Every ghost was stamped on the tick it says. */
  ghost predicate Dated(s: Replica, rounds: seq<Round>) {
    forall id :: id in s.ghosts ==>
      id in Recent(rounds, s.ghosts[id].lastSeen) && s.ghosts[id].lastSeen <= rounds[|rounds| - 1].tick
  }

  lemma {:induction false} RoundsDate(states: seq<Replica>, rounds: seq<Round>, grace: u32)
    requires Run(states, rounds, grace) && TicksRise(rounds)
    ensures rounds == [] ==> states[0].ghosts == map[]
    ensures rounds != [] ==> Dated(states[|rounds|], rounds)
    decreases |rounds|
  {
    if rounds != [] {
      var k := |rounds| - 1;
      var s, r, s' := states[k], rounds[k], states[k + 1];
      RunFront(states, rounds, grace);
      RoundsDate(states[..k + 1], rounds[..k], grace);
      forall id | id in s'.ghosts
        ensures id in Recent(rounds, s'.ghosts[id].lastSeen) && s'.ghosts[id].lastSeen <= r.tick
      {
        if id in r.records || id in r.rest {
          assert s'.ghosts[id].lastSeen == r.tick && id in Stamped(r);
        } else {
          assert id in s.ghosts;
        }
      }
    }
  }

  lemma {:induction false} GhostsWithinSpan(states: seq<Replica>, rounds: seq<Round>, grace: u32)
    requires Run(states, rounds, grace) && TicksRise(rounds) && rounds != []
    ensures |states[|rounds|].ghosts| <= |Recent(rounds, rounds[|rounds| - 1].tick - grace)|
  {
    RoundsDate(states, rounds, grace);
    LastKept(states, rounds, grace);
    GhostsAreRecent(states[|rounds|], rounds, rounds[|rounds| - 1].tick, grace);
    HeldWithin(states[|rounds|].ghosts, Recent(rounds, rounds[|rounds| - 1].tick - grace));
  }

  /** Without a tick wrap, a table holds at most `(grace + 1) * cap` ghosts after a serve. */
  lemma {:induction false} GhostsAreBounded(states: seq<Replica>, rounds: seq<Round>, grace: u32, cap: nat)
    requires Run(states, rounds, grace) && TicksRise(rounds) && Capped(rounds, cap) && rounds != []
    ensures |states[|rounds|].ghosts| <= (grace + 1) * cap
  {
    var tick := rounds[|rounds| - 1].tick;
    RecentSpan(rounds, tick, grace, cap);
    var span := |Recent(rounds, tick - grace)|;
    GhostsWithinSpan(states, rounds, grace);
  }

  lemma {:induction false} RecentSpan(rounds: seq<Round>, tick: u32, grace: u32, cap: nat)
    requires TicksRise(rounds) && Capped(rounds, cap) && rounds != [] && rounds[|rounds| - 1].tick == tick
    ensures |Recent(rounds, tick - grace)| <= (grace + 1) * cap
  {
    RecentSize(rounds, tick - grace, cap);
    assert Max(0, tick - (tick - grace) + 1) == grace + 1;
  }

  lemma {:induction false} HeldWithin(ghosts: map<u32, Known>, ids: set<u32>)
    requires ghosts.Keys <= ids
    ensures |ghosts| <= |ids|
  {
    SubsetSize(ghosts.Keys, ids);
  }

  lemma {:induction false} LastKept(states: seq<Replica>, rounds: seq<Round>, grace: u32)
    requires Run(states, rounds, grace) && rounds != []
    ensures forall id :: id in states[|rounds|].ghosts ==>
      Age(rounds[|rounds| - 1].tick, states[|rounds|].ghosts[id]) <= grace
  {
    RunFront(states, rounds, grace);
  }

  lemma {:induction false} GhostsAreRecent(s: Replica, rounds: seq<Round>, tick: u32, grace: u32)
    requires rounds != [] && tick == rounds[|rounds| - 1].tick && Dated(s, rounds)
    requires forall id :: id in s.ghosts ==> Age(tick, s.ghosts[id]) <= grace
    ensures s.ghosts.Keys <= Recent(rounds, tick - grace)
  {
    forall id | id in s.ghosts
      ensures id in Recent(rounds, tick - grace)
    {
      AgeIsElapsed(tick, s.ghosts[id]);
      RecentGrows(rounds, s.ghosts[id].lastSeen, tick - grace);
    }
  }

  lemma {:induction false} AgeIsElapsed(tick: u32, k: Known)
    requires k.lastSeen <= tick
    ensures Age(tick, k) == tick - k.lastSeen
  {
  }
}
