/** What a despawn can take away from a client that the server still believes it holds,
    decided from what a serve has before it. */
module Forgetting {
  import opened Numbers
  import opened Config
  import opened Probing
  import opened Ghosts
  import opened Nearest
  import opened Gather
  import opened Select
  import opened Rounds
  import opened Serve
  import opened Packing
  import Packet

  // ----- who is sent -----

  /** What a serve chooses from. */
  datatype Turn = Turn(cands: seq<Discovered>, ghosts: map<u32, Known>, readings: seq<u32>, tick: u32, policy: Policy,
      slots: nat)

  ghost predicate Fit(t: Turn) {
    Candidates(t.cands, t.readings) && Sound(t.policy)
  }

  function RankAt(t: Turn, i: nat): Ranked
    requires Fit(t) && i < |t.cands|
  {
    RankOf(t.cands[i], i, t.ghosts, t.readings, t.tick, t.policy)
  }

  /** Fewer than the cap are nearer. */
  predicate Watched(t: Turn, i: nat)
    requires i < |t.cands|
  {
    |CloserThan(Dists(t.cands), i)| < t.policy.ghostCap
  }

  /** Whoever is watched and ranks before a candidate. */
  ghost function Ahead(t: Turn, i: nat): set<nat>
    requires Fit(t) && i < |t.cands|
  {
    set j | 0 <= j < |t.cands| && Watched(t, j) && Before(RankAt(t, j), RankAt(t, i))
  }

  /** Watched, wanting, and with room left behind those that rank before it. */
  ghost predicate WillSend(t: Turn, i: nat)
    requires Fit(t) && i < |t.cands|
  {
    Watched(t, i) && RankAt(t, i).score > 0 && |Ahead(t, i)| < t.slots
  }

  ghost predicate Answer(t: Turn, s: Selection)
    requires Fit(t)
  {
    Selects(t.cands, t.ghosts, t.readings, t.tick, t.policy, t.slots, s)
  }

  /** Where a watched candidate stands in the ranking. */
  lemma {:induction false} Placed(t: Turn, s: Selection, i: nat) returns (a: nat)
    requires Fit(t) && Answer(t, s) && i in s.keep
    ensures i < |t.cands| && a < |s.ranked| && s.ranked[a] == RankAt(t, i) && s.ranked[a].Index() == i
  {
    var ranks := Ranks(t.cands, s.keep, t.ghosts, t.readings, t.tick, t.policy);
    var b :| 0 <= b < |s.keep| && s.keep[b] == i;
    assert ranks[b] == RankAt(t, i) && ranks[b] in multiset(ranks);
    assert ranks[b] in multiset(s.ranked);
    a :| 0 <= a < |s.ranked| && s.ranked[a] == ranks[b];
    RankRemembers(t.cands[i], i, t.ghosts, t.readings, t.tick, t.policy);
  }

  lemma {:induction false} RankedAt(t: Turn, s: Selection, a: nat)
    requires Fit(t) && Answer(t, s) && a < |s.ranked|
    ensures s.ranked[a].Index() < |t.cands| && s.ranked[a].Index() in s.keep
    ensures s.ranked[a] == RankAt(t, s.ranked[a].Index())
  {
    RankedIsKept(t.cands, t.ghosts, t.readings, t.tick, t.policy, s.keep, s.ranked, a);
  }

  /** The candidates of the first `a` entries. */
  function Leading(ranked: seq<Ranked>, a: nat): set<nat>
    requires a <= |ranked|
  {
    if a == 0 then {} else Leading(ranked, a - 1) + {ranked[a - 1].Index()}
  }

  lemma {:induction false} LeadingHolds(ranked: seq<Ranked>, a: nat, i: nat)
    requires a <= |ranked|
    ensures i in Leading(ranked, a) <==> exists b :: 0 <= b < a && ranked[b].Index() == i
  {
    if a > 0 {
      LeadingHolds(ranked, a - 1, i);
    }
  }

  /** No two entries are of one candidate. */
  lemma {:induction false} EntriesDiffer(t: Turn, s: Selection, b: nat, a: nat)
    requires Fit(t) && Answer(t, s) && b < a < |s.ranked|
    ensures s.ranked[b].Index() != s.ranked[a].Index()
  {
    RankedAt(t, s, a);
    RankedAt(t, s, b);
    assert Before(s.ranked[b], s.ranked[a]);
  }

  lemma {:induction false} LeadingCount(t: Turn, s: Selection, a: nat)
    requires Fit(t) && Answer(t, s) && a <= |s.ranked|
    ensures |Leading(s.ranked, a)| == a
  {
    if a > 0 {
      LeadingCount(t, s, a - 1);
      forall b | 0 <= b < a - 1
        ensures s.ranked[b].Index() != s.ranked[a - 1].Index()
      {
        EntriesDiffer(t, s, b, a - 1);
      }
      LeadingHolds(s.ranked, a - 1, s.ranked[a - 1].Index());
    }
  }

  /** An entry's place is how many rank before it. */
  lemma {:induction false} PlaceIsAhead(t: Turn, s: Selection, a: nat)
    requires Fit(t) && Answer(t, s) && a < |s.ranked|
    ensures s.ranked[a].Index() < |t.cands| && |Ahead(t, s.ranked[a].Index())| == a
  {
    RankedAt(t, s, a);
    var i := s.ranked[a].Index();
    forall j: nat
      ensures j in Ahead(t, i) <==> j in Leading(s.ranked, a)
    {
      LeadingHolds(s.ranked, a, j);
      if j in Ahead(t, i) {
        KeptIff(Dists(t.cands), t.policy.ghostCap, s.keep, j);
        var b := Placed(t, s, j);
        assert a < b ==> Before(s.ranked[a], s.ranked[b]);
      }
      if j in Leading(s.ranked, a) {
        var b :| 0 <= b < a && s.ranked[b].Index() == j;
        RankedAt(t, s, b);
        KeptIff(Dists(t.cands), t.policy.ghostCap, s.keep, j);
        assert Before(s.ranked[b], s.ranked[a]);
      }
    }
    assert Ahead(t, i) == Leading(s.ranked, a);
    LeadingCount(t, s, a);
  }

  /** Whether a candidate is sent is settled before anything is: by its distance, its score
      and how many rank before it. */
  lemma {:induction false} SentIff(t: Turn, s: Selection, i: nat)
    requires Fit(t) && Answer(t, s) && i < |t.cands|
    ensures WillSend(t, i) <==> exists a :: 0 <= a < s.sent && s.ranked[a].Index() == i
  {
    KeptIff(Dists(t.cands), t.policy.ghostCap, s.keep, i);
    if Watched(t, i) {
      var a := Placed(t, s, i);
      PlaceIsAhead(t, s, a);
      assert s.sent < a ==> Before(s.ranked[s.sent], s.ranked[a]);
      forall b | 0 <= b < s.sent && s.ranked[b].Index() == i
        ensures b == a
      {
        PlaceIsAhead(t, s, b);
      }
    } else {
      forall a | 0 <= a < s.sent
        ensures s.ranked[a].Index() != i
      {
        RankedAt(t, s, a);
      }
    }
  }

  // ----- what that does to the client -----

  /** A round is what one turn's selection comes to. */
  ghost predicate Chooses(t: Turn, s: Selection, r: Round) {
    && Fit(t) && Answer(t, s)
    && r.tick == t.tick && r.readings == t.readings
    && (forall a :: 0 <= a < |s.ranked| ==> s.ranked[a].Index() < |t.cands|)
    && r.records == IdsOf(t.cands, t.readings, s.ranked[..s.sent])
    && r.rest == IdsOf(t.cands, t.readings, s.ranked[s.sent..])
  }

  ghost predicate WillRenew(t: Turn, id: u32)
    requires Fit(t)
  {
    exists i :: 0 <= i < |t.cands| && WillSend(t, i) && t.cands[i].id == id
  }

  ghost predicate WillRenewName(t: Turn, n: u64, name: u32 -> u64)
    requires Fit(t)
  {
    exists i :: 0 <= i < |t.cands| && WillSend(t, i) && name(t.cands[i].id) == n
  }

  ghost predicate InSight(t: Turn, id: u32) {
    exists i :: 0 <= i < |t.cands| && Watched(t, i) && t.cands[i].id == id
  }

  lemma {:induction false} RecordsIff(t: Turn, s: Selection, r: Round, id: u32)
    requires Chooses(t, s, r)
    ensures id in r.records <==> WillRenew(t, id)
  {
    if id in r.records {
      var a :| 0 <= a < |r.records| && r.records[a] == id;
      SentIff(t, s, s.ranked[a].Index());
    }
    if WillRenew(t, id) {
      var i :| 0 <= i < |t.cands| && WillSend(t, i) && t.cands[i].id == id;
      SentIff(t, s, i);
      var a :| 0 <= a < s.sent && s.ranked[a].Index() == i;
      assert r.records[a] == id;
    }
  }

  lemma {:induction false} StampedIsWatched(t: Turn, s: Selection, r: Round, id: u32)
    requires Chooses(t, s, r) && (id in r.records || id in r.rest)
    ensures InSight(t, id)
  {
    var a: nat;
    if id in r.records {
      a :| 0 <= a < |r.records| && r.records[a] == id;
    } else {
      var b :| 0 <= b < |r.rest| && r.rest[b] == id;
      a := s.sent + b;
    }
    RankedAt(t, s, a);
    KeptIff(Dists(t.cands), t.policy.ghostCap, s.keep, s.ranked[a].Index());
  }

  lemma {:induction false} WatchedIsStamped(t: Turn, s: Selection, r: Round, id: u32)
    requires Chooses(t, s, r) && InSight(t, id)
    ensures id in r.records || id in r.rest
  {
    var i :| 0 <= i < |t.cands| && Watched(t, i) && t.cands[i].id == id;
    KeptIff(Dists(t.cands), t.policy.ghostCap, s.keep, i);
    var a := Placed(t, s, i);
    if a < s.sent {
      assert r.records[a] == id;
    } else {
      assert r.rest[a - s.sent] == id;
    }
  }

  /** The records and the rest are the watched. */
  lemma {:induction false} StampsIff(t: Turn, s: Selection, r: Round, id: u32)
    requires Chooses(t, s, r)
    ensures id in r.records || id in r.rest <==> InSight(t, id)
  {
    if id in r.records || id in r.rest {
      StampedIsWatched(t, s, r, id);
    } else if InSight(t, id) {
      WatchedIsStamped(t, s, r, id);
    }
  }

  /** A ghost that outlives the serve: within grace, or watched. */
  ghost predicate Outlives(t: Turn, g: u32) {
    g in t.ghosts && (Age(t.tick, t.ghosts[g]) <= t.policy.grace || InSight(t, g))
  }

  lemma {:induction false} SurvivorsAre(before: Replica, t: Turn, s: Selection, r: Round, after: Replica, id: u32)
    requires before.ghosts == t.ghosts && Chooses(t, s, r) && Serves(before, r, t.policy.grace, after)
    ensures id in after.ghosts <==> id in r.records || Outlives(t, id)
  {
    StampsIff(t, s, r, id);
    MarkedKeys(before, r);
  }

  /** A despawn the serve drains, in the name of a ghost that outlives it and that it will
      not send under that name. */
  ghost predicate Takes(t: Turn, drained: seq<u32>, name: u32 -> u64, d: u32, g: u32)
    requires Fit(t)
  {
    d in drained && Outlives(t, g) && name(d) == name(g) && !WillRenewName(t, name(g), name)
  }

  lemma {:induction false} RenewedIff(t: Turn, s: Selection, r: Round, n: u64, name: u32 -> u64)
    requires Chooses(t, s, r)
    ensures n in NamesOf(SetOf(r.records), name) <==> WillRenewName(t, n, name)
  {
    if n in NamesOf(SetOf(r.records), name) {
      var id: u32 :| id in SetOf(r.records) && name(id) == n;
      RecordsIff(t, s, r, id);
    }
    if WillRenewName(t, n, name) {
      var i :| 0 <= i < |t.cands| && WillSend(t, i) && name(t.cands[i].id) == n;
      RecordsIff(t, s, r, t.cands[i].id);
      assert t.cands[i].id in SetOf(r.records);
    }
  }

  /** Where a client held every ghost, it still does after a serve exactly when, before it,
      no despawn about to be drained bears the name of a ghost that will outlive the serve
      unsent. */
  lemma {:induction false} KeepsGhostsIff(before: Replica, t: Turn, s: Selection, r: Round, after: Replica,
      held: set<u64>, name: u32 -> u64)
    requires before.ghosts == t.ghosts && Chooses(t, s, r) && Serves(before, r, t.policy.grace, after)
    requires NamesOf(before.ghosts.Keys, name) <= held
    ensures NamesOf(after.ghosts.Keys, name) <= Applied(held, r, name) <==>
      forall d, g :: !Takes(t, r.drained, name, d, g)
  {
    if d, g :| Takes(t, r.drained, name, d, g) {
      SurvivorsAre(before, t, s, r, after, g);
      RenewedIff(t, s, r, name(g), name);
      assert name(g) in NamesOf(after.ghosts.Keys, name) && d in SetOf(r.drained);
      assert name(d) in NamesOf(SetOf(r.drained), name);
    } else {
      forall n | n in NamesOf(after.ghosts.Keys, name)
        ensures n in Applied(held, r, name)
      {
        var g: u32 :| g in after.ghosts.Keys && name(g) == n;
        SurvivorsAre(before, t, s, r, after, g);
        KeepsName(t, s, r, held, name, g);
      }
    }
  }

  lemma {:induction false} KeepsName(t: Turn, s: Selection, r: Round, held: set<u64>, name: u32 -> u64, g: u32)
    requires Chooses(t, s, r) && NamesOf(t.ghosts.Keys, name) <= held
    requires g in r.records || Outlives(t, g)
    requires forall d :: !Takes(t, r.drained, name, d, g)
    ensures name(g) in Applied(held, r, name)
  {
    RenewedIff(t, s, r, name(g), name);
    if g in r.records {
      assert g in SetOf(r.records);
    } else {
      assert name(g) in NamesOf(t.ghosts.Keys, name);
      if name(g) in NamesOf(SetOf(r.drained), name) {
        var d: u32 :| d in SetOf(r.drained) && name(d) == name(g);
        assert !Takes(t, r.drained, name, d, g);
      }
    }
  }

  /** Whether a serve that drains its whole queue leaves the client in step is settled
      before it too. */
  lemma {:induction false} ClearIff(before: Replica, t: Turn, s: Selection, r: Round, name: u32 -> u64)
    requires before.ghosts == t.ghosts && Chooses(t, s, r)
    ensures Clear(before, r, name) <==>
      forall d: u32, g: u32 :: d in before.pending && g in t.ghosts && name(d) == name(g) ==>
        WillRenewName(t, name(g), name)
  {
    forall d: u32, g: u32 | d in before.pending && g in t.ghosts && name(d) == name(g)
      ensures name(g) in NamesOf(SetOf(r.records), name) <==> WillRenewName(t, name(g), name)
    {
      RenewedIff(t, s, r, name(g), name);
    }
  }

  // ----- two runs that lose a ghost -----

  /** The defaults of the engine, under any weights. */
  function Defaults(w: seq<u16>): Policy {
    Policy(512, 1, 0x4_0000, w, 100)
  }

  /** Alone in view, where the viewer stands. */
  function Alone(id: u32): Discovered {
    Discovered(id, 0, 0)
  }

  function Still(): seq<u32> {
    seq(10, _ => 0)
  }

  function TurnOf(ghosts: map<u32, Known>, seen: seq<Discovered>, tick: u32, w: seq<u16>): Turn {
    Turn(seen, ghosts, Still(), tick, Defaults(w), 1)
  }

  lemma {:induction false} NobodySeen(ghosts: map<u32, Known>, tick: u32, w: seq<u16>, drained: seq<u32>,
      departed: seq<u32>)
    requires WeightTable(w)
    ensures Chooses(TurnOf(ghosts, [], tick, w), Selection([], [], 0, departed),
                    Round(tick, drained, [], [], departed, Still()))
  {
  }

  lemma {:induction false} OnlyOne(cap: nat)
    requires cap >= 1
    ensures NearestOf(Dists([Alone(5)]), cap, [0]) && NearestOf(Dists([Alone(6)]), cap, [0])
    ensures NearestOf(Dists([Alone(9)]), cap, [0])
  {
  }

  /** A stranger alone in view is sent. */
  lemma {:induction false} StrangerSent(ghosts: map<u32, Known>, id: u32, tick: u32, w: seq<u16>, drained: seq<u32>,
      departed: seq<u32>)
    requires WeightTable(w) && id in {5, 6, 9} && id !in ghosts
    ensures var t := TurnOf(ghosts, [Alone(id)], tick, w);
      Fit(t) && Chooses(t, Selection([RankAt(t, 0)], [0], 1, departed),
          Round(tick, drained, [id], [], departed, Still()))
  {
    var t := TurnOf(ghosts, [Alone(id)], tick, w);
    OnlyOne(512);
    RankRemembers(t.cands[0], 0, ghosts, Still(), tick, t.policy);
    assert Ranks(t.cands, [0], ghosts, Still(), tick, t.policy) == [RankAt(t, 0)];
  }

  /** A ghost alone in view that has not moved is not. */
  lemma {:induction false} GhostKept(ghosts: map<u32, Known>, id: u32, tick: u32, w: seq<u16>, drained: seq<u32>,
      departed: seq<u32>)
    requires WeightTable(w) && id in {5, 6, 9} && id in ghosts
    requires ghosts[id].mark == 0 && ghosts[id].lastSent <= tick < ghosts[id].lastSent + 100
    ensures var t := TurnOf(ghosts, [Alone(id)], tick, w);
      Fit(t) && Chooses(t, Selection([RankAt(t, 0)], [0], 0, departed),
          Round(tick, drained, [], [id], departed, Still()))
  {
    var t := TurnOf(ghosts, [Alone(id)], tick, w);
    OnlyOne(512);
    RankRemembers(t.cands[0], 0, ghosts, Still(), tick, t.policy);
    assert Ranks(t.cands, [0], ghosts, Still(), tick, t.policy) == [RankAt(t, 0)];
  }

  /** Room for one record and one despawn a packet. */
  function Small(): Budget {
    Budget(44, 16, 256, 19)
  }

  lemma {:induction false} SmallTakes(pending: nat)
    ensures Taking(Small(), pending) == Min(pending, 1)
    ensures SlotsBehind(Small(), Min(pending, 1)) == 1
  {
  }

  lemma {:induction false} TallCodec()
    ensures Build(Tall()).Ok? && Packet.CodecOf(Build(Tall()).value) == Packet.RecordCodec(22, 21, 9)
  {
    TallIsValid();
    TallBits();
  }

  /** The budget of a client that declares 44 bytes. */
  lemma {:induction false} SmallIsBudget()
    ensures Build(Tall()).Ok? && Packet.Codec(Packet.CodecOf(Build(Tall()).value))
    ensures BudgetFor(Packet.CodecOf(Build(Tall()).value), 44) == Ok(Small())
  {
    TallCodec();
    assert Packet.Codec(Packet.RecordCodec(22, 21, 9)) && Packet.RecordCodec(22, 21, 9).RecordBytes() == 19;
  }

  lemma {:induction false} TallBits()
    ensures TrailingZeros(0x40_0000) == 22 && TrailingZeros(0x20_0000) == 21
  {
    Pow2Of16();
    Pow2Add(16, 6);
    Pow2Add(16, 5);
    assert Pow2(6) == 64 && Pow2(5) == 32;
    Pow2IsPowerOfTwo(22);
    Pow2IsPowerOfTwo(21);
  }

  /** A serve of what is `seen`, out of that budget. */
  ghost predicate Plays(w: seq<u16>, before: Replica, seen: seq<Discovered>, r: Round, after: Replica)
    requires WeightTable(w)
  {
    && r.drained == before.pending[..Taking(Small(), |before.pending|)]
    && SlotsBehind(Small(), |r.drained|) == 1
    && (exists s :: Chooses(TurnOf(before.ghosts, seen, r.tick, w), s, r))
    && Serves(before, r, 1, after)
  }

  /** Entities 5 and 6 are introduced; the viewer goes unserved while both age; they depart
      together; and 6 comes back before its despawn is sent. */
  function LossRounds(): seq<Round> {
    [Round(1, [], [5], [], [], Still()), Round(2, [], [6], [], [], Still()), Round(4, [], [], [], [5, 6], Still()),
     Round(5, [5], [6], [], [], Still()), Round(6, [6], [], [6], [], Still())]
  }

  function LossStates(): seq<Replica> {
    [Replica(map[], []), Replica(map[5 := Known(0, 1, 1)], []),
        Replica(map[5 := Known(0, 1, 1), 6 := Known(0, 2, 2)], []),
     Replica(map[], [5, 6]), Replica(map[6 := Known(0, 5, 5)], [6]), Replica(map[6 := Known(0, 6, 5)], [])]
  }

  function LossSeen(): seq<seq<Discovered>> {
    [[Alone(5)], [Alone(6)], [], [Alone(6)], [Alone(6)]]
  }

  /** Entity 5 leaves for another region and comes back as 9. */
  function ReturnRounds(): seq<Round> {
    [Round(1, [], [5], [], [], Still()), Round(2, [], [9], [], [], Still()), Round(3, [], [], [9], [5], Still()),
     Round(4, [5], [], [9], [], Still())]
  }

  function ReturnStates(): seq<Replica> {
    [Replica(map[], []), Replica(map[5 := Known(0, 1, 1)], []),
        Replica(map[5 := Known(0, 1, 1), 9 := Known(0, 2, 2)], []),
     Replica(map[9 := Known(0, 3, 2)], [5]), Replica(map[9 := Known(0, 4, 2)], [])]
  }

  function ReturnSeen(): seq<seq<Discovered>> {
    [[Alone(5)], [Alone(9)], [Alone(9)], [Alone(9)]]
  }

  /** A serve that only ages what it must. */
  lemma {:induction false} Ages(s: Replica, r: Round, s': Replica)
    requires InUse(r.records, r.readings) && r.drained <= s.pending && Distinct(r.departed)
    requires s'.pending == s.pending[|r.drained|..] + r.departed
    requires forall id :: id in s'.ghosts <==> id in Marked(s, r) && Age(r.tick, Marked(s, r)[id]) <= 1
    requires forall id :: id in s'.ghosts ==> s'.ghosts[id] == Marked(s, r)[id]
    requires forall id :: id in r.departed <==> id in Marked(s, r) && Age(r.tick, Marked(s, r)[id]) > 1
    ensures Serves(s, r, 1, s')
  {
    assert s'.ghosts == Kept(Marked(s, r), r.tick, 1);
  }

  lemma {:induction false} LossServes(k: nat)
    requires k < 5
    ensures Serves(LossStates()[k], LossRounds()[k], 1, LossStates()[k + 1])
  {
    var s, r, s' := LossStates()[k], LossRounds()[k], LossStates()[k + 1];
    if k == 2 {
      assert r.departed[0] == 5 && r.departed[1] == 6;
    }
    Ages(s, r, s');
  }

  lemma {:induction false} ReturnServes(k: nat)
    requires k < 4
    ensures Serves(ReturnStates()[k], ReturnRounds()[k], 1, ReturnStates()[k + 1])
  {
    var s, r, s' := ReturnStates()[k], ReturnRounds()[k], ReturnStates()[k + 1];
    if k == 2 {
      assert r.departed[0] == 5;
    }
    Ages(s, r, s');
  }

  lemma {:induction false} NobodyPlays(w: seq<u16>, before: Replica, r: Round, after: Replica)
    requires WeightTable(w) && Serves(before, r, 1, after) && r.drained == before.pending[..Min(|before.pending|, 1)]
    requires r == Round(r.tick, r.drained, [], [], r.departed, Still())
    ensures Plays(w, before, [], r, after)
  {
    SmallTakes(|before.pending|);
    NobodySeen(before.ghosts, r.tick, w, r.drained, r.departed);
  }

  lemma {:induction false} StrangerPlays(w: seq<u16>, before: Replica, id: u32, r: Round, after: Replica)
    requires WeightTable(w) && Serves(before, r, 1, after) && r.drained == before.pending[..Min(|before.pending|, 1)]
    requires r == Round(r.tick, r.drained, [id], [], r.departed, Still()) && id in {5, 6, 9} && id !in before.ghosts
    ensures Plays(w, before, [Alone(id)], r, after)
  {
    SmallTakes(|before.pending|);
    StrangerSent(before.ghosts, id, r.tick, w, r.drained, r.departed);
  }

  lemma {:induction false} GhostPlays(w: seq<u16>, before: Replica, id: u32, r: Round, after: Replica)
    requires WeightTable(w) && Serves(before, r, 1, after) && r.drained == before.pending[..Min(|before.pending|, 1)]
    requires r == Round(r.tick, r.drained, [], [id], r.departed, Still()) && id in {5, 6, 9} && id in before.ghosts
    requires before.ghosts[id].mark == 0 && before.ghosts[id].lastSent <= r.tick < before.ghosts[id].lastSent + 100
    ensures Plays(w, before, [Alone(id)], r, after)
  {
    SmallTakes(|before.pending|);
    GhostKept(before.ghosts, id, r.tick, w, r.drained, r.departed);
  }

  lemma {:induction false} LossPlays(w: seq<u16>, k: nat)
    requires WeightTable(w) && k < 5
    ensures Plays(w, LossStates()[k], LossSeen()[k], LossRounds()[k], LossStates()[k + 1])
  {
    var s, r, s' := LossStates()[k], LossRounds()[k], LossStates()[k + 1];
    LossServes(k);
    if k == 2 {
      NobodyPlays(w, s, r, s');
    } else if k == 4 {
      GhostPlays(w, s, 6, r, s');
    } else {
      StrangerPlays(w, s, if k == 0 then 5 else 6, r, s');
    }
  }

  lemma {:induction false} ReturnPlays(w: seq<u16>, k: nat)
    requires WeightTable(w) && k < 4
    ensures Plays(w, ReturnStates()[k], ReturnSeen()[k], ReturnRounds()[k], ReturnStates()[k + 1])
    ensures Drains(ReturnStates()[k], ReturnRounds()[k])
  {
    var s, r, s' := ReturnStates()[k], ReturnRounds()[k], ReturnStates()[k + 1];
    ReturnServes(k);
    if k >= 2 {
      GhostPlays(w, s, 9, r, s');
    } else {
      StrangerPlays(w, s, if k == 0 then 5 else 9, r, s');
    }
  }

  ghost predicate LossPlayed(w: seq<u16>, k: int)
    requires WeightTable(w) && 0 <= k < 5
  {
    Plays(w, LossStates()[k], LossSeen()[k], LossRounds()[k], LossStates()[k + 1])
  }

  /** Its whole queue drained. */
  ghost predicate ReturnPlayed(w: seq<u16>, k: int)
    requires WeightTable(w) && 0 <= k < 4
  {
    && Plays(w, ReturnStates()[k], ReturnSeen()[k], ReturnRounds()[k], ReturnStates()[k + 1])
    && Drains(ReturnStates()[k], ReturnRounds()[k])
  }

  lemma {:induction false} LossRuns()
    ensures Rounds.Run(LossStates(), LossRounds(), 1)
  {
    forall k | 0 <= k < 5
      ensures ServedAt(LossStates(), LossRounds(), 1, k)
    {
      LossServes(k);
    }
  }

  lemma {:induction false} ReturnRuns()
    ensures Rounds.Run(ReturnStates(), ReturnRounds(), 1)
  {
    forall k | 0 <= k < 4
      ensures ServedAt(ReturnStates(), ReturnRounds(), 1, k)
    {
      ReturnServes(k);
    }
  }

  /** A queue drained in part: entity 6 is sent again, and then dropped, while the server
      believes it held and owes the client nothing. */
  lemma {:induction false} PartialDrainLosesGhost(name: u32 -> u64, w: seq<u16>)
    requires WeightTable(w)
    ensures Rounds.Run(LossStates(), LossRounds(), 1)
    ensures forall k {:trigger LossPlayed(w, k)} :: 0 <= k < 5 ==> LossPlayed(w, k)
    ensures 6 in LossStates()[5].ghosts && LossStates()[5].pending == [] && name(6) !in Held(LossRounds(), name)
  {
    LossRuns();
    forall k | 0 <= k < 5
      ensures LossPlayed(w, k)
    {
      LossPlays(w, k);
    }
    LastTakes(LossRounds(), 6, 6, name);
  }

  lemma {:induction false} LastTakes(rounds: seq<Round>, d: u32, g: u32, name: u32 -> u64)
    requires rounds != [] && d in rounds[|rounds| - 1].drained && name(d) == name(g)
    requires rounds[|rounds| - 1].records == []
    ensures name(g) !in Held(rounds, name)
  {
    var last := rounds[|rounds| - 1];
    assert d in SetOf(last.drained) && name(d) in NamesOf(SetOf(last.drained), name);
    assert SetOf(last.records) == {};
  }

  /** Every queue drained whole: an entity that comes back under its old name and a new id is
      dropped by the despawn of the old one. */
  lemma {:induction false} ReturnLosesGhost(name: u32 -> u64, w: seq<u16>)
    requires WeightTable(w) && name(5) == name(9)
    ensures Rounds.Run(ReturnStates(), ReturnRounds(), 1)
    ensures forall k {:trigger ReturnPlayed(w, k)} :: 0 <= k < 4 ==> ReturnPlayed(w, k)
    ensures 9 in ReturnStates()[4].ghosts && ReturnStates()[4].pending == [] && name(9) !in Held(ReturnRounds(), name)
  {
    ReturnRuns();
    forall k | 0 <= k < 4
      ensures ReturnPlayed(w, k)
    {
      ReturnPlays(w, k);
    }
    LastTakes(ReturnRounds(), 5, 9, name);
  }
}
