/** One slot a viewer between the senders of ticks and the thread that delivers, as a state
    machine over the atomic actions of both. */
module Handoff {
  import opened Numbers

  type Bytes = seq<byte>

  /** Who holds a slot's lock. */
  datatype Owner = Free | Sender(p: nat) | Drainer

  /** One viewer's slot, and its history: payloads sent to it in the order their senders
      tried its lock, the last one written, and those delivered. */
  datatype Slot = Slot(buf: Bytes, ready: bool, lock: Owner, sent: seq<Bytes>, last: Bytes, delivered: seq<Bytes>)

  /** Where a sending thread is. Past `Wanting` it holds the slot list, alone if it grew it. */
  datatype Phase =
    | Idle
    | Growing(v: nat, payload: Bytes)
    | Wanting(v: nat, payload: Bytes, alone: bool)
    | Locked(v: nat, payload: Bytes, alone: bool)
    | Written(v: nat, alone: bool)
    | Marked(v: nat, alone: bool)
    | Flagged(v: nat, alone: bool)

  /** Where the I/O thread is. `last` marks the pass after shutdown. */
  datatype Pass =
    | Polling
    | Checking
    | Entering(final: bool)
    | Scanning(i: nat, ready: seq<nat>, final: bool)
    | Between(ready: seq<nat>, k: nat, final: bool)
    | Holding(ready: seq<nat>, k: nat, final: bool)
    | Clearing(ready: seq<nat>, k: nat, full: bool, final: bool)
    | Leaving(ready: seq<nat>, k: nat, full: bool, final: bool)
    | Delivering(ready: seq<nat>, k: nat, final: bool)
    | Stopped

  datatype State = State(slots: seq<Slot>, senders: seq<Phase>, pass: Pass, spare: Bytes,
      hasWork: bool, running: bool, delivered: nat, dropped: nat)

  function EmptySlot(): Slot {
    Slot([], false, Free, [], [], [])
  }

  function Start(threads: nat): State {
    State([], seq(threads, _ => Idle), Polling, [], false, true, 0, 0)
  }

  /** One atomic action. */
  datatype Event =
    | Send(p: nat, v: nat, payload: Bytes)
    | Grow(p: nat)
    | TryLock(p: nat)
    | Write(p: nat)
    | Mark(p: nat)
    | Flag(p: nat)
    | Release(p: nat)
    | Io
    | Nudge
    | Stop

  // ----- locks -----

  /** A sender in this phase holds the slot list. */
  predicate Lists(f: Phase) {
    !f.Idle? && !f.Growing?
  }

  predicate Alone(f: Phase) {
    Lists(f) && f.alone
  }

  /** The I/O thread in this phase holds the slot list. */
  predicate PassLists(d: Pass) {
    d.Scanning? || d.Holding? || d.Clearing? || d.Leaving?
  }

  predicate NobodyAlone(s: State) {
    forall p :: 0 <= p < |s.senders| ==> !Alone(s.senders[p])
  }

  predicate NobodyLists(s: State) {
    !PassLists(s.pass) && forall p :: 0 <= p < |s.senders| ==> !Lists(s.senders[p])
  }

  /** A sender in this phase holds the lock of slot `v`. */
  predicate Holds(f: Phase, v: nat) {
    (f.Locked? || f.Written? || f.Marked? || f.Flagged?) && f.v == v
  }

  predicate PassHolds(d: Pass, v: nat) {
    (d.Holding? || d.Clearing? || d.Leaving?) && d.k < |d.ready| && d.ready[d.k] == v
  }

  // ----- the actions -----

  predicate Enabled(s: State, e: Event) {
    match e
    case Send(p, v, payload) => p < |s.senders| && s.senders[p].Idle? && s.running && NobodyAlone(s)
    case Grow(p) => p < |s.senders| && s.senders[p].Growing? && NobodyLists(s)
    case TryLock(p) => p < |s.senders| && s.senders[p].Wanting? && s.senders[p].v < |s.slots|
    case Write(p) => p < |s.senders| && s.senders[p].Locked? && s.senders[p].v < |s.slots|
    case Mark(p) => p < |s.senders| && s.senders[p].Written? && s.senders[p].v < |s.slots|
    case Flag(p) => p < |s.senders| && s.senders[p].Marked?
    case Release(p) => p < |s.senders| && s.senders[p].Flagged? && s.senders[p].v < |s.slots|
    case Io => IoEnabled(s)
    case Nudge => true
    case Stop => forall p :: 0 <= p < |s.senders| ==> s.senders[p].Idle?
  }

  predicate IoEnabled(s: State) {
    match s.pass
    case Entering(_) => NobodyAlone(s)
    case Between(ready, k, _) => k < |ready| ==> ready[k] < |s.slots| && s.slots[ready[k]].lock.Free? && NobodyAlone(s)
    case Holding(ready, k, _) => k < |ready| && ready[k] < |s.slots|
    case Clearing(ready, k, _, _) => k < |ready| && ready[k] < |s.slots|
    case Leaving(ready, k, _, _) => k < |ready| && ready[k] < |s.slots|
    case Delivering(ready, k, _) => k < |ready| && ready[k] < |s.slots|
    case Stopped => false
    case _ => true
  }

  function Sender(s: State, p: nat, f: Phase): State
    requires p < |s.senders|
  {
    s.(senders := s.senders[p := f])
  }

  function Put(s: State, v: nat, slot: Slot): State
    requires v < |s.slots|
  {
    s.(slots := s.slots[v := slot])
  }

  function Grown(slots: seq<Slot>, v: nat): (r: seq<Slot>)
    ensures |r| == Max(|slots|, v + 1)
  {
    slots + seq(Max(0, v + 1 - |slots|), _ => EmptySlot())
  }

  function Step(s: State, e: Event): State
    requires Enabled(s, e)
  {
    match e
    case Send(p, v, payload) =>
      Sender(s, p, if v < |s.slots| then Wanting(v, payload, false) else Growing(v, payload))
    case Grow(p) =>
      var f := s.senders[p];
      Sender(s, p, Wanting(f.v, f.payload, true)).(slots := Grown(s.slots, f.v))
    case TryLock(p) =>
      var f := s.senders[p];
      var slot := s.slots[f.v].(sent := s.slots[f.v].sent + [f.payload]);
      if slot.lock.Free? then Sender(Put(s, f.v, slot.(lock := Owner.Sender(p))), p, Locked(f.v, f.payload, f.alone))
      else Sender(Put(s, f.v, slot), p, Idle).(dropped := s.dropped + 1)
    case Write(p) =>
      var f := s.senders[p];
      Sender(Put(s, f.v, s.slots[f.v].(buf := f.payload, last := f.payload)), p, Written(f.v, f.alone))
    case Mark(p) =>
      var f := s.senders[p];
      Sender(Put(s, f.v, s.slots[f.v].(ready := true)), p, Marked(f.v, f.alone))
    case Flag(p) =>
      Sender(s, p, Flagged(s.senders[p].v, s.senders[p].alone)).(hasWork := true)
    case Release(p) =>
      var v := s.senders[p].v;
      Sender(Put(s, v, s.slots[v].(lock := Free)), p, Idle)
    case Io => IoStep(s)
    case Nudge => s.(hasWork := true)
    case Stop => s.(running := false)
  }

  /** The I/O thread's next action. */
  function IoStep(s: State): State
    requires IoEnabled(s)
  {
    match s.pass
    case Polling => s.(pass := if s.running then Checking else Entering(true))
    case Checking => s.(pass := if s.hasWork then Entering(false) else Polling, hasWork := false)
    case Entering(final) => s.(pass := Scanning(0, [], final))
    case Scanning(i, ready, final) =>
      if i >= |s.slots| then s.(pass := Between(ready, 0, final))
      else s.(pass := Scanning(i + 1, if s.slots[i].ready then ready + [i] else ready, final))
    case Between(ready, k, final) =>
      if k >= |ready| then s.(pass := if final then Stopped else Polling)
      else Put(s, ready[k], s.slots[ready[k]].(lock := Drainer)).(pass := Holding(ready, k, final))
    case Holding(ready, k, final) =>
      var v := ready[k];
      if s.slots[v].buf == [] then s.(pass := Clearing(ready, k, false, final))
      else Put(s, v, s.slots[v].(buf := [])).(spare := s.slots[v].buf, pass := Clearing(ready, k, true, final))
    case Clearing(ready, k, full, final) =>
      Put(s, ready[k], s.slots[ready[k]].(ready := false)).(pass := Leaving(ready, k, full, final))
    case Leaving(ready, k, full, final) =>
      Put(s, ready[k], s.slots[ready[k]].(lock := Free))
        .(pass := if full then Delivering(ready, k, final) else Between(ready, k + 1, final))
    case Delivering(ready, k, final) =>
      var v := ready[k];
      Put(s, v, s.slots[v].(delivered := s.slots[v].delivered + [s.spare]))
        .(pass := Between(ready, k + 1, final), delivered := s.delivered + 1)
  }

  // ----- what every action keeps -----

  /** `a` is `b` with some elements left out. */
  predicate Subseq<T(==)>(a: seq<T>, b: seq<T>) {
    a == [] || (b != [] && (Subseq(a, b[..|b| - 1])
      || (a[|a| - 1] == b[|b| - 1] && Subseq(a[..|a| - 1], b[..|b| - 1]))))
  }

  /** The payload swapped out of slot `v` and not yet delivered. */
  function InFlight(d: Pass, spare: Bytes, v: nat): seq<Bytes> {
    if ((d.Clearing? && d.full) || (d.Leaving? && d.full) || d.Delivering?) && d.k < |d.ready| && d.ready[d.k] == v
    then [spare] else []
  }

  /** The payload a slot's sender has yet to write. */
  function Unwritten(slot: Slot, senders: seq<Phase>): seq<Bytes> {
    if slot.lock.Sender? && slot.lock.p < |senders| && senders[slot.lock.p].Locked?
    then [senders[slot.lock.p].payload] else []
  }

  function Waiting(slot: Slot): seq<Bytes> {
    if slot.buf == [] then [] else [slot.buf]
  }

  predicate Final(d: Pass) {
    d.Stopped? || (!d.Polling? && !d.Checking? && d.final)
  }

  /** A pass under way, or the one shutdown is owed, will still come to slot `v`. */
  predicate WillReach(d: Pass, running: bool, v: nat) {
    || (!running && !Final(d))
    || d.Entering?
    || (d.Scanning? && (v in d.ready || d.i <= v))
    || ((d.Between? || d.Holding? || d.Clearing?) && d.k <= |d.ready| && v in d.ready[d.k..])
    || ((d.Leaving? || d.Delivering?) && d.k < |d.ready| && v in d.ready[d.k + 1..])
  }

  /** The owner of a lock is where it says. */
  predicate LockHeld(slot: Slot, v: nat, senders: seq<Phase>, d: Pass) {
    match slot.lock
    case Free => true
    case Sender(p) => p < |senders| && Holds(senders[p], v)
    case Drainer => PassHolds(d, v)
  }

  /** What is delivered, in flight, waiting or about to be written is, in that order, some
      of what was sent. */
  predicate InOrder(slot: Slot, v: nat, s: State) {
    Subseq(slot.delivered + InFlight(s.pass, s.spare, v) + Waiting(slot) + Unwritten(slot, s.senders), slot.sent)
  }

  /** A payload in a slot is marked, or its sender is about to mark it. */
  predicate Noticed(slot: Slot, senders: seq<Phase>) {
    slot.buf != [] ==>
      || slot.ready
      || (slot.lock.Sender? && slot.lock.p < |senders| && senders[slot.lock.p].Written?)
  }

  /** A marked slot has work flagged, a sender about to flag it, or a pass to come. */
  predicate Tended(slot: Slot, v: nat, s: State) {
    slot.ready ==>
      || s.hasWork || WillReach(s.pass, s.running, v)
      || (slot.lock.Sender? && slot.lock.p < |s.senders| && s.senders[slot.lock.p].Marked?)
  }

  /** Nothing waits behind the last pass. */
  predicate Swept(slot: Slot, v: nat, s: State) {
    Final(s.pass) && slot.buf != [] ==> WillReach(s.pass, s.running, v)
  }

  /** The last payload written is waiting, in flight or the last delivered. */
  predicate Latest(slot: Slot, v: nat, s: State) {
    slot.last != [] ==>
      || slot.buf == slot.last
      || (slot.buf == [] && InFlight(s.pass, s.spare, v) == [slot.last])
      || (slot.buf == [] && InFlight(s.pass, s.spare, v) == []
          && slot.delivered != [] && slot.delivered[|slot.delivered| - 1] == slot.last)
  }

  predicate NoneEmpty(payloads: seq<Bytes>) {
    forall k :: 0 <= k < |payloads| ==> payloads[k] != []
  }

  /** What holds of one slot. */
  predicate SlotKept(s: State, v: nat)
    requires v < |s.slots|
  {
    var slot := s.slots[v];
    && LockHeld(slot, v, s.senders, s.pass)
    && InOrder(slot, v, s)
    && Noticed(slot, s.senders)
    && Tended(slot, v, s)
    && Swept(slot, v, s)
    && Latest(slot, v, s)
    && (slot.buf != [] ==> slot.buf == slot.last)
    && NoneEmpty(slot.delivered)
  }

  /** What holds of one sender. */
  predicate SenderKept(s: State, p: nat)
    requires p < |s.senders|
  {
    var f := s.senders[p];
    && (Lists(f) ==> f.v < |s.slots|)
    && (Lists(f) && Holds(f, f.v) ==> s.slots[f.v].lock == Owner.Sender(p))
    && (!s.running ==> f.Idle?)
  }

  /** Slots a pass has noted exist, each once; the one it holds is locked by it. */
  predicate PassKept(s: State) {
    var d := s.pass;
    && (d.Scanning? ==> d.i <= |s.slots| && forall j :: 0 <= j < |d.ready| ==> d.ready[j] < d.i)
    && (d.Between? || d.Holding? || d.Clearing? || d.Leaving? || d.Delivering? || d.Scanning? ==>
          && (forall j :: 0 <= j < |d.ready| ==> d.ready[j] < |s.slots|)
          && (forall i, j :: 0 <= i < j < |d.ready| ==> d.ready[i] < d.ready[j]))
    && (d.Between? ==> d.k <= |d.ready|)
    && (d.Holding? || d.Clearing? || d.Leaving? || d.Delivering? ==> d.k < |d.ready|)
    && (d.Holding? || d.Clearing? || d.Leaving? ==> s.slots[d.ready[d.k]].lock == Drainer)
    && ((d.Clearing? && d.full) || (d.Leaving? && d.full) || d.Delivering? ==> s.spare != [])
    && (d.Clearing? ==> s.slots[d.ready[d.k]].buf == [])
    && (Final(d) ==> !s.running)
  }

  ghost predicate Inv(s: State) {
    && (forall v :: 0 <= v < |s.slots| ==> SlotKept(s, v))
    && (forall p :: 0 <= p < |s.senders| ==> SenderKept(s, p))
    && PassKept(s)
  }

  lemma {:induction false} SubseqMore<T>(a: seq<T>, b: seq<T>, x: T)
    requires Subseq(a, b)
    ensures Subseq(a, b + [x]) && Subseq(a + [x], b + [x])
  {
    assert (b + [x])[..|b + [x]| - 1] == b;
    assert (a + [x])[..|a + [x]| - 1] == a;
  }

  lemma {:induction false} SubseqDrop<T>(a: seq<T>, x: T, b: seq<T>)
    requires Subseq(a + [x], b)
    ensures Subseq(a, b)
  {
    assert (a + [x])[..|a + [x]| - 1] == a;
    if a != [] {
      if Subseq(a + [x], b[..|b| - 1]) {
        SubseqDrop(a, x, b[..|b| - 1]);
      }
    }
  }

  /** Leaving out the one before last. */
  lemma {:induction false} SubseqSupersede<T>(a: seq<T>, x: T, y: T, b: seq<T>)
    requires Subseq(a + [x] + [y], b)
    ensures Subseq(a + [y], b)
  {
    var all, less := a + [x] + [y], a + [y];
    assert all[..|all| - 1] == a + [x] && less[..|less| - 1] == a;
    if Subseq(all, b[..|b| - 1]) {
      SubseqSupersede(a, x, y, b[..|b| - 1]);
    } else {
      SubseqDrop(a, x, b[..|b| - 1]);
    }
  }

  lemma {:induction false} StartKeeps(threads: nat)
    ensures Inv(Start(threads))
  {
  }

  /** A sender's action leaves every slot it does not touch, and does not own, as kept. */
  lemma {:induction false} OtherSlot(s: State, s': State, p: nat, w: nat)
    requires p < |s.senders| && |s'.senders| == |s.senders| && w < |s.slots| && w < |s'.slots|
    requires SlotKept(s, w) && s'.slots[w] == s.slots[w] && s.slots[w].lock != Owner.Sender(p)
    requires forall q :: 0 <= q < |s.senders| && q != p ==> s'.senders[q] == s.senders[q]
    requires s'.pass == s.pass && s'.spare == s.spare && s'.running == s.running && (s.hasWork ==> s'.hasWork)
    ensures SlotKept(s', w)
  {
  }

  /** A sender's action leaves the other senders as kept. */
  lemma {:induction false} OtherSenders(s: State, s': State, p: nat)
    requires Inv(s) && p < |s.senders| && |s'.senders| == |s.senders| && |s'.slots| >= |s.slots|
    requires forall q :: 0 <= q < |s.senders| && q != p ==> s'.senders[q] == s.senders[q]
    requires forall v :: 0 <= v < |s.slots| ==> s.slots[v].lock.Sender? ==>
      s.slots[v].lock.p == p || s'.slots[v].lock == s.slots[v].lock
    requires s'.running == s.running && SenderKept(s', p)
    ensures forall q :: 0 <= q < |s'.senders| ==> SenderKept(s', q)
  {
    forall q | 0 <= q < |s'.senders|
      ensures SenderKept(s', q)
    {
      assert SenderKept(s, q);
    }
  }

  lemma {:induction false} SendKeeps(s: State, p: nat, v: nat, payload: Bytes)
    requires Inv(s) && Enabled(s, Send(p, v, payload))
    ensures Inv(Step(s, Send(p, v, payload)))
  {
    var s' := Step(s, Send(p, v, payload));
    forall w | 0 <= w < |s'.slots|
      ensures SlotKept(s', w)
    {
      assert SlotKept(s, w);
      OtherSlot(s, s', p, w);
    }
    forall q | 0 <= q < |s'.senders|
      ensures SenderKept(s', q)
    {
      assert SenderKept(s, q);
    }
  }

  lemma {:induction false} GrowKeeps(s: State, p: nat)
    requires Inv(s) && Enabled(s, Grow(p))
    ensures Inv(Step(s, Grow(p)))
  {
    var s' := Step(s, Grow(p));
    forall w | 0 <= w < |s'.slots|
      ensures SlotKept(s', w)
    {
      if w < |s.slots| {
        assert SlotKept(s, w);
        OtherSlot(s, s', p, w);
      } else {
        assert s'.slots[w] == EmptySlot();
        assert InFlight(s'.pass, s'.spare, w) == [];
      }
    }
    forall q | 0 <= q < |s'.senders|
      ensures SenderKept(s', q)
    {
      assert SenderKept(s, q);
    }
  }

  lemma {:induction false} TriedSlot(s: State, p: nat)
    requires Inv(s) && Enabled(s, TryLock(p))
    ensures SlotKept(Step(s, TryLock(p)), s.senders[p].v)
  {
    var v, payload := s.senders[p].v, s.senders[p].payload;
    var slot := s.slots[v];
    assert SlotKept(s, v);
    var front := slot.delivered + InFlight(s.pass, s.spare, v) + Waiting(slot);
    SubseqMore(front + Unwritten(slot, s.senders), slot.sent, payload);
    if slot.lock.Free? {
      assert front + Unwritten(slot, s.senders) == front;
    }
  }

  lemma {:induction false} TryLockKeeps(s: State, p: nat)
    requires Inv(s) && Enabled(s, TryLock(p))
    ensures Inv(Step(s, TryLock(p)))
  {
    var s' := Step(s, TryLock(p));
    assert SenderKept(s, p);
    OtherSenders(s, s', p);
    TriedSlot(s, p);
    forall w | 0 <= w < |s'.slots|
      ensures SlotKept(s', w)
    {
      assert SlotKept(s, w);
      if w != s.senders[p].v {
        OtherSlot(s, s', p, w);
      }
    }
    StillPassing(s, s', s.senders[p].v);
  }

  /** A sender's action on a slot the pass does not hold leaves the pass as kept. */
  lemma {:induction false} StillPassing(s: State, s': State, v: nat)
    requires PassKept(s) && |s'.slots| == |s.slots| && s'.pass == s.pass && s'.spare == s.spare
    requires s'.running == s.running
    requires v < |s.slots| && forall w :: 0 <= w < |s.slots| && w != v ==> s'.slots[w] == s.slots[w]
    requires s.slots[v].lock == Drainer ==> s'.slots[v].lock == Drainer && s'.slots[v].buf == s.slots[v].buf
    ensures PassKept(s')
  {
  }

  lemma {:induction false} WrittenSlot(s: State, p: nat)
    requires Inv(s) && Enabled(s, Write(p))
    ensures SlotKept(Step(s, Write(p)), s.senders[p].v)
  {
    var v, payload := s.senders[p].v, s.senders[p].payload;
    var slot, front := s.slots[v], s.slots[v].delivered + InFlight(s.pass, s.spare, v);
    assert SenderKept(s, p) && SlotKept(s, v);
    if slot.buf == [] {
      assert front + Waiting(slot) + Unwritten(slot, s.senders) == front + [payload];
    } else {
      SubseqSupersede(front, slot.buf, payload, slot.sent);
    }
    SubseqDrop(front, payload, slot.sent);
    assert front + [] == front && front + [payload] + [] == front + [payload];
  }

  lemma {:induction false} WriteKeeps(s: State, p: nat)
    requires Inv(s) && Enabled(s, Write(p))
    ensures Inv(Step(s, Write(p)))
  {
    var s' := Step(s, Write(p));
    assert SenderKept(s, p);
    OtherSenders(s, s', p);
    WrittenSlot(s, p);
    forall w | 0 <= w < |s'.slots|
      ensures SlotKept(s', w)
    {
      assert SlotKept(s, w);
      if w != s.senders[p].v {
        OtherSlot(s, s', p, w);
      }
    }
    StillPassing(s, s', s.senders[p].v);
  }

  lemma {:induction false} MarkKeeps(s: State, p: nat)
    requires Inv(s) && Enabled(s, Mark(p))
    ensures Inv(Step(s, Mark(p)))
  {
    var s' := Step(s, Mark(p));
    assert SenderKept(s, p);
    forall w | 0 <= w < |s'.slots|
      ensures SlotKept(s', w)
    {
      assert SlotKept(s, w);
      if w != s.senders[p].v {
        OtherSlot(s, s', p, w);
      }
    }
    forall q | 0 <= q < |s'.senders|
      ensures SenderKept(s', q)
    {
      assert SenderKept(s, q);
    }
  }

  lemma {:induction false} FlagKeeps(s: State, p: nat)
    requires Inv(s) && Enabled(s, Flag(p))
    ensures Inv(Step(s, Flag(p)))
  {
    var s' := Step(s, Flag(p));
    assert SenderKept(s, p);
    forall w | 0 <= w < |s'.slots|
      ensures SlotKept(s', w)
    {
      assert SlotKept(s, w);
    }
    forall q | 0 <= q < |s'.senders|
      ensures SenderKept(s', q)
    {
      assert SenderKept(s, q);
    }
  }

  lemma {:induction false} ReleaseKeeps(s: State, p: nat)
    requires Inv(s) && Enabled(s, Release(p))
    ensures Inv(Step(s, Release(p)))
  {
    var s' := Step(s, Release(p));
    assert SenderKept(s, p);
    forall w | 0 <= w < |s'.slots|
      ensures SlotKept(s', w)
    {
      assert SlotKept(s, w);
      if w != s.senders[p].v {
        OtherSlot(s, s', p, w);
      }
    }
    forall q | 0 <= q < |s'.senders|
      ensures SenderKept(s', q)
    {
      assert SenderKept(s, q);
    }
  }

  lemma {:induction false} SignalKeeps(s: State, e: Event)
    requires Inv(s) && Enabled(s, e) && (e.Nudge? || e.Stop?)
    ensures Inv(Step(s, e))
  {
    var s' := Step(s, e);
    forall w | 0 <= w < |s'.slots|
      ensures SlotKept(s', w)
    {
      assert SlotKept(s, w);
    }
    forall q | 0 <= q < |s'.senders|
      ensures SenderKept(s', q)
    {
      assert SenderKept(s, q);
    }
  }

  /** An I/O action keeps the senders wherever it leaves their locks alone. */
  lemma {:induction false} SendersStay(s: State, s': State)
    requires Inv(s) && s'.senders == s.senders && |s'.slots| == |s.slots| && s'.running == s.running
    requires forall v :: 0 <= v < |s.slots| ==> s.slots[v].lock.Sender? ==> s'.slots[v].lock == s.slots[v].lock
    ensures forall p :: 0 <= p < |s'.senders| ==> SenderKept(s', p)
  {
    forall q | 0 <= q < |s'.senders|
      ensures SenderKept(s', q)
    {
      assert SenderKept(s, q);
    }
  }

  lemma {:induction false} RestKeeps(s: State)
    requires Inv(s) && Enabled(s, Io) && (s.pass.Polling? || s.pass.Checking? || s.pass.Entering?)
    ensures Inv(IoStep(s))
  {
    var s' := IoStep(s);
    SendersStay(s, s');
    forall w | 0 <= w < |s'.slots|
      ensures SlotKept(s', w)
    {
      assert SlotKept(s, w);
    }
  }

  /** On the last pass no sender is left, so a payload waiting in a slot is marked. */
  lemma {:induction false} QuietIsMarked(s: State, w: nat)
    requires Inv(s) && w < |s.slots| && !s.running && s.slots[w].buf != []
    ensures s.slots[w].ready
  {
    assert SlotKept(s, w);
    if s.slots[w].lock.Sender? {
      assert SenderKept(s, s.slots[w].lock.p);
    }
  }

  lemma {:induction false} ScanEndsKeeps(s: State)
    requires Inv(s) && s.pass.Scanning? && s.pass.i >= |s.slots|
    ensures Inv(IoStep(s))
  {
    var s', d := IoStep(s), s.pass;
    SendersStay(s, s');
    assert d.ready[0..] == d.ready;
    forall w | 0 <= w < |s'.slots|
      ensures SlotKept(s', w)
    {
      assert SlotKept(s, w);
    }
  }

  lemma {:induction false} ScanKeeps(s: State)
    requires Inv(s) && s.pass.Scanning? && s.pass.i < |s.slots|
    ensures Inv(IoStep(s))
  {
    var s', d := IoStep(s), s.pass;
    SendersStay(s, s');
    forall w | 0 <= w < |s'.slots|
      ensures SlotKept(s', w)
    {
      assert SlotKept(s, w);
      if !s.running && s.slots[w].buf != [] {
        QuietIsMarked(s, w);
      }
      assert (d.ready + [d.i])[|d.ready|] == d.i;
      assert forall x :: x in d.ready + [d.i] <==> x in d.ready || x == d.i;
    }
  }

  lemma {:induction false} BetweenKeeps(s: State)
    requires Inv(s) && Enabled(s, Io) && s.pass.Between?
    ensures Inv(IoStep(s))
  {
    var s' := IoStep(s);
    SendersStay(s, s');
    forall w | 0 <= w < |s'.slots|
      ensures SlotKept(s', w)
    {
      assert SlotKept(s, w);
    }
  }

  lemma {:induction false} HoldingKeeps(s: State)
    requires Inv(s) && Enabled(s, Io) && s.pass.Holding?
    ensures Inv(IoStep(s))
  {
    var s' := IoStep(s);
    SendersStay(s, s');
    var v := s.pass.ready[s.pass.k];
    forall w | 0 <= w < |s'.slots|
      ensures SlotKept(s', w)
    {
      assert SlotKept(s, w);
      if w == v {
        var slot := s.slots[v];
        assert slot.delivered + [] + Waiting(slot) == slot.delivered + Waiting(slot) + [];
      }
    }
  }

  lemma {:induction false} ClearingKeeps(s: State)
    requires Inv(s) && Enabled(s, Io) && s.pass.Clearing?
    ensures Inv(IoStep(s))
  {
    var s' := IoStep(s);
    SendersStay(s, s');
    var d := s.pass;
    forall w | 0 <= w < |s'.slots|
      ensures SlotKept(s', w)
    {
      assert SlotKept(s, w);
      if w != d.ready[d.k] {
        assert d.ready[d.k..] == [d.ready[d.k]] + d.ready[d.k + 1..];
      }
    }
  }

  lemma {:induction false} LeavingKeeps(s: State)
    requires Inv(s) && Enabled(s, Io) && s.pass.Leaving?
    ensures Inv(IoStep(s))
  {
    var s' := IoStep(s);
    SendersStay(s, s');
    forall w | 0 <= w < |s'.slots|
      ensures SlotKept(s', w)
    {
      assert SlotKept(s, w);
    }
  }

  lemma {:induction false} DeliveringKeeps(s: State)
    requires Inv(s) && Enabled(s, Io) && s.pass.Delivering?
    ensures Inv(IoStep(s))
  {
    var s' := IoStep(s);
    SendersStay(s, s');
    var v := s.pass.ready[s.pass.k];
    forall w | 0 <= w < |s'.slots|
      ensures SlotKept(s', w)
    {
      assert SlotKept(s, w);
      if w == v {
        assert s.slots[v].delivered + [s.spare] == s'.slots[v].delivered + [];
      }
    }
  }

  lemma {:induction false} StepKeeps(s: State, e: Event)
    requires Inv(s) && Enabled(s, e)
    ensures Inv(Step(s, e))
  {
    match e
    case Send(p, v, payload) => SendKeeps(s, p, v, payload);
    case Grow(p) => GrowKeeps(s, p);
    case TryLock(p) => TryLockKeeps(s, p);
    case Write(p) => WriteKeeps(s, p);
    case Mark(p) => MarkKeeps(s, p);
    case Flag(p) => FlagKeeps(s, p);
    case Release(p) => ReleaseKeeps(s, p);
    case Nudge => SignalKeeps(s, e);
    case Stop => SignalKeeps(s, e);
    case Io =>
      match s.pass
      case Scanning(_, _, _) => if s.pass.i < |s.slots| { ScanKeeps(s); } else { ScanEndsKeeps(s); }
      case Between(_, _, _) => BetweenKeeps(s);
      case Holding(_, _, _) => HoldingKeeps(s);
      case Clearing(_, _, _, _) => ClearingKeeps(s);
      case Leaving(_, _, _, _) => LeavingKeeps(s);
      case Delivering(_, _, _) => DeliveringKeeps(s);
      case _ => RestKeeps(s);
  }

  // ----- every run -----

  /** Actions that can happen in this order from a state. */
  predicate Legal(s: State, events: seq<Event>)
    decreases |events|
  {
    events == [] || (Enabled(s, events[0]) && Legal(Step(s, events[0]), events[1..]))
  }

  function End(s: State, events: seq<Event>): State
    requires Legal(s, events)
    decreases |events|
  {
    if events == [] then s else End(Step(s, events[0]), events[1..])
  }

  lemma {:induction false} RunKeeps(s: State, events: seq<Event>)
    requires Inv(s) && Legal(s, events)
    ensures Inv(End(s, events))
    decreases |events|
  {
    if events != [] {
      StepKeeps(s, events[0]);
      RunKeeps(Step(s, events[0]), events[1..]);
    }
  }

  lemma {:induction false} SubseqFront<T>(a: seq<T>, b: seq<T>, c: seq<T>)
    requires Subseq(a + b, c)
    ensures Subseq(a, c)
    decreases |b|
  {
    if b == [] {
      assert a + b == a;
    } else {
      var front, x := b[..|b| - 1], b[|b| - 1];
      assert a + b == (a + front) + [x];
      SubseqDrop(a + front, x, c);
      SubseqFront(a, front, c);
    }
  }

  /** Under every interleaving a viewer's deliveries are some of what was sent to it, in
      order, and never empty. */
  lemma {:induction false} DeliversInOrder(threads: nat, events: seq<Event>, v: nat)
    requires Legal(Start(threads), events) && v < |End(Start(threads), events).slots|
    ensures var slot := End(Start(threads), events).slots[v];
      Subseq(slot.delivered, slot.sent) && NoneEmpty(slot.delivered)
  {
    var s := End(Start(threads), events);
    StartKeeps(threads);
    RunKeeps(Start(threads), events);
    assert SlotKept(s, v);
    var slot := s.slots[v];
    var rest := InFlight(s.pass, s.spare, v) + Waiting(slot) + Unwritten(slot, s.senders);
    assert slot.delivered + rest ==
      slot.delivered + InFlight(s.pass, s.spare, v) + Waiting(slot) + Unwritten(slot, s.senders);
    SubseqFront(slot.delivered, rest, slot.sent);
  }

  /** Under every interleaving a payload waiting in a slot has work flagged, a sender that
      is about to mark it or flag it, or a pass that will still reach it. */
  lemma {:induction false} NeverStranded(threads: nat, events: seq<Event>, v: nat)
    requires Legal(Start(threads), events) && v < |End(Start(threads), events).slots|
    requires var s := End(Start(threads), events); s.slots[v].buf != []
    ensures var s := End(Start(threads), events);
      || s.hasWork || WillReach(s.pass, s.running, v)
      || exists p :: 0 <= p < |s.senders| && Holds(s.senders[p], v) && (s.senders[p].Written? || s.senders[p].Marked?)
  {
    var s := End(Start(threads), events);
    StartKeeps(threads);
    RunKeeps(Start(threads), events);
    assert SlotKept(s, v);
  }

  /** While a payload is being delivered, the deliverer holds no lock. */
  lemma {:induction false} SinkHoldsNoLock(threads: nat, events: seq<Event>, v: nat)
    requires Legal(Start(threads), events) && v < |End(Start(threads), events).slots|
    requires var s := End(Start(threads), events); s.pass.Delivering?
    ensures var s := End(Start(threads), events); s.slots[v].lock != Drainer && !PassLists(s.pass)
  {
    var s := End(Start(threads), events);
    StartKeeps(threads);
    RunKeeps(Start(threads), events);
    assert SlotKept(s, v);
  }

  /** After the shutdown drain nothing waits: the last payload stashed for each viewer is
      the last one delivered to it. */
  lemma {:induction false} ShutdownDelivers(threads: nat, events: seq<Event>, v: nat)
    requires Legal(Start(threads), events) && v < |End(Start(threads), events).slots|
    requires var s := End(Start(threads), events); s.pass.Stopped?
    ensures var slot := End(Start(threads), events).slots[v];
      && slot.buf == []
      && (slot.last != [] ==> slot.delivered != [] && slot.delivered[|slot.delivered| - 1] == slot.last)
  {
    var s := End(Start(threads), events);
    StartKeeps(threads);
    RunKeeps(Start(threads), events);
    assert SlotKept(s, v);
  }
}
