/** When a viewer is served, how many despawns and records a packet has room for, and how its
    packets are numbered. */
module Spacing {
  import opened Numbers
  import opened Serve
  import Packet

  // ----- room -----

  /** A packet takes as many despawns as fit half of what the header leaves, and then as many
      records as fit the rest: neither would take one more. */
  lemma {:induction false} RoomIsUsed(b: Budget, c: Packet.RecordCodec, pending: nat)
    requires Sized(b, c)
    ensures var taking := Taking(b, pending);
      && taking <= pending && 2 * 8 * taking <= b.payloadBytes - 16
      && (taking < pending ==> 2 * 8 * (taking + 1) > b.payloadBytes - 16)
      && (var slots := SlotsBehind(b, taking);
          16 + 8 * taking + slots * c.RecordBytes() <= b.payloadBytes
            < 16 + 8 * taking + (slots + 1) * c.RecordBytes())
  {
    var taking := Taking(b, pending);
    var left := b.payloadBytes - 16 - 8 * taking;
    Quotients(left, b.recordBytes);
  }

  lemma {:induction false} Quotients(n: nat, d: nat)
    requires d > 0
    ensures (n / d) * d <= n < (n / d + 1) * d
  {
    assert n == d * (n / d) + n % d;
  }

  // ----- turns -----

  /** How tick numbers and a viewer's id add up, `i` ticks on. */
  function Turn(id: u32, start: u32, i: nat): u32 {
    WrapAdd(WrapTick(start, i), id)
  }

  function WrapTick(start: u32, i: nat): u32 {
    (start + i) % 0x1_0000_0000
  }

  lemma {:induction false} TurnIs(id: u32, start: u32, i: nat)
    ensures Turn(id, start, i) == (WrapAdd(start, id) + i) % 0x1_0000_0000
  {
    var m := 0x1_0000_0000;
    var q := (start + i) / m;
    assert start + i == m * q + WrapTick(start, i);
    var a := (start + id) / m;
    assert start + id == m * a + WrapAdd(start, id);
    var t := Turn(id, start, i);
    var b := (WrapTick(start, i) + id) / m;
    assert WrapTick(start, i) + id == m * b + t;
    RemainderUnique(WrapAdd(start, id) + i, m, q + b - a, t);
  }

  /** Below the wrap a turn counts on from the first, and above it again from zero. */
  lemma {:induction false} TurnCounts(id: u32, start: u32, i: nat) returns (s: nat)
    requires i < 0x1_0000_0000
    ensures s == WrapAdd(start, id)
    ensures Turn(id, start, i) == if s + i < 0x1_0000_0000 then s + i else s + i - 0x1_0000_0000
  {
    s := WrapAdd(start, id);
    TurnIs(id, start, i);
  }

  /** Within as many ticks as its period, a viewer has its turn. */
  lemma {:induction false} HasItsTurn(period: byte, id: u32, start: u32) returns (i: nat)
    requires period >= 1
    ensures i < period && DueOn(period, id, WrapTick(start, i))
  {
    var s := WrapAdd(start, id);
    i := NextMultiple(s, period);
    if s + i >= 0x1_0000_0000 {
      i := 0x1_0000_0000 - s;
      ZeroIsMultiple(period);
    }
    var t := TurnCounts(id, start, i);
  }

  lemma {:induction false} ZeroIsMultiple(d: nat)
    requires d > 0
    ensures 0 % d == 0
  {
  }

  lemma {:induction false} NextMultiple(s: nat, period: nat) returns (i: nat)
    requires period >= 1
    ensures i < period && (s + i) % period == 0
  {
    i := (period - s % period) % period;
    RoundsUp(s, period);
  }

  lemma {:induction false} RoundsUp(s: nat, period: nat)
    requires period >= 1
    ensures (s + (period - s % period) % period) % period == 0
    ensures (period - s % period) % period < period
  {
    var q, r := s / period, s % period;
    assert s == period * q + r;
    if r == 0 {
      RemainderUnique(period, period, 1, 0);
      RemainderUnique(s, period, q, 0);
    } else {
      RemainderUnique(period - r, period, 0, period - r);
      RemainderUnique(s + (period - r), period, q + 1, 0);
    }
  }

  /** And only one, but where tick and id add up past 2^32 between two, for a period that does
      not divide that. */
  lemma {:induction false} OneTurnEach(period: byte, id: u32, start: u32, i: nat, j: nat)
    requires i < j < period && DueOn(period, id, WrapTick(start, i)) && DueOn(period, id, WrapTick(start, j))
    ensures WrapAdd(start, id) + i < 0x1_0000_0000 <= WrapAdd(start, id) + j
    ensures 0x1_0000_0000 % period != 0
  {
    var s := TurnCounts(id, start, i);
    var s' := TurnCounts(id, start, j);
    MultiplesApart(Turn(id, start, i), Turn(id, start, j), period, s, i, j);
  }

  lemma {:induction false} MultiplesApart(a: nat, b: nat, d: nat, s: nat, i: nat, j: nat)
    requires i < j < d && a % d == 0 && b % d == 0 && s < 0x1_0000_0000 && d < 0x1_0000_0000
    requires a == if s + i < 0x1_0000_0000 then s + i else s + i - 0x1_0000_0000
    requires b == if s + j < 0x1_0000_0000 then s + j else s + j - 0x1_0000_0000
    ensures s + i < 0x1_0000_0000 <= s + j && 0x1_0000_0000 % d != 0
  {
    if s + j < 0x1_0000_0000 || s + i >= 0x1_0000_0000 {
      OneMultiple(a, b, d);
    } else if 0x1_0000_0000 % d == 0 {
      OneMultiple(a, 0x1_0000_0000, d);
    }
  }

  /** Two multiples of a number are at least that far apart. */
  lemma {:induction false} OneMultiple(a: nat, b: nat, d: nat)
    requires d > 0 && a % d == 0 && b % d == 0 && a < b
    ensures b - a >= d
  {
    var p, q := a / d, b / d;
    assert a == d * p && b == d * q;
    if q <= p {
      MulLe(q, p, d);
    } else {
      MulLe(p + 1, q, d);
    }
  }

  /** Where that happens: a viewer due one tick in three has two turns running. */
  lemma {:induction false} TwoTurnsAtTheWrap()
    ensures DueOn(3, 0, 0xFFFF_FFFF) && DueOn(3, 0, WrapTick(0xFFFF_FFFF, 1))
  {
  }

  // ----- packet numbers -----

  function After(sequence: u16, n: nat): u16 {
    if n == 0 then sequence else NextSequence(After(sequence, n - 1))
  }

  lemma {:induction false} AfterIs(sequence: u16, n: nat)
    ensures After(sequence, n) == (sequence + n) % 0x1_0000
  {
    if n > 0 {
      AfterIs(sequence, n - 1);
      var m := 0x1_0000;
      var q := (sequence + n - 1) / m;
      var r := (sequence + n - 1) % m;
      assert sequence + n - 1 == m * q + r;
      if r + 1 < m {
        RemainderUnique(sequence + n, m, q, r + 1);
      } else {
        RemainderUnique(sequence + n, m, q + 1, 0);
      }
    }
  }

  /** Two packets have one number exactly when they are a multiple of 65536 packets apart. */
  lemma {:induction false} NumbersDiffer(sequence: u16, n: nat)
    ensures After(sequence, n) == sequence <==> n % 0x1_0000 == 0
  {
    AfterIs(sequence, n);
  }
}
