/** Linear probing over a power-of-two ring of slots: what a well-formed ghost
    table is, and how single slot updates change it. Positions wrap, so every
    statement about a probe path is about cyclic distance. */
module Probing {
  import opened Numbers

  /** Reserved id marking a vacant slot. */
  const EMPTY: u32 := 0xFFFF_FFFF

  datatype Ghost = Ghost(id: u32, mark: u32, lastSeen: u32, lastSent: u32)

  const VACANT := Ghost(EMPTY, 0, 0, 0)

  /** A slot without its id. */
  datatype Known = Known(mark: u32, lastSeen: u32, lastSent: u32)

  function Fact(g: Ghost): Known {
    Known(g.mark, g.lastSeen, g.lastSent)
  }

  /** The slot counts a table can have once it holds anything. */
  predicate TableSize(n: nat) {
    PowerOfTwo(n) && 16 <= n <= 0x1_0000_0000
  }

  /** The Fibonacci multiplicative mix, wrapped to a word. */
  function Mixed(id: u32): u32 {
    (id * 0x9E37_79B1) % 0x1_0000_0000
  }

  /** The high `bits` bits of the mixed id. */
  function Home(id: u32, bits: nat): nat
    requires bits <= 32
  {
    Shr(Mixed(id), 32 - bits)
  }

  lemma {:induction false} TableBits(n: nat)
    requires TableSize(n)
    ensures TrailingZeros(n) <= 32
  {
    Pow2Of32();
    Pow2Add(1, 32);
    if TrailingZeros(n) > 32 {
      Pow2Monotone(33, TrailingZeros(n));
    }
  }

  /** A table size and the divisor that keeps its top bits split a word. */
  lemma {:induction false} WordSplit(n: nat, width: nat)
    requires TableSize(n) && width >= 32
    ensures TrailingZeros(n) <= 32
    ensures n * Pow2(width - TrailingZeros(n)) == Pow2(width)
  {
    TableBits(n);
    Pow2Add(TrailingZeros(n), width - TrailingZeros(n));
  }

  lemma {:induction false} HomeInTable(id: u32, n: nat)
    requires TableSize(n)
    ensures TrailingZeros(n) <= 32
    ensures Home(id, TrailingZeros(n)) < n
  {
    WordSplit(n, 32);
    Pow2Of32();
    ShrBelow(Mixed(id), 32 - TrailingZeros(n), n);
  }

  /** Where an id wants to live in a table of `n` slots. */
  function HomeSlot(id: u32, n: nat): (h: nat)
    requires TableSize(n)
    ensures h < n
  {
    HomeInTable(id, n);
    Home(id, TrailingZeros(n))
  }

  /** Where each id wants to live, for a table of `n` slots. */
  ghost predicate Homes(home: u32 -> nat, n: nat) {
    forall id :: home(id) < n
  }

  function HomeIn(n: nat): (home: u32 -> nat)
    requires TableSize(n)
    ensures Homes(home, n)
  {
    (id: u32) => HomeSlot(id, n)
  }

  // ----- cyclic positions -----

  /** How far forward `b` lies from `a` on a ring of `n` slots. */
  function Dist(a: nat, b: nat, n: nat): nat
    requires a < n && b < n
  {
    if a <= b then b - a else b - a + n
  }

  /** The slot `t` places forward of `a`. */
  function Ahead(a: nat, t: nat, n: nat): (i: nat)
    requires a < n && t < n
    ensures i < n && Dist(a, i, n) == t
  {
    if a + t < n then a + t else a + t - n
  }

  lemma {:induction false} MaskOnePast(i: nat, n: nat)
    requires TableSize(n) && i < n
    ensures And(i + 1, n - 1) == if i + 1 == n then 0 else i + 1
  {
    AndMask(i + 1, TrailingZeros(n));
    if i + 1 == n {
      RemainderUnique(n, n, 1, 0);
    } else {
      SmallRemainder(i + 1, n);
    }
  }

  /** The next slot, by the table's masked increment. */
  method Next(i: nat, n: nat) returns (r: nat)
    requires TableSize(n) && i < n
    ensures r == if i + 1 == n then 0 else i + 1
  {
    MaskOnePast(i, n);
    r := And(i + 1, n - 1);
  }

  /** `to - from` in the 64-bit word the subtraction wraps in. */
  function WrappedDifference(from: nat, to: nat): nat
  {
    (to - from) % 0x1_0000_0000_0000_0000
  }

  lemma {:induction false} MaskedDifference(from: nat, to: nat, n: nat)
    requires TableSize(n) && from < n && to < n
    ensures And(WrappedDifference(from, to), n - 1) == Dist(from, to, n)
  {
    AndMask(WrappedDifference(from, to), TrailingZeros(n));
    WordSplit(n, 64);
    Pow2Of32();
    Pow2Add(32, 32);
    BorrowedRemainder(from, to, n, Pow2(64 - TrailingZeros(n)));
  }

  /** A borrow of the whole word leaves the remainder the table size would give. */
  lemma {:induction false} BorrowedRemainder(from: nat, to: nat, n: nat, q: nat)
    requires from < n && to < n && n <= 0x1_0000_0000
    requires q > 0 && n * q == 0x1_0000_0000_0000_0000
    ensures WrappedDifference(from, to) % n == Dist(from, to, n)
  {
    if to >= from {
      SmallRemainder(to - from, n);
    } else {
      assert to - from + n * q == n * (q - 1) + (to - from + n);
      RemainderUnique(to - from + n * q, n, q - 1, to - from + n);
    }
  }

  /** The masked wrapping difference the table computes is the cyclic distance. */
  method MaskedDistance(from: nat, to: nat, n: nat) returns (d: nat)
    requires TableSize(n) && from < n && to < n
    ensures d == Dist(from, to, n)
  {
    MaskedDifference(from, to, n);
    d := And(WrappedDifference(from, to), n - 1);
  }

  // ----- tables -----

  predicate Taken(s: seq<Ghost>, i: int)
    requires 0 <= i < |s|
  {
    s[i].id != EMPTY
  }

  function TakenSlots(s: seq<Ghost>): set<int> {
    set i | 0 <= i < |s| && s[i].id != EMPTY
  }

  /** The ghosts a table holds. */
  function Entries(s: seq<Ghost>): set<Ghost> {
    set g | g in s && g.id != EMPTY
  }

  predicate UniqueIds(s: seq<Ghost>) {
    forall i, j {:trigger Taken(s, i), Taken(s, j)} ::
      0 <= i < |s| && 0 <= j < |s| && Taken(s, i) && Taken(s, j) && s[i].id == s[j].id ==> i == j
  }

  /** No vacant slot, `hole` excepted, lies between an entry's home and the entry. */
  ghost predicate ProbesUnbroken(s: seq<Ghost>, home: u32 -> nat, hole: int)
    requires Homes(home, |s|)
  {
    forall i, j {:trigger Taken(s, i), Taken(s, j)} ::
      0 <= i < |s| && 0 <= j < |s| && Taken(s, i) && j != hole
      && Dist(home(s[i].id), j, |s|) < Dist(home(s[i].id), i, |s|)
      ==> Taken(s, j)
  }

  const NO_HOLE := -1

  /** A table any probe can be run against. */
  ghost predicate Table(s: seq<Ghost>, len: nat) {
    && TableSize(|s|)
    && UniqueIds(s)
    && ProbesUnbroken(s, HomeIn(|s|), NO_HOLE)
    && len == |TakenSlots(s)|
    && 2 * len <= |s|
  }

  lemma {:induction false} FullCount(s: seq<Ghost>)
    requires forall i :: 0 <= i < |s| ==> Taken(s, i)
    ensures |TakenSlots(s)| == |s|
  {
    if s != [] {
      var front := s[..|s| - 1];
      forall i | 0 <= i < |front|
        ensures Taken(front, i)
      {
        assert Taken(s, i);
      }
      FullCount(front);
      assert Taken(s, |front|);
      assert TakenSlots(s) == TakenSlots(front) + {|front|};
    }
  }

  /** A table that is not full has a vacant slot. */
  lemma {:induction false} SomeVacancy(s: seq<Ghost>) returns (e: nat)
    requires |TakenSlots(s)| < |s|
    ensures e < |s| && !Taken(s, e)
  {
    if forall i :: 0 <= i < |s| ==> Taken(s, i) {
      FullCount(s);
      assert false;
    }
    e :| 0 <= e < |s| && !Taken(s, e);
  }

  lemma {:induction false} DistinctSlots(s: seq<Ghost>, i: nat, j: nat)
    requires UniqueIds(s) && i < |s| && j < |s| && s[i].id == s[j].id && s[i].id != EMPTY
    ensures i == j
  {
    assert Taken(s, i) && Taken(s, j);
  }

  lemma {:induction false} PutVacant(s: seq<Ghost>, i: nat, g: Ghost)
    requires i < |s| && !Taken(s, i) && g.id != EMPTY
    ensures TakenSlots(s[i := g]) == TakenSlots(s) + {i}
    ensures |TakenSlots(s[i := g])| == |TakenSlots(s)| + 1
    ensures Entries(s[i := g]) == Entries(s) + {g}
  {
    var s' := s[i := g];
    assert TakenSlots(s') == TakenSlots(s) + {i};
    forall h | h in Entries(s) + {g}
      ensures h in s'
    {
      if h != g {
        var k :| 0 <= k < |s| && s[k] == h;
        assert s'[k] == h;
      } else {
        assert s'[i] == g;
      }
    }
  }

  lemma {:induction false} UniqueWith(s: seq<Ghost>, i: nat, g: Ghost)
    requires UniqueIds(s) && i < |s| && !Taken(s, i) && g.id != EMPTY
    requires forall h :: h in Entries(s) ==> h.id != g.id
    ensures UniqueIds(s[i := g])
  {
    var s' := s[i := g];
    forall k | 0 <= k < |s| && Taken(s, k)
      ensures s[k].id != g.id
    {
      assert s[k] in Entries(s);
    }
    forall a, b | 0 <= a < |s'| && 0 <= b < |s'| && Taken(s', a) && Taken(s', b) && s'[a].id == s'[b].id
      ensures a == b
    {
      assert a == i || Taken(s, a);
      assert b == i || Taken(s, b);
    }
  }

  lemma {:induction false} TakeOut(s: seq<Ghost>, i: nat)
    requires i < |s| && Taken(s, i) && UniqueIds(s)
    ensures TakenSlots(s[i := VACANT]) == TakenSlots(s) - {i}
    ensures |TakenSlots(s[i := VACANT])| == |TakenSlots(s)| - 1
    ensures Entries(s[i := VACANT]) == Entries(s) - {s[i]}
    ensures UniqueIds(s[i := VACANT])
  {
    var s' := s[i := VACANT];
    assert i in TakenSlots(s);
    assert TakenSlots(s') == TakenSlots(s) - {i};
    forall h | h in Entries(s) - {s[i]}
      ensures h in s'
    {
      var k :| 0 <= k < |s| && s[k] == h;
      assert s'[k] == h;
    }
    forall h | h in Entries(s')
      ensures h in Entries(s) && h != s[i]
    {
      var k :| 0 <= k < |s'| && s'[k] == h;
      assert k != i && s[k] == h;
      if h == s[i] {
        DistinctSlots(s, i, k);
      }
    }
    forall a, b | 0 <= a < |s'| && 0 <= b < |s'| && Taken(s', a) && Taken(s', b) && s'[a].id == s'[b].id
      ensures a == b
    {
      DistinctSlots(s, a, b);
    }
  }

  /** Moving an entry into a vacant slot changes no set the table stands for. */
  lemma {:induction false} Shift(s: seq<Ghost>, hole: nat, j: nat)
    requires hole < |s| && j < |s| && !Taken(s, hole) && Taken(s, j) && UniqueIds(s)
    ensures var s' := s[hole := s[j]][j := VACANT];
      && UniqueIds(s')
      && Entries(s') == Entries(s)
      && |TakenSlots(s')| == |TakenSlots(s)|
  {
    var g := s[j];
    var out := s[j := VACANT];
    TakeOut(s, j);
    forall h | h in Entries(out)
      ensures h.id != g.id
    {
      var k :| 0 <= k < |s| && out[k] == h;
      if h.id == g.id {
        DistinctSlots(s, k, j);
      }
    }
    PutVacant(out, hole, g);
    assert s[hole := g][j := VACANT] == out[hole := g];
    UniqueWith(out, hole, g);
  }

  /** The map a set of ghosts stands for. */
  ghost predicate OneFactPerId(e: set<Ghost>) {
    forall g, h :: g in e && h in e && g.id == h.id ==> g == h
  }

  function AsMap(e: set<Ghost>): map<u32, Known>
    requires OneFactPerId(e)
  {
    map g | g in e :: g.id := Fact(g)
  }

  lemma {:induction false} EntriesDistinct(s: seq<Ghost>)
    requires UniqueIds(s)
    ensures OneFactPerId(Entries(s))
  {
    forall g, h | g in Entries(s) && h in Entries(s) && g.id == h.id
      ensures g == h
    {
      var i :| 0 <= i < |s| && s[i] == g;
      var j :| 0 <= j < |s| && s[j] == h;
      DistinctSlots(s, i, j);
    }
  }
}
