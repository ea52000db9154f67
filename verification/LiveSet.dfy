/** A bitset refining a finite set of ids, and the walk that lists it ascending. */
module LiveSet {
  import opened Numbers
  import opened Config

  // ----- bits of a word -----

  predicate Bit(w: nat, j: nat)
    decreases j
  {
    if j == 0 then w % 2 == 1 else Bit(w / 2, j - 1)
  }

  lemma {:induction false} NoBits(j: nat)
    ensures !Bit(0, j)
  {
    if j > 0 {
      NoBits(j - 1);
    }
  }

  lemma {:induction false} AndBits(x: nat, y: nat, j: nat)
    ensures Bit(And(x, y), j) <==> Bit(x, j) && Bit(y, j)
  {
    if x == 0 || y == 0 {
      NoBits(j);
    } else if j > 0 {
      AndBits(x / 2, y / 2, j - 1);
    }
  }

  lemma {:induction false} OrBits(x: nat, y: nat, j: nat)
    ensures Bit(Or(x, y), j) <==> Bit(x, j) || Bit(y, j)
  {
    if x == 0 || y == 0 {
      NoBits(j);
    } else if j > 0 {
      OrBits(x / 2, y / 2, j - 1);
    }
  }

  lemma {:induction false} PowerBit(k: nat, j: nat)
    ensures Bit(Pow2(k), j) <==> j == k
  {
    if k == 0 {
      if j > 0 {
        NoBits(j - 1);
      }
    } else {
      assert Pow2(k) % 2 == 0 && Pow2(k) / 2 == Pow2(k - 1);
      if j > 0 {
        PowerBit(k - 1, j - 1);
      }
    }
  }

  /** Complementing one bit of a full word of `n` bits. */
  lemma {:induction false} OthersBit(n: nat, k: nat, j: nat)
    requires k < n
    ensures Pow2(n) - 1 - Pow2(k) >= 0 && (j < n ==> (Bit(Pow2(n) - 1 - Pow2(k), j) <==> j != k))
  {
    Pow2Monotone(k + 1, n);
    var w: nat := Pow2(n) - 1 - Pow2(k);
    if k == 0 {
      assert w == 2 * (Pow2(n - 1) - 1);
      if 0 < j < n {
        OnesBit(n - 1, j - 1);
      }
    } else {
      Pow2Monotone(k, n - 1);
      assert w == 2 * (Pow2(n - 1) - 1 - Pow2(k - 1)) + 1;
      if 0 < j < n {
        OthersBit(n - 1, k - 1, j - 1);
      }
    }
  }

  lemma {:induction false} OnesBit(n: nat, j: nat)
    requires j < n
    ensures Bit(Pow2(n) - 1, j)
  {
    assert Pow2(n) - 1 == 2 * (Pow2(n - 1) - 1) + 1;
    if j > 0 {
      OnesBit(n - 1, j - 1);
    }
  }

  lemma {:induction false} AndSelf(x: nat)
    ensures And(x, x) == x
  {
    if x > 0 {
      AndSelf(x / 2);
    }
  }

  /** The trailing zeros of a word count up to its lowest bit, and taking one away and
      masking clears just that one. */
  lemma {:induction false} LowestBit(w: nat, j: nat)
    requires w > 0
    ensures Bit(w, TrailingZeros(w)) && (Bit(w, j) ==> TrailingZeros(w) <= j)
    ensures Bit(And(w, w - 1), j) <==> Bit(w, j) && j != TrailingZeros(w)
    decreases w
  {
    if w % 2 == 1 {
      AndSelf(w / 2);
      assert (w - 1) / 2 == w / 2;
      if w == 1 {
        NoBits(j);
        if j > 0 { NoBits(j - 1); }
      } else if j > 0 {
        assert And(w, w - 1) == 2 * (w / 2);
      }
    } else {
      assert (w - 1) / 2 == w / 2 - 1;
      LowestBit(w / 2, if j == 0 then 0 else j - 1);
    }
  }

  lemma {:induction false} AndBelow(x: nat, y: nat)
    ensures And(x, y) <= x
  {
    if x > 0 && y > 0 {
      AndBelow(x / 2, y / 2);
    }
  }

  lemma {:induction false} OrBelow(x: nat, y: nat, k: nat)
    requires x < Pow2(k) && y < Pow2(k)
    ensures Or(x, y) < Pow2(k)
  {
    if x > 0 && y > 0 {
      OrBelow(x / 2, y / 2, k - 1);
    }
  }

  lemma {:induction false} HighBit(w: nat, j: nat, k: nat)
    requires w < Pow2(k) && Bit(w, j)
    ensures j < k
  {
    if k == 0 {
      NoBits(j);
    } else if j > 0 {
      HighBit(w / 2, j - 1, k - 1);
    }
  }

  lemma {:induction false} WordSize()
    ensures Pow2(64) == 0x1_0000_0000_0000_0000
  {
    Pow2Of32();
    Pow2Add(32, 32);
  }

  // ----- the set -----

  /** Id `i` is in: its bit of its word is set. */
  predicate Has(words: seq<u64>, i: nat) {
    i / 64 < |words| && Bit(words[i / 64], i % 64)
  }

  ghost function Ids(words: seq<u64>): set<nat> {
    set i | 0 <= i < 64 * |words| && Has(words, i)
  }

  lemma {:induction false} IdsAre(words: seq<u64>, i: nat)
    ensures i in Ids(words) <==> Has(words, i)
  {
    assert i == 64 * (i / 64) + i % 64;
  }

  /** Rewriting one word's one bit. */
  lemma {:induction false} WordBit(words: seq<u64>, id: nat, w: u64, on: bool)
    requires id / 64 < |words|
    requires forall j :: 0 <= j < 64 ==> (Bit(w, j) <==> (if j == id % 64 then on else Bit(words[id / 64], j)))
    ensures Ids(words[id / 64 := w]) == if on then Ids(words) + {id} else Ids(words) - {id}
  {
    var after := words[id / 64 := w];
    forall i: nat
      ensures Has(after, i) <==> (if i == id then on else Has(words, i))
    {
      assert i == 64 * (i / 64) + i % 64 && id == 64 * (id / 64) + id % 64;
    }
    forall i: nat
      ensures i in Ids(after) <==> (if i == id then on else i in Ids(words))
    {
      IdsAre(after, i);
      IdsAre(words, i);
    }
  }

  class LiveSet {
    var words: seq<u64>
    /** Ids covered, alive or not. */
    var slots: nat
    var live: nat

    ghost predicate Valid()
      reads this
    {
      && slots <= 64 * |words|
      && (forall i :: i in Ids(words) ==> i < slots)
      && live == |Ids(words)|
    }

    ghost function Alive(): set<nat>
      reads this
    {
      Ids(words)
    }

    constructor ()
      ensures Valid() && Alive() == {} && slots == 0
    {
      words, slots, live := [], 0, 0;
    }

    method Contains(i: nat) returns (alive: bool)
      requires Valid()
      ensures alive <==> i in Alive()
    {
      IdsAre(words, i);
      if i >= slots {
        return false;
      }
      AndBits(words[i / 64], Pow2(i % 64), i % 64);
      PowerBit(i % 64, i % 64);
      var masked := And(words[i / 64], Pow2(i % 64));
      alive := masked != 0;
      if masked != 0 {
        AndTop(words[i / 64], i % 64);
      } else {
        NoBits(i % 64);
      }
    }

    /** Adds words up to an id's; the members stay as they were. */
    method Cover(i: nat)
      requires Valid()
      modifies this
      ensures Valid() && Alive() == old(Alive()) && slots == Max(old(slots), i + 1)
    {
      if i >= slots {
        slots := i + 1;
        var needed := (slots + 63) / 64;
        if |words| < needed {
          ghost var was := words;
          words := words + seq(needed - |words|, _ => 0);
          Padded(was, words);
        }
      }
    }

    /** Adds a member. */
    method Insert(i: nat)
      requires Valid()
      modifies this
      ensures Valid() && Alive() == old(Alive()) + {i} && slots == Max(old(slots), i + 1)
    {
      Cover(i);
      var alive := Contains(i);
      if !alive {
        var w, bit := words[i / 64], Pow2(i % 64);
        BitSet(w, i % 64);
        WordBit(words, i, Or(w, bit), true);
        words := words[i / 64 := Or(w, bit)];
        live := live + 1;
      }
    }

    /** Takes a member out; the words stay. */
    method Remove(i: nat)
      requires Valid()
      modifies this
      ensures Valid() && Alive() == old(Alive()) - {i} && slots == old(slots)
    {
      var alive := Contains(i);
      if alive {
        var w := words[i / 64];
        BitCleared(w, i % 64);
        var others := AllBut(i % 64);
        WordBit(words, i, And(w, others), false);
        words := words[i / 64 := And(w, others)];
        live := live - 1;
      }
    }

    method Clear()
      modifies this
      ensures Valid() && Alive() == {} && slots == 0
    {
      words, slots, live := [], 0, 0;
    }

    /** Every live id, in ascending order: what the sort and the odometer walk. */
    method All() returns (ids: seq<nat>)
      requires Valid()
      ensures forall a, b :: 0 <= a < b < |ids| ==> ids[a] < ids[b]
      ensures forall i :: i in ids <==> i in Alive()
    {
      var it := new LiveIter(words);
      ids := [];
      ghost var alive := Alive();
      assert it.Rest() == alive;
      while true
        invariant it.Valid() && fresh(it) && Alive() == alive && Walked(ids, it.Rest(), alive)
        decreases |it.Rest()|
      {
        ghost var before := it.Rest();
        var id := it.Next();
        if id.None? {
          return;
        }
        WalkedNext(ids, before, id.value, alive);
        ids := ids + [id.value];
      }
    }
  }

  /** Of `alive`, `ids` have been yielded in order, and `rest` come after them. */
  ghost predicate Walked(ids: seq<nat>, rest: set<nat>, alive: set<nat>) {
    && (forall i :: i in alive <==> i in ids || i in rest)
    && (forall a, b :: 0 <= a < b < |ids| ==> ids[a] < ids[b])
    && (forall i, r :: i in ids && r in rest ==> i < r)
  }

  lemma {:induction false} WalkedNext(ids: seq<nat>, rest: set<nat>, id: nat, alive: set<nat>)
    requires Walked(ids, rest, alive) && id in rest && forall r :: r in rest ==> id <= r
    ensures Walked(ids + [id], rest - {id}, alive) && |rest - {id}| < |rest|
  {
    forall a | 0 <= a < |ids|
      ensures ids[a] < id
    {
      assert ids[a] in ids;
    }
  }

  /** Setting a bit of a word sets that bit alone. */
  lemma {:induction false} BitSet(w: u64, k: nat)
    requires k < 64
    ensures Or(w, Pow2(k)) < 0x1_0000_0000_0000_0000
    ensures forall j :: 0 <= j < 64 ==> (Bit(Or(w, Pow2(k)), j) <==> (if j == k then true else Bit(w, j)))
  {
    WordSize();
    Pow2Monotone(k, 63);
    assert Pow2(64) == 2 * Pow2(63);
    OrBelow(w, Pow2(k), 64);
    forall j | 0 <= j < 64
      ensures Bit(Or(w, Pow2(k)), j) <==> (if j == k then true else Bit(w, j))
    {
      OrBits(w, Pow2(k), j);
      PowerBit(k, j);
    }
  }

  /** Every bit of a word but one. */
  function AllBut(k: nat): nat
    requires k < 64
  {
    OthersBit(64, k, 0);
    Pow2(64) - 1 - Pow2(k)
  }

  lemma {:induction false} BitClearedAt(w: u64, k: nat, j: nat)
    requires k < 64 && j < 64
    ensures Bit(And(w, AllBut(k)), j) <==> (if j == k then false else Bit(w, j))
  {
    OthersBit(64, k, j);
    AndBits(w, AllBut(k), j);
  }

  /** Masking a bit of a word clears that bit alone. */
  lemma {:induction false} BitCleared(w: u64, k: nat)
    requires k < 64
    ensures And(w, AllBut(k)) <= w
    ensures forall j :: 0 <= j < 64 ==> (Bit(And(w, AllBut(k)), j) <==> (if j == k then false else Bit(w, j)))
  {
    AndBelow(w, AllBut(k));
    forall j | 0 <= j < 64
      ensures Bit(And(w, AllBut(k)), j) <==> (if j == k then false else Bit(w, j))
    {
      BitClearedAt(w, k, j);
    }
  }

  lemma {:induction false} AndTop(w: nat, k: nat)
    requires And(w, Pow2(k)) != 0
    ensures Bit(w, k)
  {
    if k == 0 {
      if w % 2 == 0 {
        assert And(w / 2, 0) == 0;
      }
    } else {
      assert Pow2(k) / 2 == Pow2(k - 1) && Pow2(k) % 2 == 0;
      AndTop(w / 2, k - 1);
    }
  }

  /** Words of nothing add nothing. */
  lemma {:induction false} Padded(was: seq<u64>, now: seq<u64>)
    requires was <= now && forall k :: |was| <= k < |now| ==> now[k] == 0
    ensures Ids(now) == Ids(was)
  {
    forall i: nat
      ensures i in Ids(now) <==> i in Ids(was)
    {
      IdsAre(now, i);
      IdsAre(was, i);
      NoBits(i % 64);
    }
  }

  // ----- the walk -----

  /** What a walk holding `current` of word `at` has yet to yield. */
  predicate Left(words: seq<u64>, at: nat, current: u64, i: nat) {
    if i / 64 == at then Bit(current, i % 64) else i / 64 > at && Has(words, i)
  }

  ghost function RestOf(words: seq<u64>, at: nat, current: u64): set<nat> {
    set i | 0 <= i < 64 * |words| && Left(words, at, current, i)
  }

  class LiveIter {
    const words: seq<u64>
    /** The index of the word being walked. */
    var at: nat
    /** What is left of it. */
    var current: u64

    ghost predicate Valid()
      reads this
    {
      current != 0 ==> at < |words|
    }

    ghost function Rest(): set<nat>
      reads this
    {
      RestOf(words, at, current)
    }

    constructor (words: seq<u64>)
      ensures Valid() && Rest() == Ids(words) && this.words == words
    {
      this.words := words;
      at := 0;
      current := if words == [] then 0 else words[0];
    }

    /** The least id not yet yielded. */
    method Next() returns (id: Option<nat>)
      requires Valid()
      modifies this
      ensures Valid()
      ensures id.None? ==> old(Rest()) == {} && Rest() == {}
      ensures id.Some? ==> id.value in old(Rest()) && Rest() == old(Rest()) - {id.value}
      ensures id.Some? ==> forall i :: i in old(Rest()) ==> id.value <= i
    {
      while true
        invariant Valid() && Rest() == old(Rest())
        decreases |words| - at
      {
        if current != 0 {
          var bit := TrailingZeros(current);
          YieldLowest(words, at, current);
          AndBelow(current, current - 1);
          current := And(current, current - 1);
          return Some(64 * at + bit);
        }
        NextWord(words, at);
        at := at + 1;
        if at >= |words| {
          current := 0;
          return None;
        }
        current := words[at];
      }
    }
  }

  /** Clearing the lowest bit of the current word yields the least id left. */
  lemma {:induction false} YieldLowest(words: seq<u64>, at: nat, current: u64)
    requires 0 < current && at < |words|
    ensures And(current, current - 1) < 0x1_0000_0000_0000_0000
    ensures var id := 64 * at + TrailingZeros(current);
      && id in RestOf(words, at, current)
      && RestOf(words, at, And(current, current - 1)) == RestOf(words, at, current) - {id}
      && forall i :: i in RestOf(words, at, current) ==> id <= i
  {
    AndBelow(current, current - 1);
    LowestBit(current, 0);
    WordSize();
    HighBit(current, TrailingZeros(current), 64);
    var id := 64 * at + TrailingZeros(current);
    assert id / 64 == at && id % 64 == TrailingZeros(current);
    forall i: nat
      ensures Left(words, at, And(current, current - 1), i) <==> Left(words, at, current, i) && i != id
      ensures Left(words, at, current, i) ==> id <= i
    {
      LowestBit(current, i % 64);
      assert i == 64 * (i / 64) + i % 64;
    }
  }

  /** An empty word is passed over. */
  lemma {:induction false} NextWord(words: seq<u64>, at: nat)
    ensures RestOf(words, at, 0) == RestOf(words, at + 1, if at + 1 < |words| then words[at + 1] else 0)
  {
    var current := if at + 1 < |words| then words[at + 1] else 0;
    forall i: nat
      ensures Left(words, at, 0, i) <==> Left(words, at + 1, current, i)
    {
      NoBits(i % 64);
    }
  }
}
