/** Machine integers and the bit arithmetic the engine relies on.
    Words are modelled as bounded integers; wrap-around, masks and shifts are written out. */
module Numbers {

  type u16 = n: int | 0 <= n < 0x1_0000
  type u32 = n: int | 0 <= n < 0x1_0000_0000
  type u64 = n: int | 0 <= n < 0x1_0000_0000_0000_0000
  type i32 = n: int | -0x8000_0000 <= n < 0x8000_0000
  type byte = n: int | 0 <= n < 256

  /** `wrapping_sub` on 32-bit words. */
  function WrapSub(a: u32, b: u32): u32 {
    (a - b) % 0x1_0000_0000
  }

  /** `wrapping_add` on 32-bit words. */
  function WrapAdd(a: u32, b: u32): u32 {
    (a + b) % 0x1_0000_0000
  }

  /** `saturating_add` on 32-bit words. */
  function SatAdd(a: u32, b: u32): u32 {
    if a + b < 0x1_0000_0000 then a + b else 0xFFFF_FFFF
  }

  /** The bits of a signed word, which masks and wire bytes see. */
  function AsWord(n: i32): u32 {
    if n < 0 then n + 0x1_0000_0000 else n
  }

  function Abs(n: int): nat {
    if n < 0 then -n else n
  }

  function Min(a: int, b: int): int {
    if a < b then a else b
  }

  function Max(a: int, b: int): int {
    if a < b then b else a
  }

  function Pow2(k: nat): (r: nat)
    ensures r >= 1
  {
    if k == 0 then 1 else 2 * Pow2(k - 1)
  }

  function TrailingZeros(n: nat): nat
    requires n > 0
  {
    if n % 2 == 1 then 0 else 1 + TrailingZeros(n / 2)
  }

  /** Bitwise and. */
  function And(x: nat, y: nat): nat {
    if x == 0 || y == 0 then 0
    else 2 * And(x / 2, y / 2) + (if x % 2 == 1 && y % 2 == 1 then 1 else 0)
  }

  /** Bitwise or. */
  function Or(x: nat, y: nat): nat {
    if x == 0 then y
    else if y == 0 then x
    else 2 * Or(x / 2, y / 2) + (if x % 2 == 1 || y % 2 == 1 then 1 else 0)
  }

  /** Shift right. */
  function Shr(x: nat, k: nat): nat {
    if k == 0 then x else Shr(x / 2, k - 1)
  }

  lemma {:induction false} ShrBelow(x: nat, k: nat, n: nat)
    requires x < n * Pow2(k)
    ensures Shr(x, k) < n
  {
    if k > 0 {
      assert n * Pow2(k) == 2 * (n * Pow2(k - 1));
      ShrBelow(x / 2, k - 1, n);
    }
  }

  /** A right shift is the quotient by the power of two. */
  lemma {:induction false} ShrBounds(x: nat, k: nat)
    ensures Pow2(k) * Shr(x, k) <= x < Pow2(k) * Shr(x, k) + Pow2(k)
  {
    if k > 0 {
      ShrBounds(x / 2, k - 1);
      var p, q := Pow2(k - 1), Shr(x / 2, k - 1);
      assert Pow2(k) * Shr(x, k) == 2 * (p * q);
    }
  }

  function Log2(n: nat): nat
    requires n > 0
  {
    if n == 1 then 0 else 1 + Log2(n / 2)
  }

  lemma {:induction false} Log2Bounds(n: nat)
    requires n > 0
    ensures Pow2(Log2(n)) <= n < 2 * Pow2(Log2(n))
  {
    if n > 1 {
      Log2Bounds(n / 2);
    }
  }

  predicate PowerOfTwo(n: nat) {
    n > 0 && Pow2(TrailingZeros(n)) == n
  }

  lemma {:induction false} Pow2IsPowerOfTwo(k: nat)
    ensures TrailingZeros(Pow2(k)) == k
    ensures PowerOfTwo(Pow2(k))
  {
    if k > 0 {
      Pow2IsPowerOfTwo(k - 1);
      assert Pow2(k) / 2 == Pow2(k - 1);
    }
  }

  lemma {:induction false} Pow2Add(a: nat, b: nat)
    ensures Pow2(a + b) == Pow2(a) * Pow2(b)
  {
    if a > 0 {
      Pow2Add(a - 1, b);
      assert Pow2(a + b) == 2 * (Pow2(a - 1) * Pow2(b));
    }
  }

  lemma {:induction false} Pow2Monotone(a: nat, b: nat)
    requires a <= b
    ensures Pow2(a) <= Pow2(b)
  {
    if a < b {
      Pow2Monotone(a, b - 1);
    }
  }

  lemma {:induction false} Pow2Of32()
    ensures Pow2(32) == 0x1_0000_0000
  {
    assert Pow2(8) == 256;
    Pow2Add(8, 8);
    Pow2Add(16, 16);
  }

  /** Masking with one less than a power of two is the remainder. */
  lemma {:induction false} AndMask(x: nat, k: nat)
    ensures And(x, Pow2(k) - 1) == x % Pow2(k)
  {
    if k == 0 {
      assert x % 1 == 0;
    } else if x > 0 {
      var m := Pow2(k - 1);
      AndMask(x / 2, k - 1);
      assert And(x, 2 * m - 1) == 2 * And(x / 2, m - 1) + x % 2 by {
        assert (2 * m - 1) / 2 == m - 1 && (2 * m - 1) % 2 == 1;
      }
      HalveRemainder(x, m);
    } else {
      SmallRemainder(0, Pow2(k));
    }
  }

  lemma {:induction false} SmallRemainder(x: nat, m: nat)
    requires x < m
    ensures x % m == x
  {
  }

  lemma {:induction false} HalveRemainder(x: nat, m: nat)
    requires m > 0
    ensures x % (2 * m) == 2 * ((x / 2) % m) + x % 2
  {
    var q, r := (x / 2) / m, (x / 2) % m;
    assert x / 2 == m * q + r;
    assert x == (2 * m) * q + (2 * r + x % 2);
    RemainderUnique(x, 2 * m, q, 2 * r + x % 2);
  }

  lemma {:induction false} MulLe(a: int, b: int, c: nat)
    requires a <= b
    ensures a * c <= b * c
  {
  }

  lemma {:induction false} ExactQuotient(d: nat, q: nat)
    requires d > 0
    ensures (q * d) / d == q
  {
    RemainderUnique(q * d, d, q, 0);
  }

  lemma {:induction false} OnlyZeroMultiple(k: int, d: int)
    requires d > 0 && -d < k * d < d
    ensures k == 0
  {
  }

  lemma {:induction false} RemainderUnique(x: int, d: int, q: int, r: int)
    requires d > 0 && 0 <= r < d && x == d * q + r
    ensures x / d == q && x % d == r
  {
    var q', r' := x / d, x % d;
    assert x == d * q' + r';
    var k := q - q';
    assert k * d == d * q - d * q';
    OnlyZeroMultiple(k, d);
  }

  lemma {:induction false} Pow2Injective(a: nat, b: nat)
    requires Pow2(a) <= Pow2(b)
    ensures a <= b
  {
    if a > b {
      Pow2Monotone(b + 1, a);
    }
  }

  /** Or-ing a shifted word over a word that fits beneath it adds the two. */
  lemma {:induction false} OrShifted(low: nat, high: nat, k: nat)
    requires low < Pow2(k)
    ensures Or(low, high * Pow2(k)) == low + high * Pow2(k)
  {
    if k > 0 && low > 0 && high > 0 {
      var m := high * Pow2(k - 1);
      assert high * Pow2(k) == 2 * m;
      OrShifted(low / 2, high, k - 1);
    }
  }

  lemma {:induction false} SubsetSize<T>(a: set<T>, b: set<T>)
    requires a <= b
    ensures |a| <= |b|
  {
    assert b == a + (b - a);
  }
}
