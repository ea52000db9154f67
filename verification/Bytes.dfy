/** Little-endian words, which everything on this wire is made of. */
module Bytes {
  import opened Numbers

  /** The low `k` bytes of a number, least significant first. */
  function LeBytes(n: nat, k: nat): (b: seq<byte>)
    ensures |b| == k
  {
    if k == 0 then [] else [n % 256] + LeBytes(n / 256, k - 1)
  }

  /** The byte at `i` is the `i`th digit of the number to base 256, least significant first. */
  lemma {:induction false} LeDigit(n: nat, k: nat, i: nat)
    requires i < k
    ensures LeBytes(n, k)[i] == (n / Pow256(i)) % 256
  {
    if i == 0 {
      assert n / 1 == n;
    } else {
      LeDigit(n / 256, k - 1, i - 1);
      DividesTwice(n, Pow256(i - 1));
    }
  }

  lemma {:induction false} DividesTwice(n: nat, p: nat)
    requires p > 0
    ensures n / (256 * p) == (n / 256) / p
  {
    var a, r := n / 256, n % 256;
    var q, s := a / p, a % p;
    assert n == 256 * a + r && a == p * q + s;
    MulLe(s + 1, p, 256);
    assert 256 * a == 256 * p * q + 256 * s;
    RemainderUnique(n, 256 * p, q, 256 * s + r);
  }

  function FromLe(b: seq<byte>): nat {
    if b == [] then 0 else b[0] + 256 * FromLe(b[1..])
  }

  function Pow256(k: nat): (r: nat)
    ensures r >= 1
  {
    if k == 0 then 1 else 256 * Pow256(k - 1)
  }

  lemma {:induction false} Pow256IsPow2(k: nat)
    ensures Pow256(k) == Pow2(8 * k)
  {
    if k > 0 {
      Pow256IsPow2(k - 1);
      Pow2Add(8, 8 * (k - 1));
      assert Pow2(8) == 256;
    }
  }

  /** Reading back what was written, when it fits. */
  lemma {:induction false} LeRoundTrips(n: nat, k: nat)
    requires n < Pow256(k)
    ensures FromLe(LeBytes(n, k)) == n
  {
    if k > 0 {
      LeRoundTrips(n / 256, k - 1);
      assert LeBytes(n, k)[1..] == LeBytes(n / 256, k - 1);
    }
  }

  lemma {:induction false} FromLeBelow(b: seq<byte>)
    ensures FromLe(b) < Pow256(|b|)
  {
    if b != [] {
      FromLeBelow(b[1..]);
    }
  }

  /** Truncating a word keeps its low bytes. */
  lemma {:induction false} LePrefix(n: nat, k: nat, wide: nat)
    requires k <= wide
    ensures LeBytes(n, wide)[..k] == LeBytes(n, k)
  {
    if k > 0 {
      LePrefix(n / 256, k - 1, wide - 1);
      assert LeBytes(n, wide)[..k] == [n % 256] + LeBytes(n / 256, wide - 1)[..k - 1];
    }
  }

  function Zeros(k: nat): (z: seq<byte>)
    ensures |z| == k
  {
    seq(k, _ => 0)
  }

  /** Leading zeros, which come last, change nothing. */
  lemma {:induction false} FromLePadded(b: seq<byte>, k: nat)
    ensures FromLe(b + Zeros(k)) == FromLe(b)
  {
    if b != [] {
      FromLePadded(b[1..], k);
      assert (b + Zeros(k))[1..] == b[1..] + Zeros(k);
    } else if k > 0 {
      FromLePadded([], k - 1);
      assert ([] + Zeros(k))[1..] == [] + Zeros(k - 1);
      assert FromLe([]) == 0;
    } else {
      assert [] + Zeros(0) == [];
    }
  }

  lemma {:induction false} WordWidths()
    ensures Pow256(2) == 0x1_0000 && Pow256(4) == 0x1_0000_0000 && Pow256(8) == 0x1_0000_0000_0000_0000
  {
    assert Pow256(2) == 0x1_0000 && Pow256(4) == 0x1_0000_0000 && Pow256(6) == 0x1_0000_0000_0000;
  }

  /** A word of `k` bytes read at `at`. */
  function WordAt(b: seq<byte>, at: nat, k: nat): (n: nat)
    requires at + k <= |b|
    ensures n < Pow256(k)
  {
    FromLeBelow(b[at..at + k]);
    FromLe(b[at..at + k])
  }
}
