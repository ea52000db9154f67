/** What a stable counting sort leaves behind: bucket `b` of the sorted range holds
    exactly the elements whose key is `b`, in the order they came. */
module CountingSort {

  /** Of the first `k` elements of `s`, those with key `b`, in order. */
  function KeyedTo<T>(s: seq<T>, key: T -> nat, b: nat, k: nat): (r: seq<T>)
    requires k <= |s|
    ensures |r| <= k
  {
    if k == 0 then []
    else
      var before := KeyedTo(s, key, b, k - 1);
      if key(s[k - 1]) == b then before + [s[k - 1]] else before
  }

  /** The elements of `s` with key `b`, in order. */
  function Keyed<T>(s: seq<T>, key: T -> nat, b: nat): (r: seq<T>)
    ensures |r| <= |s|
  {
    KeyedTo(s, key, b, |s|)
  }

  /** How many elements of `s` have a key below `b`: where bucket `b` starts. */
  function Start<T>(s: seq<T>, key: T -> nat, b: nat): nat {
    if b == 0 then 0 else Start(s, key, b - 1) + |Keyed(s, key, b - 1)|
  }

  ghost predicate KeysBelow<T>(s: seq<T>, key: T -> nat, buckets: nat) {
    forall i :: 0 <= i < |s| ==> key(s[i]) < buckets
  }

  lemma {:induction false} SliceJoin<T>(s: seq<T>, a: nat, b: nat, c: nat)
    requires a <= b <= c <= |s|
    ensures s[a..c] == s[a..b] + s[b..c]
  {
  }

  lemma {:induction false} SliceAppend<T>(s: seq<T>, a: nat, b: nat, x: T)
    requires a <= b < |s|
    ensures s[b := x][a..b + 1] == s[a..b] + [x]
  {
  }

  lemma {:induction false} SliceElsewhere<T>(s: seq<T>, a: nat, b: nat, d: nat, x: T)
    requires a <= b <= |s| && d < |s| && (d < a || b <= d)
    ensures s[d := x][a..b] == s[a..b]
  {
  }

  /** Only the elements looked at matter. */
  lemma {:induction false} KeyedToAgrees<T>(s: seq<T>, t: seq<T>, key: T -> nat, b: nat, k: nat)
    requires k <= |s| && k <= |t| && forall i :: 0 <= i < k ==> s[i] == t[i]
    ensures KeyedTo(s, key, b, k) == KeyedTo(t, key, b, k)
  {
    if k > 0 {
      KeyedToAgrees(s, t, key, b, k - 1);
    }
  }

  lemma {:induction false} KeyedSnoc<T>(s: seq<T>, x: T, key: T -> nat, b: nat)
    ensures Keyed(s + [x], key, b) == if key(x) == b then Keyed(s, key, b) + [x] else Keyed(s, key, b)
  {
    KeyedToAgrees(s + [x], s, key, b, |s|);
  }

  lemma {:induction false} KeyedGrows<T>(s: seq<T>, key: T -> nat, b: nat, k: nat)
    requires k <= |s|
    ensures |KeyedTo(s, key, b, k)| <= |Keyed(s, key, b)|
    decreases |s| - k
  {
    if k < |s| {
      KeyedGrows(s, key, b, k + 1);
    }
  }

  lemma {:induction false} StartMonotone<T>(s: seq<T>, key: T -> nat, a: nat, b: nat)
    requires a <= b
    ensures Start(s, key, a) <= Start(s, key, b)
    decreases b
  {
    if a < b {
      StartMonotone(s, key, a, b - 1);
    }
  }

  lemma {:induction false} StartSnoc<T>(s: seq<T>, x: T, key: T -> nat, b: nat)
    ensures Start(s + [x], key, b) == Start(s, key, b) + (if key(x) < b then 1 else 0)
  {
    if b > 0 {
      StartSnoc(s, x, key, b - 1);
      KeyedSnoc(s, x, key, b - 1);
    }
  }

  /** The buckets together hold the whole range. */
  lemma {:induction false} StartsCoverAll<T>(s: seq<T>, key: T -> nat, buckets: nat)
    requires KeysBelow(s, key, buckets)
    ensures Start(s, key, buckets) == |s|
  {
    if s == [] {
      StartOfNone(key, buckets);
    } else {
      var front, x := s[..|s| - 1], s[|s| - 1];
      StartsCoverAll(front, key, buckets);
      assert s == front + [x];
      StartSnoc(front, x, key, buckets);
    }
  }

  lemma {:induction false} StartOfNone<T>(key: T -> nat, b: nat)
    ensures Start<T>([], key, b) == 0
  {
    if b > 0 {
      StartOfNone(key, b - 1);
    }
  }

  /** Bucket `b` of `out` from `lo` on has received its share of the first `k` elements. */
  ghost predicate Filled<T>(out: seq<T>, lo: nat, s: seq<T>, key: T -> nat, k: nat, b: nat)
    requires k <= |s|
  {
    var at, n := lo + Start(s, key, b), |KeyedTo(s, key, b, k)|;
    at + n <= |out| && out[at..at + n] == KeyedTo(s, key, b, k)
  }

  /** The first `k` elements of `s` have been scattered into `out` from `lo` on. */
  ghost predicate Scattered<T>(out: seq<T>, lo: nat, s: seq<T>, key: T -> nat, buckets: nat, k: nat)
    requires k <= |s|
  {
    && lo + |s| <= |out|
    && forall b :: 0 <= b < buckets ==> Filled(out, lo, s, key, k, b)
  }

  /** Where the next element with key `b` goes. */
  function Cursor<T>(lo: nat, s: seq<T>, key: T -> nat, b: nat, k: nat): nat
    requires k <= |s|
  {
    lo + Start(s, key, b) + |KeyedTo(s, key, b, k)|
  }

  lemma {:induction false} CursorInRange<T>(lo: nat, s: seq<T>, key: T -> nat, buckets: nat, b: nat, k: nat)
    requires KeysBelow(s, key, buckets) && b < buckets && k <= |s|
    ensures Cursor(lo, s, key, b, k) <= lo + Start(s, key, b + 1) <= lo + |s|
    ensures k < |s| && key(s[k]) == b ==> Cursor(lo, s, key, b, k) < lo + Start(s, key, b + 1)
  {
    KeyedGrows(s, key, b, k);
    StartMonotone(s, key, b + 1, buckets);
    StartsCoverAll(s, key, buckets);
    if k < |s| && key(s[k]) == b {
      KeyedGrows(s, key, b, k + 1);
    }
  }

  lemma {:induction false} ScatterStarts<T>(out: seq<T>, lo: nat, s: seq<T>, key: T -> nat, buckets: nat)
    requires KeysBelow(s, key, buckets) && lo + |s| <= |out|
    ensures Scattered(out, lo, s, key, buckets, 0)
  {
    forall b | 0 <= b < buckets
      ensures Filled(out, lo, s, key, 0, b)
    {
      CursorInRange(lo, s, key, buckets, b, 0);
    }
  }

  /** Writing the next element at its cursor scatters one more. */
  lemma {:induction false} ScatterStep<T>(out: seq<T>, lo: nat, s: seq<T>, key: T -> nat, buckets: nat, k: nat)
    requires KeysBelow(s, key, buckets) && k < |s|
    requires Scattered(out, lo, s, key, buckets, k)
    ensures Cursor(lo, s, key, key(s[k]), k) < lo + |s|
    ensures Scattered(out[Cursor(lo, s, key, key(s[k]), k) := s[k]], lo, s, key, buckets, k + 1)
    ensures forall b ::
      Cursor(lo, s, key, b, k + 1) == Cursor(lo, s, key, b, k) + (if b == key(s[k]) then 1 else 0)
  {
    var own := key(s[k]);
    var d := Cursor(lo, s, key, own, k);
    CursorInRange(lo, s, key, buckets, own, k);
    var out' := out[d := s[k]];
    OwnBucket(out, lo, s, key, k);
    var next := k + 1;
    forall b | 0 <= b < buckets && b != own
      ensures Filled(out', lo, s, key, next, b)
    {
      OtherBucket(out, lo, s, key, buckets, k, b);
    }
  }

  /** The bucket written to grows by the element. */
  lemma {:induction false} OwnBucket<T>(out: seq<T>, lo: nat, s: seq<T>, key: T -> nat, k: nat)
    requires k < |s| && Filled(out, lo, s, key, k, key(s[k]))
    requires Cursor(lo, s, key, key(s[k]), k) < |out|
    ensures Filled(out[Cursor(lo, s, key, key(s[k]), k) := s[k]], lo, s, key, k + 1, key(s[k]))
  {
    var b := key(s[k]);
    SliceAppend(out, lo + Start(s, key, b), Cursor(lo, s, key, b, k), s[k]);
  }

  /** Every other bucket is as it was. */
  lemma {:induction false} OtherBucket<T>(out: seq<T>, lo: nat, s: seq<T>, key: T -> nat, buckets: nat, k: nat, b: nat)
    requires KeysBelow(s, key, buckets) && k < |s| && b < buckets && b != key(s[k])
    requires Filled(out, lo, s, key, k, b)
    requires Cursor(lo, s, key, key(s[k]), k) < |out|
    ensures Filled(out[Cursor(lo, s, key, key(s[k]), k) := s[k]], lo, s, key, k + 1, b)
  {
    var own := key(s[k]);
    var d := Cursor(lo, s, key, own, k);
    var at, end := lo + Start(s, key, b), Cursor(lo, s, key, b, k);
    CursorInRange(lo, s, key, buckets, own, k);
    CursorInRange(lo, s, key, buckets, b, k);
    if b < own {
      StartMonotone(s, key, b + 1, own);
    } else {
      StartMonotone(s, key, own + 1, b);
    }
    SliceElsewhere(out, at, end, d, s[k]);
  }

  /** Bucket `b` of `out` from `lo` on is exactly the elements of `s` with that key. */
  ghost predicate Bucket<T>(out: seq<T>, lo: nat, s: seq<T>, key: T -> nat, b: nat) {
    var at, end := lo + Start(s, key, b), lo + Start(s, key, b + 1);
    end <= |out| && out[at..end] == Keyed(s, key, b)
  }

  /** `out` from `lo` on is `s`, stably sorted into its buckets. */
  ghost predicate Bucketed<T>(out: seq<T>, lo: nat, s: seq<T>, key: T -> nat, buckets: nat) {
    && lo + |s| <= |out|
    && forall b :: 0 <= b < buckets ==> Bucket(out, lo, s, key, b)
  }

  lemma {:induction false} ScatterEnds<T>(out: seq<T>, lo: nat, s: seq<T>, key: T -> nat, buckets: nat)
    requires Scattered(out, lo, s, key, buckets, |s|)
    ensures Bucketed(out, lo, s, key, buckets)
  {
    forall b | 0 <= b < buckets
      ensures Bucket(out, lo, s, key, b)
    {
      assert Filled(out, lo, s, key, |s|, b);
    }
  }

  lemma {:induction false} SliceOfSlice<T>(s: seq<T>, a: nat, b: nat, i: nat, j: nat)
    requires a <= i <= j <= b <= |s|
    ensures s[i..j] == s[a..b][i - a..j - a]
  {
    var t := s[a..b];
    forall k | 0 <= k < j - i
      ensures s[i..j][k] == t[i - a..j - a][k]
    {
      assert t[i - a + k] == s[i + k];
    }
  }

  /** A sorted range copied elsewhere is sorted there. */
  lemma {:induction false} BucketedMoves<T>(out: seq<T>, lo: nat, out': seq<T>, lo': nat, s: seq<T>, key: T -> nat,
      buckets: nat)
    requires KeysBelow(s, key, buckets) && Bucketed(out, lo, s, key, buckets)
    requires lo' + |s| <= |out'| && out[lo..lo + |s|] == out'[lo'..lo' + |s|]
    ensures Bucketed(out', lo', s, key, buckets)
  {
    StartsCoverAll(s, key, buckets);
    forall b | 0 <= b < buckets
      ensures Bucket(out', lo', s, key, b)
    {
      assert Bucket(out, lo, s, key, b);
      BucketMoves(out, lo, out', lo', s, key, buckets, b);
    }
  }

  lemma {:induction false} BucketMoves<T>(out: seq<T>, lo: nat, out': seq<T>, lo': nat, s: seq<T>, key: T -> nat,
      buckets: nat, b: nat)
    requires b < buckets && Start(s, key, buckets) == |s| && Bucket(out, lo, s, key, b)
    requires lo + |s| <= |out| && lo' + |s| <= |out'| && out[lo..lo + |s|] == out'[lo'..lo' + |s|]
    ensures Bucket(out', lo', s, key, b)
  {
    StartMonotone(s, key, b + 1, buckets);
    var i, j := Start(s, key, b), Start(s, key, b + 1);
    SliceOfSlice(out, lo, lo + |s|, lo + i, lo + j);
    SliceOfSlice(out', lo', lo' + |s|, lo' + i, lo' + j);
  }

  /** Every place of the sorted range lies in some bucket. */
  lemma {:induction false} PlaceInBucket<T>(s: seq<T>, key: T -> nat, buckets: nat, j: nat) returns (b: nat)
    requires KeysBelow(s, key, buckets) && j < |s|
    ensures b < buckets && Start(s, key, b) <= j < Start(s, key, b + 1)
  {
    StartsCoverAll(s, key, buckets);
    b := 0;
    while Start(s, key, b + 1) <= j
      invariant b < buckets && Start(s, key, b) <= j
      decreases buckets - b
    {
      b := b + 1;
    }
  }

  /** A place belongs to one bucket only. */
  lemma {:induction false} OneBucket<T>(s: seq<T>, key: T -> nat, a: nat, b: nat, j: nat)
    requires Start(s, key, a) <= j < Start(s, key, a + 1)
    requires Start(s, key, b) <= j < Start(s, key, b + 1)
    ensures a == b
  {
    if a < b {
      StartMonotone(s, key, a + 1, b);
    } else if b < a {
      StartMonotone(s, key, b + 1, a);
    }
  }

  /** An element is in exactly the bucket of its key. */
  lemma {:induction false} KeyedToHolds<T>(s: seq<T>, key: T -> nat, b: nat, k: nat, x: T)
    requires k <= |s|
    ensures x in KeyedTo(s, key, b, k) <==> x in s[..k] && key(x) == b
  {
    if k > 0 {
      KeyedToHolds(s, key, b, k - 1, x);
      assert s[..k] == s[..k - 1] + [s[k - 1]];
    }
  }

  lemma {:induction false} KeyedHolds<T>(s: seq<T>, key: T -> nat, b: nat, x: T)
    ensures x in Keyed(s, key, b) <==> x in s && key(x) == b
  {
    KeyedToHolds(s, key, b, |s|, x);
    assert s[..|s|] == s;
  }

  /** Sorting by bucket loses and invents nothing. */
  lemma {:induction false} BucketedPermutes<T>(out: seq<T>, lo: nat, s: seq<T>, key: T -> nat, buckets: nat)
    requires KeysBelow(s, key, buckets) && Bucketed(out, lo, s, key, buckets)
    ensures multiset(out[lo..lo + |s|]) == multiset(s)
  {
    StartsCoverAll(s, key, buckets);
    BucketsBelow(out, lo, s, key, buckets, buckets);
    KeyedBelowAll(s, key, buckets);
  }

  /** The elements with keys below `b`, bucket after bucket. */
  function KeyedBelow<T>(s: seq<T>, key: T -> nat, b: nat): seq<T> {
    if b == 0 then [] else KeyedBelow(s, key, b - 1) + Keyed(s, key, b - 1)
  }

  lemma {:induction false} NextBucket<T>(out: seq<T>, lo: nat, s: seq<T>, key: T -> nat, b: nat)
    requires lo + Start(s, key, b) <= |out| && Bucket(out, lo, s, key, b)
    ensures out[lo..lo + Start(s, key, b + 1)] == out[lo..lo + Start(s, key, b)] + Keyed(s, key, b)
  {
    SliceJoin(out, lo, lo + Start(s, key, b), lo + Start(s, key, b + 1));
  }

  lemma {:induction false} BucketsBelow<T>(out: seq<T>, lo: nat, s: seq<T>, key: T -> nat, buckets: nat, b: nat)
    requires Bucketed(out, lo, s, key, buckets) && b <= buckets
    ensures lo + Start(s, key, b) <= |out|
    ensures out[lo..lo + Start(s, key, b)] == KeyedBelow(s, key, b)
  {
    if b > 0 {
      BucketsBelow(out, lo, s, key, buckets, b - 1);
      NextBucket(out, lo, s, key, b - 1);
    }
  }

  lemma {:induction false} KeyedBelowAll<T>(s: seq<T>, key: T -> nat, buckets: nat)
    requires KeysBelow(s, key, buckets)
    ensures multiset(KeyedBelow(s, key, buckets)) == multiset(s)
  {
    if s == [] {
      KeyedBelowNone(key, buckets);
    } else {
      var front, x := s[..|s| - 1], s[|s| - 1];
      KeyedBelowAll(front, key, buckets);
      assert s == front + [x];
      KeyedBelowSnoc(front, x, key, buckets);
    }
  }

  lemma {:induction false} KeyedBelowNone<T>(key: T -> nat, b: nat)
    ensures KeyedBelow<T>([], key, b) == []
  {
    if b > 0 {
      KeyedBelowNone(key, b - 1);
    }
  }

  function One<T>(x: T, present: bool): multiset<T> {
    if present then multiset{x} else multiset{}
  }

  lemma {:induction false} KeyedBelowSnoc<T>(s: seq<T>, x: T, key: T -> nat, b: nat)
    ensures multiset(KeyedBelow(s + [x], key, b)) == multiset(KeyedBelow(s, key, b)) + One(x, key(x) < b)
  {
    if b > 0 {
      KeyedBelowSnoc(s, x, key, b - 1);
      KeyedSnocCounts(s, x, key, b - 1);
      JoinCounts(KeyedBelow(s + [x], key, b - 1), Keyed(s + [x], key, b - 1));
      JoinCounts(KeyedBelow(s, key, b - 1), Keyed(s, key, b - 1));
      OneEither(multiset(KeyedBelow(s, key, b - 1)), multiset(Keyed(s, key, b - 1)), x, key(x) < b - 1,
          key(x) == b - 1);
    }
  }

  lemma {:induction false} KeyedSnocCounts<T>(s: seq<T>, x: T, key: T -> nat, b: nat)
    ensures multiset(Keyed(s + [x], key, b)) == multiset(Keyed(s, key, b)) + One(x, key(x) == b)
  {
    KeyedSnoc(s, x, key, b);
  }

  lemma {:induction false} OneEither<T>(a: multiset<T>, b: multiset<T>, x: T, p: bool, q: bool)
    requires !(p && q)
    ensures (a + One(x, p)) + (b + One(x, q)) == (a + b) + One(x, p || q)
  {
  }

  lemma {:induction false} JoinCounts<T>(a: seq<T>, b: seq<T>)
    ensures multiset(a + b) == multiset(a) + multiset(b)
  {
  }

  lemma {:induction false} KeyedKeysBelow<T>(s: seq<T>, key: T -> nat, b: nat, other: T -> nat, buckets: nat)
    requires KeysBelow(s, other, buckets)
    ensures KeysBelow(Keyed(s, key, b), other, buckets)
  {
    forall i | 0 <= i < |Keyed(s, key, b)|
      ensures other(Keyed(s, key, b)[i]) < buckets
    {
      KeyedHolds(s, key, b, Keyed(s, key, b)[i]);
    }
  }

  /** A filter keeps an ascending order. */
  ghost predicate Ascending<T>(s: seq<T>, rank: T -> int) {
    forall i, j :: 0 <= i < j < |s| ==> rank(s[i]) < rank(s[j])
  }

  lemma {:induction false} KeyedToAscends<T>(s: seq<T>, key: T -> nat, b: nat, k: nat, rank: T -> int)
    requires k <= |s| && Ascending(s, rank)
    ensures Ascending(KeyedTo(s, key, b, k), rank)
  {
    if k > 0 {
      KeyedToAscends(s, key, b, k - 1, rank);
      forall y | y in KeyedTo(s, key, b, k - 1)
        ensures rank(y) < rank(s[k - 1])
      {
        KeyedToHolds(s, key, b, k - 1, y);
      }
    }
  }

  lemma {:induction false} KeyedAscends<T>(s: seq<T>, key: T -> nat, b: nat, rank: T -> int)
    requires Ascending(s, rank)
    ensures Ascending(Keyed(s, key, b), rank)
  {
    KeyedToAscends(s, key, b, |s|, rank);
  }
}
