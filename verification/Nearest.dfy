/** Choosing the nearest candidates by an order statistic, without sorting them. */
module Nearest {
  import opened Numbers
  import opened CountingSort
  import opened Ordering

  /** `(distance, walk order)` is smaller. */
  predicate Closer(dists: seq<u32>, i: nat, j: nat)
    requires i < |dists| && j < |dists|
  {
    dists[i] < dists[j] || (dists[i] == dists[j] && i < j)
  }

  /** `keep` is the `cap` lexicographically smallest (distance, index) pairs, or all of
      them if there are no more than that, ascending by index. */
  ghost predicate NearestOf(dists: seq<u32>, cap: nat, keep: seq<nat>) {
    && |keep| == (if |dists| <= cap then |dists| else cap)
    && (forall a :: 0 <= a < |keep| ==> keep[a] < |dists|)
    && (forall a, b :: 0 <= a < b < |keep| ==> keep[a] < keep[b])
    && (forall i, j :: 0 <= i < |dists| && 0 <= j < |dists| && i in keep && j !in keep ==> Closer(dists, i, j))
  }

  function Itself(): u32 -> nat {
    (d: u32) => d
  }

  /** How many of the first `k` distances are below `c`. */
  function BelowTo(s: seq<u32>, c: nat, k: nat): (n: nat)
    requires k <= |s|
    ensures n <= k
  {
    if k == 0 then 0 else BelowTo(s, c, k - 1) + (if s[k - 1] < c then 1 else 0)
  }

  lemma {:induction false} BelowToAgrees(s: seq<u32>, t: seq<u32>, c: nat, k: nat)
    requires k <= |s| && k <= |t| && forall i :: 0 <= i < k ==> s[i] == t[i]
    ensures BelowTo(s, c, k) == BelowTo(t, c, k)
  {
    if k > 0 {
      BelowToAgrees(s, t, c, k - 1);
    }
  }

  lemma {:induction false} BelowIsStart(s: seq<u32>, c: nat)
    ensures BelowTo(s, c, |s|) == Start(s, Itself(), c)
  {
    if s == [] {
      StartOfNone(Itself(), c);
    } else {
      var front, x := s[..|s| - 1], s[|s| - 1];
      BelowIsStart(front, c);
      StartSnoc(front, x, Itself(), c);
      BelowToAgrees(s, front, c, |front|);
      assert s == front + [x];
    }
  }

  /** Sorting does not change how many distances are below a bound. */
  lemma {:induction false} SortKeepsStart(s: seq<u32>, c: nat)
    ensures Start(SortByKey(s, Itself()), Itself(), c) == Start(s, Itself(), c)
  {
    if c > 0 {
      SortKeepsStart(s, c - 1);
      SortIsStable(s, Itself(), c - 1);
    }
  }

  lemma {:induction false} SortKeepsBelow(s: seq<u32>, c: nat)
    ensures BelowTo(SortByKey(s, Itself()), c, |SortByKey(s, Itself())|) == BelowTo(s, c, |s|)
  {
    BelowIsStart(SortByKey(s, Itself()), c);
    BelowIsStart(s, c);
    SortKeepsStart(s, c);
  }

  lemma {:induction false} AllBelow(t: seq<u32>, c: nat, k: nat)
    requires k <= |t| && forall i :: 0 <= i < k ==> t[i] < c
    ensures BelowTo(t, c, k) == k
  {
    if k > 0 {
      AllBelow(t, c, k - 1);
    }
  }

  lemma {:induction false} BelowGrows(s: seq<u32>, c: nat, a: nat, b: nat)
    requires a <= b <= |s|
    ensures BelowTo(s, c, a) <= BelowTo(s, c, b)
  {
    if a < b {
      BelowGrows(s, c, a, b - 1);
    }
  }

  /** The element at place `k` of a sorted list: fewer than it at most `k`, and with its
      equals more than `k`. */
  lemma {:induction false} OrderStatistic(t: seq<u32>, k: nat)
    requires k < |t| && NearestFirst(t, Itself())
    ensures BelowTo(t, t[k], |t|) == BelowTo(t, t[k], k) <= k < BelowTo(t, t[k] as int + 1, |t|)
  {
    var c: nat := t[k];
    StopsBelow(t, c, k, |t|);
    forall i | 0 <= i < k + 1
      ensures t[i] < c + 1
    {
      assert i < k ==> Itself()(t[i]) <= Itself()(t[k]);
    }
    AllBelow(t, c + 1, k + 1);
    BelowGrows(t, c + 1, k + 1, |t|);
  }

  lemma {:induction false} StopsBelow(t: seq<u32>, c: nat, k: nat, n: nat)
    requires k < |t| && k <= n <= |t| && c == t[k] && NearestFirst(t, Itself())
    ensures BelowTo(t, c, n) == BelowTo(t, c, k)
  {
    if n > k {
      StopsBelow(t, c, k, n - 1);
      assert k < n - 1 ==> Itself()(t[k]) <= Itself()(t[n - 1]);
    }
  }

  /** The order statistic the engine takes from its partition: the value at place `k` in
      order, and how many are strictly below it. */
  method SelectNth(dists: seq<u32>, k: nat) returns (cut: u32, nearer: nat)
    requires k < |dists|
    ensures nearer == BelowTo(dists, cut, |dists|)
    ensures nearer <= k < BelowTo(dists, cut + 1, |dists|)
  {
    var edge := SortByKey(dists, Itself());
    SortSorts(dists, Itself());
    assert |edge| == |multiset(edge)| == |multiset(dists)|;
    cut := edge[k];
    nearer := 0;
    for i := 0 to k
      invariant nearer == BelowTo(edge, cut, i)
    {
      if edge[i] < cut {
        nearer := nearer + 1;
      }
    }
    CutStands(dists, edge, k);
  }

  lemma {:induction false} CutStands(dists: seq<u32>, edge: seq<u32>, k: nat)
    requires edge == SortByKey(dists, Itself()) && k < |edge|
    ensures BelowTo(edge, edge[k], k) == BelowTo(dists, edge[k], |dists|) <= k
    ensures k < BelowTo(dists, edge[k] as int + 1, |dists|)
  {
    SortSorts(dists, Itself());
    OrderStatistic(edge, k);
    SortKeepsBelow(dists, edge[k]);
    SortKeepsBelow(dists, edge[k] as int + 1);
  }

  /** The indices of the `cap` smallest pairs, without sorting more than their cut. */
  method PickNearest(dists: seq<u32>, cap: nat) returns (keep: seq<nat>)
    requires cap >= 1
    ensures NearestOf(dists, cap, keep)
  {
    keep := [];
    if |dists| <= cap {
      for i := 0 to |dists|
        invariant |keep| == i && forall a :: 0 <= a < i ==> keep[a] == a
      {
        keep := keep + [i];
      }
      forall j | 0 <= j < |dists|
        ensures j in keep
      {
        assert keep[j] == j;
      }
      return;
    }
    var cut, nearer := SelectNth(dists, cap - 1);
    var ties: nat := cap - nearer;
    for i := 0 to |dists|
      invariant Partial(dists, cut, cap - nearer, i, keep, ties)
    {
      PartialNext(dists, cut, cap - nearer, i, keep, ties);
      if dists[i] < cut {
        keep := keep + [i];
      } else if dists[i] == cut && ties > 0 {
        ties := ties - 1;
        keep := keep + [i];
      }
    }
    PartialIsNearest(dists, cut, cap - nearer, keep, ties, cap);
  }

  /** How many of the first `k` equal the cut. */
  function TiesTo(dists: seq<u32>, cut: u32, k: nat): nat
    requires k <= |dists|
  {
    if k == 0 then 0 else TiesTo(dists, cut, k - 1) + (if dists[k - 1] == cut then 1 else 0)
  }

  lemma {:induction false} TiesBetween(dists: seq<u32>, cut: u32, k: nat)
    requires k <= |dists|
    ensures BelowTo(dists, cut + 1, k) == BelowTo(dists, cut, k) + TiesTo(dists, cut, k)
  {
    if k > 0 {
      TiesBetween(dists, cut, k - 1);
    }
  }

  lemma {:induction false} TiesGrow(dists: seq<u32>, cut: u32, a: nat, b: nat)
    requires a <= b <= |dists|
    ensures TiesTo(dists, cut, a) <= TiesTo(dists, cut, b)
  {
    if a < b {
      TiesGrow(dists, cut, a, b - 1);
    }
  }

  /** Strictly nearer than the cut, or among the first `quota` at it. */
  predicate Chosen(dists: seq<u32>, cut: u32, quota: nat, i: nat)
    requires i < |dists|
  {
    dists[i] < cut || (dists[i] == cut && TiesTo(dists, cut, i) < quota)
  }

  /** After `k` candidates: those strictly nearer than the cut, and the first ties. */
  ghost predicate Partial(dists: seq<u32>, cut: u32, quota: nat, k: nat, keep: seq<nat>, ties: nat)
    requires k <= |dists|
  {
    && (forall a :: 0 <= a < |keep| ==> keep[a] < k)
    && (forall a, b :: 0 <= a < b < |keep| ==> keep[a] < keep[b])
    && (forall i :: 0 <= i < k ==> (i in keep <==> Chosen(dists, cut, quota, i)))
    && ties == Max(0, quota - TiesTo(dists, cut, k))
    && |keep| == BelowTo(dists, cut, k) + (quota - ties)
  }

  lemma {:induction false} PartialNext(dists: seq<u32>, cut: u32, quota: nat, k: nat, keep: seq<nat>, ties: nat)
    requires k < |dists| && Partial(dists, cut, quota, k, keep, ties)
    ensures dists[k] < cut ==> Partial(dists, cut, quota, k + 1, keep + [k], ties)
    ensures dists[k] == cut && ties > 0 ==> Partial(dists, cut, quota, k + 1, keep + [k], ties - 1)
    ensures dists[k] > cut || (dists[k] == cut && ties == 0) ==> Partial(dists, cut, quota, k + 1, keep, ties)
  {
    assert k !in keep;
  }

  lemma {:induction false} PartialIsNearest(dists: seq<u32>, cut: u32, quota: nat, keep: seq<nat>, ties: nat, cap: nat)
    requires Partial(dists, cut, quota, |dists|, keep, ties)
    requires 1 <= cap < |dists| && quota == cap - BelowTo(dists, cut, |dists|)
    requires cap <= BelowTo(dists, cut + 1, |dists|)
    ensures NearestOf(dists, cap, keep)
  {
    TiesBetween(dists, cut, |dists|);
    forall i, j | 0 <= i < |dists| && 0 <= j < |dists| && i in keep && j !in keep
      ensures Closer(dists, i, j)
    {
      assert Chosen(dists, cut, quota, i) && !Chosen(dists, cut, quota, j);
      if dists[i] == dists[j] && j <= i {
        TiesGrow(dists, cut, j, i);
      }
    }
  }

  /** The choice is unique: nothing else is the nearest `cap` in walk order. */
  lemma {:induction false} NearestIsUnique(dists: seq<u32>, cap: nat, a: seq<nat>, b: seq<nat>)
    requires NearestOf(dists, cap, a) && NearestOf(dists, cap, b)
    ensures forall i :: i in a <==> i in b
  {
    NearestIncluded(dists, cap, a, b);
    NearestIncluded(dists, cap, b, a);
  }

  lemma {:induction false} NearestIncluded(dists: seq<u32>, cap: nat, a: seq<nat>, b: seq<nat>)
    requires NearestOf(dists, cap, a) && NearestOf(dists, cap, b)
    ensures forall i :: i in a ==> i in b
  {
    forall i | i in a
      ensures i in b
    {
      if i !in b {
        var j := MissedElsewhere(a, b, i);
        assert false;
      }
    }
  }

  /** If one of two equally long ascending lists misses an element of the other, the
      other misses one of its. */
  lemma {:induction false} MissedElsewhere(a: seq<nat>, b: seq<nat>, i: nat) returns (j: nat)
    requires |a| == |b| && i in a && i !in b
    requires forall p, q :: 0 <= p < q < |a| ==> a[p] < a[q]
    requires forall p, q :: 0 <= p < q < |b| ==> b[p] < b[q]
    ensures j in b && j !in a
  {
    AscendingCount(a);
    AscendingCount(b);
    if Elements(b) <= Elements(a) {
      SubsetSize(Elements(b), Elements(a) - {i});
      assert false;
    }
    j :| j in Elements(b) && j !in Elements(a);
  }

  function Elements(a: seq<nat>): set<nat> {
    set x | x in a
  }

  lemma {:induction false} AscendingCount(a: seq<nat>)
    requires forall p, q :: 0 <= p < q < |a| ==> a[p] < a[q]
    ensures |Elements(a)| == |a|
  {
    if a != [] {
      var front, last := a[..|a| - 1], a[|a| - 1];
      AscendingCount(front);
      assert a == front + [last];
      assert Elements(a) == Elements(front) + {last};
      assert last !in front;
    }
  }

  /** The candidates nearer than one of them. */
  function CloserThan(dists: seq<u32>, i: nat): set<nat>
    requires i < |dists|
  {
    set j | 0 <= j < |dists| && Closer(dists, j, i)
  }

  function Below(n: nat): set<nat> {
    if n == 0 then {} else Below(n - 1) + {n - 1}
  }

  lemma {:induction false} BelowSize(n: nat)
    ensures |Below(n)| == n && forall i: nat :: i in Below(n) <==> i < n
  {
    if n > 0 {
      BelowSize(n - 1);
    }
  }

  /** A candidate is kept exactly when fewer than `cap` are nearer. */
  lemma {:induction false} KeptIff(dists: seq<u32>, cap: nat, keep: seq<nat>, i: nat)
    requires NearestOf(dists, cap, keep) && i < |dists|
    ensures i in keep <==> |CloserThan(dists, i)| < cap
  {
    AscendingCount(keep);
    BelowSize(|dists|);
    if i in keep {
      assert CloserThan(dists, i) <= Elements(keep) - {i};
      SubsetSize(CloserThan(dists, i), Elements(keep) - {i});
    } else {
      assert Elements(keep) <= CloserThan(dists, i);
      SubsetSize(Elements(keep), CloserThan(dists, i));
      SubsetSize(Elements(keep), Below(|dists|) - {i});
    }
  }
}
