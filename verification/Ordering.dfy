/** A stable sort by a numeric key, and what a permutation keeps. Stands in for the
    library sorts the engine calls. */
module Ordering {
  import opened CountingSort

  ghost predicate NoRepeats<T>(s: seq<T>) {
    forall i, j :: 0 <= i < j < |s| ==> s[i] != s[j]
  }

  ghost predicate NearestFirst<T>(s: seq<T>, far: T -> nat) {
    forall i, j :: 0 <= i < j < |s| ==> far(s[i]) <= far(s[j])
  }

  /** One step of a stable sort: after everything no further away. */
  function InsertByKey<T>(s: seq<T>, x: T, far: T -> nat): seq<T> {
    if s == [] || far(s[|s| - 1]) <= far(x) then s + [x]
    else InsertByKey(s[..|s| - 1], x, far) + [s[|s| - 1]]
  }

  /** A stable sort by key. */
  function SortByKey<T>(s: seq<T>, far: T -> nat): seq<T> {
    if s == [] then [] else InsertByKey(SortByKey(s[..|s| - 1], far), s[|s| - 1], far)
  }

  lemma {:induction false} InsertPermutes<T>(s: seq<T>, x: T, far: T -> nat)
    ensures multiset(InsertByKey(s, x, far)) == multiset(s) + multiset{x}
  {
    if s != [] && far(s[|s| - 1]) > far(x) {
      InsertPermutes(s[..|s| - 1], x, far);
      assert s == s[..|s| - 1] + [s[|s| - 1]];
    }
  }

  lemma {:induction false} InsertSorts<T>(s: seq<T>, x: T, far: T -> nat)
    requires NearestFirst(s, far)
    ensures NearestFirst(InsertByKey(s, x, far), far)
  {
    if s != [] && far(s[|s| - 1]) > far(x) {
      var front, last := s[..|s| - 1], s[|s| - 1];
      var r := InsertByKey(front, x, far);
      InsertSorts(front, x, far);
      InsertPermutes(front, x, far);
      forall i | 0 <= i < |r|
        ensures far(r[i]) <= far(last)
      {
        assert r[i] in multiset(r);
        assert r[i] in front || r[i] == x;
      }
    }
  }

  lemma {:induction false} SortSorts<T>(s: seq<T>, far: T -> nat)
    ensures NearestFirst(SortByKey(s, far), far)
    ensures multiset(SortByKey(s, far)) == multiset(s)
  {
    if s != [] {
      var front, last := s[..|s| - 1], s[|s| - 1];
      SortSorts(front, far);
      InsertSorts(SortByKey(front, far), last, far);
      InsertPermutes(SortByKey(front, far), last, far);
      assert s == front + [last];
    }
  }

  /** Equally far elements keep the order they came in. */
  lemma {:induction false} SortIsStable<T>(s: seq<T>, far: T -> nat, d: nat)
    ensures Keyed(SortByKey(s, far), far, d) == Keyed(s, far, d)
  {
    if s != [] {
      var front, last := s[..|s| - 1], s[|s| - 1];
      SortIsStable(front, far, d);
      SortSorts(front, far);
      InsertIsStable(SortByKey(front, far), last, far, d);
      KeyedSnoc(front, last, far, d);
      assert s == front + [last];
    }
  }

  lemma {:induction false} InsertIsStable<T>(s: seq<T>, x: T, far: T -> nat, d: nat)
    requires NearestFirst(s, far)
    ensures Keyed(InsertByKey(s, x, far), far, d) ==
      Keyed(s, far, d) + (if far(x) == d then [x] else [])
  {
    KeyedSnoc(s, x, far, d);
    if s != [] && far(s[|s| - 1]) > far(x) {
      var front, last := s[..|s| - 1], s[|s| - 1];
      InsertIsStable(front, x, far, d);
      KeyedSnoc(front, last, far, d);
      KeyedSnoc(InsertByKey(front, x, far), last, far, d);
      assert s == front + [last];
      if far(x) == d {
        assert far(last) != d;
      }
    }
  }

  lemma {:induction false} SamePermutation<T>(s: seq<T>, t: seq<T>)
    requires multiset(s) == multiset(t) && NoRepeats(s)
    ensures NoRepeats(t) && forall x :: x in t <==> x in s
  {
    forall x
      ensures x in t <==> x in s
    {
      assert x in multiset(t) <==> x in multiset(s);
    }
    forall i, j | 0 <= i < j < |t|
      ensures t[i] != t[j]
    {
      if t[i] == t[j] {
        var x := t[i];
        TwiceCounted(t, i, j);
        OnceCounted(s, x);
      }
    }
  }

  lemma {:induction false} TwiceCounted<T>(t: seq<T>, i: nat, j: nat)
    requires i < j < |t| && t[i] == t[j]
    ensures multiset(t)[t[i]] >= 2
  {
    assert t == t[..i] + [t[i]] + t[i + 1..j] + [t[j]] + t[j + 1..];
  }

  lemma {:induction false} OnceCounted<T>(s: seq<T>, x: T)
    requires NoRepeats(s)
    ensures multiset(s)[x] <= 1
  {
    if s != [] {
      var front := s[..|s| - 1];
      assert s == front + [s[|s| - 1]];
      OnceCounted(front, x);
      if x == s[|s| - 1] {
        assert x !in front;
      }
    }
  }
}
