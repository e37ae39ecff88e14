/** Sorting numbers, and what the entry at a given rank means. */
module Sorting {

  function Insert(s: seq<int>, x: int): (r: seq<int>)
    ensures |r| == |s| + 1
  {
    if s == [] || s[|s| - 1] <= x then s + [x] else Insert(s[..|s| - 1], x) + [s[|s| - 1]]
  }

  function Sorted(s: seq<int>): (r: seq<int>)
    ensures |r| == |s|
  {
    if s == [] then [] else Insert(Sorted(s[..|s| - 1]), s[|s| - 1])
  }

  /** How many entries are below a bound. */
  function Below(s: seq<int>, m: int): (n: nat)
    ensures n <= |s|
  {
    if s == [] then 0 else Below(s[..|s| - 1], m) + (if s[|s| - 1] < m then 1 else 0)
  }

  predicate Ordered(s: seq<int>) { forall i, j | 0 <= i <= j < |s| :: s[i] <= s[j] }

  lemma OrderedSnoc(s: seq<int>, x: int)
    requires Ordered(s) && (s == [] || s[|s| - 1] <= x)
    ensures Ordered(s + [x])
  {}

  lemma {:induction false} InsertKeeps(s: seq<int>, x: int, m: int)
    requires Ordered(s)
    ensures Ordered(Insert(s, x)) && Below(Insert(s, x), m) == Below(s, m) + (if x < m then 1 else 0)
    ensures Insert(s, x)[|s|] == if s == [] || s[|s| - 1] <= x then x else s[|s| - 1]
  {
    if s == [] || s[|s| - 1] <= x {
      OrderedSnoc(s, x);
      assert (s + [x])[..|s|] == s;
    } else {
      var t, last := s[..|s| - 1], s[|s| - 1];
      InsertKeeps(t, x, m);
      OrderedSnoc(Insert(t, x), last);
      assert (Insert(t, x) + [last])[..|s|] == Insert(t, x);
    }
  }

  lemma {:induction false} SortedKeeps(s: seq<int>, m: int)
    ensures Ordered(Sorted(s)) && Below(Sorted(s), m) == Below(s, m)
  {
    if s != [] {
      SortedKeeps(s[..|s| - 1], m);
      InsertKeeps(Sorted(s[..|s| - 1]), s[|s| - 1], m);
    }
  }

  /** In an ordered list, entry k is at least m exactly when at most k entries are below m. */
  lemma {:induction false} OrderedRank(s: seq<int>, k: nat, m: int)
    requires Ordered(s) && k < |s|
    ensures s[k] >= m <==> Below(s, m) <= k
  {
    var t := s[..|s| - 1];
    if k < |t| {
      OrderedRank(t, k, m);
    } else {
      if s[k] < m { AllBelow(s, m); }
    }
  }

  lemma {:induction false} AllBelow(s: seq<int>, m: int)
    requires forall i | 0 <= i < |s| :: s[i] < m
    ensures Below(s, m) == |s|
  {
    if s != [] { AllBelow(s[..|s| - 1], m); }
  }

  /** From the highest to the lowest. */
  function Descending(s: seq<int>): (r: seq<int>)
    ensures |r| == |s|
  {
    seq(|s|, i requires 0 <= i < |s| => Sorted(s)[|s| - 1 - i])
  }

  /** Entry k from the top is the one number that at most k entries exceed and more than k reach. */
  lemma DescendingRank(s: seq<int>, k: nat, m: int)
    requires k < |s|
    ensures Descending(s)[k] == m <==> |s| - Below(s, m + 1) <= k < |s| - Below(s, m)
  {
    hide Sorted, Below, Ordered;
    SortedKeeps(s, m);
    SortedKeeps(s, m + 1);
    OrderedRank(Sorted(s), |s| - 1 - k, m);
    OrderedRank(Sorted(s), |s| - 1 - k, m + 1);
  }

  lemma DescendingOrder(s: seq<int>, j: nat, k: nat)
    requires j <= k < |s|
    ensures Descending(s)[j] >= Descending(s)[k]
  {
    hide Sorted, Below;
    SortedKeeps(s, 0);
    assert Sorted(s)[|s| - 1 - k] <= Sorted(s)[|s| - 1 - j];
  }

  lemma SortedStep(s: seq<int>, begin: nat, i: nat)
    requires begin <= i < |s|
    ensures Sorted(s[begin..i + 1]) == Insert(Sorted(s[begin..i]), s[i])
  {
    assert s[begin..i + 1][..i - begin] == s[begin..i];
  }

  /** Sort the part of an array from a position on, in place. */
  method SortFrom(a: array<int>, begin: nat)
    requires begin <= a.Length
    modifies a
    ensures a[begin..a.Length] == Sorted(old(a[begin..a.Length])) && a[..begin] == old(a[..begin])
  {
    hide Sorted, Insert;
    ghost var n, was := a.Length, a[..];
    SortedNone();
    var i := begin;
    while i < a.Length
      invariant begin <= i <= n && a[..begin] == was[..begin]
      invariant a[begin..i] == Sorted(was[begin..i]) && a[i..n] == was[i..n]
    {
      assert a[i] == a[i..n][0] == was[i];
      SortedStep(was, begin, i);
      assert a[i..n][1..] == a[i + 1..n] && was[i..n][1..] == was[i + 1..n];
      InsertAt(a, begin, i);
      i := i + 1;
    }
  }

  lemma SortedNone()
    ensures Sorted([]) == []
  {}

  /** The new entry goes in front of all larger ones. */
  lemma {:induction false} InsertPlace(s: seq<int>, x: int, p: nat)
    requires p <= |s| && (p > 0 ==> s[p - 1] <= x) && forall k | p <= k < |s| :: s[k] > x
    ensures Insert(s, x) == s[..p] + [x] + s[p..]
  {
    if p < |s| {
      var t := s[..|s| - 1];
      InsertPlace(t, x, p);
      assert t[..p] == s[..p] && t[p..] + [s[|s| - 1]] == s[p..];
    }
  }

  lemma InsertedIs(s: seq<int>, x: int, p: nat, r: seq<int>)
    requires p <= |s| && (p > 0 ==> s[p - 1] <= x) && |r| == |s| + 1 && r[p] == x
    requires forall k | 0 <= k < p :: r[k] == s[k]
    requires forall k | p <= k < |s| :: r[k + 1] == s[k] > x
    ensures r == Insert(s, x)
  {
    InsertPlace(s, x, p);
  }

  /** Move the entries larger than x up by one, down to where x belongs. */
  method MakeRoom(a: array<int>, begin: nat, i: nat, x: int) returns (j: nat)
    requires begin <= i < a.Length
    modifies a
    ensures begin <= j <= i && (j > begin ==> old(a[j - 1]) <= x)
    ensures forall k | 0 <= k < a.Length && !(j <= k <= i) :: a[k] == old(a[k])
    ensures forall k | j <= k < i :: a[k + 1] == old(a[k]) > x
  {
    j := i;
    while j > begin && a[j - 1] > x
      invariant begin <= j <= i
      invariant forall k | 0 <= k < a.Length && !(j <= k <= i) :: a[k] == old(a[k])
      invariant forall k | j <= k < i :: a[k + 1] == old(a[k]) > x
    {
      a[j] := a[j - 1];
      j := j - 1;
    }
  }

  /** Move one entry down to its place among the sorted ones before it. */
  method InsertAt(a: array<int>, begin: nat, i: nat)
    requires begin <= i < a.Length
    modifies a
    ensures a[begin..i + 1] == Insert(old(a[begin..i]), old(a[i]))
    ensures a[..begin] == old(a[..begin]) && a[i + 1..a.Length] == old(a[i + 1..a.Length])
  {
    hide Insert;
    ghost var s := a[begin..i];
    var x := a[i];
    var j := MakeRoom(a, begin, i, x);
    a[j] := x;
    ghost var r, p := a[begin..i + 1], j - begin;
    forall k | 0 <= k < p ensures r[k] == s[k] { assert r[k] == a[begin + k] == old(a[begin + k]); }
    forall k | p <= k < |s| ensures r[k + 1] == s[k] > x { assert r[k + 1] == a[begin + k + 1] == old(a[begin + k]); }
    InsertedIs(s, x, p, r);
  }
}
