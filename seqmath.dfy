/** Arithmetic over score sequences: sum, extremes, mean and an ascending sort.
    Sequences are folded from their last element, the way the source's loops
    extend their accumulators one score at a time. */
module SeqMath {

  function Sum(s: seq<int>): int
  {
    if s == [] then 0 else Sum(s[..|s| - 1]) + s[|s| - 1]
  }

  lemma {:induction false} SumAppend(a: seq<int>, b: seq<int>)
    ensures Sum(a + b) == Sum(a) + Sum(b)
  {
    if b != [] {
      assert (a + b)[..|a + b| - 1] == a + b[..|b| - 1];
      SumAppend(a, b[..|b| - 1]);
    } else {
      assert a + b == a;
    }
  }

  lemma {:induction false} SumCons(x: int, s: seq<int>)
    ensures Sum([x] + s) == x + Sum(s)
  {
    SumAppend([x], s);
  }

  /** If every element lies in [lo, hi], the sum lies in [n*lo, n*hi]. */
  lemma {:induction false} SumBounds(s: seq<int>, lo: int, hi: int)
    requires forall i :: 0 <= i < |s| ==> lo <= s[i] <= hi
    ensures |s| * lo <= Sum(s) <= |s| * hi
  {
    if s != [] {
      SumBounds(s[..|s| - 1], lo, hi);
    }
  }

  /** The largest element of a non-empty sequence. */
  function Max(s: seq<int>): (m: int)
    requires s != []
    ensures m in s && forall i :: 0 <= i < |s| ==> s[i] <= m
  {
    if |s| == 1 then s[0]
    else
      var m := Max(s[..|s| - 1]);
      if s[|s| - 1] > m then s[|s| - 1] else m
  }

  /** The smallest element of a non-empty sequence. */
  function Min(s: seq<int>): (m: int)
    requires s != []
    ensures m in s && forall i :: 0 <= i < |s| ==> m <= s[i]
  {
    if |s| == 1 then s[0]
    else
      var m := Min(s[..|s| - 1]);
      if s[|s| - 1] < m then s[|s| - 1] else m
  }

  /** Exact division, 0 for a zero denominator. */
  function Quotient(num: int, den: nat): real
  {
    if den == 0 then 0.0 else num as real / den as real
  }

  /** The arithmetic mean, 0 for the empty sequence. */
  function Mean(s: seq<int>): real
  {
    Quotient(Sum(s), |s|)
  }

  /** The mean of a non-empty sequence lies between its least and its
      greatest element. */
  lemma {:induction false} MeanBetween(s: seq<int>)
    requires s != []
    ensures Min(s) as real <= Mean(s) <= Max(s) as real
  {
    SumBounds(s, Min(s), Max(s));
    QuotientBetween(Sum(s), |s|, Min(s), Max(s));
  }

  /** The mean is the sum over the length, however the two are written. */
  lemma {:induction false} MeanOf(s: seq<int>, total: int, n: nat)
    requires total == Sum(s) && n == |s|
    ensures Mean(s) == Quotient(total, n)
  {
  }

  lemma QuotientBetween(total: int, n: nat, lo: int, hi: int)
    requires n > 0 && n * lo <= total <= n * hi
    ensures lo as real <= Quotient(total, n) <= hi as real
  {
    var q, nr := total as real / n as real, n as real;
    assert q * nr == total as real;
    assert (n * lo) as real == nr * lo as real && (n * hi) as real == nr * hi as real;
    CancelPositive(lo as real, q, nr);
    CancelPositive(q, hi as real, nr);
  }

  lemma CancelPositive(a: real, b: real, k: real)
    requires k > 0.0 && a * k <= b * k
    ensures a <= b
  {
    assert (b - a) * k >= 0.0;
  }

  lemma QuotientAdd(a: int, b: int, n: nat)
    ensures Quotient(a, n) + Quotient(b, n) == Quotient(a + b, n)
  {
  }

  lemma QuotientOfMultiple(total: int, k: nat, x: int)
    requires k > 0 && total == k * x
    ensures Quotient(total, k) == x as real
  {
    assert total as real == k as real * x as real;
  }

  predicate Sorted(s: seq<int>) {
    forall i, j :: 0 <= i < j < |s| ==> s[i] <= s[j]
  }

  /** Inserts x before the first element not smaller than it. */
  function Insert(x: int, s: seq<int>): (r: seq<int>)
    ensures |r| == |s| + 1
  {
    if s == [] then [x]
    else if x <= s[0] then [x] + s
    else [s[0]] + Insert(x, s[1..])
  }

  lemma {:induction false} InsertContents(x: int, s: seq<int>)
    ensures multiset(Insert(x, s)) == multiset(s) + multiset{x}
    ensures Sum(Insert(x, s)) == Sum(s) + x
  {
    if s == [] {
    } else if x <= s[0] {
      SumCons(x, s);
    } else {
      InsertContents(x, s[1..]);
      assert s == [s[0]] + s[1..];
      SumCons(s[0], s[1..]);
      SumCons(s[0], Insert(x, s[1..]));
    }
  }

  lemma {:induction false} InsertBelow(x: int, s: seq<int>, lo: int)
    requires lo <= x && forall i :: 0 <= i < |s| ==> lo <= s[i]
    ensures forall i :: 0 <= i < |Insert(x, s)| ==> lo <= Insert(x, s)[i]
  {
    if s != [] && x > s[0] {
      InsertBelow(x, s[1..], lo);
    }
  }

  lemma {:induction false} InsertSorted(x: int, s: seq<int>)
    requires Sorted(s)
    ensures Sorted(Insert(x, s))
  {
    if s != [] && x > s[0] {
      InsertSorted(x, s[1..]);
      InsertBelow(x, s[1..], s[0]);
    }
  }

  /** An ascending sort of a copy of s (the comparator `(a, b) => a - b`). */
  function Sort(s: seq<int>): (r: seq<int>)
    ensures |r| == |s|
  {
    if s == [] then [] else Insert(s[0], Sort(s[1..]))
  }

  /** The sorted copy is in ascending order, is a permutation of s and so has
      the same sum. */
  lemma {:induction false} SortProperties(s: seq<int>)
    ensures Sorted(Sort(s)) && multiset(Sort(s)) == multiset(s) && Sum(Sort(s)) == Sum(s)
  {
    if s != [] {
      var t := Sort(s[1..]);
      SortProperties(s[1..]);
      InsertContents(s[0], t);
      InsertSorted(s[0], t);
      assert s == [s[0]] + s[1..];
      SumCons(s[0], s[1..]);
    }
  }

  /** The first element of the sorted copy is the minimum of s. */
  lemma {:induction false} SortFirstIsMin(s: seq<int>)
    requires s != []
    ensures Sort(s)[0] == Min(s)
  {
    var t := Sort(s);
    SortProperties(s);
    assert t[0] in multiset(t);
    assert t[0] in s;
    assert Min(s) in multiset(t);
    var j :| 0 <= j < |t| && t[j] == Min(s);
    assert t[0] <= t[j];
  }

  /** The last element of the sorted copy is the maximum of s. */
  lemma {:induction false} SortLastIsMax(s: seq<int>)
    requires s != []
    ensures Sort(s)[|s| - 1] == Max(s)
  {
    var t := Sort(s);
    SortProperties(s);
    assert t[|t| - 1] in multiset(t);
    assert t[|t| - 1] in s;
    assert Max(s) in multiset(t);
    var j :| 0 <= j < |t| && t[j] == Max(s);
    assert t[j] <= t[|t| - 1];
  }
}
