/** Even sampling of a sequence, as the contact sheet picks its cells. */
module Sampling {
  import opened Geometry

  /** The i-th of k indices spread over 0..n-1. */
  function IndexAt(n: nat, k: nat, i: nat): int
    requires k >= 2
  {
    RoundHalfEven((i * (n - 1)) as real / (k - 1) as real)
  }

  /** It is the index nearest to the exact point, or the even one of two. */
  lemma IndexIsNearest(n: nat, k: nat, i: nat)
    requires k >= 2
    ensures var exact := (i * (n - 1)) as real / (k - 1) as real;
      && -0.5 <= IndexAt(n, k, i) as real - exact <= 0.5
      && (Abs(IndexAt(n, k, i) as real - exact) == 0.5 ==> IndexAt(n, k, i) % 2 == 0)
  {
  }

  function Indices(n: nat, k: nat, count: nat): seq<int>
    requires k >= 2
  {
    seq(count, i requires 0 <= i < count => IndexAt(n, k, i))
  }

  predicate InRange(indices: seq<int>, n: nat) { forall i :: 0 <= i < |indices| ==> 0 <= indices[i] < n }

  function Picked<T>(items: seq<T>, indices: seq<int>): seq<T>
    requires InRange(indices, |items|)
  {
    seq(|indices|, i requires 0 <= i < |indices| => items[indices[i]])
  }

  /** Two numbers more than one apart round to different integers. */
  lemma RoundsApart(p: real, q: real)
    requires q > p + 1.0
    ensures RoundHalfEven(q) > RoundHalfEven(p)
  {
  }

  /** The exact distance between consecutive points is (n-1)/(k-1), which is more than 1. */
  lemma Pace(n: nat, k: nat, i: nat)
    requires 2 <= k < n
    ensures var step := (n - 1) as real / (k - 1) as real;
      step > 1.0 && ((i + 1) * (n - 1)) as real / (k - 1) as real == (i * (n - 1)) as real / (k - 1) as real + step
  {
    assert (i + 1) * (n - 1) == i * (n - 1) + (n - 1);
    var step := (n - 1) as real / (k - 1) as real;
    assert step * (k - 1) as real == (n - 1) as real;
    if step <= 1.0 { ScaleLe(step, 1.0, (k - 1) as real); }
  }

  lemma ScaleLe(a: real, b: real, c: real)
    requires a <= b && c >= 0.0
    ensures a * c <= b * c
  {
  }

  lemma IndicesAscend(n: nat, k: nat, i: nat)
    requires 2 <= k < n
    ensures IndexAt(n, k, i) < IndexAt(n, k, i + 1)
  {
    Pace(n, k, i);
    RoundsApart((i * (n - 1)) as real / (k - 1) as real, ((i + 1) * (n - 1)) as real / (k - 1) as real);
  }

  lemma {:induction false} IndicesAscendAll(n: nat, k: nat, i: nat, j: nat)
    requires 2 <= k < n && i < j
    ensures IndexAt(n, k, i) < IndexAt(n, k, j)
  {
    if i < j - 1 { IndicesAscendAll(n, k, i, j - 1); }
    IndicesAscend(n, k, j - 1);
  }

  /** The first index is 0 and the last is n-1. */
  lemma EndPoints(n: nat, k: nat)
    requires 2 <= k < n
    ensures IndexAt(n, k, 0) == 0 && IndexAt(n, k, k - 1) == n - 1
  {
    RoundHalfEvenOfInt(0);
    RoundHalfEvenOfInt(n - 1);
    Quotient(k - 1, n - 1);
  }

  lemma Quotient(d: int, m: int)
    requires d > 0
    ensures (d * m) as real / d as real == m as real
  {
    assert (d * m) as real == d as real * m as real;
    var q := (d * m) as real / d as real;
    assert q * d as real == m as real * d as real;
  }

  lemma StepBound(n: nat, k: nat, i: nat)
    requires 2 <= k < n
    ensures var g, step := (IndexAt(n, k, i + 1) - IndexAt(n, k, i)) as real, (n - 1) as real / (k - 1) as real;
      step - 1.0 <= g <= step + 1.0
  {
    Pace(n, k, i);
  }

  /** A gap g with |g(k-1) - (n-1)| <= k-1: within 1 of the exact pace. */
  predicate EvenGap(g: int, n: nat, k: nat) { -(k - 1) <= g * (k - 1) - (n - 1) <= k - 1 }

  lemma GapBound(n: nat, k: nat, i: nat)
    requires 2 <= k < n
    ensures EvenGap(IndexAt(n, k, i + 1) - IndexAt(n, k, i), n, k)
  {
    StepBound(n, k, i);
    InWholeNumbers(IndexAt(n, k, i + 1) - IndexAt(n, k, i), k - 1, n - 1);
  }

  lemma TimesInts(u: int, m: int)
    ensures Times(u as real, m as real) == (u * m) as real
  {
    assert (u * m) as real == u as real * m as real;
  }

  lemma AboveQuotient(u: int, a: int, m: int)
    requires m > 0 && u as real >= a as real / m as real
    ensures u * m >= a
  {
    TimesMonotone(a as real / m as real, u as real, m as real);
    TimesQuotient(a as real, m as real);
    TimesInts(u, m);
  }

  lemma BelowQuotient(u: int, a: int, m: int)
    requires m > 0 && u as real <= a as real / m as real
    ensures u * m <= a
  {
    TimesMonotone(u as real, a as real / m as real, m as real);
    TimesQuotient(a as real, m as real);
    TimesInts(u, m);
  }

  lemma InWholeNumbers(g: int, m: int, a: int)
    requires m > 0 && a as real / m as real - 1.0 <= g as real <= a as real / m as real + 1.0
    ensures -m <= g * m - a <= m
  {
    BelowQuotient(g - 1, a, m);
    AboveQuotient(g + 1, a, m);
    assert (g - 1) * m == g * m - m && (g + 1) * m == g * m + m;
  }

  lemma IndexInRange(n: nat, k: nat, i: nat)
    requires 2 <= k < n && i < k
    ensures 0 <= IndexAt(n, k, i) < n
  {
    EndPoints(n, k);
    if i > 0 { IndicesAscendAll(n, k, 0, i); }
    if i < k - 1 { IndicesAscendAll(n, k, i, k - 1); }
  }

  /** What makes a sample even: from the first item to the last, in order, with gaps as equal as whole
      numbers allow. */
  predicate Even(idx: seq<int>, n: nat, k: nat) {
    && |idx| == k >= 2 && idx[0] == 0 && idx[k - 1] == n - 1 && InRange(idx, n)
    && (forall i, j :: 0 <= i < j < k ==> idx[i] < idx[j])
    && (forall i :: 0 < i < k ==> EvenGap(idx[i] - idx[i - 1], n, k))
  }

  /** The k indices are strictly increasing from 0 to n-1, so none is met twice, and evenly spaced. */
  lemma EvenIndices(n: nat, k: nat)
    requires 2 <= k < n
    ensures Even(Indices(n, k, k), n, k)
  {
    var idx := Indices(n, k, k);
    EndPoints(n, k);
    forall i | 0 <= i < k ensures 0 <= idx[i] < n { IndexInRange(n, k, i); }
    forall i, j | 0 <= i < j < k ensures idx[i] < idx[j] { IndicesAscendAll(n, k, i, j); }
    forall i | 0 < i < k ensures EvenGap(idx[i] - idx[i - 1], n, k) { GapBound(n, k, i - 1); }
  }

  /** Up to k of the items, evenly spaced and in order. */
  method SampleEvenly<T>(items: seq<T>, k: int) returns (out: seq<T>)
    ensures k <= 0 || items == [] ==> out == []
    ensures 0 < |items| <= k ==> out == items
    ensures k == 1 < |items| ==> out == [items[0]]
    ensures 2 <= k < |items| ==> Even(Indices(|items|, k, k), |items|, k) && out == Picked(items, Indices(|items|, k, k))
  {
    var n := |items|;
    if n == 0 || k <= 0 { return []; }
    if n <= k { return items; }
    if k == 1 { return [items[0]]; }
    EvenIndices(n, k);
    var indices: seq<int>, seen: set<int> := [], {};
    for i := 0 to k
      invariant indices == Indices(n, k, k)[..i]
      invariant forall j :: j in seen <==> j in indices
    {
      var j := RoundHalfEven((i * (n - 1)) as real / (k - 1) as real);
      assert j == Indices(n, k, k)[i];
      assert j !in indices;
      if j !in seen { seen, indices := seen + {j}, indices + [j]; }
    }
    out := Picked(items, indices);
  }
}
