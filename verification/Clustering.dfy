/**
 The clustering algorithm of RFC 5905 section 11.2.2: discard the survivor farthest from the
 others while that improves the estimate.  Selection jitters are root mean squares, so they are
 compared here by their squares.
 */
module Clustering {
  import opened Intersection

  const CLUSTER_MIN: nat := 3

  function Sq(x: real): real {
    x * x
  }

  /** The sum of squared differences between x and every survivor. */
  ghost function RowSum(s: seq<Source>, x: real): real {
    if s == [] then 0.0 else Sq(x - s[0].current) + RowSum(s[1..], x)
  }

  /** Every survivor's row. */
  ghost function Rows(s: seq<Source>): seq<real> {
    seq(|s|, i requires 0 <= i < |s| => RowSum(s, s[i].current))
  }

  /** The squared selection jitter that belongs to a row. */
  ghost function SelectionJitterSq(row: real, n: nat): real
    requires n > 1
  {
    row / (n - 1) as real
  }

  /** The largest selection jitter is below every survivor's own jitter. */
  ghost predicate Quiet(s: seq<Source>)
    requires |s| > 1
  {
    forall i: nat, j: nat :: i < |s| && j < |s| ==> SelectionJitterSq(Rows(s)[i], |s|) < Sq(s[j].jitter)
  }

  /** m is the first index of a largest element. */
  ghost predicate FirstMax(v: seq<real>, m: nat) {
    && m < |v|
    && (forall i :: 0 <= i < |v| ==> v[i] <= v[m])
    && (forall i :: 0 <= i < m ==> v[i] < v[m])
  }

  lemma {:induction false} FirstMaxExists(v: seq<real>) returns (m: nat)
    requires v != []
    ensures FirstMax(v, m)
  {
    m := 0;
    for k := 1 to |v|
      invariant m < k && FirstMax(v[..k], m)
    {
      if v[k] > v[m] { m := k; }
    }
    assert v[..|v|] == v;
  }

  function RemoveAt(s: seq<Source>, m: nat): seq<Source>
    requires m < |s|
  {
    s[..m] + s[m + 1..]
  }

  /** The first survivor with the largest selection jitter. */
  ghost function WorstIndex(s: seq<Source>): (m: nat)
    requires s != []
    ensures FirstMax(Rows(s), m)
  {
    assert exists m: nat :: FirstMax(Rows(s), m) by { var m := FirstMaxExists(Rows(s)); }
    var m: nat :| FirstMax(Rows(s), m);
    m
  }

  /** What is left when discarding stops. */
  ghost function Clustered(s: seq<Source>): seq<Source>
    decreases |s|
  {
    if |s| <= CLUSTER_MIN || Quiet(s) then s else Clustered(RemoveAt(s, WorstIndex(s)))
  }

  // ----- the algorithm

  method RowOf(s: seq<Source>, i: nat) returns (sum: real)
    requires i < |s|
    ensures sum == RowSum(s, s[i].current)
  {
    sum := 0.0;
    var j := |s|;
    while j > 0
      invariant 0 <= j <= |s| && sum == RowSum(s[j..], s[i].current)
    {
      j := j - 1;
      if i != j {
        var d := s[i].current - s[j].current;
        sum := sum + d * d;
      }
      assert s[j..][1..] == s[j + 1..];
    }
    assert s[0..] == s;
  }

  /** One pass over the survivors: the worst one and the smallest jitter. */
  method Extremes(r: seq<Source>) returns (maxIdx: nat, maxSum: real, minJit: real, ghost minAt: nat)
    requires r != []
    ensures maxIdx < |r| && FirstMax(Rows(r), maxIdx) && maxSum == Rows(r)[maxIdx]
    ensures minAt < |r| && minJit == r[minAt].jitter && forall k :: 0 <= k < |r| ==> minJit <= r[k].jitter
  {
    maxSum := RowOf(r, 0);
    maxIdx, minJit, minAt := 0, r[0].jitter, 0;
    for i := 1 to |r|
      invariant maxIdx < i && FirstMax(Rows(r)[..i], maxIdx) && maxSum == Rows(r)[maxIdx]
      invariant minAt < i && minJit == r[minAt].jitter
      invariant forall k :: 0 <= k < i ==> minJit <= r[k].jitter
    {
      var sum := RowOf(r, i);
      if sum > maxSum { maxSum, maxIdx := sum, i; }
      if r[i].jitter < minJit { minJit, minAt := r[i].jitter, i; }
    }
    assert Rows(r)[..|r|] == Rows(r);
  }

  method Cluster(survivors: seq<Source>) returns (r: seq<Source>)
    requires forall i :: 0 <= i < |survivors| ==> survivors[i].jitter >= 0.0
    ensures r == Clustered(survivors)
  {
    hide Quiet, RowSum, Rows, FirstMax;
    r := survivors;
    while |r| > CLUSTER_MIN
      invariant Clustered(r) == Clustered(survivors)
      invariant forall i :: 0 <= i < |r| ==> r[i].jitter >= 0.0
      decreases |r|
    {
      var maxIdx, maxSum, minJit, minAt := Extremes(r);
      Unfold(r, maxIdx, minAt);
      if maxSum / (|r| - 1) as real < minJit * minJit {
        return;
      }
      r := RemoveAt(r, maxIdx);
    }
  }

  /** One round of the loop is one unfolding of its specification. */
  lemma {:induction false} Unfold(s: seq<Source>, m: nat, k: nat)
    requires |s| > CLUSTER_MIN && FirstMax(Rows(s), m)
    requires k < |s| && s[k].jitter >= 0.0 && forall j :: 0 <= j < |s| ==> s[k].jitter <= s[j].jitter
    ensures Clustered(s) ==
      if Rows(s)[m] / (|s| - 1) as real < s[k].jitter * s[k].jitter then s else Clustered(RemoveAt(s, m))
  {
    StopTest(s, m, k);
    assert m == WorstIndex(s);
  }

  /** Comparing the two extremes decides whether the cluster is quiet. */
  lemma {:induction false} StopTest(s: seq<Source>, m: nat, k: nat)
    requires |s| > 1 && FirstMax(Rows(s), m)
    requires k < |s| && s[k].jitter >= 0.0 && forall j :: 0 <= j < |s| ==> s[k].jitter <= s[j].jitter
    ensures Rows(s)[m] / (|s| - 1) as real < s[k].jitter * s[k].jitter <==> Quiet(s)
  {
    if SelectionJitterSq(Rows(s)[m], |s|) < Sq(s[k].jitter) {
      forall i: nat, j: nat | i < |s| && j < |s|
        ensures SelectionJitterSq(Rows(s)[i], |s|) < Sq(s[j].jitter)
      {
        DivMonotone(Rows(s)[i], Rows(s)[m], (|s| - 1) as real);
        SqMonotone(s[k].jitter, s[j].jitter);
      }
    }
  }

  lemma DivMonotone(a: real, b: real, d: real)
    requires a <= b && d > 0.0
    ensures a / d <= b / d
  {
  }

  lemma SqMonotone(a: real, b: real)
    requires 0.0 <= a <= b
    ensures Sq(a) <= Sq(b)
  {
  }

  // ----- results

  /** At least min(n, 3) survivors stay, and above three only when the cluster is quiet. */
  lemma {:induction false} ClusteredSize(s: seq<Source>)
    ensures |Clustered(s)| <= |s|
    ensures |Clustered(s)| >= if |s| <= CLUSTER_MIN then |s| else CLUSTER_MIN
    ensures |Clustered(s)| > CLUSTER_MIN ==> Quiet(Clustered(s))
    decreases |s|
  {
    if !(|s| <= CLUSTER_MIN || Quiet(s)) {
      ClusteredSize(RemoveAt(s, WorstIndex(s)));
    }
  }

  /** a is a subsequence of s: at[i] is where its i-th element stands, in increasing order. */
  ghost predicate Places(at: seq<nat>, a: seq<Source>, s: seq<Source>) {
    && |at| == |a|
    && (forall i :: 0 <= i < |at| ==> at[i] < |s| && a[i] == s[at[i]])
    && (forall i, j :: 0 <= i < j < |at| ==> at[i] < at[j])
  }

  /** Places in a sequence from which element m was removed, as places in the whole. */
  lemma {:induction false} Skip(inner: seq<nat>, a: seq<Source>, s: seq<Source>, m: nat) returns (at: seq<nat>)
    requires m < |s| && Places(inner, a, RemoveAt(s, m))
    ensures Places(at, a, s)
  {
    at := seq(|inner|, i requires 0 <= i < |inner| => if inner[i] < m then inner[i] else inner[i] + 1);
  }

  /** The survivors keep their order. */
  lemma {:induction false} ClusteredOrder(s: seq<Source>) returns (at: seq<nat>)
    ensures Places(at, Clustered(s), s)
    decreases |s|
  {
    hide Quiet;
    if |s| <= CLUSTER_MIN || Quiet(s) {
      at := seq(|s|, i => i);
    } else {
      var m := WorstIndex(s);
      var inner := ClusteredOrder(RemoveAt(s, m));
      at := Skip(inner, Clustered(s), s, m);
    }
  }

  /** The sum over u of the rows against t. */
  ghost function Total(u: seq<Source>, t: seq<Source>): real {
    if u == [] then 0.0 else RowSum(t, u[0].current) + Total(u[1..], t)
  }

  /** The mean squared difference over ordered pairs of distinct survivors. */
  ghost function MeanDisagreement(s: seq<Source>): real
    requires |s| > 1
  {
    MeanOf(Total(s, s), |s| as real, (|s| - 1) as real)
  }

  ghost function MeanOf(total: real, n: real, m: real): real
    requires n > 0.0 && m > 0.0
  {
    total / (n * m)
  }

  lemma {:induction false} RowSumConcat(a: seq<Source>, b: seq<Source>, x: real)
    ensures RowSum(a + b, x) == RowSum(a, x) + RowSum(b, x)
  {
    if a == [] {
      assert a + b == b;
    } else {
      assert (a + b)[1..] == a[1..] + b;
      RowSumConcat(a[1..], b, x);
    }
  }

  lemma {:induction false} TotalConcat(a: seq<Source>, b: seq<Source>, t: seq<Source>)
    ensures Total(a + b, t) == Total(a, t) + Total(b, t)
  {
    if a == [] {
      assert a + b == b;
    } else {
      assert (a + b)[1..] == a[1..] + b;
      TotalConcat(a[1..], b, t);
    }
  }

  lemma {:induction false} RowSumRemove(s: seq<Source>, m: nat, x: real)
    requires m < |s|
    ensures RowSum(RemoveAt(s, m), x) == RowSum(s, x) - Sq(x - s[m].current)
  {
    assert s == s[..m] + ([s[m]] + s[m + 1..]);
    RowSumConcat(s[..m], [s[m]] + s[m + 1..], x);
    RowSumConcat([s[m]], s[m + 1..], x);
    RowSumConcat(s[..m], s[m + 1..], x);
    assert [s[m]][1..] == [];
  }

  lemma {:induction false} TotalRemove(u: seq<Source>, s: seq<Source>, m: nat)
    requires m < |s|
    ensures Total(u, RemoveAt(s, m)) == Total(u, s) - RowSum(u, s[m].current)
  {
    if u != [] {
      TotalRemove(u[1..], s, m);
      RowSumRemove(s, m, u[0].current);
      var d := u[0].current - s[m].current;
      assert Sq(d) == Sq(-d);
    }
  }

  lemma {:induction false} TotalBound(u: seq<Source>, t: seq<Source>, b: real)
    requires forall i :: 0 <= i < |u| ==> RowSum(t, u[i].current) <= b
    ensures Total(u, t) <= |u| as real * b
  {
    if u != [] { TotalBound(u[1..], t, b); }
  }

  lemma {:induction false} DiscardTotal(s: seq<Source>, m: nat)
    requires m < |s|
    ensures Total(RemoveAt(s, m), RemoveAt(s, m)) == Total(s, s) - 2.0 * RowSum(s, s[m].current)
  {
    var t, x := RemoveAt(s, m), s[m].current;
    TotalRemove(t, s, m);
    RowSumRemove(s, m, x);
    assert s == s[..m] + ([s[m]] + s[m + 1..]);
    TotalConcat(s[..m], [s[m]] + s[m + 1..], s);
    TotalConcat([s[m]], s[m + 1..], s);
    TotalConcat(s[..m], s[m + 1..], s);
    assert [s[m]][1..] == [];
  }

  lemma {:induction false} WorstIsAboveMean(s: seq<Source>, m: nat)
    requires FirstMax(Rows(s), m)
    ensures Total(s, s) <= |s| as real * RowSum(s, s[m].current)
  {
    forall i | 0 <= i < |s| ensures RowSum(s, s[i].current) <= RowSum(s, s[m].current) {
      assert Rows(s)[i] <= Rows(s)[m];
    }
    TotalBound(s, s, RowSum(s, s[m].current));
  }

  /** Removing the worst survivor never increases the mean disagreement of those that remain. */
  lemma {:induction false} DiscardImproves(s: seq<Source>, m: nat)
    requires |s| > 2 && FirstMax(Rows(s), m)
    ensures MeanDisagreement(RemoveAt(s, m)) <= MeanDisagreement(s)
  {
    WorstIsAboveMean(s, m);
    DiscardTotal(s, m);
    var d, row := Total(s, s), RowSum(s, s[m].current);
    ShrinkCross(d, row, |s| as real, (|s| - 2) as real);
    MeanShrinks(d - 2.0 * row, d, |s| as real, (|s| - 1) as real, (|s| - 2) as real);
  }

  lemma MeanShrinks(a: real, b: real, x: real, y: real, z: real)
    requires a * x <= b * z && x > 0.0 && y > 0.0 && z > 0.0
    ensures MeanOf(a, y, z) <= MeanOf(b, x, y)
  {
    Rescale(a, b, x, y, z);
    FractionMonotone(a, y * z, b, x * y);
  }

  lemma ShrinkCross(d: real, row: real, x: real, z: real)
    requires d <= x * row && z == x - 2.0
    ensures (d - 2.0 * row) * x <= d * z
  {
    assert (d - 2.0 * row) * x == d * x - 2.0 * (x * row);
  }

  lemma Rescale(a: real, b: real, x: real, y: real, z: real)
    requires a * x <= b * z && y > 0.0
    ensures a * (x * y) <= b * (y * z)
  {
    ScaleMonotone(a * x, b * z, y);
    assert a * x * y == a * (x * y);
    assert b * z * y == b * (y * z);
  }

  lemma ScaleMonotone(a: real, b: real, k: real)
    requires a <= b && k >= 0.0
    ensures a * k <= b * k
  {
  }

  lemma FractionMonotone(a: real, b: real, c: real, d: real)
    requires b > 0.0 && d > 0.0 && a * d <= c * b
    ensures a / b <= c / d
  {
    var q, r := a / b, c / d;
    assert a == q * b && c == r * d;
    assert (q - r) * (b * d) <= 0.0;
    assert b * d > 0.0;
  }

  /** Over the whole run the mean squared disagreement never increases. */
  lemma {:induction false} ClusteredImproves(s: seq<Source>)
    requires |s| > 1
    ensures |Clustered(s)| > 1 && MeanDisagreement(Clustered(s)) <= MeanDisagreement(s)
    decreases |s|
  {
    ClusteredSize(s);
    if !(|s| <= CLUSTER_MIN || Quiet(s)) {
      DiscardImproves(s, WorstIndex(s));
      ClusteredImproves(RemoveAt(s, WorstIndex(s)));
    }
  }
}
