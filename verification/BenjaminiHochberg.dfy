/** False-discovery-rate adjustment of p-values.

    AdjustArray follows the array program; Adjusted is what it computes per rank.  The theorems
    relate that to the step-up rule, which never mentions adjusted values. */
module BenjaminiHochberg {
  import opened Wrappers

  /** A sorting permutation of the indices.  Ties may be broken in any way. */
  ghost predicate IsArgsort(p: seq<real>, order: seq<nat>) {
    && |order| == |p|
    && (forall i :: 0 <= i < |order| ==> order[i] < |p|)
    && (forall i, j :: 0 <= i < j < |order| ==> order[i] != order[j])
    && (forall i, j :: 0 <= i < j < |order| ==> p[order[i]] <= p[order[j]])
  }

  predicate InUnit(p: seq<real>) {
    forall i :: 0 <= i < |p| ==> 0.0 <= p[i] <= 1.0
  }

  function Min(a: real, b: real): real {
    if a < b then a else b
  }

  function Clip(x: real): real {
    if x < 0.0 then 0.0 else if x > 1.0 then 1.0 else x
  }

  ghost predicate InRange(p: seq<real>, order: seq<nat>) {
    |order| == |p| && forall i :: 0 <= i < |order| ==> order[i] < |p|
  }

  /** A p-value of rank k (from zero), scaled by n / (k + 1). */
  function Scale(x: real, n: nat, k: nat): real {
    x * n as real / (k + 1) as real
  }

  /** The scaled p-values in rank order. */
  function Scaled(p: seq<real>, order: seq<nat>): (s: seq<real>)
    requires InRange(p, order)
    ensures |s| == |p| && forall k :: 0 <= k < |s| ==> s[k] == Scale(p[order[k]], |p|, k)
  {
    seq(|p|, k requires 0 <= k < |p| && order[k] < |p| => Scale(p[order[k]], |p|, k))
  }

  /** The running minimum from index k upwards. */
  function MinFrom(s: seq<real>, k: nat): real
    requires k < |s|
    decreases |s| - k
  {
    if k == |s| - 1 then s[k] else Min(s[k], MinFrom(s, k + 1))
  }

  /** The adjusted value of the hypothesis of rank k. */
  function Adjusted(p: seq<real>, order: seq<nat>, k: nat): real
    requires InRange(p, order) && k < |p|
  {
    Clip(MinFrom(Scaled(p, order), k))
  }

  // ---------------------------------------------------------------- the program

  method ScaleRanked(p: seq<real>, order: seq<nat>) returns (adjusted: array<real>)
    requires InRange(p, order)
    ensures fresh(adjusted) && adjusted[..] == Scaled(p, order)
  {
    var n := |p|;
    adjusted := new real[n];
    for k := 0 to n
      invariant adjusted[..k] == Scaled(p, order)[..k]
    {
      adjusted[k] := Scale(p[order[k]], n, k);
    }
    assert adjusted[..] == adjusted[..n];
  }

  /** minimum.accumulate over the reversed array, in place. */
  method AccumulateMinimum(a: array<real>)
    modifies a
    ensures forall k :: 0 <= k < a.Length ==> a[k] == MinFrom(old(a[..]), k)
  {
    for k := a.Length downto 0
      invariant forall j :: 0 <= j < k ==> a[j] == old(a[j])
      invariant forall j :: k <= j < a.Length ==> a[j] == MinFrom(old(a[..]), j)
    {
      if k + 1 < a.Length && a[k + 1] <= a[k] {
        a[k] := a[k + 1];
      }
    }
  }

  /** The array program after argsort: scale, accumulate the minimum from the right, scatter. */
  method AdjustArray(p: seq<real>, order: seq<nat>) returns (result: array<real>)
    requires IsArgsort(p, order)
    ensures fresh(result) && result.Length == |p|
    ensures forall k :: 0 <= k < |p| ==> result[order[k]] == Adjusted(p, order, k)
  {
    var adjusted := ScaleRanked(p, order);
    AccumulateMinimum(adjusted);
    result := new real[|p|];
    for k := 0 to |p|
      invariant forall j :: 0 <= j < |p| ==> adjusted[j] == MinFrom(Scaled(p, order), j)
      invariant forall j :: 0 <= j < k ==> result[order[j]] == Adjusted(p, order, j)
    {
      result[order[k]] := Clip(adjusted[k]);
    }
  }

  datatype InputError = NotProbabilities

  lemma InUnitIff(p: seq<real>)
    ensures InUnit(p) <==> forall x :: x in p ==> 0.0 <= x <= 1.0
  {
    if i :| 0 <= i < |p| && !(0.0 <= p[i] <= 1.0) {
      assert p[i] in p;
    }
  }

  /** benjamini_hochberg, given the permutation that argsort returned. */
  method Adjust(p: seq<real>, order: seq<nat>) returns (r: Result<seq<real>, InputError>)
    requires IsArgsort(p, order)
    ensures r.Err? <==> !forall x :: x in p ==> 0.0 <= x <= 1.0
    ensures r.Ok? ==> |r.value| == |p| && forall k :: 0 <= k < |p| ==> r.value[order[k]] == Adjusted(p, order, k)
  {
    if p == [] {
      return Ok([]);
    }
    InUnitIff(p);
    if !InUnit(p) {
      return Err(NotProbabilities);
    }
    var result := AdjustArray(p, order);
    r := Ok(result[..]);
  }

  // ---------------------------------------------------------------- the step-up rule

  /** The ordered p-value of rank k lies on or below the line of slope alpha / n. */
  ghost predicate Passes(p: seq<real>, order: seq<nat>, alpha: real, k: nat)
    requires InRange(p, order) && k < |p|
  {
    OnOrBelowLine(p[order[k]], |p|, alpha, k)
  }

  predicate OnOrBelowLine(x: real, n: nat, alpha: real, k: nat)
    requires n > 0
  {
    x <= (k + 1) as real * alpha / n as real
  }

  /** One more than the largest passing rank below m; zero when none passes. */
  ghost function Rejections(p: seq<real>, order: seq<nat>, alpha: real, m: nat): (count: nat)
    requires InRange(p, order) && m <= |p|
    ensures count <= m
    ensures count > 0 ==> Passes(p, order, alpha, count - 1)
    ensures forall k :: count <= k < m ==> !Passes(p, order, alpha, k)
  {
    if m == 0 then 0
    else if Passes(p, order, alpha, m - 1) then m
    else Rejections(p, order, alpha, m - 1)
  }

  lemma CrossMultiply(a: real, b: real, c: real)
    requires c > 0.0
    ensures a <= b / c <==> a * c <= b
  {
    if a <= b / c {
      assert a * c <= b / c * c;
    } else {
      assert a * c > b / c * c;
    }
  }

  lemma CrossMultiplyLeft(a: real, b: real, c: real)
    requires c > 0.0
    ensures a / c <= b <==> a <= c * b
  {
    if a / c <= b {
      assert a / c * c <= b * c;
    } else {
      assert a / c * c > b * c;
    }
  }

  /** Lying under the line is the same as scaling to at most alpha. */
  lemma LineIffScale(x: real, n: nat, alpha: real, k: nat)
    requires n > 0
    ensures OnOrBelowLine(x, n, alpha, k) <==> Scale(x, n, k) <= alpha
  {
    CrossMultiply(x, (k + 1) as real * alpha, n as real);
    CrossMultiplyLeft(x * n as real, alpha, (k + 1) as real);
  }

  lemma ScaleAtLeast(x: real, n: nat, k: nat)
    requires 0.0 <= x && k < n
    ensures x <= Scale(x, n, k)
  {
    assert x * (k + 1) as real <= x * n as real;
    CrossMultiply(x, x * n as real, (k + 1) as real);
  }

  lemma ScaleFalls(x: real, n: nat, k: nat)
    requires 0.0 <= x
    ensures Scale(x, n, k + 1) <= Scale(x, n, k)
  {
    var y, m := Scale(x, n, k), (k + 1) as real;
    assert 0.0 <= x * n as real;
    CrossMultiply(0.0, x * n as real, m);
    assert x * n as real == y * m;
    assert y * m <= (m + 1.0) * y;
    CrossMultiplyLeft(x * n as real, y, m + 1.0);
  }

  /** The last rank is not scaled. */
  lemma ScaleLast(x: real, n: nat)
    requires n > 0
    ensures Scale(x, n, n - 1) == x
  {
    CrossMultiply(x, x * n as real, n as real);
    CrossMultiplyLeft(x * n as real, x, n as real);
  }

  /** A running minimum is at most alpha exactly when some value from there on is. */
  lemma {:induction false} MinFromAtMost(s: seq<real>, alpha: real, k: nat)
    requires k < |s|
    ensures MinFrom(s, k) <= alpha <==> exists j :: k <= j < |s| && s[j] <= alpha
    decreases |s| - k
  {
    if k < |s| - 1 {
      MinFromAtMost(s, alpha, k + 1);
    }
  }

  /** A lower bound of every value is one of the running minimum. */
  lemma {:induction false} MinFromAtLeast(s: seq<real>, bound: real, k: nat)
    requires k < |s| && forall j :: k <= j < |s| ==> bound <= s[j]
    ensures bound <= MinFrom(s, k)
    decreases |s| - k
  {
    if k < |s| - 1 {
      MinFromAtLeast(s, bound, k + 1);
    }
  }

  lemma {:induction false} MinFromRises(s: seq<real>, j: nat, k: nat)
    requires j <= k < |s|
    ensures MinFrom(s, j) <= MinFrom(s, k)
  {
    if j < k {
      MinFromRises(s, j, k - 1);
    }
  }

  lemma ScaledAtLeastRanked(p: seq<real>, order: seq<nat>, k: nat)
    requires IsArgsort(p, order) && InUnit(p) && k < |p|
    ensures forall j :: k <= j < |p| ==> p[order[k]] <= Scaled(p, order)[j]
  {
    forall j | k <= j < |p|
      ensures p[order[k]] <= Scaled(p, order)[j]
    {
      assert p[order[k]] <= p[order[j]];
      ScaleAtLeast(p[order[j]], |p|, j);
    }
  }

  /** Adjusted values lie between the p-value and one. */
  lemma AdjustedInRange(p: seq<real>, order: seq<nat>, k: nat)
    requires IsArgsort(p, order) && InUnit(p) && k < |p|
    ensures p[order[k]] <= Adjusted(p, order, k) <= 1.0
  {
    ScaledAtLeastRanked(p, order, k);
    MinFromAtLeast(Scaled(p, order), p[order[k]], k);
  }

  /** The step-up rule rejects rank k exactly when some rank from k on passes. */
  lemma RejectsIffSomeScaled(p: seq<real>, order: seq<nat>, alpha: real, k: nat)
    requires InRange(p, order)
    ensures k < Rejections(p, order, alpha, |p|) <==> exists j :: k <= j < |p| && Scaled(p, order)[j] <= alpha
  {
    forall j | 0 <= j < |p|
      ensures Passes(p, order, alpha, j) <==> Scaled(p, order)[j] <= alpha
    {
      LineIffScale(p[order[j]], |p|, alpha, j);
    }
  }

  /** Main theorem: for every level alpha, the adjusted value of rank k is at most alpha exactly when
      the step-up rule rejects that rank. */
  lemma StepUpIffAdjusted(p: seq<real>, order: seq<nat>, alpha: real, k: nat)
    requires IsArgsort(p, order) && InUnit(p) && k < |p|
    ensures Adjusted(p, order, k) <= alpha <==> k < Rejections(p, order, alpha, |p|)
  {
    var s := Scaled(p, order);
    MinFromAtMost(s, alpha, k);
    RejectsIffSomeScaled(p, order, alpha, k);
    assert 0.0 <= MinFrom(s, k) by {
      ScaledAtLeastRanked(p, order, k);
      MinFromAtLeast(s, p[order[k]], k);
    }
    if alpha >= 1.0 {
      ScaleLast(p[order[|p| - 1]], |p|);
      assert s[|p| - 1] <= alpha;
    }
  }

  /** Larger p-values never get smaller adjusted values. */
  lemma AdjustedIsMonotone(p: seq<real>, order: seq<nat>, j: nat, k: nat)
    requires IsArgsort(p, order) && j <= k < |p|
    ensures Adjusted(p, order, j) <= Adjusted(p, order, k)
  {
    MinFromRises(Scaled(p, order), j, k);
  }

  // ---------------------------------------------------------------- independence of ties

  function Members(s: seq<nat>): set<nat> {
    set i | i in s
  }

  function Below(n: nat): (s: set<nat>)
    ensures forall i: nat :: i in s <==> i < n
    ensures |s| == n
  {
    if n == 0 then {} else Below(n - 1) + {n - 1}
  }

  lemma {:induction false} DistinctCount(s: seq<nat>)
    requires forall i, j :: 0 <= i < j < |s| ==> s[i] != s[j]
    ensures |Members(s)| == |s|
  {
    if s != [] {
      var n := |s| - 1;
      DistinctCount(s[..n]);
      assert s == s[..n] + [s[n]];
      assert Members(s) == Members(s[..n]) + {s[n]};
    }
  }

  lemma SubsetCount(a: set<nat>, b: set<nat>)
    requires a <= b
    ensures |a| <= |b|
  {
    assert |b| == |a| + |b - a| by { assert b == a + (b - a); }
  }

  /** Two sorting permutations list the same values. */
  lemma RankedAlike(p: seq<real>, a: seq<nat>, b: seq<nat>, k: nat)
    requires IsArgsort(p, a) && IsArgsort(p, b) && k < |p|
    ensures p[a[k]] == p[b[k]]
  {
    NotBelow(p, a, b, k);
    NotBelow(p, b, a, k);
  }

  lemma NotBelow(p: seq<real>, a: seq<nat>, b: seq<nat>, k: nat)
    requires IsArgsort(p, a) && IsArgsort(p, b) && k < |p|
    ensures p[a[k]] >= p[b[k]]
  {
    if p[a[k]] < p[b[k]] {
      // The k + 1 indices that a ranks up to k would all be among the k that b ranks below k.
      var low, high := Members(a[..k + 1]), Members(b[..k]);
      forall i | i in low
        ensures i in high
      {
        var r :| 0 <= r <= k && a[r] == i;
        assert p[i] <= p[a[k]];
        var q := RankOf(p, b, i);
        assert q < k;
        assert b[..k][q] == i;
      }
      DistinctCount(a[..k + 1]);
      DistinctCount(b[..k]);
      SubsetCount(low, high);
    }
  }

  /** Every index has a rank. */
  lemma RankOf(p: seq<real>, order: seq<nat>, i: nat) returns (k: nat)
    requires IsArgsort(p, order) && i < |p|
    ensures k < |p| && order[k] == i
  {
    if i in order {
      k :| 0 <= k < |order| && order[k] == i;
    } else {
      DistinctCount(order);
      SubsetCount(Members(order), Below(|p|) - {i});
      assert false;
    }
  }

  lemma SameScaled(p: seq<real>, a: seq<nat>, b: seq<nat>)
    requires IsArgsort(p, a) && IsArgsort(p, b)
    ensures Scaled(p, a) == Scaled(p, b)
  {
    forall k | 0 <= k < |p|
      ensures Scaled(p, a)[k] == Scaled(p, b)[k]
    {
      RankedAlike(p, a, b, k);
    }
  }

  /** Equal p-values get equal adjusted values. */
  lemma {:induction false} TiesShareMinimum(p: seq<real>, order: seq<nat>, j: nat, k: nat)
    requires IsArgsort(p, order) && InUnit(p) && j <= k < |p| && p[order[j]] == p[order[k]]
    ensures MinFrom(Scaled(p, order), j) == MinFrom(Scaled(p, order), k)
    decreases k - j
  {
    if j < k {
      var s := Scaled(p, order);
      assert p[order[j]] <= p[order[j + 1]] && (j + 1 < k ==> p[order[j + 1]] <= p[order[k]]);
      TiesShareMinimum(p, order, j + 1, k);
      ScaleFalls(p[order[j]], |p|, j);
      assert s[j + 1] <= s[j];
    }
  }

  /** Main theorem: the output in input order is the same for every sort, however it breaks ties. */
  lemma OutputIndependentOfSort(p: seq<real>, a: seq<nat>, b: seq<nat>, qa: seq<real>, qb: seq<real>)
    requires IsArgsort(p, a) && IsArgsort(p, b) && InUnit(p)
    requires |qa| == |p| && forall k :: 0 <= k < |p| ==> qa[a[k]] == Adjusted(p, a, k)
    requires |qb| == |p| && forall k :: 0 <= k < |p| ==> qb[b[k]] == Adjusted(p, b, k)
    ensures qa == qb
  {
    forall i | 0 <= i < |p|
      ensures qa[i] == qb[i]
    {
      var j := RankOf(p, a, i);
      var k := RankOf(p, b, i);
      SameScaled(p, a, b);
      RankedAlike(p, a, b, k);
      if j <= k {
        TiesShareMinimum(p, a, j, k);
      } else {
        TiesShareMinimum(p, a, k, j);
      }
    }
  }

  /** A numeric feature drifts when its distance exceeds its threshold and its adjusted value is at
      most 0.05; so the second condition is the step-up rule at that level. */
  function Drifted(distance: real, threshold: real, q: real): bool {
    distance > threshold && q <= 0.05
  }

  lemma DriftIsStepUpDecision(p: seq<real>, order: seq<nat>, k: nat, distance: real, threshold: real)
    requires IsArgsort(p, order) && InUnit(p) && k < |p|
    ensures Drifted(distance, threshold, Adjusted(p, order, k)) <==>
            distance > threshold && k < Rejections(p, order, 0.05, |p|)
  {
    StepUpIffAdjusted(p, order, 0.05, k);
  }
}
