/** The reductions the aggregator applies to a window of frame records:
    left-to-right sums, arithmetic means, occurrence counts, `Math.round`,
    and the `reduce`-based most-common-label vote. */
module Stats {

  // ---------------------------------------------------------------------
  // Sums and means

  /** `xs.reduce((acc, x) => acc + x, 0)`, folded from the left. */
  function Sum(xs: seq<real>): real
  {
    if |xs| == 0 then 0.0 else Sum(xs[..|xs| - 1]) + xs[|xs| - 1]
  }

  function Mean(xs: seq<real>): real
    requires |xs| > 0
  {
    Sum(xs) / (|xs| as real)
  }

  /** `m` is the arithmetic mean of `xs`: times the count it gives back the
      sum. */
  predicate IsMean(m: real, xs: seq<real>)
  {
    |xs| > 0 && m * (|xs| as real) == Sum(xs)
  }

  lemma MeanTimesCount(xs: seq<real>)
    requires |xs| > 0
    ensures IsMean(Mean(xs), xs)
  {
  }

  predicate InUnit(x: real)
  {
    0.0 <= x <= 1.0
  }

  /** A sum of values in [lo, hi] lies between n·lo and n·hi. */
  lemma {:induction false} SumBounds(xs: seq<real>, lo: real, hi: real)
    requires forall i :: 0 <= i < |xs| ==> lo <= xs[i] <= hi
    ensures (|xs| as real) * lo <= Sum(xs) <= (|xs| as real) * hi
  {
    if |xs| > 0 {
      SumBounds(xs[..|xs| - 1], lo, hi);
      assert ((|xs| - 1) as real) * lo + lo == (|xs| as real) * lo;
      assert ((|xs| - 1) as real) * hi + hi == (|xs| as real) * hi;
    }
  }

  /** The mean of values in [lo, hi] lies in [lo, hi]. */
  lemma MeanBounds(xs: seq<real>, lo: real, hi: real)
    requires |xs| > 0
    requires forall i :: 0 <= i < |xs| ==> lo <= xs[i] <= hi
    ensures lo <= Mean(xs) <= hi
  {
    SumBounds(xs, lo, hi);
    MeanTimesCount(xs);
    var n := |xs| as real;
    var m := Mean(xs);
    assert (m - lo) * n == Sum(xs) - lo * n;
    assert (hi - m) * n == hi * n - Sum(xs);
    NonNegativeFactor(m - lo, n);
    NonNegativeFactor(hi - m, n);
  }

  lemma NonNegativeFactor(a: real, n: real)
    requires n > 0.0 && a * n >= 0.0
    ensures a >= 0.0
  {
  }

  // ---------------------------------------------------------------------
  // Rounding

  /** `Math.round`: to the nearest integer, halves rounding up. */
  function RoundHalfUp(x: real): (r: int)
    ensures RoundsTo(x, r)
  {
    (x + 0.5).Floor
  }

  /** `k` is the integer nearest to `x`, halves going up: `x` lies in the
      half-open band around `k`. */
  predicate RoundsTo(x: real, k: int)
  {
    (k as real) - 0.5 <= x < (k as real) + 0.5
  }

  /** Rounding is determined by the half-open band around each integer. */
  lemma RoundHalfUpUnique(x: real, k: int)
    requires RoundsTo(x, k)
    ensures RoundHalfUp(x) == k
  {
  }

  /** Rounding keeps an integer range: a value in [lo, hi] rounds into it. */
  lemma RoundHalfUpBounds(x: real, lo: int, hi: int)
    requires (lo as real) <= x <= (hi as real)
    ensures lo <= RoundHalfUp(x) <= hi
  {
  }

  // ---------------------------------------------------------------------
  // Counting

  /** `arr.filter(v => v === x).length`. */
  function Count<T(==)>(arr: seq<T>, x: T): (c: nat)
    ensures c <= |arr|
  {
    if |arr| == 0 then 0
    else Count(arr[..|arr| - 1], x) + (if arr[|arr| - 1] == x then 1 else 0)
  }

  /** An element is counted exactly when it occurs. */
  lemma {:induction false} CountPositive<T>(arr: seq<T>, x: T)
    ensures Count(arr, x) > 0 <==> x in arr
  {
    if |arr| > 0 {
      var init := arr[..|arr| - 1];
      CountPositive(init, x);
      assert arr == init + [arr[|arr| - 1]];
    }
  }

  /** Index of the first occurrence of `x`. */
  function FirstIndex<T(==)>(arr: seq<T>, x: T): (k: nat)
    requires x in arr
    ensures k < |arr| && arr[k] == x
    ensures forall i :: 0 <= i < k ==> arr[i] != x
  {
    if arr[0] == x then 0 else 1 + FirstIndex(arr[1..], x)
  }

  // ---------------------------------------------------------------------
  // Most common label

  /** `x` occurs at least as often as every element, and every element
      seen before `x` first appears occurs strictly less often: the
      plurality label with ties broken by first appearance. */
  predicate IsEarliestPlurality<T(==)>(arr: seq<T>, x: T)
  {
    && x in arr
    && (forall j :: 0 <= j < |arr| ==> Count(arr, arr[j]) <= Count(arr, x))
    && (forall j :: 0 <= j < FirstIndex(arr, x) ==> Count(arr, arr[j]) < Count(arr, x))
  }

  /** The invariant of the vote after it has scanned `arr[..k]`: the
      candidate has been seen, and it is the earliest plurality of the
      scanned part as counted over the whole array. */
  predicate PluralitySoFar<T(==)>(arr: seq<T>, a: T, k: nat)
    requires k <= |arr|
  {
    && a in arr && FirstIndex(arr, a) < k
    && (forall j :: 0 <= j < k ==> Count(arr, arr[j]) <= Count(arr, a))
    && (forall j :: 0 <= j < FirstIndex(arr, a) ==> Count(arr, arr[j]) < Count(arr, a))
  }

  /** `arr.reduce((a, b) => count(a) >= count(b) ? a : b)` from position
      `k` with running candidate `a`: the candidate is replaced only by an
      element that occurs strictly more often in the whole array. */
  function Vote<T(==)>(arr: seq<T>, a: T, k: nat): (r: T)
    requires 1 <= k <= |arr|
    requires PluralitySoFar(arr, a, k)
    ensures IsEarliestPlurality(arr, r)
    decreases |arr| - k
  {
    if k == |arr| then
      a
    else if Count(arr, a) >= Count(arr, arr[k]) then
      KeepCandidate(arr, a, k);
      Vote(arr, a, k + 1)
    else
      SwitchCandidate(arr, a, k);
      Vote(arr, arr[k], k + 1)
  }

  /** A candidate at least as frequent as the next element stays ahead. */
  lemma KeepCandidate<T>(arr: seq<T>, a: T, k: nat)
    requires 1 <= k < |arr| && PluralitySoFar(arr, a, k)
    requires Count(arr, a) >= Count(arr, arr[k])
    ensures PluralitySoFar(arr, a, k + 1)
  {
  }

  /** An element strictly more frequent than the candidate has not been seen
      before, so it becomes the earliest plurality so far. */
  lemma SwitchCandidate<T>(arr: seq<T>, a: T, k: nat)
    requires 1 <= k < |arr| && PluralitySoFar(arr, a, k)
    requires Count(arr, a) < Count(arr, arr[k])
    ensures PluralitySoFar(arr, arr[k], k + 1)
  {
    var b := arr[k];
    // anything before k occurs at most as often as a, so less often than b
    forall j | 0 <= j < k ensures Count(arr, arr[j]) < Count(arr, b) && arr[j] != b {
      assert Count(arr, arr[j]) <= Count(arr, a);
    }
    FirstIndexAt(arr, b, k);
  }

  /** The first occurrence is the position with no earlier occurrence. */
  lemma FirstIndexAt<T>(arr: seq<T>, x: T, k: nat)
    requires k < |arr| && arr[k] == x
    requires forall i :: 0 <= i < k ==> arr[i] != x
    ensures FirstIndex(arr, x) == k
  {
  }

  /** The most common element, as the source's label vote computes it. */
  function MostCommon<T(==)>(arr: seq<T>): (r: T)
    requires |arr| > 0
    ensures IsEarliestPlurality(arr, r)
  {
    FirstIndexAt(arr, arr[0], 0);
    Vote(arr, arr[0], 1)
  }

  /** At most one element is the earliest plurality. */
  lemma EarliestPluralityUnique<T>(arr: seq<T>, a: T, b: T)
    requires IsEarliestPlurality(arr, a) && IsEarliestPlurality(arr, b)
    ensures a == b
  {
    var fa := FirstIndex(arr, a);
    var fb := FirstIndex(arr, b);
    assert Count(arr, arr[fa]) <= Count(arr, b) && Count(arr, arr[fb]) <= Count(arr, a);
    // equal counts, so neither first occurrence can precede the other
    assert fa == fb;
  }

  /** The vote returns exactly the earliest plurality element. */
  lemma MostCommonIsEarliestPlurality<T>(arr: seq<T>, x: T)
    requires |arr| > 0
    ensures MostCommon(arr) == x <==> IsEarliestPlurality(arr, x)
  {
    if IsEarliestPlurality(arr, x) {
      EarliestPluralityUnique(arr, MostCommon(arr), x);
    }
  }

  /** The ordering a, b, b, a, a: a occurs three times and wins. */
  lemma MostCommonExample()
    ensures MostCommon(["a", "b", "b", "a", "a"]) == "a"
  {
    var arr := ["a", "b", "b", "a", "a"];
    ExampleCounts();
    assert forall j :: 0 <= j < |arr| ==> arr[j] == "a" || arr[j] == "b";
    assert FirstIndex(arr, "a") == 0;
    MostCommonIsEarliestPlurality(arr, "a");
  }

  lemma ExampleCounts()
    ensures Count(["a", "b", "b", "a", "a"], "a") == 3 && Count(["a", "b", "b", "a", "a"], "b") == 2
  {
    var arr := ["a", "b", "b", "a", "a"];
    assert arr[..4] == ["a", "b", "b", "a"];
    assert arr[..4][..3] == ["a", "b", "b"];
    assert arr[..4][..3][..2] == ["a", "b"];
    assert arr[..4][..3][..2][..1] == ["a"];
    assert arr[..4][..3][..2][..1][..0] == [];
    assert Count(arr[..4][..3][..2][..1], "a") == 1 && Count(arr[..4][..3][..2][..1], "b") == 0;
    assert Count(arr[..4][..3][..2], "a") == 1 && Count(arr[..4][..3][..2], "b") == 1;
    assert Count(arr[..4][..3], "a") == 1 && Count(arr[..4][..3], "b") == 2;
    assert Count(arr[..4], "a") == 2 && Count(arr[..4], "b") == 2;
  }
}
