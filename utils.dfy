/**
 * The numeric policy helpers shared by every scraping loop (src/utils/utils.ts): the rounded average
 * and the repository's median of a price sample, and the bounded interval adjustments `speedUp` and
 * `slowDown`.
 *
 * Sleep intervals are integer TENTHS of a minute; the step `amount` is in HUNDREDTHS of a minute (the
 * spec scraper speeds up by 0.25). `Math.round(x)` is `floor(x + 1/2)` over exact rationals.
 */
module Utils {

  // ---------------------------------------------------------------------------
  // Rounding

  /** `Math.round(num / den)`: the nearest integer, halves rounded up. */
  function RoundDiv(num: int, den: int): (r: int)
    requires den > 0
    ensures 2 * den * r <= 2 * num + den < 2 * den * r + 2 * den
  {
    (2 * num + den) / (2 * den)
  }

  /** `t` tenths is `Math.round` of `h` hundredths taken to one decimal: `h / 10` is within half a tenth of `t`. */
  predicate NearestTenth(h: int, t: int) {
    10 * t - 5 <= h < 10 * t + 5
  }

  // ---------------------------------------------------------------------------
  // Sample statistics

  function Sum(s: seq<int>): int {
    if s == [] then 0 else s[0] + Sum(s[1..])
  }

  function SeqMin(s: seq<int>): (m: int)
    requires |s| > 0
    ensures m in s && forall i :: 0 <= i < |s| ==> m <= s[i]
  {
    if |s| == 1 then s[0]
    else
      var m := SeqMin(s[1..]);
      assert forall i :: 1 <= i < |s| ==> s[i] == s[1..][i - 1];
      if s[0] <= m then s[0] else m
  }

  function SeqMax(s: seq<int>): (m: int)
    requires |s| > 0
    ensures m in s && forall i :: 0 <= i < |s| ==> s[i] <= m
  {
    if |s| == 1 then s[0]
    else
      var m := SeqMax(s[1..]);
      assert forall i :: 1 <= i < |s| ==> s[i] == s[1..][i - 1];
      if s[0] >= m then s[0] else m
  }

  lemma {:induction false} SumBounds(s: seq<int>, lo: int, hi: int)
    requires forall i :: 0 <= i < |s| ==> lo <= s[i] <= hi
    ensures |s| * lo <= Sum(s) <= |s| * hi
  {
    if s != [] {
      assert forall i :: 0 <= i < |s| - 1 ==> s[1..][i] == s[i + 1];
      SumBounds(s[1..], lo, hi);
    }
  }

  /**
   * `calculateAverage`: `Math.round(sum / n)`. `reduce` without an initial value throws on an empty
   * array, so the sample must be non-empty; every caller passes at least five prices.
   */
  function CalculateAverage(prices: seq<int>): (avg: int)
    requires |prices| > 0
    ensures SeqMin(prices) <= avg <= SeqMax(prices)
    ensures 2 * |prices| * avg <= 2 * Sum(prices) + |prices| < 2 * |prices| * avg + 2 * |prices|
  {
    var lo, hi := SeqMin(prices), SeqMax(prices);
    SumBounds(prices, lo, hi);
    RoundedMeanBounds(Sum(prices), |prices|, lo, hi);
    RoundDiv(Sum(prices), |prices|)
  }

  lemma RoundedMeanBounds(total: int, n: int, lo: int, hi: int)
    requires n > 0 && n * lo <= total <= n * hi
    ensures lo <= RoundDiv(total, n) <= hi
  {
    var r := RoundDiv(total, n);
    if r < lo {
      assert 2 * n * (r + 1) <= 2 * n * lo by {
        assert r + 1 <= lo;
        MulLeft(2 * n, r + 1, lo);
      }
      assert false;
    }
    if r > hi {
      assert 2 * n * (hi + 1) <= 2 * n * r by {
        MulLeft(2 * n, hi + 1, r);
      }
      assert false;
    }
  }

  lemma MulLeft(k: int, a: int, b: int)
    requires k >= 0 && a <= b
    ensures k * a <= k * b
  {
  }

  // ---------------------------------------------------------------------------
  // Sorting a copy: numArr.slice().sort((a, b) => a - b)

  predicate SortedAsc(s: seq<int>) {
    forall i, j :: 0 <= i < j < |s| ==> s[i] <= s[j]
  }

  lemma SortedTail(s: seq<int>)
    requires SortedAsc(s) && s != []
    ensures SortedAsc(s[1..])
  {
  }

  lemma ConsSorted(h: int, t: seq<int>)
    requires SortedAsc(t) && (t != [] ==> h <= t[0])
    ensures SortedAsc([h] + t)
  {
    var r := [h] + t;
    forall i, j | 0 <= i < j < |r|
      ensures r[i] <= r[j]
    {
      if i == 0 {
        assert r[j] == t[j - 1] && t[0] <= t[j - 1];
      } else {
        assert r[i] == t[i - 1] && r[j] == t[j - 1];
      }
    }
  }

  function InsertSorted(x: int, s: seq<int>): (r: seq<int>)
    requires SortedAsc(s)
    ensures SortedAsc(r) && multiset(r) == multiset(s) + multiset{x}
    ensures r[0] == x || (s != [] && r[0] == s[0])
  {
    if s == [] || x <= s[0] then
      ConsSorted(x, s);
      [x] + s
    else
      assert s == [s[0]] + s[1..];
      SortedTail(s);
      var rest := InsertSorted(x, s[1..]);
      assert |s| > 1 ==> s[0] <= s[1];
      ConsSorted(s[0], rest);
      [s[0]] + rest
  }

  /** The ascending sort of a copy: sorted, and a permutation of the input. */
  function SortAscending(s: seq<int>): (r: seq<int>)
    ensures SortedAsc(r) && multiset(r) == multiset(s) && |r| == |s|
  {
    if s == [] then []
    else
      assert s == [s[0]] + s[1..];
      var r := InsertSorted(s[0], SortAscending(s[1..]));
      assert |r| == |multiset(r)| == |multiset(s)| == |s|;
      r
  }

  lemma SortedElementInRange(s: seq<int>, k: int)
    requires |s| > 0 && 0 <= k < |s|
    ensures SeqMin(s) <= SortAscending(s)[k] <= SeqMax(s)
  {
    var t := SortAscending(s);
    assert t[k] in multiset(t);
    assert t[k] in multiset(s);
    var i :| 0 <= i < |s| && s[i] == t[k];
  }

  /** Rounding the mean of two ordered values stays between them. */
  lemma RoundedMidpoint(a: int, b: int)
    requires a <= b
    ensures a <= RoundDiv(b + a, 2) <= b
  {
  }

  /**
   * `calculateMedian`, as the repository defines it: sort a copy ascending, take
   * `middle = floor(n / 2)`, and round the mean of `sorted[middle]` and `sorted[middle + 1]`, for odd
   * and even `n` alike. For `n <= 2` JavaScript reads past the end and yields NaN, so the sample must
   * hold at least three prices; every caller passes at least five.
   */
  function CalculateMedian(prices: seq<int>): (median: int)
    requires |prices| >= 3
    ensures SortAscending(prices)[|prices| / 2] <= median <= SortAscending(prices)[|prices| / 2 + 1]
  {
    var sorted := SortAscending(prices);
    var middle := |prices| / 2;
    RoundedMidpoint(sorted[middle], sorted[middle + 1]);
    RoundDiv(sorted[middle + 1] + sorted[middle], 2)
  }

  /** The median lies between the smallest and the largest price of the sample. */
  lemma MedianWithinSample(prices: seq<int>)
    requires |prices| >= 3
    ensures SeqMin(prices) <= CalculateMedian(prices) <= SeqMax(prices)
  {
    SortedElementInRange(prices, |prices| / 2);
    SortedElementInRange(prices, |prices| / 2 + 1);
  }

  // ---------------------------------------------------------------------------
  // Both statistics depend only on the multiset of prices (the store returns rows in no fixed order)

  lemma SortedHeadIsLeast(s: seq<int>, x: int)
    requires SortedAsc(s) && x in s
    ensures s[0] <= x
  {
    var i :| 0 <= i < |s| && s[i] == x;
    if i > 0 {
      assert s[0] <= s[i];
    }
  }

  lemma TailMultiset(a: seq<int>)
    requires a != []
    ensures multiset(a[1..]) == multiset(a) - multiset{a[0]}
  {
    assert a == [a[0]] + a[1..];
  }

  /** A sorted permutation is unique. */
  lemma {:induction false} SortedUnique(a: seq<int>, b: seq<int>)
    requires SortedAsc(a) && SortedAsc(b) && multiset(a) == multiset(b)
    ensures a == b
    decreases |a|
  {
    assert |a| == |multiset(a)| == |multiset(b)| == |b|;
    if a != [] {
      assert a[0] in multiset(b) && b[0] in multiset(a);
      SortedHeadIsLeast(b, a[0]);
      SortedHeadIsLeast(a, b[0]);
      assert a[0] == b[0];
      TailMultiset(a);
      TailMultiset(b);
      SortedTail(a);
      SortedTail(b);
      SortedUnique(a[1..], b[1..]);
    }
  }

  /** Sorting a sample that is already in ascending order leaves it as it is. */
  lemma SortSorted(s: seq<int>)
    requires SortedAsc(s)
    ensures SortAscending(s) == s
  {
    SortedUnique(SortAscending(s), s);
  }

  lemma {:induction false} SumRemove(s: seq<int>, i: int)
    requires 0 <= i < |s|
    ensures Sum(s) == s[i] + Sum(s[..i] + s[i + 1..])
  {
    if i == 0 {
      assert s[..0] + s[1..] == s[1..];
    } else {
      SumRemove(s[1..], i - 1);
      assert s[1..][..i - 1] + s[1..][i..] == s[1..i] + s[i + 1..];
      var rest := s[..i] + s[i + 1..];
      assert rest[0] == s[0];
      assert rest[1..] == s[1..i] + s[i + 1..];
    }
  }

  lemma MultisetRemove(b: seq<int>, i: int)
    requires 0 <= i < |b|
    ensures multiset(b[..i] + b[i + 1..]) == multiset(b) - multiset{b[i]}
  {
    assert b == b[..i] + [b[i]] + b[i + 1..];
  }

  lemma IndexOfElement(b: seq<int>, x: int) returns (i: int)
    requires x in multiset(b)
    ensures 0 <= i < |b| && b[i] == x
  {
    i :| 0 <= i < |b| && b[i] == x;
  }
  lemma {:induction false} SumPermutation(a: seq<int>, b: seq<int>)
    requires multiset(a) == multiset(b)
    ensures Sum(a) == Sum(b)
    decreases |a|
  {
    if a == [] {
      assert |b| == |multiset(b)| == 0;
    } else {
      var i := IndexOfElement(b, a[0]);
      SumRemove(b, i);
      MultisetRemove(b, i);
      var rest := b[..i] + b[i + 1..];
      TailMultiset(a);
      SumPermutation(a[1..], rest);
      assert Sum(a) == a[0] + Sum(a[1..]);
    }
  }

  /** Reordering the sample does not change the average. */
  lemma AverageIgnoresOrder(a: seq<int>, b: seq<int>)
    requires multiset(a) == multiset(b) && |a| > 0
    ensures |b| == |a|
    ensures CalculateAverage(a) == CalculateAverage(b)
  {
    assert |a| == |multiset(a)| == |multiset(b)| == |b|;
    SumPermutation(a, b);
  }

  /** Reordering the sample does not change the median. */
  lemma MedianIgnoresOrder(a: seq<int>, b: seq<int>)
    requires multiset(a) == multiset(b) && |a| >= 3
    ensures |b| == |a|
    ensures CalculateMedian(a) == CalculateMedian(b)
  {
    assert |a| == |multiset(a)| == |multiset(b)| == |b|;
    var sa, sb := SortAscending(a), SortAscending(b);
    assert multiset(sa) == multiset(sb);
    SortedUnique(sa, sb);
  }

  /** On a sample already in ascending order the median reads the two middle positions directly. */
  lemma MedianOfSorted(s: seq<int>)
    requires |s| >= 3 && SortedAsc(s)
    ensures CalculateMedian(s) == RoundDiv(s[|s| / 2 + 1] + s[|s| / 2], 2)
  {
    SortSorted(s);
  }

  /** Concrete value: `[10, 20, 30]` averages to 20. */
  lemma AverageExample(s: seq<int>)
    requires s == [10, 20, 30]
    ensures CalculateAverage(s) == 20
  {
    var t := s[1..];
    assert t == [20, 30] && t[1..] == [30] && t[1..][1..] == [];
    assert Sum(t[1..]) == 30;
    assert Sum(s) == 60;
  }

  /** Concrete value: the median of `[10, 20, 30]` by this rule is 25 (the mean of 20 and 30), not 20. */
  lemma ThreePriceMedianExample(s: seq<int>)
    requires s == [10, 20, 30]
    ensures CalculateMedian(s) == 25
  {
    MedianOfSorted(s);
  }

  /** Concrete value: `[10, 20, 30, 40]` has median 35 by this rule (the mean of 30 and 40). */
  lemma FourPriceExample(s: seq<int>)
    requires s == [10, 20, 30, 40]
    ensures CalculateMedian(s) == 35
  {
    MedianOfSorted(s);
  }

  // ---------------------------------------------------------------------------
  // Interval adjustment

  /** The default `amount` of both adjustments: 0.1 minute. */
  const DefaultAmount := 10

  /**
   * `speedUp(currentTime, minTime, amount)`: `currentTime - amount` rounded to one decimal, but never
   * less than `minTime`.
   */
  function SpeedUp(currentTime: int, minTime: int, amount: int): (newTime: int)
    ensures newTime >= minTime
    ensures newTime > minTime ==> NearestTenth(10 * currentTime - amount, newTime)
    ensures newTime == minTime ==> NearestTenth(10 * currentTime - amount, newTime) || 10 * currentTime - amount < 10 * minTime - 5
  {
    var rounded := RoundDiv(10 * currentTime - amount, 10);
    if rounded < minTime then minTime else rounded
  }

  /** Speeding up never lengthens the interval, and an interval at the floor stays there. */
  lemma SpeedUpShortens(currentTime: int, minTime: int, amount: int)
    requires amount >= 0 && currentTime >= minTime
    ensures minTime <= SpeedUp(currentTime, minTime, amount) <= currentTime
    ensures currentTime == minTime ==> SpeedUp(currentTime, minTime, amount) == minTime
  {
  }

  /**
   * `slowDown(currentTime, maxTime, amount)`: exactly `maxTime` once the interval has reached it,
   * otherwise `currentTime + amount` rounded to one decimal.
   */
  function SlowDown(currentTime: int, maxTime: int, amount: int): (newTime: int)
    ensures currentTime >= maxTime ==> newTime == maxTime
    ensures currentTime < maxTime ==> NearestTenth(10 * currentTime + amount, newTime)
  {
    if currentTime < maxTime then RoundDiv(10 * currentTime + amount, 10) else maxTime
  }

  /**
   * Slowing down overshoots the ceiling only when the step is larger than the distance left to it:
   * with the default step (or any step up to one tenth) an interval at or below the ceiling stays there.
   */
  lemma SlowDownOvershoot(currentTime: int, maxTime: int, amount: int)
    ensures SlowDown(currentTime, maxTime, amount) > maxTime ==> 10 * (maxTime - currentTime) < amount
    ensures currentTime <= maxTime && amount <= DefaultAmount ==> SlowDown(currentTime, maxTime, amount) <= maxTime
  {
  }

  /** The overshoot is real: from 2.4 towards 2.5 minutes in steps of 0.25 the result is 2.7. */
  lemma SlowDownOvershootExample()
    ensures SlowDown(24, 25, 25) == 27
  {
  }

  /** Slowing down never shortens an interval below its ceiling. */
  lemma SlowDownLengthens(currentTime: int, maxTime: int, amount: int)
    requires amount >= 0 && currentTime < maxTime
    ensures currentTime <= SlowDown(currentTime, maxTime, amount)
  {
  }
}
