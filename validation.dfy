/** The controller's data-validation arithmetic (traffic_light_system.py,
    `process_sensor_data`, `_apply_tolerance_checks`, `_get_fallback_value`):
    functions of one direction's reported counts and that direction's history
    of validated counts. */
module Validation {
  import opened Common

  /** Physical lane capacity: a count above it is not plausible. */
  const ThresholdMaxVehicles: int := 20
  /** Deviations (in standard deviations) beyond which a count is an anomaly. */
  const AnomalyThresholdSigma: real := 3.0
  /** The anomaly check only runs once this many validated counts are known. */
  const AnomalyMinHistory: nat := 10
  /** The per-direction history keeps at most this many validated counts. */
  const HistoryCapacity: nat := 100
  /** The fallback value when every reading is rejected and nothing is known. */
  const DefaultFallback: int := 5

  // ---------------------------------------------------------------------------
  // Threshold filter

  /** The readings that pass the threshold filter, in their original order. */
  function WithinThreshold(counts: seq<int>): (r: seq<int>)
    ensures forall x :: multiset(r)[x] == if x <= ThresholdMaxVehicles then multiset(counts)[x] else 0
    ensures forall i :: 0 <= i < |r| ==> r[i] <= ThresholdMaxVehicles
    ensures |r| <= |counts|
  {
    if counts == [] then []
    else
      var init := counts[..|counts| - 1];
      var last := counts[|counts| - 1];
      assert counts == init + [last];
      WithinThreshold(init) + (if last <= ThresholdMaxVehicles then [last] else [])
  }

  // ---------------------------------------------------------------------------
  // Median vote

  predicate SortedAscending(s: seq<int>) {
    forall i, j :: 0 <= i < j < |s| ==> s[i] <= s[j]
  }

  /** `x` placed before the first element of `s` that is not smaller. */
  function Insert(x: int, s: seq<int>): (r: seq<int>)
    ensures multiset(r) == multiset(s) + multiset{x}
    ensures |r| == |s| + 1
  {
    if s == [] || x <= s[0] then [x] + s
    else
      assert s == [s[0]] + s[1..];
      [s[0]] + Insert(x, s[1..])
  }

  /** Inserting into a sorted sequence keeps it sorted; the smaller of `x`
      and the old first element comes first. */
  lemma {:induction false} InsertSorted(x: int, s: seq<int>)
    requires SortedAscending(s)
    ensures SortedAscending(Insert(x, s))
    ensures Insert(x, s)[0] == if s != [] && s[0] < x then s[0] else x
  {
    if s == [] || x <= s[0] {
      SortedCons(x, s);
    } else {
      SortedTail(s);
      InsertSorted(x, s[1..]);
      SortedCons(s[0], Insert(x, s[1..]));
    }
  }

  /** A head no larger than the first element of a sorted tail keeps it sorted. */
  lemma SortedCons(h: int, t: seq<int>)
    requires SortedAscending(t) && (t != [] ==> h <= t[0])
    ensures SortedAscending([h] + t)
  {
    var r := [h] + t;
    forall i, j | 0 <= i < j < |r|
      ensures r[i] <= r[j]
    {
      if i == 0 { assert r[j] == t[j - 1] && t[0] <= t[j - 1]; }
      else { assert r[i] == t[i - 1] && r[j] == t[j - 1]; }
    }
  }

  /** Dropping the head keeps a sequence sorted, and the head is no larger
      than what follows. */
  lemma SortedTail(s: seq<int>)
    requires SortedAscending(s) && s != []
    ensures SortedAscending(s[1..])
    ensures |s| > 1 ==> s[0] <= s[1]
  {
  }

  /** Python's `sorted` on a list of counts: insertion sort, so the result
      holds the same counts (SortAscendingSorted shows it is in order). */
  function SortAscending(xs: seq<int>): (r: seq<int>)
    ensures multiset(r) == multiset(xs)
    ensures |r| == |xs|
  {
    if xs == [] then []
    else
      var init, last := xs[..|xs| - 1], xs[|xs| - 1];
      assert xs == init + [last];
      Insert(last, SortAscending(init))
  }

  /** `sorted` returns its counts in ascending order. */
  lemma {:induction false} SortAscendingSorted(xs: seq<int>)
    ensures SortedAscending(SortAscending(xs))
  {
    if xs != [] {
      var init := xs[..|xs| - 1];
      SortAscendingSorted(init);
      InsertSorted(xs[|xs| - 1], SortAscending(init));
    }
  }

  /** `sorted(counts)[len(counts) // 2]`: the upper median. */
  function Median(xs: seq<int>): (m: int)
    requires xs != []
    ensures m in multiset(xs)
  {
    SortAscending(xs)[|xs| / 2]
  }

  /** The redundant-sensor vote: the median of three or more surviving
      readings, the truncated mean of one or two. */
  function Vote(survivors: seq<int>): (v: int)
    requires survivors != []
    ensures |survivors| >= 3 ==> v in multiset(survivors)
    ensures InRange(survivors, v)
  {
    if |survivors| >= 3 then
      var m := Median(survivors);
      assert m in survivors;
      var i :| 0 <= i < |survivors| && survivors[i] == m;
      assert InRange(survivors, m);
      m
    else
      TruncMeanWithin(survivors);
      TruncMean(survivors)
  }

  // ---------------------------------------------------------------------------
  // Anomaly detection, stated over exact reals

  function Mean(h: seq<int>): (m: real)
    requires h != []
    ensures m * |h| as real == Sum(h) as real
  {
    Sum(h) as real / |h| as real
  }

  function SumSquaredDeviation(h: seq<int>, m: real): real {
    if h == [] then 0.0
    else
      var d := h[|h| - 1] as real - m;
      SumSquaredDeviation(h[..|h| - 1], m) + d * d
  }

  /** Population variance of the history. */
  function Variance(h: seq<int>): (v: real)
    requires h != []
    ensures v >= 0.0
  {
    SumSquaredDeviationNonNegative(h, Mean(h));
    SumSquaredDeviation(h, Mean(h)) / |h| as real
  }

  /** `abs(v - mean) > 3.0 * std_dev`, written as the equivalent comparison of
      squares so that no square root is needed (see StdDevForm). */
  predicate Anomalous(h: seq<int>, v: int)
    requires h != []
    ensures Anomalous(h, v) ==> v as real != Mean(h)
  {
    var d := v as real - Mean(h);
    d * d > AnomalyThresholdSigma * AnomalyThresholdSigma * Variance(h)
  }

  // ---------------------------------------------------------------------------
  // The tolerance pipeline

  /** `_get_fallback_value`: the history's truncated mean, or 5 if none. */
  function Fallback(h: seq<int>): (r: int)
    ensures h == [] ==> r == DefaultFallback
    ensures (forall i :: 0 <= i < |h| ==> h[i] <= ThresholdMaxVehicles) ==> r <= ThresholdMaxVehicles
    ensures (forall i :: 0 <= i < |h| ==> h[i] >= 0) ==> r >= 0
  {
    if h == [] then DefaultFallback
    else
      assert (forall i :: 0 <= i < |h| ==> h[i] <= ThresholdMaxVehicles) ==> TruncMean(h) <= ThresholdMaxVehicles by {
        if forall i :: 0 <= i < |h| ==> h[i] <= ThresholdMaxVehicles {
          TruncMeanAtMost(h, ThresholdMaxVehicles);
        }
      }
      assert (forall i :: 0 <= i < |h| ==> h[i] >= 0) ==> TruncMean(h) >= 0 by {
        if forall i :: 0 <= i < |h| ==> h[i] >= 0 {
          TruncMeanAtLeast(h, 0);
        }
      }
      TruncMean(h)
  }

  /** `_apply_tolerance_checks` for one direction's reported counts `counts`
      against that direction's history `h` (which does not yet hold the value
      being computed). */
  function ToleranceChecks(h: seq<int>, counts: seq<int>): (r: int)
    ensures WithinThreshold(counts) == [] ==> r == Fallback(h)
    ensures WithinThreshold(counts) != [] ==>
      InRange(WithinThreshold(counts), r) || (|h| >= AnomalyMinHistory && r == TruncMean(h))
  {
    var survivors := WithinThreshold(counts);
    if survivors == [] then Fallback(h)
    else
      var candidate := Vote(survivors);
      if |h| >= AnomalyMinHistory && Anomalous(h, candidate) then TruncMean(h)
      else candidate
  }

  /** The validated count of one non-empty group of readings. */
  function Validate(useTolerance: bool, h: seq<int>, counts: seq<int>): (r: int)
    requires counts != []
    ensures !useTolerance ==> InRange(counts, r)
    ensures useTolerance ==> r == ToleranceChecks(h, counts)
  {
    TruncMeanWithin(counts);
    if useTolerance then ToleranceChecks(h, counts) else TruncMean(counts)
  }

  /** Appending a validated count to the bounded history: the oldest entry is
      evicted once the history would exceed its capacity. */
  function Record(h: seq<int>, v: int): (r: seq<int>)
    ensures |h| < HistoryCapacity ==> r == h + [v]
    ensures |h| >= HistoryCapacity ==> r == h[1..] + [v]
    ensures |h| <= HistoryCapacity ==> |r| <= HistoryCapacity
  {
    var appended := h + [v];
    if |appended| > HistoryCapacity then appended[1..] else appended
  }

  // ---------------------------------------------------------------------------
  // Properties of the vote

  /** The vote's median is one of the reported counts and lies between any
      bounds of them. */
  lemma MedianBetween(xs: seq<int>, lo: int, hi: int)
    requires xs != []
    requires forall i :: 0 <= i < |xs| ==> lo <= xs[i] <= hi
    ensures Median(xs) in multiset(xs)
    ensures lo <= Median(xs) <= hi
  {
    var s := SortAscending(xs);
    assert s[|xs| / 2] in multiset(s);
    assert s[|xs| / 2] in xs;
  }

  lemma {:induction false} CountAtMostLength(s: seq<int>, v: int)
    ensures multiset(s)[v] <= |s|
  {
    if s != [] {
      CountAtMostLength(s[1..], v);
      assert s == [s[0]] + s[1..];
    }
  }

  /** In a sorted sequence, a value outside the range of a slice does not
      occur in it; so its count is at most the length of the rest. */
  lemma CountOutsideSlice(s: seq<int>, k: nat, v: int)
    requires k <= |s|
    requires v !in s[..k]
    ensures multiset(s)[v] <= |s| - k
  {
    assert s == s[..k] + s[k..];
    assert multiset(s) == multiset(s[..k]) + multiset(s[k..]);
    assert multiset(s[..k])[v] == 0;
    CountAtMostLength(s[k..], v);
  }

  lemma CountAboveSorted(s: seq<int>, k: nat, v: int)
    requires SortedAscending(s) && k < |s| && s[k] < v
    ensures multiset(s)[v] <= |s| - k - 1
  {
    var prefix := s[..k + 1];
    assert forall i :: 0 <= i < |prefix| ==> prefix[i] <= s[k];
    CountOutsideSlice(s, k + 1, v);
  }

  lemma CountBelowSorted(s: seq<int>, k: nat, v: int)
    requires SortedAscending(s) && k < |s| && s[k] > v
    ensures multiset(s)[v] <= k
  {
    var suffix := s[k..];
    assert v !in suffix by {
      forall i | 0 <= i < |suffix|
        ensures suffix[i] != v
      {
        assert suffix[i] == s[k + i];
      }
    }
    assert s == s[..k] + suffix;
    assert multiset(s) == multiset(s[..k]) + multiset(suffix);
    CountAtMostLength(s[..k], v);
  }

  /** A value reported by a strict majority of the counts is their median:
      one outlier among three cannot move the vote. */
  lemma MajorityIsMedian(xs: seq<int>, v: int)
    requires 2 * multiset(xs)[v] > |xs|
    ensures xs != [] && Median(xs) == v
  {
    var s := SortAscending(xs);
    SortAscendingSorted(xs);
    var n, k := |xs|, |xs| / 2;
    assert 2 * k <= n <= 2 * k + 1;
    if s[k] < v {
      CountAboveSorted(s, k, v);
    } else if s[k] > v {
      CountBelowSorted(s, k, v);
    }
  }

  // ---------------------------------------------------------------------------
  // Properties of the anomaly test

  lemma {:induction false} SumSquaredDeviationNonNegative(h: seq<int>, m: real)
    ensures SumSquaredDeviation(h, m) >= 0.0
  {
    if h != [] {
      SumSquaredDeviationNonNegative(h[..|h| - 1], m);
    }
  }

  /** The squared comparison is exactly the source's `abs(v - mean) > 3.0 *
      std_dev` for the non-negative square root `sd` of the variance. */
  lemma StdDevForm(h: seq<int>, v: int, sd: real)
    requires h != []
    requires sd >= 0.0 && sd * sd == Variance(h)
    ensures Anomalous(h, v) <==> RealAbs(v as real - Mean(h)) > AnomalyThresholdSigma * sd
  {
    var x := v as real - Mean(h);
    var d := RealAbs(x);
    assert d * d == x * x by { if x < 0.0 { assert d == -x; } }
    var t := AnomalyThresholdSigma * sd;
    assert t * t == AnomalyThresholdSigma * AnomalyThresholdSigma * (sd * sd);
    if d > t {
      SquareLess(t, d);
    } else {
      SquareAtMost(d, t);
    }
  }

  function RealAbs(x: real): (r: real)
    ensures r >= 0.0
  {
    if x < 0.0 then -x else x
  }

  lemma SquareLess(a: real, b: real)
    requires 0.0 <= a < b
    ensures a * a < b * b
  {
    assert b * b - a * a == (b - a) * (b + a);
    assert (b - a) * (b + a) > 0.0 by { ProductPositive(b - a, b + a); }
  }

  lemma SquareAtMost(a: real, b: real)
    requires 0.0 <= a <= b
    ensures a * a <= b * b
  {
    if a < b { SquareLess(a, b); }
  }

  lemma ProductPositive(a: real, b: real)
    requires a > 0.0 && b > 0.0
    ensures a * b > 0.0
  {
  }

  lemma {:induction false} SumSquaredDeviationConstant(h: seq<int>, c: int)
    requires forall i :: 0 <= i < |h| ==> h[i] == c
    ensures SumSquaredDeviation(h, c as real) == 0.0
  {
    if h != [] {
      SumSquaredDeviationConstant(h[..|h| - 1], c);
    }
  }

  lemma MeanConstant(h: seq<int>, c: int)
    requires h != []
    requires forall i :: 0 <= i < |h| ==> h[i] == c
    ensures Mean(h) == c as real
  {
    var n := |h|;
    SumConstant(h, c);
    assert Sum(h) as real == (c * n) as real == c as real * n as real;
    RealCancel(c as real, n as real);
  }

  lemma RealCancel(c: real, n: real)
    requires n > 0.0
    ensures (c * n) / n == c
  {
  }

  /** Against a history that never varied, every other count is an anomaly and
      the history's own value is not. */
  lemma SteadyHistory(h: seq<int>, c: int, v: int)
    requires h != []
    requires forall i :: 0 <= i < |h| ==> h[i] == c
    ensures Mean(h) == c as real && Variance(h) == 0.0
    ensures Anomalous(h, v) <==> v != c
    ensures TruncMean(h) == c
  {
    MeanConstant(h, c);
    SumSquaredDeviationConstant(h, c);
    assert Variance(h) == 0.0 / |h| as real;
    TruncMeanConstant(h, c);
    var d := v as real - c as real;
    if v > c {
      ProductPositive(d, d);
    } else if v < c {
      ProductPositive(-d, -d);
      assert d * d == (-d) * (-d);
    }
  }

  // ---------------------------------------------------------------------------
  // Properties of the tolerance pipeline

  /** With every history entry within the lane capacity, so is the validated
      count, whatever the sensors report. */
  lemma ToleranceAtMostThreshold(h: seq<int>, counts: seq<int>)
    requires forall i :: 0 <= i < |h| ==> h[i] <= ThresholdMaxVehicles
    ensures ToleranceChecks(h, counts) <= ThresholdMaxVehicles
  {
    var survivors := WithinThreshold(counts);
    if survivors != [] {
      if |survivors| >= 3 {
        MedianBetween(survivors, Min(0, MinimumOf(survivors)), ThresholdMaxVehicles);
      } else {
        TruncMeanAtMost(survivors, ThresholdMaxVehicles);
      }
      if |h| >= AnomalyMinHistory {
        TruncMeanAtMost(h, ThresholdMaxVehicles);
      }
    }
  }

  function MinimumOf(xs: seq<int>): (m: int)
    requires xs != []
    ensures forall i :: 0 <= i < |xs| ==> m <= xs[i]
  {
    if |xs| == 1 then xs[0] else Min(xs[0], MinimumOf(xs[1..]))
  }

  lemma CountWithOther(s: seq<int>, i: nat, v: int)
    requires i < |s| && s[i] != v
    ensures multiset(s)[v] <= |s| - 1
  {
    assert s == s[..i] + [s[i]] + s[i + 1..];
    CountAtMostLength(s[..i], v);
    CountAtMostLength(s[i + 1..], v);
  }

  /** When every sensor reports more than the lane can hold, the fallback is
      used as it is: the anomaly check does not run on that path. */
  lemma AllImplausibleFallsBack(h: seq<int>, counts: seq<int>)
    requires forall i :: 0 <= i < |counts| ==> counts[i] > ThresholdMaxVehicles
    ensures ToleranceChecks(h, counts) == Fallback(h)
    ensures ToleranceChecks(h, counts) == if h == [] then DefaultFallback else TruncMean(h)
  {
    assert multiset(WithinThreshold(counts)) == multiset{};
  }

  /** With non-negative history and readings the validated count is
      non-negative. */
  lemma ToleranceNonNegative(h: seq<int>, counts: seq<int>)
    requires forall i :: 0 <= i < |h| ==> h[i] >= 0
    requires forall i :: 0 <= i < |counts| ==> counts[i] >= 0
    ensures ToleranceChecks(h, counts) >= 0
  {
    var survivors := WithinThreshold(counts);
    if survivors != [] {
      assert forall i :: 0 <= i < |survivors| ==> survivors[i] >= 0 by {
        forall i | 0 <= i < |survivors| ensures survivors[i] >= 0 {
          assert survivors[i] in multiset(survivors);
          assert survivors[i] in multiset(counts);
        }
      }
      if |survivors| >= 3 {
        MedianBetween(survivors, 0, ThresholdMaxVehicles);
      } else {
        TruncMeanAtLeast(survivors, 0);
      }
      if |h| >= AnomalyMinHistory {
        TruncMeanAtLeast(h, 0);
      }
    }
  }

  /** Redundancy: a plausible value reported by a strict majority of a
      direction's sensors is the validated count unless the anomaly check
      rejects that very value (one faulty sensor among three is outvoted, and
      a fault above the lane capacity is filtered out). */
  lemma MajorityOfSensorsDecides(h: seq<int>, counts: seq<int>, v: int)
    requires v <= ThresholdMaxVehicles
    requires 2 * multiset(counts)[v] > |counts|
    requires |h| < AnomalyMinHistory || !Anomalous(h, v)
    ensures ToleranceChecks(h, counts) == v
  {
    MajorityWinsVote(counts, v);
  }

  /** A plausible value reported by a strict majority is the vote. */
  lemma MajorityWinsVote(counts: seq<int>, v: int)
    requires v <= ThresholdMaxVehicles
    requires 2 * multiset(counts)[v] > |counts|
    ensures WithinThreshold(counts) != [] && Vote(WithinThreshold(counts)) == v
  {
    var survivors := WithinThreshold(counts);
    assert multiset(survivors)[v] == multiset(counts)[v];
    assert v in multiset(survivors);
    if |survivors| >= 3 {
      MajorityIsMedian(survivors, v);
    } else {
      forall i | 0 <= i < |survivors| ensures survivors[i] == v {
        if survivors[i] != v {
          CountWithOther(survivors, i, v);
        }
      }
      TruncMeanConstant(survivors, v);
    }
  }

  /** The anomaly step of the tolerance checks for any history of at least
      ten counts, stated with the standard deviation `sd`: a vote more than
      three deviations from the history mean is replaced by the mean's
      truncation, and a vote within three deviations is kept. */
  lemma AnomalyReplacesVote(h: seq<int>, counts: seq<int>, sd: real)
    requires |h| >= AnomalyMinHistory && WithinThreshold(counts) != []
    requires sd >= 0.0 && sd * sd == Variance(h)
    ensures RealAbs(Vote(WithinThreshold(counts)) as real - Mean(h)) > AnomalyThresholdSigma * sd ==>
      ToleranceChecks(h, counts) == TruncMean(h)
    ensures RealAbs(Vote(WithinThreshold(counts)) as real - Mean(h)) <= AnomalyThresholdSigma * sd ==>
      ToleranceChecks(h, counts) == Vote(WithinThreshold(counts))
  {
    StdDevForm(h, Vote(WithinThreshold(counts)), sd);
  }

  /** The scenario's false-data attack makes every sensor of a direction
      report the same value. Before ten counts are known, any such value
      within the lane capacity passes the tolerance checks unchanged:
      redundancy alone does not stop a coordinated attack. */
  lemma UniformReportsPassVote(h: seq<int>, counts: seq<int>, v: int)
    requires counts != [] && forall i :: 0 <= i < |counts| ==> counts[i] == v
    requires v <= ThresholdMaxVehicles && |h| < AnomalyMinHistory
    ensures ToleranceChecks(h, counts) == v
  {
    UniformCount(counts, v);
    MajorityOfSensorsDecides(h, counts, v);
  }

  lemma {:induction false} UniformCount(s: seq<int>, v: int)
    requires forall i :: 0 <= i < |s| ==> s[i] == v
    ensures multiset(s)[v] == |s|
  {
    if s != [] {
      assert s == [s[0]] + s[1..];
      UniformCount(s[1..], v);
    }
  }

  /** Against a history of at least ten identical counts `c`, the tolerance
      checks return `c` whatever the sensors report: implausible readings
      fall back to the history's mean, and a plausible vote other than `c`
      is an anomaly because the history has no spread. Recording `c` keeps
      the history steady, so from then on every count of that direction is
      `c`. */
  lemma SteadyHistoryLocksIn(h: seq<int>, counts: seq<int>, c: int)
    requires |h| >= AnomalyMinHistory && forall i :: 0 <= i < |h| ==> h[i] == c
    ensures ToleranceChecks(h, counts) == c
    ensures var h' := Record(h, ToleranceChecks(h, counts));
      |h'| >= AnomalyMinHistory && forall i :: 0 <= i < |h'| ==> h'[i] == c
  {
    var survivors := WithinThreshold(counts);
    if survivors == [] {
      SteadyHistory(h, c, c);
    } else {
      SteadyHistory(h, c, Vote(survivors));
    }
    var h' := Record(h, c);
    forall i | 0 <= i < |h'|
      ensures h'[i] == c
    {
      if i < |h'| - 1 {
        if |h| < HistoryCapacity { assert h'[i] == h[i]; } else { assert h'[i] == h[i + 1]; }
      }
    }
  }

  /** Without tolerance, a direction whose sensors all report `v` is
      validated as `v`: the attack goes straight through. */
  lemma NoToleranceFollowsUniformReports(h: seq<int>, counts: seq<int>, v: int)
    requires counts != [] && forall i :: 0 <= i < |counts| ==> counts[i] == v
    ensures Validate(false, h, counts) == v
  {
    TruncMeanConstant(counts, v);
  }
}
