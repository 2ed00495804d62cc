/**
 The layout arithmetic of the tiered worker history: how many tiers there are
 and how many points each one holds.
 */
module HistoryLayout {
  import opened Wrappers

  const DEFAULT_BASE_INTERVAL_SEC: nat := 120
  const DEFAULT_TIER_RATIO: nat := 3

  datatype Layout = Layout(
    maxPoints: nat,
    targetSpanSec: int,
    baseIntervalSec: nat,
    tierRatio: nat,
    capacities: seq<nat>,
    intervalsSec: seq<nat>)

  // ------------------------------------------------------------------
  // Reference definitions
  // ------------------------------------------------------------------

  function Pow(b: nat, e: nat): (r: nat)
    ensures b > 0 ==> r > 0
  {
    if e == 0 then 1 else b * Pow(b, e - 1)
  }

  function Sum(s: seq<nat>): nat {
    if s == [] then 0 else s[0] + Sum(s[1..])
  }

  /** The number of base intervals that `counts[i]` points of tier i stand for, all tiers together. */
  function Weighted(counts: seq<nat>, ratio: nat): nat {
    if counts == [] then 0 else counts[0] + ratio * Weighted(counts[1..], ratio)
  }

  function Distribute(total: nat, tierCount: nat): (r: seq<nat>)
    requires tierCount > 0
    ensures |r| == tierCount
  {
    seq(tierCount, i requires 0 <= i < tierCount => total / tierCount + if i < total % tierCount then 1 else 0)
  }

  /** Time that `tierCount` evenly filled tiers span. */
  function Span(maxPoints: nat, tierCount: nat, baseIntervalSec: nat, tierRatio: nat): nat
    requires tierCount > 0
  {
    baseIntervalSec * Weighted(Distribute(maxPoints, tierCount), tierRatio)
  }

  /** The layouts on which compaction is safe: every tier but the last can fill a whole bucket. */
  predicate Safe(capacities: seq<nat>, tierRatio: nat) {
    && tierRatio > 0
    && |capacities| > 0
    && (forall i :: 0 <= i < |capacities| ==> capacities[i] > 0)
    && (forall i :: 0 <= i < |capacities| - 1 ==> capacities[i] >= tierRatio)
  }

  // ------------------------------------------------------------------
  // Normalisers
  // ------------------------------------------------------------------

  /** `None` stands for every input that does not convert to a finite number. */
  function NormalizePositiveInteger(value: Option<real>, fallback: nat): (r: nat)
    ensures value.Some? && value.value >= 1.0 ==> r as real <= value.value < r as real + 1.0
    ensures value.None? || value.value < 1.0 ==> r == fallback
    ensures fallback > 0 ==> r > 0
  {
    if value.Some? && value.value.Floor > 0 then value.value.Floor else fallback
  }

  // ------------------------------------------------------------------
  // Lemmas about even distribution
  // ------------------------------------------------------------------

  lemma {:induction false} SumAppend(s: seq<nat>, x: nat)
    ensures Sum(s + [x]) == Sum(s) + x
  {
    if s == [] {
    } else {
      assert (s + [x])[1..] == s[1..] + [x];
      SumAppend(s[1..], x);
    }
  }

  lemma {:induction false} SumOfPrefixStep(total: nat, tierCount: nat, k: nat)
    requires 0 < k <= tierCount
    ensures Sum(Distribute(total, tierCount)[..k])
         == Sum(Distribute(total, tierCount)[..k - 1]) + total / tierCount + if k - 1 < total % tierCount then 1 else 0
  {
    var d := Distribute(total, tierCount);
    SumAppend(d[..k - 1], d[k - 1]);
    assert d[..k] == d[..k - 1] + [d[k - 1]];
  }

  lemma {:induction false} SumOfPrefix(total: nat, tierCount: nat, k: nat)
    requires 0 < tierCount && k <= tierCount
    ensures Sum(Distribute(total, tierCount)[..k])
         == k * (total / tierCount) + if k < total % tierCount then k else total % tierCount
  {
    var d, q := Distribute(total, tierCount), total / tierCount;
    if k == 0 {
      assert d[..0] == [];
    } else {
      SumOfPrefix(total, tierCount, k - 1);
      SumOfPrefixStep(total, tierCount, k);
      assert k * q == (k - 1) * q + q;
    }
  }

  /** The tiers share out exactly the points there are, as evenly as possible, the finer tiers first. */
  lemma {:induction false} DistributeIsEvenShare(total: nat, tierCount: nat)
    requires 0 < tierCount
    ensures Sum(Distribute(total, tierCount)) == total
    ensures forall i, j :: 0 <= i < j < tierCount ==>
              Distribute(total, tierCount)[j] <= Distribute(total, tierCount)[i] <= Distribute(total, tierCount)[j] + 1
  {
    var d := Distribute(total, tierCount);
    SumOfPrefix(total, tierCount, tierCount);
    assert d[..tierCount] == d;
    assert tierCount * (total / tierCount) + total % tierCount == total;
  }

  lemma MulMonotone(c: nat, a: int, b: int)
    requires a <= b
    ensures c * a <= c * b
  {
  }

  lemma QuotientAtLeast(total: nat, count: nat, ratio: nat)
    requires count > 0 && count * ratio <= total
    ensures total / count >= ratio
  {
    var q := total / count;
    assert total < count * (q + 1);
    if q + 1 <= ratio {
      MulMonotone(count, q + 1, ratio);
    }
  }

  /** Every tier count the layout loop tries gives tiers that can fill a whole bucket. */
  lemma DistributeIsSafe(maxPoints: nat, tierCount: nat, tierRatio: nat)
    requires maxPoints > 0 && tierRatio > 0
    requires tierCount == 1 || (tierCount > 1 && tierCount <= maxPoints / tierRatio)
    ensures Safe(Distribute(maxPoints, tierCount), tierRatio)
    ensures tierCount > 1 ==> forall i :: 0 <= i < tierCount ==> Distribute(maxPoints, tierCount)[i] >= tierRatio
  {
    if tierCount > 1 {
      assert tierCount * tierRatio <= (maxPoints / tierRatio) * tierRatio <= maxPoints;
      QuotientAtLeast(maxPoints, tierCount, tierRatio);
    }
  }

  // ------------------------------------------------------------------
  // The operations
  // ------------------------------------------------------------------

  method DistributeCapacity(totalPoints: nat, tierCount: nat) returns (capacities: seq<nat>)
    requires tierCount > 0
    ensures capacities == Distribute(totalPoints, tierCount)
  {
    var base := totalPoints / tierCount;
    var remainder := totalPoints % tierCount;
    capacities := [];
    for index := 0 to tierCount
      invariant capacities == Distribute(totalPoints, tierCount)[..index]
    {
      capacities := capacities + [base + if index < remainder then 1 else 0];
    }
  }

  lemma {:induction false} WeightedAppend(s: seq<nat>, x: nat, ratio: nat)
    ensures Weighted(s + [x], ratio) == Weighted(s, ratio) + x * Pow(ratio, |s|)
  {
    if s == [] {
      assert [x][1..] == [];
    } else {
      assert (s + [x])[1..] == s[1..] + [x];
      WeightedAppend(s[1..], x, ratio);
      var p := Pow(ratio, |s| - 1);
      assert ratio * (Weighted(s[1..], ratio) + x * p) == ratio * Weighted(s[1..], ratio) + x * (ratio * p);
    }
  }

  /** Sums the tiers left to right with explicit powers; the reference sums them inside out. */
  method CalculateCoverage(capacities: seq<nat>, baseIntervalSec: nat, tierRatio: nat) returns (coverage: nat)
    ensures coverage == baseIntervalSec * Weighted(capacities, tierRatio)
  {
    coverage := 0;
    for index := 0 to |capacities|
      invariant coverage == baseIntervalSec * Weighted(capacities[..index], tierRatio)
    {
      WeightedAppend(capacities[..index], capacities[index], tierRatio);
      assert capacities[..index + 1] == capacities[..index] + [capacities[index]];
      var p := Pow(tierRatio, index);
      assert baseIntervalSec * (Weighted(capacities[..index], tierRatio) + capacities[index] * p)
          == baseIntervalSec * Weighted(capacities[..index], tierRatio) + capacities[index] * baseIntervalSec * p;
      coverage := coverage + capacities[index] * baseIntervalSec * p;
    }
    assert capacities[..|capacities|] == capacities;
  }

  function Max(a: int, b: int): int { if a < b then b else a }

  /** The tier count is the first whose span covers the target, or the most there can be. */
  ghost predicate FewestTiers(n: nat, maxPoints: nat, targetSpanSec: int, baseIntervalSec: nat, tierRatio: nat)
    requires tierRatio > 0
  {
    && 1 <= n <= Max(1, maxPoints / tierRatio)
    && (forall k: nat :: 1 <= k < n ==> Span(maxPoints, k, baseIntervalSec, tierRatio) < targetSpanSec)
    && (n == Max(1, maxPoints / tierRatio) || Span(maxPoints, n, baseIntervalSec, tierRatio) >= targetSpanSec)
  }

  lemma TierCountInRange(n: nat, maxPoints: nat, targetSpanSec: int, baseIntervalSec: nat, tierRatio: nat)
    requires tierRatio > 0 && FewestTiers(n, maxPoints, targetSpanSec, baseIntervalSec, tierRatio)
    ensures n == 1 || (n > 1 && n <= maxPoints / tierRatio)
  {
  }

  method ChooseCapacities(maxPoints: nat, targetSpanSec: int, baseIntervalSec: nat, tierRatio: nat)
    returns (capacities: seq<nat>)
    requires maxPoints > 0 && tierRatio > 0
    ensures |capacities| > 0 && capacities == Distribute(maxPoints, |capacities|)
    ensures FewestTiers(|capacities|, maxPoints, targetSpanSec, baseIntervalSec, tierRatio)
  {
    var maxTierCount := Max(1, maxPoints / tierRatio);
    capacities := [maxPoints];
    var tierCount := 1;
    var covered := false;
    while tierCount <= maxTierCount && !covered
      invariant 1 <= tierCount <= maxTierCount + 1
      invariant tierCount == 1 ==> !covered
      invariant tierCount > 1 ==>
        && capacities == Distribute(maxPoints, tierCount - 1)
        && covered == (Span(maxPoints, tierCount - 1, baseIntervalSec, tierRatio) >= targetSpanSec)
      invariant forall k: nat :: 1 <= k < tierCount - 1 ==> Span(maxPoints, k, baseIntervalSec, tierRatio) < targetSpanSec
      decreases maxTierCount + 1 - tierCount
    {
      capacities := DistributeCapacity(maxPoints, tierCount);
      var coverage := CalculateCoverage(capacities, baseIntervalSec, tierRatio);
      covered := coverage >= targetSpanSec;
      tierCount := tierCount + 1;
    }
  }

  /** Uses the fewest tiers whose combined time span still covers the target, within the points there are. */
  method BuildTierLayout(statsBufferLength: Option<real>, statsBufferHours: Option<real>,
                         baseInterval: Option<real>, ratio: Option<real>) returns (layout: Layout)
    ensures layout.maxPoints == NormalizePositiveInteger(statsBufferLength, 1)
    ensures layout.baseIntervalSec == NormalizePositiveInteger(baseInterval, DEFAULT_BASE_INTERVAL_SEC)
    ensures layout.tierRatio == NormalizePositiveInteger(ratio, DEFAULT_TIER_RATIO)
    ensures layout.targetSpanSec == Max(layout.baseIntervalSec,
                                        ((if statsBufferHours.Some? then statsBufferHours.value else 1.0) * 3600.0).Floor)
    // capacities: exactly maxPoints, each big enough to be compacted
    ensures Sum(layout.capacities) == layout.maxPoints
    ensures Safe(layout.capacities, layout.tierRatio)
    ensures |layout.capacities| > 1 ==>
              forall i :: 0 <= i < |layout.capacities| ==> layout.capacities[i] >= layout.tierRatio
    ensures layout.capacities == Distribute(layout.maxPoints, |layout.capacities|)
    ensures FewestTiers(|layout.capacities|, layout.maxPoints, layout.targetSpanSec, layout.baseIntervalSec, layout.tierRatio)
    ensures |layout.intervalsSec| == |layout.capacities|
    ensures forall i :: 0 <= i < |layout.intervalsSec| ==>
              layout.intervalsSec[i] == layout.baseIntervalSec * Pow(layout.tierRatio, i)
  {
    hide Safe, Distribute, Sum, FewestTiers;
    var maxPoints := NormalizePositiveInteger(statsBufferLength, 1);
    var baseIntervalSec := NormalizePositiveInteger(baseInterval, DEFAULT_BASE_INTERVAL_SEC);
    var tierRatio := NormalizePositiveInteger(ratio, DEFAULT_TIER_RATIO);
    var hours := if statsBufferHours.Some? then statsBufferHours.value else 1.0;
    var targetSpanSec := Max(baseIntervalSec, (hours * 3600.0).Floor);
    var capacities := ChooseCapacities(maxPoints, targetSpanSec, baseIntervalSec, tierRatio);
    DistributeIsEvenShare(maxPoints, |capacities|);
    assert FewestTiers(|capacities|, maxPoints, targetSpanSec, baseIntervalSec, tierRatio);
    TierCountInRange(|capacities|, maxPoints, targetSpanSec, baseIntervalSec, tierRatio);
    DistributeIsSafe(maxPoints, |capacities|, tierRatio);
    layout := Layout(maxPoints, targetSpanSec, baseIntervalSec, tierRatio, capacities,
                     seq(|capacities|, i requires 0 <= i => baseIntervalSec * Pow(tierRatio, i)));
  }
}
