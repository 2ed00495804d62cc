/**
 The history operations the statistics worker calls, and what a whole run of
 them keeps: after any samples, each saved and read back, the stored payload
 is an exact summary of the newest of them.
 */
module WorkerHistoryRuns {
  import opened Wrappers
  import opened HistoryLayout
  import opened HistoryCascade
  import opened WorkerHistory

  // ------------------------------------------------------------------
  // Specification
  // ------------------------------------------------------------------

  function Reversed<T>(s: seq<T>): (r: seq<T>)
    ensures |r| == |s|
    ensures forall i :: 0 <= i < |s| ==> r[i] == s[|s| - 1 - i]
  {
    seq(|s|, i requires 0 <= i < |s| => s[|s| - 1 - i])
  }

  function NewestFirst(tiers: Tiers): seq<Point> {
    if tiers == [] then [] else Reversed(tiers[0]) + NewestFirst(tiers[1..])
  }

  /** A limit below one still lets the first point through. */
  function Limited(points: seq<Point>, maxPoints: Option<int>): seq<Point> {
    if maxPoints.None? || |points| <= Max(1, maxPoints.value) then points else points[..Max(1, maxPoints.value)]
  }

  /** The samples that are kept, in the order they came. */
  function Accepted(samples: seq<RawPoint>): (r: seq<Point>)
    ensures forall i :: 0 <= i < |r| ==> Stamped(r[i])
  {
    if samples == [] then []
    else
      var last := NormalizePoint(samples[|samples| - 1]);
      Accepted(samples[..|samples| - 1]) + if last.Some? then [last.value] else []
  }

  function Raw(p: Point): RawPoint { RawPoint(Some(p.ts as real), Some(p.hs), Some(p.hs2)) }

  function RawAll(points: seq<Point>): (r: seq<RawPoint>)
    ensures |r| == |points|
    ensures forall i :: 0 <= i < |r| ==> r[i] == Raw(points[i])
  {
    seq(|points|, i requires 0 <= i < |points| => Raw(points[i]))
  }

  predicate UsableLayout(layout: Layout) {
    Safe(layout.capacities, layout.tierRatio) && layout.baseIntervalSec > 0
  }

  predicate LayoutMatches(value: Stored, layout: Layout) {
    && value.baseIntervalSec == layout.baseIntervalSec
    && value.tierRatio == layout.tierRatio
    && value.capacities == layout.capacities
  }

  ghost function Filled(layout: Layout, points: seq<Point>): (r: Stored)
    requires UsableLayout(layout)
    ensures LayoutMatches(r, layout) && Usable(r)
  {
    EmptyBacked(layout.capacities, layout.tierRatio);
    Stored(layout.baseIntervalSec, layout.tierRatio, layout.capacities,
           AppendAll(Empty(layout.capacities), layout.capacities, layout.tierRatio, points))
  }

  /** What is read, or replayed into the new layout when the layout changed. */
  ghost function Opened(stored: Option<Stored>, layout: Layout): (r: Stored)
    requires UsableLayout(layout)
    ensures LayoutMatches(r, layout)
  {
    if stored.None? then Filled(layout, [])
    else if LayoutMatches(stored.value, layout) then stored.value
    else Filled(layout, Reversed(NewestFirst(stored.value.tiers)))
  }

  ghost predicate Usable(value: Stored) {
    Fits(value.tiers, value.capacities, value.tierRatio)
  }

  ghost function WithSample(value: Stored, sample: RawPoint): (r: Stored)
    requires Usable(value)
    ensures Usable(r)
  {
    var point := NormalizePoint(sample);
    if point.None? then value
    else value.(tiers := Append(value.tiers, value.capacities, value.tierRatio, point.value))
  }

  ghost function WithSamples(value: Stored, samples: seq<RawPoint>): (r: Stored)
    requires Usable(value)
    ensures Usable(r)
  {
    if samples == [] then value
    else WithSample(WithSamples(value, samples[..|samples| - 1]), samples[|samples| - 1])
  }

  // ------------------------------------------------------------------
  // Reading the points out
  // ------------------------------------------------------------------

  ghost predicate Reached(points: seq<Point>, maxPoints: Option<int>) {
    maxPoints.Some? && points != [] && |points| >= maxPoints.value
  }

  lemma LimitReached(all: seq<Point>, points: seq<Point>, maxPoints: Option<int>)
    requires points != [] && points <= all && Reached(points, maxPoints)
    requires !Reached(points[..|points| - 1], maxPoints)
    ensures points == Limited(all, maxPoints)
  {
  }

  lemma LimitNotReached(points: seq<Point>, maxPoints: Option<int>)
    requires !Reached(points, maxPoints)
    ensures points == Limited(points, maxPoints)
  {
  }

  lemma LimitOfLonger(a: seq<Point>, b: seq<Point>, maxPoints: Option<int>)
    requires Reached(Limited(a, maxPoints), maxPoints)
    ensures Limited(a + b, maxPoints) == Limited(a, maxPoints)
  {
  }

  lemma LimitNotReachedAll(a: seq<Point>, maxPoints: Option<int>)
    requires !Reached(Limited(a, maxPoints), maxPoints)
    ensures Limited(a, maxPoints) == a
  {
  }

  method PushNewestFirst(tier: Tier, soFar: seq<Point>, maxPoints: Option<int>, ghost capacity: nat, ghost contents: seq<Point>)
    returns (points: seq<Point>, full: bool)
    requires HoldsTier(tier, capacity, contents) && !Reached(soFar, maxPoints)
    ensures points == Limited(soFar + Reversed(contents), maxPoints)
    ensures full == Reached(points, maxPoints)
  {
    hide Reversed, Limited;
    points := soFar;
    var logicalIndex := tier.size;
    ghost var reversed := Reversed(contents);
    while logicalIndex > 0
      invariant 0 <= logicalIndex <= |contents|
      invariant points == soFar + reversed[..|contents| - logicalIndex]
      invariant !Reached(points, maxPoints)
    {
      logicalIndex := logicalIndex - 1;
      var point := tier.GetPoint(logicalIndex);
      points := points + [point];
      if maxPoints.Some? && |points| >= maxPoints.value {
        assert points == (soFar + reversed)[..|points|];
        LimitReached(soFar + reversed, points, maxPoints);
        return points, true;
      }
    }
    assert points == soFar + reversed;
    LimitNotReached(points, maxPoints);
    return points, false;
  }

  lemma {:induction false} NewestFirstSnoc(tiers: Tiers, tier: seq<Point>)
    ensures NewestFirst(tiers + [tier]) == NewestFirst(tiers) + Reversed(tier)
  {
    if tiers == [] {
      assert [tier][1..] == [];
    } else {
      assert (tiers + [tier])[1..] == tiers[1..] + [tier];
      NewestFirstSnoc(tiers[1..], tier);
    }
  }

  lemma {:induction false} NewestFirstPrefix(tiers: Tiers, k: nat)
    requires k <= |tiers|
    ensures NewestFirst(tiers) == NewestFirst(tiers[..k]) + NewestFirst(tiers[k..])
  {
    if k == 0 {
      assert tiers[0..] == tiers;
    } else {
      NewestFirstPrefix(tiers, k - 1);
      NewestFirstSnoc(tiers[..k - 1], tiers[k - 1]);
      assert tiers[..k] == tiers[..k - 1] + [tiers[k - 1]];
      assert tiers[k - 1..][1..] == tiers[k..];
    }
  }

  /** The points of all tiers, newest first, up to the limit. */
  method HistoryPoints(history: History, maxPoints: Option<int>, ghost value: Stored) returns (points: seq<Point>)
    requires history.Represents(value)
    ensures points == Limited(NewestFirst(value.tiers), maxPoints)
  {
    hide Reversed, Limited, HoldsTier;
    LimitNotReached([], maxPoints);
    points := [];
    for tierIndex := 0 to |history.tiers|
      invariant points == NewestFirst(value.tiers[..tierIndex]) && !Reached(points, maxPoints)
    {
      NewestFirstSnoc(value.tiers[..tierIndex], value.tiers[tierIndex]);
      assert value.tiers[..tierIndex + 1] == value.tiers[..tierIndex] + [value.tiers[tierIndex]];
      NewestFirstPrefix(value.tiers, tierIndex + 1);
      var full;
      points, full := PushNewestFirst(history.tiers[tierIndex], points, maxPoints,
                                      value.capacities[tierIndex], value.tiers[tierIndex]);
      if full {
        LimitOfLonger(NewestFirst(value.tiers[..tierIndex + 1]), NewestFirst(value.tiers[tierIndex + 1..]), maxPoints);
        return;
      }
      LimitNotReachedAll(NewestFirst(value.tiers[..tierIndex + 1]), maxPoints);
    }
    assert value.tiers[..|history.tiers|] == value.tiers;
    LimitNotReached(points, maxPoints);
  }

  // ------------------------------------------------------------------
  // Replaying and appending
  // ------------------------------------------------------------------

  lemma {:induction false} AcceptedRaw(points: seq<Point>)
    requires forall i :: 0 <= i < |points| ==> Stamped(points[i])
    ensures Accepted(RawAll(points)) == points
  {
    if points != [] {
      var n := |points| - 1;
      AcceptedRaw(points[..n]);
      assert RawAll(points)[..n] == RawAll(points[..n]);
      StampedIsNormal(points[n]);
      assert points == points[..n] + [points[n]];
    }
  }

  lemma {:induction false} NewestFirstStamped(tiers: Tiers)
    requires AllStamped(tiers)
    ensures forall i :: 0 <= i < |NewestFirst(tiers)| ==> Stamped(NewestFirst(tiers)[i])
  {
    if tiers != [] {
      forall i, j | 0 <= i < |tiers[1..]| && 0 <= j < |tiers[1..][i]|
        ensures Stamped(tiers[1..][i][j])
      {
        assert tiers[1..][i] == tiers[i + 1];
      }
      NewestFirstStamped(tiers[1..]);
    }
  }

  /** Appends a sample in place, or ignores what is not one. */
  method TakeSample(history: History, sample: RawPoint, ghost value: Stored)
    requires history.Represents(value) && Usable(value)
    modifies history.tiers, Buffers(history.tiers)
    ensures history.Represents(WithSample(value, sample))
  {
    var point := NormalizePoint(sample);
    if point.Some? {
      NormalizedIsStamped(sample);
      AppendToTier(history.tiers, history.capacities, history.tierRatio, point.value, value.tiers);
    }
  }

  method TakeNewestFirst(history: History, points: seq<RawPoint>, ghost value: Stored)
    requires history.Represents(value) && Usable(value)
    modifies history.tiers, Buffers(history.tiers)
    ensures history.Represents(WithSamples(value, Reversed(points)))
  {
    hide WithSample, Usable, Reversed;
    var index := |points|;
    ghost var oldestFirst := Reversed(points);
    ghost var now := value;
    while index > 0
      invariant 0 <= index <= |points|
      invariant now == WithSamples(value, oldestFirst[..|points| - index])
      invariant history.Represents(now)
    {
      index := index - 1;
      ghost var done := |points| - index;
      assert oldestFirst[..done][..done - 1] == oldestFirst[..done - 1];
      assert oldestFirst[..done][done - 1] == points[index];
      TakeSample(history, points[index], now);
      now := WithSample(now, points[index]);
    }
    assert oldestFirst[..|points|] == oldestFirst;
  }

  /** Taking samples into an empty history appends the accepted ones in turn. */
  lemma {:induction false} WithSamplesIsFilled(layout: Layout, samples: seq<RawPoint>)
    requires UsableLayout(layout)
    ensures WithSamples(Filled(layout, []), samples) == Filled(layout, Accepted(samples))
  {
    if samples != [] {
      var n := |samples| - 1;
      WithSamplesIsFilled(layout, samples[..n]);
      var before, point := Accepted(samples[..n]), NormalizePoint(samples[n]);
      if point.Some? {
        assert (before + [point.value])[..|before|] == before;
      } else {
        assert before + [] == before;
      }
    }
  }

  /** Fills an empty history from points listed newest first, skipping those that are not samples. */
  method ImportHistoryPoints(points: seq<RawPoint>, layout: Layout) returns (history: History)
    requires UsableLayout(layout)
    ensures fresh(history.tiers) && fresh(Buffers(history.tiers))
    ensures history.Represents(Filled(layout, Accepted(Reversed(points))))
  {
    history := CreateEmptyHistory(layout);
    TakeNewestFirst(history, points, Filled(layout, []));
    WithSamplesIsFilled(layout, Reversed(points));
  }

  /** Replays the points of a history into another layout. */
  method ReplayHistory(normalized: History, layout: Layout, ghost value: Stored) returns (history: History)
    requires UsableLayout(layout) && normalized.Represents(value) && AllStamped(value.tiers)
    ensures fresh(history.tiers) && fresh(Buffers(history.tiers))
    ensures history.Represents(Filled(layout, Reversed(NewestFirst(value.tiers))))
  {
    var points := HistoryPoints(normalized, None, value);
    NewestFirstStamped(value.tiers);
    AcceptedRaw(Reversed(points));
    assert Reversed(RawAll(points)) == RawAll(Reversed(points));
    history := ImportHistoryPoints(RawAll(points), layout);
  }

  /** Reads the stored history, replays it when the layout changed, or starts an empty one. */
  method GetWorkerHistoryState(payload: Payload, layout: Layout) returns (history: History)
    requires UsableLayout(layout)
    ensures fresh(history.tiers) && fresh(Buffers(history.tiers))
    ensures history.Represents(Opened(Read(payload), layout))
  {
    var normalized := NormalizeTieredHistoryPayload(payload);
    if normalized == null {
      history := CreateEmptyHistory(layout);
    } else {
      ghost var value := Read(payload).value;
      if normalized.baseIntervalSec == layout.baseIntervalSec && normalized.tierRatio == layout.tierRatio
         && normalized.capacities == layout.capacities {
        history := normalized;
      } else {
        history := ReplayHistory(normalized, layout, value);
      }
    }
  }

  lemma OpenedFits(payload: Payload, layout: Layout)
    requires UsableLayout(layout)
    ensures Usable(Opened(Read(payload), layout))
  {
  }

  /** Reads the payload, appends one sample and saves the result. */
  method AppendHistorySample(payload: Payload, layout: Layout, sample: RawPoint) returns (after: Payload)
    requires UsableLayout(layout)
    ensures var before := Opened(Read(payload), layout);
            && Usable(before)
            && Read(after) == Some(WithSample(before, sample))
  {
    var history := GetWorkerHistoryState(payload, layout);
    ghost var before := Opened(Read(payload), layout);
    OpenedFits(payload, layout);
    TakeSample(history, sample, before);
    after := SerializeHistory(history, WithSample(before, sample));
  }

  // ------------------------------------------------------------------
  // Whole runs
  // ------------------------------------------------------------------

  /** A run of samples from nothing, saved and read back around every one, is the run of the accepted points. */
  method AppendHistorySamples(layout: Layout, samples: seq<RawPoint>) returns (payload: Payload)
    requires UsableLayout(layout)
    ensures samples == [] ==> payload.Absent?
    ensures samples != [] ==> Read(payload) == Some(Filled(layout, Accepted(samples)))
  {
    payload := Absent;
    for i := 0 to |samples|
      invariant i == 0 ==> payload.Absent?
      invariant i > 0 ==> Read(payload) == Some(WithSamples(Filled(layout, []), samples[..i]))
      invariant LayoutMatches(WithSamples(Filled(layout, []), samples[..i]), layout)
    {
      assert samples[..i + 1][..i] == samples[..i];
      payload := AppendHistorySample(payload, layout, samples[i]);
    }
    assert samples[..|samples|] == samples;
    WithSamplesIsFilled(layout, samples);
  }

  /**
   The stored history is an exact multi-resolution summary of a contiguous suffix of the accepted samples:
   point j of tier i is the average of `ratio^i` consecutive samples stamped with the newest of them, the
   tiers tile the suffix, and the suffix is everything or at least the layout's floor.
   */
  lemma {:induction false} StoredHistoryIsExactSummary(layout: Layout, samples: seq<RawPoint>, i: nat, j: nat)
    requires UsableLayout(layout)
    ensures var accepted := Accepted(samples);
            var tiers := Filled(layout, accepted).tiers;
            var held := Weighted(Sizes(tiers), layout.tierRatio);
            && held <= |accepted|
            && Covers(tiers, 1, layout.tierRatio, accepted[|accepted| - held..])
            && (held == |accepted| || held >= Floor(layout.capacities, layout.tierRatio))
            && (i < |tiers| && j < |tiers[i]| ==>
                  Averages(tiers[i][j], accepted[|accepted| - held..],
                           Start(tiers, 1, layout.tierRatio, held, i, j), Pow(layout.tierRatio, i)))
  {
    var accepted := Accepted(samples);
    HistoryIsExactSummary(layout.capacities, layout.tierRatio, accepted);
    var tiers := Filled(layout, accepted).tiers;
    var held := Weighted(Sizes(tiers), layout.tierRatio);
    if i < |tiers| && j < |tiers[i]| {
      PointAt(tiers, 1, layout.tierRatio, accepted[|accepted| - held..], i, j);
    }
  }
}
