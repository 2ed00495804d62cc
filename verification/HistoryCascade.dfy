/**
 The tiered worker history on values: what one append does to the tiers, and
 what the tiers mean in terms of the samples appended so far.

 Tiers are listed finest first and each tier is listed oldest point first.
 Hash rates are reals: the rounding to single precision is not modelled.
 */
module HistoryCascade {
  import opened HistoryLayout

  /** A timestamp in milliseconds and two hash rates. */
  datatype Point = Point(ts: nat, hs: real, hs2: real)

  type Tiers = seq<seq<Point>>

  // ------------------------------------------------------------------
  // What a point of a coarse tier means
  // ------------------------------------------------------------------

  /** Which of the two hash rates. */
  datatype Rate = Hs | Hs2

  function Value(rate: Rate, p: Point): real {
    if rate == Hs then p.hs else p.hs2
  }

  function Total(rate: Rate, s: seq<Point>): real {
    if s == [] then 0.0 else Value(rate, s[0]) + Total(rate, s[1..])
  }

  /** The mean of the samples, stamped with the newest of them. */
  function Average(s: seq<Point>): Point
    requires s != []
  {
    Point(s[|s| - 1].ts, Total(Hs, s) / |s| as real, Total(Hs2, s) / |s| as real)
  }

  /** x added up n times. */
  function Times(x: real, n: nat): real {
    if n == 0 then 0.0 else x + Times(x, n - 1)
  }

  /** The same without dividing: as many times as there are samples, the point's rates are the samples' totals. */
  ghost predicate IsAverage(p: Point, s: seq<Point>)
    requires s != []
  {
    && p.ts == s[|s| - 1].ts
    && Times(p.hs, |s|) == Total(Hs, s)
    && Times(p.hs2, |s|) == Total(Hs2, s)
  }

  /** `samples` falls into consecutive blocks of `weight` samples, one per point, each point the average of its block. */
  ghost predicate TierCovers(points: seq<Point>, weight: nat, samples: seq<Point>)
    requires weight > 0
  {
    if points == [] then
      samples == []
    else
      && |samples| >= weight
      && IsAverage(points[0], samples[..weight])
      && TierCovers(points[1..], weight, samples[weight..])
  }

  /**
   The tiers, read coarsest to finest, are an exact summary of `samples`: the finest tier covers the
   newest samples with `weight` of them to a point, the next tier the samples just before those with
   `weight * ratio` of them to a point, and so on, with no gap and no overlap.
   */
  ghost predicate Covers(tiers: Tiers, weight: nat, ratio: nat, samples: seq<Point>)
    requires weight > 0 && ratio > 0
    decreases |tiers|
  {
    if tiers == [] then
      samples == []
    else
      var newest := |tiers[0]| * weight;
      && newest <= |samples|
      && TierCovers(tiers[0], weight, samples[|samples| - newest..])
      && Covers(tiers[1..], weight * ratio, ratio, samples[..|samples| - newest])
  }

  /** How many samples the points of all the tiers stand for. */
  function Sizes(tiers: Tiers): (r: seq<nat>)
    ensures |r| == |tiers|
  {
    seq(|tiers|, i requires 0 <= i < |tiers| => |tiers[i]|)
  }

  // ------------------------------------------------------------------
  // One append
  // ------------------------------------------------------------------

  ghost predicate Fits(tiers: Tiers, capacities: seq<nat>, ratio: nat) {
    && Safe(capacities, ratio)
    && |tiers| == |capacities|
    && forall i :: 0 <= i < |tiers| ==> |tiers[i]| <= capacities[i]
  }

  lemma TailFits(tiers: Tiers, capacities: seq<nat>, ratio: nat)
    requires Fits(tiers, capacities, ratio) && |tiers| > 1
    ensures Fits(tiers[1..], capacities[1..], ratio)
  {
  }

  /** The effect of `appendToTier` on the first of the given tiers and, when it overflows, on the coarser ones. */
  ghost function Append(tiers: Tiers, capacities: seq<nat>, ratio: nat, p: Point): (r: Tiers)
    requires Fits(tiers, capacities, ratio)
    ensures Fits(r, capacities, ratio)
    decreases |tiers|
  {
    if |tiers[0]| < capacities[0] then
      [tiers[0] + [p]] + tiers[1..]
    else if |tiers| == 1 then
      [tiers[0][1..] + [p]]
    else
      [tiers[0][ratio..] + [p]] + Append(tiers[1..], capacities[1..], ratio, Average(tiers[0][..ratio]))
  }

  ghost function AppendAll(tiers: Tiers, capacities: seq<nat>, ratio: nat, points: seq<Point>): (r: Tiers)
    requires Fits(tiers, capacities, ratio)
    ensures Fits(r, capacities, ratio)
  {
    if points == [] then tiers
    else Append(AppendAll(tiers, capacities, ratio, points[..|points| - 1]), capacities, ratio, points[|points| - 1])
  }

  function Empty(capacities: seq<nat>): Tiers {
    seq(|capacities|, _ => [])
  }

  // ------------------------------------------------------------------
  // Averages of averages
  // ------------------------------------------------------------------

  lemma {:induction false} TotalConcat(rate: Rate, a: seq<Point>, b: seq<Point>)
    ensures Total(rate, a + b) == Total(rate, a) + Total(rate, b)
  {
    if a == [] {
      assert a + b == b;
    } else {
      assert (a + b)[1..] == a[1..] + b;
      TotalConcat(rate, a[1..], b);
    }
  }

  lemma {:induction false} TotalAppend(rate: Rate, s: seq<Point>, p: Point)
    ensures Total(rate, s + [p]) == Total(rate, s) + Value(rate, p)
  {
    TotalConcat(rate, s, [p]);
    assert [p][1..] == [];
  }

  lemma {:induction false} TimesIsProduct(x: real, n: nat)
    ensures Times(x, n) == x * n as real
  {
    if n > 0 {
      TimesIsProduct(x, n - 1);
      assert n as real == (n - 1) as real + 1.0;
      assert x * n as real == x * (n - 1) as real + x;
    }
  }

  lemma QuotientIsUnique(x: real, sum: real, n: nat)
    requires n > 0
    ensures Times(x, n) == sum <==> x == sum / n as real
  {
    TimesIsProduct(x, n);
  }

  lemma AverageIsUnique(p: Point, s: seq<Point>)
    requires s != []
    ensures IsAverage(p, s) <==> p == Average(s)
  {
    QuotientIsUnique(p.hs, Total(Hs, s), |s|);
    QuotientIsUnique(p.hs2, Total(Hs2, s), |s|);
  }

  lemma {:induction false} TimesAdd(a: real, b: real, n: nat)
    ensures Times(a + b, n) == Times(a, n) + Times(b, n)
  {
    if n > 0 {
      TimesAdd(a, b, n - 1);
    }
  }

  lemma {:induction false} TimesSum(x: real, m: nat, n: nat)
    ensures Times(x, m + n) == Times(x, m) + Times(x, n)
  {
    if m > 0 {
      TimesSum(x, m - 1, n);
    }
  }

  lemma {:induction false} TimesTimes(x: real, n: nat, w: nat)
    ensures Times(Times(x, n), w) == Times(x, n * w)
  {
    if w == 0 {
      assert n * w == 0;
    } else {
      TimesTimes(x, n, w - 1);
      assert n * w == n + n * (w - 1);
      TimesSum(x, n, n * (w - 1));
    }
  }

  lemma {:induction false} TierCoversLength(points: seq<Point>, weight: nat, samples: seq<Point>)
    requires weight > 0 && TierCovers(points, weight, samples)
    ensures |samples| == |points| * weight
    ensures points != [] ==> samples != [] && points[|points| - 1].ts == samples[|samples| - 1].ts
  {
    if points != [] {
      TierCoversLength(points[1..], weight, samples[weight..]);
      assert |points| * weight == (|points| - 1) * weight + weight;
    }
  }

  lemma {:induction false} TotalSplit(rate: Rate, samples: seq<Point>, k: nat)
    requires k <= |samples|
    ensures Total(rate, samples) == Total(rate, samples[..k]) + Total(rate, samples[k..])
  {
    TotalConcat(rate, samples[..k], samples[k..]);
    assert samples[..k] + samples[k..] == samples;
  }

  /** A covered stretch has the total that its points stand for. */
  lemma {:induction false} TierCoversTotal(rate: Rate, points: seq<Point>, weight: nat, samples: seq<Point>)
    requires weight > 0 && TierCovers(points, weight, samples)
    ensures Times(Total(rate, points), weight) == Total(rate, samples)
  {
    if points == [] {
      TimesIsProduct(0.0, weight);
    } else {
      TierCoversTotal(rate, points[1..], weight, samples[weight..]);
      TimesAdd(Value(rate, points[0]), Total(rate, points[1..]), weight);
      TotalSplit(rate, samples, weight);
    }
  }

  /** Averaging equal-sized blocks and then averaging the averages is averaging the samples. */
  lemma {:induction false} AverageOfAverages(points: seq<Point>, weight: nat, samples: seq<Point>, p: Point)
    requires weight > 0 && points != [] && TierCovers(points, weight, samples)
    requires IsAverage(p, points)
    ensures samples != [] && IsAverage(p, samples)
  {
    TierCoversLength(points, weight, samples);
    TierCoversTotal(Hs, points, weight, samples);
    TierCoversTotal(Hs2, points, weight, samples);
    TimesTimes(p.hs, |points|, weight);
    TimesTimes(p.hs2, |points|, weight);
  }

  // ------------------------------------------------------------------
  // Splitting and extending one tier
  // ------------------------------------------------------------------

  lemma {:induction false} TierCoversExtend(points: seq<Point>, weight: nat, samples: seq<Point>, p: Point, block: seq<Point>)
    requires weight > 0 && TierCovers(points, weight, samples)
    requires |block| == weight && IsAverage(p, block)
    ensures TierCovers(points + [p], weight, samples + block)
  {
    hide IsAverage;
    var more := samples + block;
    if points == [] {
      assert more == block && block[..weight] == block && block[weight..] == [];
      assert TierCovers([p][1..], weight, more[weight..]);
    } else {
      TierCoversExtend(points[1..], weight, samples[weight..], p, block);
      assert more[..weight] == samples[..weight];
      assert more[weight..] == samples[weight..] + block;
      assert (points + [p])[1..] == points[1..] + [p];
    }
  }

  lemma {:induction false} TierCoversSplit(points: seq<Point>, weight: nat, samples: seq<Point>, k: nat)
    requires weight > 0 && k <= |points| && TierCovers(points, weight, samples)
    ensures k * weight <= |samples|
    ensures TierCovers(points[..k], weight, samples[..k * weight])
    ensures TierCovers(points[k..], weight, samples[k * weight..])
  {
    hide IsAverage;
    if k == 0 {
      assert points[..0] == [] && points[0..] == points;
      assert samples[..0] == [] && samples[0..] == samples;
    } else {
      var rest := samples[weight..];
      TierCoversSplit(points[1..], weight, rest, k - 1);
      var m := (k - 1) * weight;
      assert k * weight == m + weight;
      assert points[1..][..k - 1] == points[..k][1..];
      assert points[1..][k - 1..] == points[k..];
      assert rest[..m] == samples[..m + weight][weight..];
      assert rest[m..] == samples[m + weight..];
      assert samples[..m + weight][..weight] == samples[..weight];
    }
  }

  /** The same statement by index: point j is the average of samples j*weight up to (j+1)*weight. */
  lemma {:induction false} TierCoversAt(points: seq<Point>, weight: nat, samples: seq<Point>, j: nat)
    requires weight > 0 && j < |points| && TierCovers(points, weight, samples)
    ensures 0 <= j * weight < (j + 1) * weight <= |samples|
    ensures points[j] == Average(samples[j * weight..(j + 1) * weight])
  {
    TierCoversSplit(points, weight, samples, j);
    assert (j + 1) * weight == j * weight + weight;
    assert samples[j * weight..][..weight] == samples[j * weight..(j + 1) * weight];
    AverageIsUnique(points[j], samples[j * weight..(j + 1) * weight]);
  }

  // ------------------------------------------------------------------
  // The cascade keeps the summary exact
  // ------------------------------------------------------------------

  lemma {:induction false} CoversCons(tier: seq<Point>, coarser: Tiers, weight: nat, ratio: nat, old': seq<Point>, newest: seq<Point>)
    requires weight > 0 && ratio > 0
    requires TierCovers(tier, weight, newest)
    requires Covers(coarser, weight * ratio, ratio, old')
    ensures Covers([tier] + coarser, weight, ratio, old' + newest)
  {
    TierCoversLength(tier, weight, newest);
    var samples := old' + newest;
    assert samples[|samples| - |newest|..] == newest;
    assert samples[..|samples| - |newest|] == old';
    assert ([tier] + coarser)[1..] == coarser;
  }

  lemma {:induction false} CoversSplit(tiers: Tiers, weight: nat, ratio: nat, samples: seq<Point>)
    returns (older: seq<Point>, newer: seq<Point>)
    requires weight > 0 && ratio > 0 && tiers != []
    requires Covers(tiers, weight, ratio, samples)
    ensures samples == older + newer
    ensures TierCovers(tiers[0], weight, newer)
    ensures Covers(tiers[1..], weight * ratio, ratio, older)
  {
    var n := |tiers[0]| * weight;
    older, newer := samples[..|samples| - n], samples[|samples| - n..];
  }

  lemma {:induction false} AppendToRoomCovers(tiers: Tiers, weight: nat, ratio: nat, samples: seq<Point>, p: Point, block: seq<Point>)
    requires tiers != [] && weight > 0 && ratio > 0
    requires Covers(tiers, weight, ratio, samples)
    requires |block| == weight && IsAverage(p, block)
    ensures Covers([tiers[0] + [p]] + tiers[1..], weight, ratio, samples + block)
  {
    hide *;
    var older, newer := CoversSplit(tiers, weight, ratio, samples);
    TierCoversExtend(tiers[0], weight, newer, p, block);
    CoversCons(tiers[0] + [p], tiers[1..], weight, ratio, older, newer + block);
    assert samples + block == older + (newer + block);
  }

  lemma NoTiersCoverNothing(weight: nat, ratio: nat, samples: seq<Point>)
    requires weight > 0 && ratio > 0
    ensures Covers([], weight, ratio, samples) <==> samples == []
  {
  }

  lemma TierCoversTail(points: seq<Point>, weight: nat, samples: seq<Point>)
    requires weight > 0 && points != [] && TierCovers(points, weight, samples)
    ensures weight <= |samples| && TierCovers(points[1..], weight, samples[weight..])
  {
  }

  lemma {:induction false} DropFromLastCovers(tier: seq<Point>, weight: nat, ratio: nat, samples: seq<Point>, p: Point, block: seq<Point>)
    requires tier != [] && weight > 0 && ratio > 0
    requires Covers([tier], weight, ratio, samples)
    requires |block| == weight && IsAverage(p, block)
    ensures weight <= |samples|
    ensures Covers([tier[1..] + [p]], weight, ratio, (samples + block)[weight..])
  {
    hide *;
    var older, newer := CoversSplit([tier], weight, ratio, samples);
    assert [tier][1..] == [];
    NoTiersCoverNothing(weight * ratio, ratio, older);
    TierCoversTail(tier, weight, newer);
    TierCoversExtend(tier[1..], weight, newer[weight..], p, block);
    CoversCons(tier[1..] + [p], [], weight, ratio, [], newer[weight..] + block);
    assert (samples + block)[weight..] == [] + (newer[weight..] + block);
    assert [tier[1..] + [p]] + [] == [tier[1..] + [p]];
  }

  /**
   Appending a point that is the average of the next `weight` samples gives an exact summary again: of
   all the samples, or of all but the `dropped` oldest ones, and then only when the coarsest tier was full.
   */
  lemma {:induction false} AppendCovers(tiers: Tiers, capacities: seq<nat>, ratio: nat, weight: nat, samples: seq<Point>,
                     p: Point, block: seq<Point>) returns (dropped: nat)
    requires Fits(tiers, capacities, ratio) && weight > 0
    requires Covers(tiers, weight, ratio, samples)
    requires |block| == weight && IsAverage(p, block)
    ensures dropped <= |samples|
    ensures Covers(Append(tiers, capacities, ratio, p), weight, ratio, (samples + block)[dropped..])
    ensures dropped > 0 ==> LastFull(tiers, capacities)
    decreases |tiers|
  {
    if |tiers[0]| < capacities[0] {
      dropped := 0;
      AppendToRoomCovers(tiers, weight, ratio, samples, p, block);
      assert (samples + block)[0..] == samples + block;
    } else if |tiers| == 1 {
      dropped := weight;
      assert tiers == [tiers[0]];
      DropFromLastCovers(tiers[0], weight, ratio, samples, p, block);
    } else {
      TailFits(tiers, capacities, ratio);
      var older, newer := CoversSplit(tiers, weight, ratio, samples);
      var bucket, kept := SpillBucket(tiers[0], weight, ratio, newer, p, block);
      var q := Average(tiers[0][..ratio]);
      dropped := AppendCovers(tiers[1..], capacities[1..], ratio, weight * ratio, older, q, bucket);
      assert samples + block == older + (bucket + kept) + block;
      Reassemble(tiers[0][ratio..] + [p], Append(tiers[1..], capacities[1..], ratio, q), weight, ratio,
                 older, bucket, kept, block, dropped);
    }
  }

  lemma {:induction false} Reassemble(tier: seq<Point>, coarser: Tiers, weight: nat, ratio: nat,
                   older: seq<Point>, bucket: seq<Point>, kept: seq<Point>, block: seq<Point>, dropped: nat)
    requires weight > 0 && ratio > 0 && dropped <= |older|
    requires TierCovers(tier, weight, kept + block)
    requires Covers(coarser, weight * ratio, ratio, (older + bucket)[dropped..])
    ensures Covers([tier] + coarser, weight, ratio, (older + (bucket + kept) + block)[dropped..])
  {
    CoversCons(tier, coarser, weight, ratio, (older + bucket)[dropped..], kept + block);
    assert (older + (bucket + kept) + block)[dropped..] == (older + bucket)[dropped..] + (kept + block);
  }

  /** The oldest `ratio` points of a tier are together the average of the samples they cover. */
  lemma {:induction false} SpillBucket(tier: seq<Point>, weight: nat, ratio: nat, newer: seq<Point>, p: Point, block: seq<Point>)
    returns (bucket: seq<Point>, kept: seq<Point>)
    requires weight > 0 && 0 < ratio <= |tier| && TierCovers(tier, weight, newer)
    requires |block| == weight && IsAverage(p, block)
    ensures newer == bucket + kept && |bucket| == weight * ratio
    ensures bucket != [] && IsAverage(Average(tier[..ratio]), bucket)
    ensures TierCovers(tier[ratio..] + [p], weight, kept + block)
  {
    TierCoversSplit(tier, weight, newer, ratio);
    bucket, kept := newer[..ratio * weight], newer[ratio * weight..];
    AverageIsUnique(Average(tier[..ratio]), tier[..ratio]);
    AverageOfAverages(tier[..ratio], weight, bucket, Average(tier[..ratio]));
    TierCoversExtend(tier[ratio..], weight, kept, p, block);
  }

  /** `p` is the average of the `block` samples from `start` on. */
  ghost predicate Averages(p: Point, samples: seq<Point>, start: int, block: nat) {
    && 0 <= start < start + block <= |samples|
    && p == Average(samples[start..start + block])
  }

  lemma AveragesInLonger(p: Point, before: seq<Point>, samples: seq<Point>, after: seq<Point>, start: int, block: nat)
    requires Averages(p, samples, start, block)
    ensures Averages(p, before + samples + after, |before| + start, block)
  {
    assert samples[start..start + block]
        == (before + samples + after)[|before| + start..|before| + start + block];
  }

  /** Where block j of tier i starts, counted from the oldest sample. */
  ghost function Start(tiers: Tiers, weight: nat, ratio: nat, count: int, i: nat, j: nat): int
    requires i < |tiers|
  {
    count - weight * Weighted(Sizes(tiers)[..i + 1], ratio) + j * (weight * Pow(ratio, i))
  }

  lemma StartOfFirst(tiers: Tiers, weight: nat, ratio: nat, count: int, j: nat)
    requires tiers != []
    ensures weight * Pow(ratio, 0) == weight
    ensures Start(tiers, weight, ratio, count, 0, j) == count - |tiers[0]| * weight + j * weight
  {
    assert Sizes(tiers)[..1] == [|tiers[0]|];
    assert [|tiers[0]|][1..] == [];
    assert Weighted([|tiers[0]|], ratio) == |tiers[0]|;
    assert Pow(ratio, 0) == 1;
  }

  lemma StartOfCoarser(tiers: Tiers, weight: nat, ratio: nat, count: int, i: nat, j: nat)
    requires 0 < i < |tiers|
    ensures weight * Pow(ratio, i) == weight * ratio * Pow(ratio, i - 1)
    ensures Start(tiers, weight, ratio, count, i, j)
         == Start(tiers[1..], weight * ratio, ratio, count - |tiers[0]| * weight, i - 1, j)
  {
    var sizes := Sizes(tiers)[..i + 1];
    assert sizes[1..] == Sizes(tiers[1..])[..i];
    WeighedSum(weight, ratio, |tiers[0]|, Weighted(sizes[1..], ratio));
    assert weight * Pow(ratio, i) == weight * ratio * Pow(ratio, i - 1);
  }

  lemma FirstPointAt(tier: seq<Point>, weight: nat, older: seq<Point>, newer: seq<Point>, j: nat)
    requires weight > 0 && j < |tier| && TierCovers(tier, weight, newer)
    ensures |newer| == |tier| * weight
    ensures Averages(tier[j], older + newer, |older| + j * weight, weight)
  {
    TierCoversLength(tier, weight, newer);
    TierCoversAt(tier, weight, newer, j);
    assert (j + 1) * weight == j * weight + weight;
    AveragesInLonger(tier[j], older, newer, [], j * weight, weight);
    assert older + newer + [] == older + newer;
  }

  /**
   The summary by index: point j of tier i is the average of the `weight * ratio^i` consecutive samples
   that start j such blocks after the oldest sample the tiers 0 to i reach back to.
   */
  lemma {:induction false} PointAt(tiers: Tiers, weight: nat, ratio: nat, samples: seq<Point>, i: nat, j: nat)
    requires weight > 0 && ratio > 0 && Covers(tiers, weight, ratio, samples)
    requires i < |tiers| && j < |tiers[i]|
    ensures Averages(tiers[i][j], samples, Start(tiers, weight, ratio, |samples|, i, j), weight * Pow(ratio, i))
    decreases i
  {
    hide *;
    var older, newer := CoversSplit(tiers, weight, ratio, samples);
    if i == 0 {
      FirstPointAt(tiers[0], weight, older, newer, j);
      StartOfFirst(tiers, weight, ratio, |samples|, j);
    } else {
      TierCoversLength(tiers[0], weight, newer);
      PointAt(tiers[1..], weight * ratio, ratio, older, i - 1, j);
      var start, block := Start(tiers[1..], weight * ratio, ratio, |older|, i - 1, j), weight * ratio * Pow(ratio, i - 1);
      AveragesInLonger(tiers[i][j], [], older, newer, start, block);
      assert [] + older + newer == samples;
      StartOfCoarser(tiers, weight, ratio, |samples|, i, j);
    }
  }

  // ------------------------------------------------------------------
  // How much the tiers must hold
  // ------------------------------------------------------------------

  ghost predicate LastFull(tiers: Tiers, capacities: seq<nat>)
    requires |tiers| == |capacities| > 0
  {
    |tiers[|tiers| - 1]| == capacities[|tiers| - 1]
  }

  /** Once a tier has spilled into the next one, it keeps all but at most `ratio - 1` of its points. */
  ghost predicate Backed(tiers: Tiers, capacities: seq<nat>, ratio: nat)
    requires |tiers| == |capacities|
    decreases |tiers|
  {
    |tiers| > 1 ==>
      && (tiers[1] != [] ==> |tiers[0]| >= capacities[0] - ratio + 1)
      && Backed(tiers[1..], capacities[1..], ratio)
  }

  lemma {:induction false} AppendBacked(tiers: Tiers, capacities: seq<nat>, ratio: nat, p: Point)
    requires Fits(tiers, capacities, ratio) && Backed(tiers, capacities, ratio)
    ensures Backed(Append(tiers, capacities, ratio, p), capacities, ratio)
    ensures LastFull(tiers, capacities) ==> LastFull(Append(tiers, capacities, ratio, p), capacities)
    decreases |tiers|
  {
    var after := Append(tiers, capacities, ratio, p);
    if |tiers[0]| < capacities[0] {
      assert after[1..] == tiers[1..];
    } else if |tiers| > 1 {
      TailFits(tiers, capacities, ratio);
      var q := Average(tiers[0][..ratio]);
      AppendBacked(tiers[1..], capacities[1..], ratio, q);
      assert after[1..] == Append(tiers[1..], capacities[1..], ratio, q);
    }
  }

  /** The least number of samples a history holds once it has dropped any. */
  function Floor(capacities: seq<nat>, ratio: nat): int {
    if capacities == [] then 0
    else if |capacities| == 1 then capacities[0]
    else capacities[0] - ratio + 1 + ratio * Floor(capacities[1..], ratio)
  }

  lemma ScaleMonotone(r: nat, a: int, b: int)
    requires a <= b
    ensures r * a <= r * b
  {
  }

  lemma {:induction false} FullHoldsFloor(tiers: Tiers, capacities: seq<nat>, ratio: nat)
    requires Fits(tiers, capacities, ratio) && Backed(tiers, capacities, ratio) && LastFull(tiers, capacities)
    ensures tiers[0] != []
    ensures Weighted(Sizes(tiers), ratio) >= Floor(capacities, ratio)
    decreases |tiers|
  {
    assert Sizes(tiers)[1..] == Sizes(tiers[1..]);
    if |tiers| == 1 {
      assert Sizes(tiers) == [capacities[0]];
    } else {
      TailFits(tiers, capacities, ratio);
      FullHoldsFloor(tiers[1..], capacities[1..], ratio);
      ScaleMonotone(ratio, Floor(capacities[1..], ratio), Weighted(Sizes(tiers[1..]), ratio));
    }
  }

  /** A summary stands for exactly as many samples as its points weigh. */
  lemma {:induction false} CoversCount(tiers: Tiers, weight: nat, ratio: nat, samples: seq<Point>)
    requires weight > 0 && ratio > 0 && Covers(tiers, weight, ratio, samples)
    ensures |samples| == weight * Weighted(Sizes(tiers), ratio)
    decreases |tiers|
  {
    if tiers != [] {
      assert Sizes(tiers)[1..] == Sizes(tiers[1..]);
      var older, newer := CoversSplit(tiers, weight, ratio, samples);
      CoversCount(tiers[1..], weight * ratio, ratio, older);
      TierCoversLength(tiers[0], weight, newer);
      WeighedSum(weight, ratio, |tiers[0]|, Weighted(Sizes(tiers[1..]), ratio));
    }
  }

  lemma WeighedSum(weight: nat, ratio: nat, n: nat, rest: nat)
    ensures weight * (n + ratio * rest) == n * weight + weight * ratio * rest
  {
    assert weight * (ratio * rest) == weight * ratio * rest;
  }

  // ------------------------------------------------------------------
  // Whole runs
  // ------------------------------------------------------------------

  lemma {:induction false} EmptyCovers(capacities: seq<nat>, weight: nat, ratio: nat)
    requires weight > 0 && ratio > 0
    ensures Covers(Empty(capacities), weight, ratio, [])
    decreases |capacities|
  {
    if capacities != [] {
      assert Empty(capacities)[1..] == Empty(capacities[1..]);
      EmptyCovers(capacities[1..], weight * ratio, ratio);
      assert TierCovers([], weight, []);
    }
  }

  lemma {:induction false} EmptyBacked(capacities: seq<nat>, ratio: nat)
    requires Safe(capacities, ratio)
    ensures Fits(Empty(capacities), capacities, ratio)
    ensures Backed(Empty(capacities), capacities, ratio)
    decreases |capacities|
  {
    if |capacities| > 1 {
      assert Empty(capacities)[1..] == Empty(capacities[1..]);
      EmptyBacked(capacities[1..], ratio);
    }
  }

  /** `tiers` summarises all the points but the `dropped` oldest, and nothing is dropped before the last tier is full. */
  ghost predicate Summary(tiers: Tiers, capacities: seq<nat>, ratio: nat, points: seq<Point>, dropped: nat) {
    && Fits(tiers, capacities, ratio)
    && dropped <= |points|
    && Covers(tiers, 1, ratio, points[dropped..])
    && Backed(tiers, capacities, ratio)
    && (dropped > 0 ==> LastFull(tiers, capacities))
  }

  lemma AverageOfOne(p: Point)
    ensures IsAverage(p, [p])
  {
    assert [p][1..] == [];
    assert Total(Hs, [p]) == p.hs && Total(Hs2, [p]) == p.hs2;
  }

  lemma {:induction false} SummaryStep(tiers: Tiers, capacities: seq<nat>, ratio: nat, points: seq<Point>, before: nat, p: Point)
    returns (dropped: nat)
    requires Summary(tiers, capacities, ratio, points, before)
    ensures Summary(Append(tiers, capacities, ratio, p), capacities, ratio, points + [p], dropped)
  {
    AverageOfOne(p);
    var more := AppendCovers(tiers, capacities, ratio, 1, points[before..], p, [p]);
    AppendBacked(tiers, capacities, ratio, p);
    dropped := before + more;
    assert (points[before..] + [p])[more..] == (points + [p])[dropped..];
  }

  lemma EmptySummary(capacities: seq<nat>, ratio: nat)
    requires Safe(capacities, ratio)
    ensures Fits(Empty(capacities), capacities, ratio)
    ensures Summary(Empty(capacities), capacities, ratio, [], 0)
  {
    EmptyBacked(capacities, ratio);
    EmptyCovers(capacities, 1, ratio);
  }

  lemma {:induction false} RunInvariant(capacities: seq<nat>, ratio: nat, points: seq<Point>) returns (dropped: nat)
    requires Safe(capacities, ratio)
    ensures Fits(Empty(capacities), capacities, ratio)
    ensures Summary(AppendAll(Empty(capacities), capacities, ratio, points), capacities, ratio, points, dropped)
  {
    hide Summary, Fits, Append, Empty;
    EmptySummary(capacities, ratio);
    if points == [] {
      dropped := 0;
    } else {
      var n := |points| - 1;
      var before := RunInvariant(capacities, ratio, points[..n]);
      dropped := SummaryStep(AppendAll(Empty(capacities), capacities, ratio, points[..n]), capacities, ratio,
                             points[..n], before, points[n]);
      assert points[..n] + [points[n]] == points;
    }
  }

  /**
   After any points at all have been appended to an empty history, its tiers are an exact summary of a
   contiguous suffix of those points, and that suffix holds all of them or at least `Floor` of them.
   */
  lemma {:induction false} HistoryIsExactSummary(capacities: seq<nat>, ratio: nat, points: seq<Point>)
    requires Safe(capacities, ratio)
    ensures Fits(Empty(capacities), capacities, ratio)
    ensures var tiers := AppendAll(Empty(capacities), capacities, ratio, points);
            var held := Weighted(Sizes(tiers), ratio);
            && held <= |points|
            && Covers(tiers, 1, ratio, points[|points| - held..])
            && (held == |points| || held >= Floor(capacities, ratio))
  {
    var dropped := RunInvariant(capacities, ratio, points);
    var tiers := AppendAll(Empty(capacities), capacities, ratio, points);
    CoversCount(tiers, 1, ratio, points[dropped..]);
    if dropped > 0 {
      FullHoldsFloor(tiers, capacities, ratio);
    }
  }
}
