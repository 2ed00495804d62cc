/**
 The tiered worker history as it is kept in memory and stored: ring buffers
 updated in place, and the payload they are saved to and read back from
 between any two samples.
 */
module WorkerHistory {
  import opened Wrappers
  import opened HistoryLayout
  import opened HistoryCascade

  const UINT32_MAX: nat := 0xFFFF_FFFF
  type u32 = x: nat | x <= UINT32_MAX

  const HISTORY_VERSION := 2
  const HISTORY_KIND := "worker-history-tiered"
  const HISTORY_ENCODING := "base64-u32-f32-f32-le"

  // ------------------------------------------------------------------
  // Points and buffer slots
  // ------------------------------------------------------------------

  /** One 12-byte record: whole seconds and two rates. */
  datatype Slot = Slot(sec: u32, hs: real, hs2: real)

  /** A sample as it arrives: not an object at all, or fields that may fail to convert to a finite number. */
  datatype RawPoint = NotARecord | RawPoint(ts: Option<real>, hs: Option<real>, hs2: Option<real>)

  /** Rounds halves up, as `Math.round` does. */
  function Round(x: real): int { (x + 0.5).Floor }

  function Clamp(x: int): u32 {
    if x < 0 then 0 else if x > UINT32_MAX then UINT32_MAX else x
  }

  function NormalizeTimestampMs(value: Option<real>): nat {
    var timestampMs := Round(if value.Some? then value.value else 0.0);
    var timestampSec := Round(timestampMs as real / 1000.0);
    Clamp(timestampSec) * 1000
  }

  function NormalizePoint(point: RawPoint): Option<Point> {
    if point.NotARecord? || point.hs.None? then None
    else Some(Point(NormalizeTimestampMs(point.ts), point.hs.value, if point.hs2.Some? then point.hs2.value else 0.0))
  }

  /** The points whose timestamp fits a slot: whole seconds within 32 bits. */
  predicate Stamped(p: Point) {
    p.ts % 1000 == 0 && p.ts / 1000 <= UINT32_MAX
  }

  function Decode(s: Slot): Point { Point(s.sec * 1000, s.hs, s.hs2) }

  function Encode(p: Point): Slot {
    Slot(Clamp(Round(NormalizeTimestampMs(Some(p.ts as real)) as real / 1000.0)), p.hs, p.hs2)
  }

  lemma WholeSeconds(sec: nat)
    ensures Round((sec * 1000) as real) == sec * 1000
    ensures Round((sec * 1000) as real / 1000.0) == sec
  {
    assert (sec * 1000) as real / 1000.0 == sec as real;
  }

  /** A stored point reads back as it was, and every accepted sample is one that can be stored. */
  lemma SlotRoundTrip(p: Point)
    requires Stamped(p)
    ensures Decode(Encode(p)) == p
  {
    var sec := p.ts / 1000;
    assert p.ts == sec * 1000;
    WholeSeconds(sec);
  }

  lemma NormalizedIsStamped(point: RawPoint)
    ensures NormalizePoint(point).Some? ==> Stamped(NormalizePoint(point).value)
    ensures point.RawPoint? && point.hs.Some? <==> NormalizePoint(point).Some?
  {
  }

  /**
   An accepted sample is stamped with the whole second nearest to its time in whole milliseconds, halves up, within what
   a slot holds; its rates are kept, and a second rate that is missing is zero.
   */
  lemma NormalizedIsNearest(ts: Option<real>, hs: real, hs2: Option<real>)
    ensures NormalizePoint(RawPoint(ts, Some(hs), hs2)).Some?
    ensures var p := NormalizePoint(RawPoint(ts, Some(hs), hs2)).value;
      && p.hs == hs && p.hs2 == (if hs2.Some? then hs2.value else 0.0)
      && var x := if ts.Some? then ts.value else 0.0;
         && (-500.5 <= x < UINT32_MAX as real * 1000.0 + 499.5 ==> p.ts as real - 500.5 <= x < p.ts as real + 499.5)
         && (x < -500.5 ==> p.ts == 0)
         && (x >= UINT32_MAX as real * 1000.0 + 499.5 ==> p.ts == UINT32_MAX * 1000)
  {
    var x := if ts.Some? then ts.value else 0.0;
    var ms := (x + 0.5).Floor;
    assert ms as real <= x + 0.5 < ms as real + 1.0;
    var sec := (ms as real / 1000.0 + 0.5).Floor;
    assert sec as real <= ms as real / 1000.0 + 0.5 < sec as real + 1.0;
    assert sec as real * 1000.0 - 500.0 <= ms as real < sec as real * 1000.0 + 500.0;
    assert sec * 1000 - 500 <= ms < sec * 1000 + 500;
  }

  lemma StampedIsNormal(p: Point)
    requires Stamped(p)
    ensures NormalizePoint(RawPoint(Some(p.ts as real), Some(p.hs), Some(p.hs2))) == Some(p)
  {
    var sec := p.ts / 1000;
    assert p.ts == sec * 1000;
    WholeSeconds(sec);
  }

  // ------------------------------------------------------------------
  // One ring buffer
  // ------------------------------------------------------------------

  /** The slot of logical index i when the oldest point sits at `head`. */
  function At(head: nat, i: nat, capacity: nat): nat {
    if head + i < capacity then head + i else head + i - capacity
  }

  lemma AtIsRemainder(head: nat, i: nat, capacity: nat)
    requires head < capacity && i <= capacity
    ensures (head + i) % capacity == At(head, i, capacity) < capacity
  {
    if head + i >= capacity {
      assert head + i == capacity * 1 + (head + i - capacity);
      RemainderOfSum(1, head + i - capacity, capacity);
    }
  }

  lemma RemainderOfSum(q: nat, r: nat, d: nat)
    requires r < d
    ensures (d * q + r) % d == r
  {
    var n := d * q + r;
    assert n == d * (n / d) + n % d;
    if n / d < q {
      MulMonotone(d, n / d + 1, q);
    } else if n / d > q {
      MulMonotone(d, q + 1, n / d);
    }
  }

  class Tier {
    var head: nat
    var size: nat
    const buffer: array<Slot>

    ghost predicate Valid()
      reads this
    {
      head < buffer.Length && size <= buffer.Length
    }

    ghost function Contents(): (r: seq<Point>)
      requires Valid()
      reads this, buffer
      ensures |r| == size
    {
      seq(size, i requires 0 <= i < size && Valid() reads this, buffer => Decode(buffer[At(head, i, buffer.Length)]))
    }

    constructor (capacity: nat)
      requires capacity > 0
      ensures Valid() && fresh(buffer) && buffer.Length == capacity
      ensures Contents() == []
    {
      head, size := 0, 0;
      buffer := new Slot[capacity](_ => Slot(0, 0.0, 0.0));
    }

    constructor Restore(head: nat, size: nat, data: seq<Slot>)
      requires head < |data| && size <= |data|
      ensures Valid() && fresh(buffer) && buffer.Length == |data| && buffer[..] == data
      ensures this.head == head && this.size == size
    {
      this.head, this.size := head, size;
      buffer := new Slot[|data|](i requires 0 <= i < |data| => data[i]);
    }

    method GetPoint(logicalIndex: nat) returns (p: Point)
      requires Valid() && logicalIndex < size
      ensures p == Contents()[logicalIndex]
    {
      AtIsRemainder(head, logicalIndex, buffer.Length);
      p := Decode(buffer[(head + logicalIndex) % buffer.Length]);
    }

    /** Writes the slot after the newest point, which is free because the ring is not full. */
    method AppendPoint(p: Point)
      requires Valid() && size < buffer.Length && Stamped(p)
      modifies this`size, buffer
      ensures Valid() && Contents() == old(Contents()) + [p]
    {
      AtIsRemainder(head, size, buffer.Length);
      SlotRoundTrip(p);
      buffer[(head + size) % buffer.Length] := Encode(p);
      size := size + 1;
    }

    method DropOldestPoints(count: int)
      requires Valid()
      modifies this`head, this`size
      ensures Valid()
      ensures Contents() == old(Contents())[if count < 0 then 0 else if count > old(size) then old(size) else count..]
    {
      if count <= 0 || size == 0 { return; }
      var removeCount := if count < size then count else size;
      AtIsRemainder(head, removeCount, buffer.Length);
      head := (head + removeCount) % buffer.Length;
      size := size - removeCount;
    }

    /** Averages the oldest points into one, stamped with the newest of them, and removes them. */
    method CompactOldestBucket(bucketSize: nat) returns (p: Point)
      requires Valid() && 0 < bucketSize <= size
      modifies this`head, this`size
      ensures Valid()
      ensures p == Average(old(Contents())[..bucketSize])
      ensures Contents() == old(Contents())[bucketSize..]
    {
      var newestTimestamp, totalHs, totalHs2 := 0, 0.0, 0.0;
      ghost var all := Contents();
      for index := 0 to bucketSize
        invariant unchanged(this) && Contents() == all
        invariant totalHs == Total(Hs, all[..index]) && totalHs2 == Total(Hs2, all[..index])
        invariant index > 0 ==> newestTimestamp == all[index - 1].ts
      {
        var point := GetPoint(index);
        assert all[..index + 1] == all[..index] + [point];
        TotalAppend(Hs, all[..index], point);
        TotalAppend(Hs2, all[..index], point);
        newestTimestamp := point.ts;
        totalHs := totalHs + point.hs;
        totalHs2 := totalHs2 + point.hs2;
      }
      DropOldestPoints(bucketSize);
      p := Point(newestTimestamp, totalHs / bucketSize as real, totalHs2 / bucketSize as real);
    }
  }

  // ------------------------------------------------------------------
  // The stored payload and what it stands for
  // ------------------------------------------------------------------

  /** A tier as stored; `NoData` is anything without a decodable whole number of records. */
  datatype RawTier = NoData | RawTier(head: int, size: int, data: seq<Slot>)

  datatype Payload =
    | Absent
    | Payload(version: int, kind: string, encoding: string, baseIntervalSec: int, tierRatio: int,
              capacities: seq<int>, tiers: seq<RawTier>)

  /** The abstract value of a history, in memory or stored. */
  datatype Stored = Stored(baseIntervalSec: nat, tierRatio: nat, capacities: seq<nat>, tiers: Tiers)

  function PositiveOr(value: int, fallback: nat): nat {
    if value > 0 then value else fallback
  }

  function Positives(s: seq<int>): (r: seq<nat>)
    ensures forall i :: 0 <= i < |r| ==> r[i] > 0
  {
    if s == [] then [] else (if s[0] > 0 then [s[0]] else []) + Positives(s[1..])
  }

  function StoredSize(t: RawTier, capacity: nat): (r: nat)
    requires t.RawTier?
    ensures r <= capacity
  {
    if t.size < 0 then 0 else if t.size > capacity then capacity else t.size
  }

  function StoredHead(t: RawTier, capacity: nat): (r: nat)
    requires t.RawTier? && capacity > 0
    ensures r < capacity
  {
    if StoredSize(t, capacity) == 0 || t.head < 0 then 0 else t.head % capacity
  }

  /** The points of a stored tier, oldest first. */
  function StoredPoints(t: RawTier): (r: seq<Point>)
    requires t.RawTier? && |t.data| > 0
    ensures |r| <= |t.data|
    ensures forall i :: 0 <= i < |r| ==> Stamped(r[i])
  {
    var capacity := |t.data|;
    seq(StoredSize(t, capacity), i requires 0 <= i < StoredSize(t, capacity) =>
      Decode(t.data[At(StoredHead(t, capacity), i, capacity)]))
  }

  predicate TierReadable(t: RawTier, capacity: nat) {
    t.RawTier? && |t.data| == capacity
  }

  predicate Readable(p: Payload) {
    && p.Payload?
    && p.version == HISTORY_VERSION && p.kind == HISTORY_KIND && p.encoding == HISTORY_ENCODING
    && |Positives(p.capacities)| == |p.tiers| > 0
    && forall i :: 0 <= i < |p.tiers| ==> TierReadable(p.tiers[i], Positives(p.capacities)[i])
  }

  /** What a payload stands for; nothing when it cannot be read. */
  function Read(p: Payload): (r: Option<Stored>)
    ensures r.Some? ==> |r.value.tiers| == |r.value.capacities| > 0 && r.value.tierRatio > 0 && r.value.baseIntervalSec > 0
    ensures r.Some? ==> forall i :: 0 <= i < |r.value.tiers| ==> |r.value.tiers[i]| <= r.value.capacities[i]
    ensures r.Some? ==> AllStamped(r.value.tiers)
  {
    if !Readable(p) then None
    else Some(Stored(PositiveOr(p.baseIntervalSec, DEFAULT_BASE_INTERVAL_SEC),
                     PositiveOr(p.tierRatio, DEFAULT_TIER_RATIO),
                     Positives(p.capacities),
                     AllStoredPoints(p.tiers)))
  }

  ghost predicate AllStamped(tiers: Tiers) {
    forall i, j :: 0 <= i < |tiers| && 0 <= j < |tiers[i]| ==> Stamped(tiers[i][j])
  }

  // ------------------------------------------------------------------
  // The history object
  // ------------------------------------------------------------------

  ghost function Buffers(tiers: seq<Tier>): set<object> {
    set i | 0 <= i < |tiers| :: tiers[i].buffer
  }

  ghost predicate Separate(tiers: seq<Tier>) {
    forall i, j :: 0 <= i < j < |tiers| ==> tiers[i] != tiers[j] && tiers[i].buffer != tiers[j].buffer
  }

  /** The rings hold the points of `values`, one ring of the given capacity to a tier. */
  ghost predicate Holds(tiers: seq<Tier>, capacities: seq<nat>, values: Tiers)
    reads tiers, Buffers(tiers)
  {
    && |tiers| == |capacities| == |values|
    && Separate(tiers)
    && forall i :: 0 <= i < |tiers| ==> HoldsTier(tiers[i], capacities[i], values[i])
  }

  ghost predicate HoldsTier(tier: Tier, capacity: nat, points: seq<Point>)
    reads tier, tier.buffer
  {
    tier.Valid() && tier.buffer.Length == capacity && tier.Contents() == points
  }

  /** Compacts the oldest bucket of a full tier. */
  method Spill(tier: Tier, tierRatio: nat, ghost capacity: nat, ghost points: seq<Point>) returns (coarse: Point)
    requires HoldsTier(tier, capacity, points) && 0 < tierRatio <= |points|
    modifies tier
    ensures Stamped(coarse) && coarse == Average(points[..tierRatio])
    ensures HoldsTier(tier, capacity, points[tierRatio..])
  {
    assert Stamped(tier.Contents()[tierRatio - 1]);
    coarse := tier.CompactOldestBucket(tierRatio);
  }

  /**
   Makes room in the first tier when it is full: the last tier discards its oldest point, and a finer one
   averages its oldest bucket down into the next.
   */
  method MakeRoom(tiers: seq<Tier>, capacities: seq<nat>, tierRatio: nat, ghost values: Tiers)
    returns (ghost room: seq<Point>, ghost coarser: Tiers)
    requires Holds(tiers, capacities, values) && Fits(values, capacities, tierRatio)
    modifies tiers, Buffers(tiers)
    ensures |room| < capacities[0] && HoldsTier(tiers[0], capacities[0], room)
    ensures Holds(tiers[1..], capacities[1..], coarser)
    ensures forall p :: Append(values, capacities, tierRatio, p) == [room + [p]] + coarser
    decreases |tiers|, 0
  {
    hide Average, Stamped;
    var tier := tiers[0];
    var lastTier := |tiers| == 1;
    room, coarser := values[0], values[1..];
    assert HoldsTier(tier, capacities[0], room);
    if lastTier && tier.size == capacities[0] {
      tier.DropOldestPoints(1);
      room := room[1..];
    } else if !lastTier && tier.size == capacities[0] {
      var coarse := Spill(tier, tierRatio, capacities[0], room);
      TailFits(values, capacities, tierRatio);
      AppendToTier(tiers[1..], capacities[1..], tierRatio, coarse, coarser);
      room, coarser := room[tierRatio..], Append(coarser, capacities[1..], tierRatio, coarse);
    }
  }

  /** Appends a point to the first of `tiers`, the tiers from the one appended to onwards. */
  method AppendToTier(tiers: seq<Tier>, capacities: seq<nat>, tierRatio: nat, point: Point, ghost values: Tiers)
    requires Holds(tiers, capacities, values) && Stamped(point)
    requires Fits(values, capacities, tierRatio)
    modifies tiers, Buffers(tiers)
    ensures Holds(tiers, capacities, Append(values, capacities, tierRatio, point))
    decreases |tiers|, 1
  {
    hide Stamped, Append;
    ghost var room, coarser := MakeRoom(tiers, capacities, tierRatio, values);
    tiers[0].AppendPoint(point);
    assert Holds(tiers[1..], capacities[1..], coarser);
    JoinTiers(tiers, capacities, room + [point], coarser);
  }

  lemma JoinTiers(tiers: seq<Tier>, capacities: seq<nat>, first: seq<Point>, coarser: Tiers)
    requires |tiers| == |capacities| > 0 && Separate(tiers)
    requires HoldsTier(tiers[0], capacities[0], first)
    requires Holds(tiers[1..], capacities[1..], coarser)
    ensures Holds(tiers, capacities, [first] + coarser)
  {
    forall i | 0 < i < |tiers|
      ensures HoldsTier(tiers[i], capacities[i], ([first] + coarser)[i])
    {
      assert tiers[i] == tiers[1..][i - 1] && capacities[i] == capacities[1..][i - 1];
    }
  }

  // ------------------------------------------------------------------
  // Saving and reading back
  // ------------------------------------------------------------------

  class History {
    const baseIntervalSec: nat
    const tierRatio: nat
    const capacities: seq<nat>
    const tiers: seq<Tier>

    ghost predicate Represents(value: Stored)
      reads tiers, Buffers(tiers)
    {
      && baseIntervalSec == value.baseIntervalSec > 0
      && tierRatio == value.tierRatio > 0
      && capacities == value.capacities
      && |tiers| > 0
      && Holds(tiers, capacities, value.tiers)
    }

    constructor (baseIntervalSec: nat, tierRatio: nat, capacities: seq<nat>, tiers: seq<Tier>, ghost values: Tiers)
      requires baseIntervalSec > 0 && tierRatio > 0 && |tiers| > 0
      requires Holds(tiers, capacities, values)
      ensures Represents(Stored(baseIntervalSec, tierRatio, capacities, values))
      ensures this.tiers == tiers
    {
      this.baseIntervalSec, this.tierRatio, this.capacities, this.tiers := baseIntervalSec, tierRatio, capacities, tiers;
    }
  }

  lemma NoTiersHoldNothing()
    ensures Holds([], [], [])
  {
  }

  lemma ExtendTiers(tiers: seq<Tier>, capacities: seq<nat>, values: Tiers, tier: Tier, capacity: nat, points: seq<Point>)
    requires Holds(tiers, capacities, values) && HoldsTier(tier, capacity, points)
    requires tier !in tiers && tier.buffer !in Buffers(tiers)
    ensures Holds(tiers + [tier], capacities + [capacity], values + [points])
    ensures Buffers(tiers + [tier]) == Buffers(tiers) + {tier.buffer}
  {
    var more := tiers + [tier];
    assert forall i :: 0 <= i < |tiers| ==> tiers[i].buffer in Buffers(tiers);
    assert forall i :: 0 <= i < |tiers| ==> more[i] == tiers[i];
    forall b | b in Buffers(tiers) + {tier.buffer}
      ensures b in Buffers(more)
    {
      if b == tier.buffer {
        assert more[|tiers|].buffer == b;
      }
    }
  }

  method CreateEmptyHistory(layout: Layout) returns (history: History)
    requires Safe(layout.capacities, layout.tierRatio) && layout.baseIntervalSec > 0
    ensures fresh(history.tiers) && fresh(Buffers(history.tiers))
    ensures history.Represents(Stored(layout.baseIntervalSec, layout.tierRatio, layout.capacities, Empty(layout.capacities)))
  {
    var capacities := layout.capacities;
    var tiers: seq<Tier> := [];
    for i := 0 to |capacities|
      invariant |tiers| == i && fresh(tiers) && fresh(Buffers(tiers))
      invariant Holds(tiers, capacities[..i], Empty(capacities)[..i])
    {
      var tier := new Tier(capacities[i]);
      ExtendTiers(tiers, capacities[..i], Empty(capacities)[..i], tier, capacities[i], []);
      assert capacities[..i + 1] == capacities[..i] + [capacities[i]];
      assert Empty(capacities)[..i + 1] == Empty(capacities)[..i] + [[]];
      tiers := tiers + [tier];
    }
    assert capacities[..|capacities|] == capacities && Empty(capacities)[..|capacities|] == Empty(capacities);
    history := new History(layout.baseIntervalSec, layout.tierRatio, capacities, tiers, Empty(capacities));
  }

  function AllStoredPoints(tiers: seq<RawTier>): (r: Tiers)
    requires forall i :: 0 <= i < |tiers| ==> tiers[i].RawTier? && |tiers[i].data| > 0
    ensures |r| == |tiers|
    ensures forall i :: 0 <= i < |r| ==> r[i] == StoredPoints(tiers[i])
  {
    seq(|tiers|, i requires 0 <= i < |tiers| => StoredPoints(tiers[i]))
  }

  method NormalizeBinaryTier(raw: RawTier, capacity: nat) returns (tier: Tier?)
    requires capacity > 0
    ensures tier == null <==> !TierReadable(raw, capacity)
    ensures tier != null ==> fresh(tier) && fresh(tier.buffer) && HoldsTier(tier, capacity, StoredPoints(raw))
  {
    if raw.NoData? || |raw.data| != capacity { return null; }
    tier := new Tier.Restore(StoredHead(raw, capacity), StoredSize(raw, capacity), raw.data);
    assert tier.Contents() == StoredPoints(raw);
  }

  ghost predicate AllReadable(raws: seq<RawTier>, capacities: seq<nat>)
    requires |raws| == |capacities|
  {
    forall k :: 0 <= k < |raws| ==> capacities[k] > 0 && TierReadable(raws[k], capacities[k])
  }

  lemma AllStoredPointsSnoc(raws: seq<RawTier>, i: nat)
    requires i < |raws|
    requires forall k :: 0 <= k <= i ==> raws[k].RawTier? && |raws[k].data| > 0
    ensures AllStoredPoints(raws[..i + 1]) == AllStoredPoints(raws[..i]) + [StoredPoints(raws[i])]
  {
  }

  method RestoreTiers(raws: seq<RawTier>, capacities: seq<nat>) returns (ok: bool, tiers: seq<Tier>)
    requires |raws| == |capacities| && forall k :: 0 <= k < |capacities| ==> capacities[k] > 0
    ensures ok <==> AllReadable(raws, capacities)
    ensures ok ==> fresh(tiers) && fresh(Buffers(tiers)) && Holds(tiers, capacities, AllStoredPoints(raws))
  {
    hide StoredPoints, HoldsTier, Holds;
    tiers := [];
    NoTiersHoldNothing();
    for i := 0 to |capacities|
      invariant |tiers| == i && fresh(tiers) && fresh(Buffers(tiers))
      invariant AllReadable(raws[..i], capacities[..i])
      invariant Holds(tiers, capacities[..i], AllStoredPoints(raws[..i]))
    {
      var tier := NormalizeBinaryTier(raws[i], capacities[i]);
      if tier == null { return false, []; }
      ExtendTiers(tiers, capacities[..i], AllStoredPoints(raws[..i]), tier, capacities[i], StoredPoints(raws[i]));
      assert capacities[..i + 1] == capacities[..i] + [capacities[i]];
      assert raws[..i + 1] == raws[..i] + [raws[i]];
      assert AllReadable(raws[..i + 1], capacities[..i + 1]);
      AllStoredPointsSnoc(raws, i);
      tiers := tiers + [tier];
    }
    assert capacities[..|capacities|] == capacities && raws[..|raws|] == raws;
    ok := true;
  }

  /** Parses a payload; the result stands for what the payload stands for, or there is none. */
  method NormalizeTieredHistoryPayload(payload: Payload) returns (history: History?)
    ensures history == null <==> Read(payload).None?
    ensures history != null ==>
      && fresh(history.tiers) && fresh(Buffers(history.tiers))
      && history.Represents(Read(payload).value)
  {
    if payload.Absent? || payload.version != HISTORY_VERSION || payload.kind != HISTORY_KIND { return null; }
    if payload.encoding != HISTORY_ENCODING { return null; }
    var capacities := Positives(payload.capacities);
    if |capacities| == 0 || |capacities| != |payload.tiers| { return null; }
    var ok, tiers := RestoreTiers(payload.tiers, capacities);
    assert Readable(payload) <==> AllReadable(payload.tiers, capacities);
    if !ok { return null; }
    history := new History(PositiveOr(payload.baseIntervalSec, DEFAULT_BASE_INTERVAL_SEC),
                           PositiveOr(payload.tierRatio, DEFAULT_TIER_RATIO), capacities, tiers, AllStoredPoints(payload.tiers));
  }

  lemma {:induction false} PositivesOfPositive(s: seq<nat>)
    requires forall i :: 0 <= i < |s| ==> s[i] > 0
    ensures Positives(s) == s
  {
    if s != [] {
      PositivesOfPositive(s[1..]);
    }
  }

  method SerializeTier(tier: Tier, ghost capacity: nat, ghost points: seq<Point>) returns (raw: RawTier)
    requires HoldsTier(tier, capacity, points)
    ensures TierReadable(raw, capacity) && capacity > 0 && StoredPoints(raw) == points
  {
    raw := RawTier(tier.head, tier.size, tier.buffer[..]);
    if tier.size > 0 {
      AtIsRemainder(0, tier.head, tier.buffer.Length);
    }
    assert StoredPoints(raw) == tier.Contents();
  }

  /** Saves a history; reading the result back gives the same tiers, wherever the rings start. */
  method SerializeHistory(history: History, ghost value: Stored) returns (payload: Payload)
    requires history.Represents(value)
    ensures Read(payload) == Some(value)
  {
    var tiers: seq<RawTier> := [];
    for i := 0 to |history.tiers|
      invariant |tiers| == i
      invariant forall k :: 0 <= k < i ==>
        TierReadable(tiers[k], value.capacities[k]) && value.capacities[k] > 0 && StoredPoints(tiers[k]) == value.tiers[k]
    {
      var raw := SerializeTier(history.tiers[i], value.capacities[i], value.tiers[i]);
      tiers := tiers + [raw];
    }
    PositivesOfPositive(history.capacities);
    payload := Payload(HISTORY_VERSION, HISTORY_KIND, HISTORY_ENCODING, history.baseIntervalSec, history.tierRatio,
                       history.capacities, tiers);
    assert Readable(payload);
    assert Read(payload).value.tiers == value.tiers;
  }
}
