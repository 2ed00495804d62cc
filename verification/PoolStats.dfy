/**
 The cached totals over the found blocks of other coins: how many there are,
 how many are PPLNS, per port, and which is the newest. A refresh scans only
 what is newer than the cached newest block and adds it up.
 */
module PoolStats {
  import opened Wrappers

  /** A stored block; `rest` is everything the totals do not depend on. */
  datatype Row = Row(key: nat, hash: string, pplns: bool, port: nat, rest: int)

  datatype Head = Head(key: nat, hash: string)

  datatype Totals = Totals(
    head: Option<Head>, global: nat, pplns: nat,
    globalByPort: map<nat, nat>, pplnsByPort: map<nat, nat>)

  ghost predicate Ordered(rows: seq<Row>) {
    forall i, j :: 0 <= i < j < |rows| ==> rows[i].key < rows[j].key
  }

  // ------------------------------------------------------------------
  // What the totals should be
  // ------------------------------------------------------------------

  /** Which rows a total counts: all or only PPLNS ones, on every port or on one. */
  datatype Filter = Filter(pplnsOnly: bool, port: Option<nat>)

  predicate Matches(r: Row, f: Filter) {
    (f.pplnsOnly ==> r.pplns) && (f.port.Some? ==> r.port == f.port.value)
  }

  function Count(rows: seq<Row>, f: Filter): nat {
    if rows == [] then 0 else (if Matches(rows[0], f) then 1 else 0) + Count(rows[1..], f)
  }

  /** The scan takes the key zero for the end of the store, so that a row under it is never counted. */
  function Visible(rows: seq<Row>): seq<Row> {
    if rows != [] && rows[0].key == 0 then rows[1..] else rows
  }

  ghost predicate CountsPorts(m: map<nat, nat>, rows: seq<Row>, pplnsOnly: bool) {
    forall port :: (if port in m then m[port] else 0) == Count(rows, Filter(pplnsOnly, Some(port)))
                && (port in m ==> m[port] > 0)
  }

  function HeadOf(rows: seq<Row>): Option<Head> {
    if rows == [] then None else Some(Head(rows[|rows| - 1].key, rows[|rows| - 1].hash))
  }

  /** The totals are those of these rows. */
  ghost predicate Describes(t: Totals, rows: seq<Row>) {
    && t.head == HeadOf(rows)
    && t.global == Count(rows, Filter(false, None))
    && t.pplns == Count(rows, Filter(true, None))
    && CountsPorts(t.globalByPort, rows, false)
    && CountsPorts(t.pplnsByPort, rows, true)
  }

  lemma PortMapsAgree(m: map<nat, nat>, m': map<nat, nat>, rows: seq<Row>, pplnsOnly: bool)
    requires CountsPorts(m, rows, pplnsOnly) && CountsPorts(m', rows, pplnsOnly)
    ensures m == m'
  {
    hide Count;
    assert forall p :: p in m <==> Count(rows, Filter(pplnsOnly, Some(p))) > 0;
    assert forall p :: p in m' <==> Count(rows, Filter(pplnsOnly, Some(p))) > 0;
    assert m.Keys == m'.Keys;
  }

  /** There is only one right answer, so that a refresh that describes the store is what a rebuild would give. */
  lemma OneAnswer(t: Totals, t': Totals, rows: seq<Row>)
    requires Describes(t, rows) && Describes(t', rows)
    ensures t == t'
  {
    hide CountsPorts, Count;
    PortMapsAgree(t.globalByPort, t'.globalByPort, rows, false);
    PortMapsAgree(t.pplnsByPort, t'.pplnsByPort, rows, true);
  }

  lemma {:induction false} CountConcat(a: seq<Row>, b: seq<Row>, f: Filter)
    ensures Count(a + b, f) == Count(a, f) + Count(b, f)
  {
    hide Matches;
    if a == [] {
      assert a + b == b;
    } else {
      assert (a + b)[1..] == a[1..] + b;
      CountConcat(a[1..], b, f);
    }
  }

  lemma CountFront(rows: seq<Row>, k: nat, f: Filter)
    requires k < |rows|
    ensures Count(rows[k..], f) == (if Matches(rows[k], f) then 1 else 0) + Count(rows[k + 1..], f)
  {
    assert rows[k..][1..] == rows[k + 1..];
  }

  // ------------------------------------------------------------------
  // Counting rows newest first
  // ------------------------------------------------------------------

  function Increment(m: map<nat, nat>, port: nat): map<nat, nat> {
    m[port := (if port in m then m[port] else 0) + 1]
  }

  /** The running sums over the rows seen so far, newest first. */
  datatype Sums = Sums(global: nat, pplns: nat, globalByPort: map<nat, nat>, pplnsByPort: map<nat, nat>)

  ghost predicate SumsOver(s: Sums, rows: seq<Row>) {
    && s.global == Count(rows, Filter(false, None))
    && s.pplns == Count(rows, Filter(true, None))
    && CountsPorts(s.globalByPort, rows, false)
    && CountsPorts(s.pplnsByPort, rows, true)
  }

  function WithRow(s: Sums, r: Row): Sums {
    Sums(s.global + 1, if r.pplns then s.pplns + 1 else s.pplns,
         Increment(s.globalByPort, r.port),
         if r.pplns then Increment(s.pplnsByPort, r.port) else s.pplnsByPort)
  }

  const NO_SUMS: Sums := Sums(0, 0, map[], map[])

  lemma CountsPortsStep(m: map<nat, nat>, rows: seq<Row>, k: nat, pplnsOnly: bool)
    requires k < |rows| && CountsPorts(m, rows[k + 1..], pplnsOnly)
    ensures CountsPorts(if pplnsOnly && !rows[k].pplns then m else Increment(m, rows[k].port), rows[k..], pplnsOnly)
  {
    hide Count;
    forall port
      ensures Count(rows[k..], Filter(pplnsOnly, Some(port)))
           == (if Matches(rows[k], Filter(pplnsOnly, Some(port))) then 1 else 0) + Count(rows[k + 1..], Filter(pplnsOnly, Some(port)))
    {
      CountFront(rows, k, Filter(pplnsOnly, Some(port)));
    }
  }

  lemma SumsStep(s: Sums, rows: seq<Row>, k: nat)
    requires k < |rows| && SumsOver(s, rows[k + 1..])
    ensures SumsOver(WithRow(s, rows[k]), rows[k..])
  {
    hide Count, CountsPorts, Increment;
    CountFront(rows, k, Filter(false, None));
    CountFront(rows, k, Filter(true, None));
    CountsPortsStep(s.globalByPort, rows, k, false);
    CountsPortsStep(s.pplnsByPort, rows, k, true);
  }

  /** The sums over rows, added up from the newest to the oldest. */
  function SumAll(rows: seq<Row>): Sums {
    if rows == [] then NO_SUMS else WithRow(SumAll(rows[1..]), rows[0])
  }

  lemma SumAllFront(rows: seq<Row>, k: nat)
    requires k < |rows|
    ensures SumAll(rows[k..]) == WithRow(SumAll(rows[k + 1..]), rows[k])
  {
    assert rows[k..][1..] == rows[k + 1..];
  }

  lemma {:induction false} SumAllCounts(rows: seq<Row>)
    ensures SumsOver(SumAll(rows), rows)
  {
    if rows != [] {
      SumAllCounts(rows[1..]);
      SumsStep(SumAll(rows[1..]), rows, 0);
      assert rows[0..] == rows;
    }
  }

  /** Where the rows above the one with this key and hash begin, unless the scan ends before it comes to that row. */
  function FindHead(rows: seq<Row>, head: Head): (at: Option<nat>)
    ensures at.Some? ==> 0 < at.value <= |rows| && rows[at.value - 1].key == head.key != 0 && rows[at.value - 1].hash == head.hash
  {
    if rows == [] || rows[|rows| - 1].key == 0 then None
    else if rows[|rows| - 1].key == head.key && rows[|rows| - 1].hash == head.hash then Some(|rows|)
    else FindHead(rows[..|rows| - 1], head)
  }

  lemma {:induction false} FindHeadSkips(rows: seq<Row>, head: Head, at: nat)
    requires at <= |rows| && forall i :: at <= i < |rows| ==> rows[i].key != 0 && Head(rows[i].key, rows[i].hash) != head
    ensures FindHead(rows, head) == FindHead(rows[..at], head)
  {
    if at < |rows| {
      assert Head(rows[|rows| - 1].key, rows[|rows| - 1].hash) != head;
      FindHeadSkips(rows[..|rows| - 1], head, at);
      assert rows[..|rows| - 1][..at] == rows[..at];
    } else {
      assert rows[..at] == rows;
    }
  }

  /** Scans newest first until a row with the cached head's key and hash, or to the end. */
  method ScanUntil(rows: seq<Row>, head: Option<Head>) returns (sums: Sums, newHead: Option<Head>, found: bool)
    requires Ordered(rows)
    ensures found <==> head.Some? && FindHead(rows, head.value).Some?
    ensures var newer := if found then rows[FindHead(rows, head.value).value..] else Visible(rows);
      sums == SumAll(newer) && newHead == HeadOf(newer)
  {
    hide WithRow, Visible, Ordered, SumAll;
    sums, newHead, found := NO_SUMS, None, false;
    var at := |rows|;
    NoSums(rows[at..]);
    while at > 0 && rows[at - 1].key != 0
      invariant 0 <= at <= |rows| && sums == SumAll(rows[at..])
      invariant newHead == HeadOf(rows[at..])
      invariant forall i :: at <= i < |rows| ==> rows[i].key != 0
      invariant head.Some? ==> forall i :: at <= i < |rows| ==> Head(rows[i].key, rows[i].hash) != head.value
      decreases at
    {
      var row := rows[at - 1];
      if head.Some? && row.key == head.value.key && row.hash == head.value.hash {
        FindHeadSkips(rows, head.value, at);
        found := true;
        return;
      }
      if newHead.None? {
        newHead := Some(Head(row.key, row.hash));
      }
      SumAllFront(rows, at - 1);
      sums := WithRow(sums, row);
      HeadOfMore(rows, at - 1);
      at := at - 1;
    }
    if head.Some? {
      FindHeadSkips(rows, head.value, at);
    }
    ScanEnds(rows, at);
  }

  lemma NoSums(rows: seq<Row>)
    requires rows == []
    ensures SumAll(rows) == NO_SUMS
  {
  }

  lemma HeadOfMore(rows: seq<Row>, k: nat)
    requires k < |rows|
    ensures HeadOf(rows[k..]) == if k + 1 == |rows| then Some(Head(rows[k].key, rows[k].hash)) else HeadOf(rows[k + 1..])
  {
  }

  lemma ScanEnds(rows: seq<Row>, at: nat)
    requires Ordered(rows) && at <= |rows| && (at == 0 || rows[at - 1].key == 0)
    requires forall i :: at <= i < |rows| ==> rows[i].key != 0
    ensures rows[at..] == Visible(rows)
  {
    if at > 0 {
      assert rows[0].key <= rows[at - 1].key;
      assert at == 1;
    } else {
      assert rows[0..] == rows;
    }
  }

  // ------------------------------------------------------------------
  // Building and refreshing
  // ------------------------------------------------------------------

  function AddPorts(m: map<nat, nat>, delta: map<nat, nat>): map<nat, nat> {
    map port | port in m.Keys + delta.Keys ::
      (if port in m then m[port] else 0) + (if port in delta then delta[port] else 0)
  }

  function TotalsOf(head: Option<Head>, s: Sums): Totals {
    Totals(head, s.global, s.pplns, s.globalByPort, s.pplnsByPort)
  }

  /** What a rebuild gives. */
  function Rebuilt(rows: seq<Row>): Totals {
    TotalsOf(HeadOf(Visible(rows)), SumAll(Visible(rows)))
  }

  lemma RebuiltDescribes(rows: seq<Row>)
    ensures Describes(Rebuilt(rows), Visible(rows))
  {
    hide Count, CountsPorts;
    SumAllCounts(Visible(rows));
  }

  method BuildAltBlockState(rows: seq<Row>) returns (t: Totals)
    requires Ordered(rows)
    ensures t == Rebuilt(rows) && Describes(t, Visible(rows))
  {
    hide Describes, Visible;
    var sums, head, found := ScanUntil(rows, None);
    t := Totals(head, sums.global, sums.pplns, sums.globalByPort, sums.pplnsByPort);
    RebuiltDescribes(rows);
  }

  /** The cached totals with newer rows added. */
  function Added(cached: Totals, newer: seq<Row>): Totals {
    if newer == [] then cached else
    var s := SumAll(newer);
    Totals(HeadOf(newer), cached.global + s.global, cached.pplns + s.pplns,
           AddPorts(cached.globalByPort, s.globalByPort), AddPorts(cached.pplnsByPort, s.pplnsByPort))
  }

  /** The store says it became smaller than the cached total, or the scan does not come to the cached head. */
  predicate Rebuilds(cached: Totals, rows: seq<Row>, entryCount: Option<nat>) {
    || (entryCount.Some? && entryCount.value < cached.global)
    || (cached.head.Some? && FindHead(rows, cached.head.value).None?)
  }

  /** The rows above the cached head. */
  function Newer(rows: seq<Row>, head: Option<Head>): seq<Row>
    requires head.Some? ==> FindHead(rows, head.value).Some?
  {
    if head.Some? then rows[FindHead(rows, head.value).value..] else Visible(rows)
  }

  /** The rows a scan would come to from the cached head on. */
  function UpToHead(rows: seq<Row>, head: Option<Head>): seq<Row>
    requires head.Some? ==> FindHead(rows, head.value).Some?
  {
    if head.Some? then Visible(rows[..FindHead(rows, head.value).value]) else []
  }

  /** What a refresh gives, whatever was cached. */
  function Refreshed(cached: Option<Totals>, rows: seq<Row>, entryCount: Option<nat>): Totals {
    if cached.None? || Rebuilds(cached.value, rows, entryCount) then Rebuilt(rows)
    else Added(cached.value, Newer(rows, cached.value.head))
  }

  /** The same rows as far as the totals go: edits that leave key, hash, pool type and port alone. */
  predicate SameForTotals(a: Row, b: Row) {
    a.key == b.key && a.hash == b.hash && a.pplns == b.pplns && a.port == b.port
  }

  /** Rows were only edited, and only added above the head. */
  ghost predicate OnlyGrew(before: seq<Row>, after: seq<Row>) {
    |before| <= |after| && forall i :: 0 <= i < |before| ==> SameForTotals(before[i], after[i])
  }

  lemma {:induction false} SameCounts(a: seq<Row>, b: seq<Row>, f: Filter)
    requires |a| == |b| && forall i :: 0 <= i < |a| ==> SameForTotals(a[i], b[i])
    ensures Count(a, f) == Count(b, f)
  {
    if a != [] {
      SameCounts(a[1..], b[1..], f);
    }
  }

  lemma {:induction false} CountAll(rows: seq<Row>)
    ensures Count(rows, Filter(false, None)) == |rows|
  {
    if rows != [] {
      CountAll(rows[1..]);
    }
  }

  class PoolStats {
    var altblocks: Option<Totals>
    var blocks: Option<BlockTotals>

    constructor ()
      ensures altblocks.None? && blocks.None?
    {
      altblocks, blocks := None, None;
    }

    /** Brings the cached totals up to date; `entryCount` is what the store says of its size, if it says anything. */
    method RefreshAltBlockState(rows: seq<Row>, entryCount: Option<nat>) returns (t: Totals)
      requires Ordered(rows)
      modifies this`altblocks
      ensures altblocks == Some(t) && t == Refreshed(old(altblocks), rows, entryCount)
    {
      hide Visible, SumAll, Describes;
      if altblocks.None? {
        t := BuildAltBlockState(rows);
        altblocks := Some(t);
        return;
      }
      var cached := altblocks.value;
      if entryCount.Some? && entryCount.value < cached.global {
        t := BuildAltBlockState(rows);
        altblocks := Some(t);
        return;
      }
      var head := cached.head;
      var sums, newHead, found := ScanUntil(rows, head);
      if !found && head.Some? {
        t := BuildAltBlockState(rows);
        altblocks := Some(t);
        return;
      }
      t := cached;
      if newHead.Some? {
        t := Totals(newHead, cached.global + sums.global, cached.pplns + sums.pplns,
                    AddPorts(cached.globalByPort, sums.globalByPort), AddPorts(cached.pplnsByPort, sums.pplnsByPort));
      }
      altblocks := Some(t);
    }

    /** The same for the pool's own blocks, which have no ports. */
    method RefreshBlockState(rows: seq<Row>, entryCount: Option<nat>) returns (t: BlockTotals)
      requires Ordered(rows)
      modifies this`blocks
      ensures blocks == Some(t)
      ensures t == Plain(Refreshed(if old(blocks).None? then None else Some(WithoutPorts(old(blocks).value)), rows, entryCount))
    {
      hide Visible, SumAll, Describes;
      if blocks.None? {
        var full := BuildAltBlockState(rows);
        t := Plain(full);
        blocks := Some(t);
        return;
      }
      var cached := blocks.value;
      if entryCount.Some? && entryCount.value < cached.global {
        var full := BuildAltBlockState(rows);
        t := Plain(full);
        blocks := Some(t);
        return;
      }
      var head := cached.head;
      var sums, newHead, found := ScanUntil(rows, head);
      if !found && head.Some? {
        var full := BuildAltBlockState(rows);
        t := Plain(full);
        blocks := Some(t);
        return;
      }
      t := cached;
      if newHead.Some? {
        t := BlockTotals(newHead, cached.global + sums.global, cached.pplns + sums.pplns);
      }
      blocks := Some(t);
    }
  }

  /** The totals of the pool's own blocks. */
  datatype BlockTotals = BlockTotals(head: Option<Head>, global: nat, pplns: nat)

  function Plain(t: Totals): BlockTotals { BlockTotals(t.head, t.global, t.pplns) }

  function WithoutPorts(b: BlockTotals): Totals { Totals(b.head, b.global, b.pplns, map[], map[]) }

  // ------------------------------------------------------------------
  // When a refresh is a rebuild
  // ------------------------------------------------------------------

  function PortTotal(m: map<nat, nat>, port: nat): nat { if port in m then m[port] else 0 }

  function TotalFor(t: Totals, f: Filter): nat {
    if f.port.Some? then PortTotal(if f.pplnsOnly then t.pplnsByPort else t.globalByPort, f.port.value)
    else if f.pplnsOnly then t.pplns else t.global
  }

  /** The totals and the head are those of the rows exactly if each single total is, and no port is listed with a zero. */
  lemma DescribesIff(t: Totals, rows: seq<Row>)
    ensures Describes(t, rows) <==>
      && t.head == HeadOf(rows) && (forall f :: TotalFor(t, f) == Count(rows, f))
      && (forall port :: port in t.globalByPort ==> t.globalByPort[port] > 0)
      && (forall port :: port in t.pplnsByPort ==> t.pplnsByPort[port] > 0)
  {
    hide Count, HeadOf;
    if Describes(t, rows) {
      forall f
        ensures TotalFor(t, f) == Count(rows, f)
      {
        assert f == Filter(f.pplnsOnly, f.port);
        if f.port.Some? {
          assert f == Filter(f.pplnsOnly, Some(f.port.value));
        }
      }
    }
    if forall f :: TotalFor(t, f) == Count(rows, f) {
      assert TotalFor(t, Filter(false, None)) == Count(rows, Filter(false, None));
      assert TotalFor(t, Filter(true, None)) == Count(rows, Filter(true, None));
      forall port
        ensures PortTotal(t.globalByPort, port) == Count(rows, Filter(false, Some(port)))
        ensures PortTotal(t.pplnsByPort, port) == Count(rows, Filter(true, Some(port)))
      {
        assert TotalFor(t, Filter(false, Some(port))) == Count(rows, Filter(false, Some(port)));
        assert TotalFor(t, Filter(true, Some(port))) == Count(rows, Filter(true, Some(port)));
      }
    }
  }

  /** Adding newer rows adds their number to every single total. */
  lemma AddedCounts(cached: Totals, newer: seq<Row>, f: Filter)
    ensures TotalFor(Added(cached, newer), f) == TotalFor(cached, f) + Count(newer, f)
  {
    hide SumAll;
    if newer == [] {
      assert Count(newer, f) == 0;
    } else {
      SumAllCounts(newer);
      assert f == Filter(f.pplnsOnly, f.port);
      if f.port.Some? {
        assert f == Filter(f.pplnsOnly, Some(f.port.value));
      }
    }
  }

  /** The rows a scan comes to are those up to the head and those above it. */
  lemma VisibleSplits(rows: seq<Row>, head: Option<Head>)
    requires head.Some? ==> FindHead(rows, head.value).Some?
    ensures Visible(rows) == UpToHead(rows, head) + Newer(rows, head)
    ensures head.Some? ==> UpToHead(rows, head) != [] && HeadOf(UpToHead(rows, head)) == head
  {
    hide Visible, FindHead;
    if head.Some? {
      var at := FindHead(rows, head.value).value;
      assert rows == rows[..at] + rows[at..];
      VisibleConcat(rows[..at], rows[at..]);
      VisibleKeepsLast(rows[..at]);
    }
  }

  lemma VisibleConcat(a: seq<Row>, b: seq<Row>)
    requires a != []
    ensures Visible(a + b) == Visible(a) + b
  {
    assert (a + b)[0] == a[0] && (a + b)[1..] == a[1..] + b;
  }

  lemma VisibleKeepsLast(rows: seq<Row>)
    requires rows != [] && rows[|rows| - 1].key != 0
    ensures Visible(rows) != [] && HeadOf(Visible(rows)) == HeadOf(rows)
  {
  }

  /**
   A single total, all rows or PPLNS only, on every port or on one, is what a rebuild counts if and only if the
   refresh rebuilds, or the rows up to the head still number as many as there were before.
   */
  lemma TotalExactIff(cached: Totals, before: seq<Row>, rows: seq<Row>, entryCount: Option<nat>, f: Filter)
    requires Ordered(rows) && cached.head == HeadOf(Visible(before)) && TotalFor(cached, f) == Count(Visible(before), f)
    ensures TotalFor(Refreshed(Some(cached), rows, entryCount), f) == Count(Visible(rows), f) <==>
      Rebuilds(cached, rows, entryCount) || Count(UpToHead(rows, cached.head), f) == Count(Visible(before), f)
  {
    hide Count, Visible, TotalFor, Describes, UpToHead, Newer;
    if Rebuilds(cached, rows, entryCount) {
      RebuiltDescribes(rows);
      DescribesIff(Rebuilt(rows), Visible(rows));
    } else {
      VisibleSplits(rows, cached.head);
      CountConcat(UpToHead(rows, cached.head), Newer(rows, cached.head), f);
      AddedCounts(cached, Newer(rows, cached.head), f);
    }
  }

  lemma AddedKeepsPositive(cached: Totals, newer: seq<Row>)
    requires forall port :: port in cached.globalByPort ==> cached.globalByPort[port] > 0
    requires forall port :: port in cached.pplnsByPort ==> cached.pplnsByPort[port] > 0
    ensures forall port :: port in Added(cached, newer).globalByPort ==> Added(cached, newer).globalByPort[port] > 0
    ensures forall port :: port in Added(cached, newer).pplnsByPort ==> Added(cached, newer).pplnsByPort[port] > 0
  {
    hide SumAll, Count;
    if newer != [] {
      SumAllCounts(newer);
    }
  }

  /** The rows up to the head number as many as the rows before did, of each pool type and on each port. */
  ghost predicate SameNumbers(rows: seq<Row>, head: Option<Head>, before: seq<Row>)
    requires head.Some? ==> FindHead(rows, head.value).Some?
  {
    forall f :: Count(UpToHead(rows, head), f) == Count(Visible(before), f)
  }

  /**
   The exact condition: with totals that described the store before, a refresh gives what a rebuild gives if and
   only if the store says it is smaller than the cached total, or the head is gone, or the rows up to the head
   number as many as before, of each pool type and on each port.
   */
  lemma RefreshIsRebuildIff(cached: Totals, before: seq<Row>, rows: seq<Row>, entryCount: Option<nat>)
    requires Ordered(rows) && Describes(cached, Visible(before))
    ensures Refreshed(Some(cached), rows, entryCount) == Rebuilt(rows) <==>
      Rebuilds(cached, rows, entryCount) || SameNumbers(rows, cached.head, before)
  {
    hide Count, Visible, TotalFor, Describes, UpToHead, Newer, Added, Rebuilt, HeadOf, SumAll;
    var t := Refreshed(Some(cached), rows, entryCount);
    DescribesIff(cached, Visible(before));
    RebuiltDescribes(rows);
    DescribesIff(Rebuilt(rows), Visible(rows));
    forall f
      ensures TotalFor(t, f) == Count(Visible(rows), f) <==>
        Rebuilds(cached, rows, entryCount) || Count(UpToHead(rows, cached.head), f) == Count(Visible(before), f)
    {
      TotalExactIff(cached, before, rows, entryCount, f);
    }
    if !Rebuilds(cached, rows, entryCount) && SameNumbers(rows, cached.head, before) {
      assert forall f :: TotalFor(t, f) == Count(Visible(rows), f);
      AddedKeepsPositive(cached, Newer(rows, cached.head));
      AddedHead(cached, rows);
      DescribesIff(t, Visible(rows));
      OneAnswer(t, Rebuilt(rows), Visible(rows));
    }
    if !Rebuilds(cached, rows, entryCount) && t == Rebuilt(rows) {
      forall f
        ensures Count(UpToHead(rows, cached.head), f) == Count(Visible(before), f)
      {
        assert TotalFor(t, f) == Count(Visible(rows), f);
      }
    }
  }

  lemma AddedHead(cached: Totals, rows: seq<Row>)
    requires cached.head.Some? ==> FindHead(rows, cached.head.value).Some?
    ensures Added(cached, Newer(rows, cached.head)).head == HeadOf(Visible(rows))
  {
    hide Visible, UpToHead, Newer, SumAll;
    VisibleSplits(rows, cached.head);
    var up, newer := UpToHead(rows, cached.head), Newer(rows, cached.head);
    if newer == [] {
      assert up + newer == up;
      if cached.head.None? {
        NothingUp(rows);
      }
    }
  }

  lemma NothingUp(rows: seq<Row>)
    ensures UpToHead(rows, None) == []
  {
  }

  /** The same for the pool's own blocks: only the two totals without ports count. */
  lemma BlockRefreshIsRebuildIff(cached: BlockTotals, before: seq<Row>, rows: seq<Row>, entryCount: Option<nat>)
    requires Ordered(rows) && cached == Plain(Rebuilt(before))
    ensures Plain(Refreshed(Some(WithoutPorts(cached)), rows, entryCount)) == Plain(Rebuilt(rows)) <==>
      || Rebuilds(WithoutPorts(cached), rows, entryCount)
      || (&& Count(UpToHead(rows, cached.head), Filter(false, None)) == Count(Visible(before), Filter(false, None))
          && Count(UpToHead(rows, cached.head), Filter(true, None)) == Count(Visible(before), Filter(true, None)))
  {
    hide Count, Visible, UpToHead, Newer, Added, SumAll, CountsPorts;
    RebuiltDescribes(before);
    RebuiltDescribes(rows);
    TotalExactIff(WithoutPorts(cached), before, rows, entryCount, Filter(false, None));
    TotalExactIff(WithoutPorts(cached), before, rows, entryCount, Filter(true, None));
    if !Rebuilds(WithoutPorts(cached), rows, entryCount) {
      AddedHead(WithoutPorts(cached), rows);
    }
  }

  // ------------------------------------------------------------------
  // Where it holds
  // ------------------------------------------------------------------

  /** Rows only edited, and only added above the head: a refresh is a rebuild. */
  lemma GrownStoreIsExact(cached: Totals, before: seq<Row>, rows: seq<Row>, entryCount: Option<nat>)
    requires Ordered(rows) && Describes(cached, Visible(before)) && OnlyGrew(Visible(before), Visible(rows))
    ensures Refreshed(Some(cached), rows, entryCount) == Rebuilt(rows)
  {
    hide Count, CountsPorts, Added, Rebuilt;
    RefreshIsRebuildIff(cached, before, rows, entryCount);
    if !Rebuilds(cached, rows, entryCount) {
      var was, now := Visible(before), Visible(rows);
      VisibleSplits(rows, cached.head);
      var up := UpToHead(rows, cached.head);
      if cached.head.Some? {
        var i := |was| - 1;
        assert SameForTotals(was[i], now[i]);
        assert now[|up| - 1] == up[|up| - 1];
        VisibleOrdered(rows);
        assert |up| - 1 == i;
      }
      assert |up| == |was| && forall i :: 0 <= i < |up| ==> up[i] == now[i];
      forall f
        ensures Count(up, f) == Count(was, f)
      {
        assert forall i :: 0 <= i < |was| ==> SameForTotals(was[i], up[i]);
        SameCounts(was, up, f);
      }
    }
  }

  lemma VisibleOrdered(rows: seq<Row>)
    requires Ordered(rows)
    ensures Ordered(Visible(rows))
  {
  }

  /** A store known to be smaller than what was counted is rebuilt from. */
  lemma ShrunkStoreIsExact(cached: Totals, before: seq<Row>, rows: seq<Row>)
    requires Describes(cached, Visible(before)) && |rows| < |Visible(before)|
    ensures Refreshed(Some(cached), rows, Some(|rows|)) == Rebuilt(rows)
  {
    hide Count, CountsPorts, Rebuilt, Added, Visible;
    CountAll(Visible(before));
  }

  // ------------------------------------------------------------------
  // Where it does not
  // ------------------------------------------------------------------

  /** What the totals of all rows are after a refresh that does not rebuild. */
  lemma GlobalAfter(cached: Totals, rows: seq<Row>, entryCount: Option<nat>)
    ensures Rebuilt(rows).global == |Visible(rows)|
    ensures !Rebuilds(cached, rows, entryCount) ==>
      Refreshed(Some(cached), rows, entryCount).global == cached.global + |Newer(rows, cached.head)|
  {
    hide Visible, Added, Rebuilt, Newer, Count;
    RebuiltDescribes(rows);
    CountAll(Visible(rows));
    if !Rebuilds(cached, rows, entryCount) {
      AddedCounts(cached, Newer(rows, cached.head), Filter(false, None));
      CountAll(Newer(rows, cached.head));
    }
  }

  function ExampleRow(key: nat): Row { Row(key, "h", true, 1, 0) }

  /**
   A deletion below the head and an insertion above it leave the size as it was: the refresh counts three rows, a
   rebuild two.
   */
  lemma ReplacedRowIsMiscounted()
    ensures var before, after := [ExampleRow(1), ExampleRow(2)], [ExampleRow(2), ExampleRow(3)];
      && Refreshed(Some(Rebuilt(before)), after, Some(|after|)).global == 3
      && Rebuilt(after).global == 2
  {
    hide SumAll, Added;
    var before, after := [ExampleRow(1), ExampleRow(2)], [ExampleRow(2), ExampleRow(3)];
    GlobalAfter(Rebuilt(before), before, None);
    GlobalAfter(Rebuilt(before), after, Some(2));
    assert after[..1] == [ExampleRow(2)];
    assert FindHead(after[..1], Head(2, "h")) == Some(1);
  }

  /**
   A row under the key zero is in the store's size but never in the totals, so that the deletion of another row
   goes unnoticed: the refresh still counts two rows, a rebuild one.
   */
  lemma ZeroKeyHidesDeletion()
    ensures var before, after := [ExampleRow(0), ExampleRow(1), ExampleRow(2)], [ExampleRow(0), ExampleRow(2)];
      && Refreshed(Some(Rebuilt(before)), after, Some(|after|)).global == 2
      && Rebuilt(after).global == 1
  {
    hide SumAll, Added;
    var before, after := [ExampleRow(0), ExampleRow(1), ExampleRow(2)], [ExampleRow(0), ExampleRow(2)];
    assert Visible(before) == [ExampleRow(1), ExampleRow(2)] && Visible(after) == [ExampleRow(2)];
    GlobalAfter(Rebuilt(before), before, None);
    GlobalAfter(Rebuilt(before), after, Some(2));
  }

  /** A store that does not tell its size hides any deletion below the head. */
  lemma UnknownSizeHidesDeletion()
    ensures var before, after := [ExampleRow(1), ExampleRow(2)], [ExampleRow(2)];
      && Refreshed(Some(Rebuilt(before)), after, None).global == 2
      && Rebuilt(after).global == 1
  {
    hide SumAll, Added;
    var before, after := [ExampleRow(1), ExampleRow(2)], [ExampleRow(2)];
    GlobalAfter(Rebuilt(before), before, None);
    GlobalAfter(Rebuilt(before), after, None);
  }
}
