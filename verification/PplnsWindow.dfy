/**
 What a payout reports beside its amounts: when the newest and the oldest
 share that it paid were found, and how much work of each port it passed. The
 shares are read as one list, newest height first.
 */
module PplnsWindow {
  import opened Wrappers
  import opened Pplns

  /** The shares from one height down to another, in the order in which they are visited. */
  ghost function Entries(db: ShareDb, low: nat, high: int): seq<Entry>
    decreases high
  {
    if high < low || high < 0 then [] else SharesAt(db, high) + Entries(db, low, high - 1)
  }

  /** The stamp of the first share with any work. */
  ghost function FirstStamp(entries: seq<Entry>): Option<int> {
    if entries == [] then None
    else if EntryWork(entries[0]) != 0.0 then Some(entries[0].timestamp)
    else FirstStamp(entries[1..])
  }

  /** The stamp of the last share with any work before which the window was not full. */
  ghost function LastStamp(entries: seq<Entry>, window: real): Option<int> {
    if entries == [] then None
    else
      var n := |entries| - 1;
      if EntryWork(entries[n]) != 0.0 && EntriesWork(entries[..n]) < window then Some(entries[n].timestamp)
      else LastStamp(entries[..n], window)
  }

  /** The work found on a port. */
  ghost function PortWork(entries: seq<Entry>, port: int): real {
    if entries == [] then 0.0
    else
      var e := entries[|entries| - 1];
      PortWork(entries[..|entries| - 1], port) + if e.Share? && e.port == Some(port) then EntryWork(e) else 0.0
  }

  function Or(a: Option<int>, b: Option<int>): Option<int> { if a.Some? then a else b }

  // ------------------------------------------------------------------
  // Lists
  // ------------------------------------------------------------------

  lemma {:induction false} FirstStampConcat(a: seq<Entry>, b: seq<Entry>)
    ensures FirstStamp(a + b) == Or(FirstStamp(a), FirstStamp(b))
  {
    if a == [] {
      assert a + b == b;
    } else {
      assert (a + b)[1..] == a[1..] + b;
      FirstStampConcat(a[1..], b);
    }
  }

  lemma {:induction false} WorkConcat(a: seq<Entry>, b: seq<Entry>)
    ensures EntriesWork(a + b) == EntriesWork(a) + EntriesWork(b)
    decreases |b|
  {
    if b == [] {
      assert a + b == a;
    } else {
      var n := |b| - 1;
      assert (a + b)[..|a| + n] == a + b[..n];
      WorkConcat(a, b[..n]);
    }
  }

  lemma {:induction false} PortConcat(a: seq<Entry>, b: seq<Entry>, port: int)
    ensures PortWork(a + b, port) == PortWork(a, port) + PortWork(b, port)
    decreases |b|
  {
    if b == [] {
      assert a + b == a;
    } else {
      var n := |b| - 1;
      assert (a + b)[..|a| + n] == a + b[..n];
      PortConcat(a, b[..n], port);
    }
  }

  /** Once the window is full the last stamp stays. */
  lemma {:induction false} LastStampStays(a: seq<Entry>, b: seq<Entry>, window: real)
    requires EntriesWork(a) >= window
    ensures LastStamp(a + b, window) == LastStamp(a, window)
    decreases |b|
  {
    if b == [] {
      assert a + b == a;
    } else {
      var n := |b| - 1;
      assert (a + b)[..|a| + n] == a + b[..n];
      WorkConcat(a, b[..n]);
      LastStampStays(a, b[..n], window);
    }
  }

  lemma {:induction false} FirstStampThere(a: seq<Entry>)
    requires EntriesWork(a) > 0.0
    ensures FirstStamp(a).Some?
    decreases |a|
  {
    var n := |a| - 1;
    assert a == a[..n] + [a[n]];
    FirstStampConcat(a[..n], [a[n]]);
    if EntryWork(a[n]) != 0.0 {
      assert FirstStamp([a[n]]) == Some(a[n].timestamp);
    } else {
      FirstStampThere(a[..n]);
    }
  }

  lemma {:induction false} WorkIsSum(db: ShareDb, low: nat, high: int)
    ensures EntriesWork(Entries(db, low, high)) == WorkBetween(db, low, high)
    decreases high
  {
    if high >= low && high >= 0 {
      WorkConcat(SharesAt(db, high), Entries(db, low, high - 1));
      WorkIsSum(db, low, high - 1);
    }
  }

  // ------------------------------------------------------------------
  // One share, one list
  // ------------------------------------------------------------------

  /** The tally after these shares. */
  ghost predicate Reports(t: Tally, seen: seq<Entry>, window: real) {
    && t.paid == Min(window, EntriesWork(seen))
    && t.firstShareTime == FirstStamp(seen)
    && t.lastShareTime == LastStamp(seen, window)
    && forall port :: PortShare(t.ports, port) == PortWork(seen, port)
  }

  lemma PayShareKeepsReports(t: Tally, cfg: Config, window: real, key: string, amount: real)
    requires HasKey(t.rows, key) && HasFeeRows(t, cfg)
    ensures var r := PayShare(t, cfg, window, key, amount);
      r.ports == t.ports && r.firstShareTime == t.firstShareTime && r.lastShareTime == t.lastShareTime
  {
    hide SplitShare, AddTo, IndexOf;
  }

  lemma OneMore(seen: seq<Entry>, e: Entry, window: real)
    ensures EntriesWork(seen + [e]) == EntriesWork(seen) + EntryWork(e)
    ensures FirstStamp(seen + [e]) == Or(FirstStamp(seen), if EntryWork(e) != 0.0 then Some(e.timestamp) else None)
    ensures LastStamp(seen + [e], window) ==
      if EntryWork(e) != 0.0 && EntriesWork(seen) < window then Some(e.timestamp) else LastStamp(seen, window)
    ensures forall port :: PortWork(seen + [e], port) == PortWork(seen, port) + if e.Share? && e.port == Some(port) then EntryWork(e) else 0.0
  {
    assert (seen + [e])[..|seen|] == seen;
    FirstStampConcat(seen, [e]);
    assert FirstStamp([e]) == if EntryWork(e) != 0.0 then Some(e.timestamp) else None by { assert [e][1..] == []; }
  }

  lemma VisitReports(t: Tally, cfg: Config, window: real, e: Entry, seen: seq<Entry>)
    requires ValidFees(cfg) && Balanced(t, window) && HasFeeRows(t, cfg) && Reports(t, seen, window)
    ensures Reports(Visit(t, cfg, window, e), seen + [e], window)
  {
    hide PayShare, Balanced, FirstStamp, LastStamp, PortWork, EntriesWork, HasKey, Ensured, ValidFees;
    VisitBalanced(t, cfg, window, e);
    OneMore(seen, e, window);
    if e.Share? && e.pplns && EntryWork(e) != 0.0 {
      var t1 := t.(rows := Ensured(t.rows, MinerRow(e)));
      var t2 := t1.(firstShareTime := if t.firstShareTime.None? then Some(e.timestamp) else t.firstShareTime,
                    lastShareTime := if t.paid < window then Some(e.timestamp) else t.lastShareTime);
      PayShareKeepsReports(t2, cfg, window, Identifier(e), EntryWork(e));
    }
  }

  lemma {:induction false} VisitAllReports(t: Tally, cfg: Config, window: real, entries: seq<Entry>, seen: seq<Entry>)
    requires ValidFees(cfg) && Balanced(t, window) && HasFeeRows(t, cfg) && Reports(t, seen, window)
    ensures Reports(VisitAll(t, cfg, window, entries), seen + entries, window)
    decreases |entries|
  {
    hide Reports, Visit, Balanced, ValidFees, HasFeeRows;
    if entries == [] {
      assert seen + entries == seen;
    } else {
      var n := |entries| - 1;
      VisitAllReports(t, cfg, window, entries[..n], seen);
      VisitAllBalanced(t, cfg, window, entries[..n]);
      VisitReports(VisitAll(t, cfg, window, entries[..n]), cfg, window, entries[n], seen + entries[..n]);
      assert seen + entries[..n] + [entries[n]] == seen + entries;
    }
  }

  // ------------------------------------------------------------------
  // The walk
  // ------------------------------------------------------------------

  /** The walk goes down to the height at which the window is full, or to the lowest. */
  ghost predicate StopsAt(db: ShareDb, window: real, low: nat, height: nat, stop: nat) {
    && low <= stop <= height + 1
    && (stop > low ==> WorkBetween(db, stop, height) >= window)
    && (stop <= height ==> WorkBetween(db, stop + 1, height) < window)
  }

  lemma {:induction false} WalkReports(t: Tally, cfg: Config, window: real, db: ShareDb, high: nat, height: nat) returns (stop: nat)
    requires ValidFees(cfg) && Balanced(t, window) && HasFeeRows(t, cfg) && height <= high
    requires Reports(t, Entries(db, height + 1, high), window)
    requires height < high ==> WorkBetween(db, height + 2, high) < window
    ensures Reports(Walk(t, cfg, window, db, height, 1), Entries(db, stop, high), window) && StopsAt(db, window, 1, high, stop)
    decreases height
  {
    hide Reports, Visit, VisitAll, Balanced, ValidFees, HasFeeRows;
    PaidIs(t, Entries(db, height + 1, high), window);
    WorkIsSum(db, height + 1, high);
    if height < 1 || t.paid >= window {
      stop := height + 1;
    } else {
      var seen := Entries(db, height + 1, high);
      VisitAllReports(t, cfg, window, SharesAt(db, height), seen);
      VisitAllBalanced(t, cfg, window, SharesAt(db, height));
      EntriesSnoc(db, height, high);
      stop := WalkReports(VisitAll(t, cfg, window, SharesAt(db, height)), cfg, window, db, high, height - 1);
    }
  }

  lemma PaidIs(t: Tally, seen: seq<Entry>, window: real)
    requires Reports(t, seen, window)
    ensures t.paid == Min(window, EntriesWork(seen))
  {
  }

  lemma {:induction false} EntriesSnoc(db: ShareDb, low: nat, high: nat)
    requires low <= high
    ensures Entries(db, low, high) == Entries(db, low + 1, high) + SharesAt(db, low)
    decreases high
  {
    if low < high {
      EntriesSnoc(db, low, high - 1);
    } else {
      assert Entries(db, low, low - 1) == [];
    }
  }

  lemma {:induction false} EntriesSplit(db: ShareDb, low: nat, stop: nat, high: int)
    requires low <= stop && stop <= high + 1
    ensures Entries(db, low, high) == Entries(db, stop, high) + Entries(db, low, stop - 1)
    decreases high
  {
    if stop <= high {
      EntriesSplit(db, low, stop, high - 1);
      assert SharesAt(db, high) + (Entries(db, stop, high - 1) + Entries(db, low, stop - 1))
          == SharesAt(db, high) + Entries(db, stop, high - 1) + Entries(db, low, stop - 1);
    } else {
      assert Entries(db, stop, high) == [];
    }
  }

  /**
   A payout reports the stamps of the first share with work, newest height first, and of the last one it paid anything
   of; and for every port all the work it passed, which is that of the heights down to the one at which the window is
   full.
   */
  lemma PayoutReports(cfg: Config, window: real, db: ShareDb, height: nat) returns (stop: nat)
    requires ValidFees(cfg) && window > 0.0
    ensures var t := Payout(cfg, window, db, height);
      && t.firstShareTime == FirstStamp(Entries(db, 1, height))
      && t.lastShareTime == LastStamp(Entries(db, 1, height), window)
      && StopsAt(db, window, 1, height, stop)
      && forall port :: PortShare(t.ports, port) == PortWork(Entries(db, stop, height), port)
  {
    hide Walk, WorkBetween;
    InitialBalanced(cfg, window);
    assert Entries(db, height + 1, height) == [];
    stop := WalkReports(Initial(cfg), cfg, window, db, height, height);
    var seen, rest := Entries(db, stop, height), Entries(db, 1, stop - 1);
    EntriesSplit(db, 1, stop, height);
    WorkIsSum(db, stop, height);
    FirstStampConcat(seen, rest);
    if stop > 1 {
      LastStampStays(seen, rest, window);
      FirstStampThere(seen);
    } else {
      assert rest == [];
      assert seen + rest == seen;
    }
  }
}
