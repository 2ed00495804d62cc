/**
 The share cleaner: which heights it keeps, and why deleting the rest leaves
 the payouts that are still to be calculated as they were.
 */
module ShareCleanup {
  import opened Wrappers
  import opened Pplns

  // ------------------------------------------------------------------
  // Scanning for the first height that can go
  // ------------------------------------------------------------------

  /** The work counted over a height until the threshold is met, and whether it was. */
  function CountHeight(entries: seq<Entry>, count: real, difficulty: int): (real, bool) {
    if entries == [] then (count, false)
    else
      var more := count + EntryWork(entries[0]);
      if more >= difficulty as real then (more, true) else CountHeight(entries[1..], more, difficulty)
  }

  /** The first height, going down, at which the counted work meets the threshold. */
  function FirstKept(db: ShareDb, height: nat, count: real, difficulty: int): Option<nat>
    decreases height
  {
    if height == 0 then None
    else
      var (more, found) := CountHeight(SharesAt(db, height), count, difficulty);
      if found then Some(height) else FirstKept(db, height - 1, more, difficulty)
  }

  /** The heights with shares below the first kept one. */
  function Deleted(db: ShareDb, lastBlock: nat, difficulty: int): set<nat> {
    var kept := FirstKept(db, if lastBlock == 0 then 0 else lastBlock - 1, 0.0, difficulty);
    if kept.None? then {} else set b | b in db && 0 < b < kept.value && db[b] != [] :: b
  }

  function Cleaned(db: ShareDb, lastBlock: nat, difficulty: int): ShareDb {
    db - Deleted(db, lastBlock, difficulty)
  }

  /** One height: the index of a cursor over its shares, counting until the threshold is met. */
  method ScanHeight(entries: seq<Entry>, soFar: real, difficulty: int) returns (shareCount: real, pplnsFound: bool)
    ensures (shareCount, pplnsFound) == CountHeight(entries, soFar, difficulty)
  {
    shareCount := soFar;
    pplnsFound := false;
    var i := 0;
    while i < |entries| && !pplnsFound
      invariant 0 <= i <= |entries|
      invariant !pplnsFound ==> CountHeight(entries[i..], shareCount, difficulty) == CountHeight(entries, soFar, difficulty)
      invariant pplnsFound ==> (shareCount, true) == CountHeight(entries, soFar, difficulty)
      decreases |entries| - i, !pplnsFound
    {
      assert entries[i..][1..] == entries[i + 1..];
      if entries[i].Share? && entries[i].pplns {
        shareCount := shareCount + if entries[i].shares2.Some? then entries[i].shares2.value else 0.0;
      }
      if shareCount >= difficulty as real {
        pplnsFound := true;
      } else {
        i := i + 1;
      }
    }
  }

  method ScanShares(db: ShareDb, lastBlock: nat, difficulty: int) returns (blockSet: set<nat>)
    ensures blockSet == Deleted(db, lastBlock, difficulty)
  {
    blockSet := {};
    if lastBlock == 0 { return; }
    var shareCount, pplnsFound := 0.0, false;
    var blockID := lastBlock - 1;
    ghost var kept := FirstKept(db, lastBlock - 1, 0.0, difficulty);
    while blockID > 0
      invariant 0 <= blockID <= lastBlock - 1
      invariant !pplnsFound ==> blockSet == {} && FirstKept(db, blockID, shareCount, difficulty) == kept
      invariant pplnsFound ==> kept.Some? && blockID < kept.value
      invariant pplnsFound ==> blockSet == set b | b in db && blockID < b < kept.value && db[b] != [] :: b
    {
      var entries := SharesAt(db, blockID);
      if pplnsFound {
        if entries != [] {
          blockSet := blockSet + {blockID};
        }
      } else {
        shareCount, pplnsFound := ScanHeight(entries, shareCount, difficulty);
      }
      blockID := blockID - 1;
    }
  }

  // ------------------------------------------------------------------
  // What is kept
  // ------------------------------------------------------------------

  lemma {:induction false} EntriesWorkFront(entries: seq<Entry>)
    requires entries != []
    ensures EntriesWork(entries) == EntryWork(entries[0]) + EntriesWork(entries[1..])
  {
    var n := |entries| - 1;
    if n > 0 {
      EntriesWorkFront(entries[..n]);
      assert entries[..n][1..] == entries[1..][..n - 1];
    }
  }

  lemma {:induction false} CountHeightBounds(entries: seq<Entry>, count: real, difficulty: int)
    ensures var (more, found) := CountHeight(entries, count, difficulty);
            && more <= count + EntriesWork(entries)
            && (found ==> more >= difficulty as real)
            && (!found ==> more == count + EntriesWork(entries))
            && (!found ==> entries == [] || more < difficulty as real)
  {
    if entries != [] {
      EntriesWorkFront(entries);
      CountHeightBounds(entries[1..], count + EntryWork(entries[0]), difficulty);
    }
  }

  /** From the first kept height up there is enough work for the threshold, and from the next height up there is not. */
  lemma {:induction false} KeptWork(db: ShareDb, height: nat, count: real, difficulty: int)
    requires FirstKept(db, height, count, difficulty).Some?
    ensures var kept := FirstKept(db, height, count, difficulty).value;
            && 1 <= kept <= height
            && count + WorkBetween(db, kept, height) >= difficulty as real
            && (count < difficulty as real ==> count + WorkBetween(db, kept + 1, height) < difficulty as real)
    decreases height
  {
    var (more, found) := CountHeight(SharesAt(db, height), count, difficulty);
    CountHeightBounds(SharesAt(db, height), count, difficulty);
    if found {
      assert WorkBetween(db, height + 1, height) == 0.0;
      assert WorkBetween(db, height, height - 1) == 0.0;
    } else {
      KeptWork(db, height - 1, more, difficulty);
    }
  }

  /** Some height in the range has shares. */
  ghost predicate Occupied(db: ShareDb, low: nat, high: int) {
    exists h :: low <= h <= high && SharesAt(db, h) != []
  }

  lemma {:induction false} WorkIsSomewhere(db: ShareDb, low: nat, high: int)
    ensures WorkBetween(db, low, high) > 0.0 ==> Occupied(db, low, high)
    decreases high
  {
    if high >= low && WorkBetween(db, low, high) > 0.0 {
      if SharesAt(db, high) == [] {
        WorkIsSomewhere(db, low, high - 1);
      } else {
        assert low <= high <= high;
      }
    }
  }

  /** The first kept height is above k exactly if the shares above k are there and meet the threshold. */
  lemma {:induction false} KeptAbove(db: ShareDb, height: nat, count: real, difficulty: int, k: nat)
    ensures (FirstKept(db, height, count, difficulty).Some? && FirstKept(db, height, count, difficulty).value > k) <==>
      Occupied(db, k + 1, height) && count + WorkBetween(db, k + 1, height) >= difficulty as real
    decreases height
  {
    if k >= height {
      if FirstKept(db, height, count, difficulty).Some? {
        KeptWork(db, height, count, difficulty);
      }
    } else {
      var entries := SharesAt(db, height);
      var (more, found) := CountHeight(entries, count, difficulty);
      CountHeightBounds(entries, count, difficulty);
      if entries != [] {
        assert Occupied(db, k + 1, height);
      } else {
        assert Occupied(db, k + 1, height) <==> Occupied(db, k + 1, height - 1);
      }
      if !found {
        KeptAbove(db, height - 1, more, difficulty, k);
        WorkIsSomewhere(db, k + 1, height - 1);
      }
    }
  }

  /** Exactly which heights go: those with shares that lie below enough work. */
  lemma DeletedIff(db: ShareDb, lastBlock: nat, difficulty: int, k: nat)
    ensures k in db && k !in Cleaned(db, lastBlock, difficulty) <==>
      && k in db && db[k] != [] && k > 0
      && Occupied(db, k + 1, lastBlock - 1) && WorkBetween(db, k + 1, lastBlock - 1) >= difficulty as real
    ensures forall h :: h in Cleaned(db, lastBlock, difficulty) ==> h in db && Cleaned(db, lastBlock, difficulty)[h] == db[h]
  {
    hide FirstKept, WorkBetween;
    if lastBlock > 0 {
      KeptAbove(db, lastBlock - 1, 0.0, difficulty, k);
    } else {
      NothingDeleted(db, lastBlock, difficulty);
    }
  }

  lemma {:induction false} WorkSplit(db: ShareDb, low: nat, mid: nat, high: int)
    requires low <= mid <= high + 1
    ensures WorkBetween(db, low, high) == WorkBetween(db, low, mid - 1) + WorkBetween(db, mid, high)
    decreases high
  {
    if mid <= high {
      WorkSplit(db, low, mid, high - 1);
    }
  }

  lemma {:induction false} WorkAgrees(db: ShareDb, other: ShareDb, low: nat, high: int)
    requires forall h :: low <= h <= high ==> SharesAt(db, h) == SharesAt(other, h)
    ensures WorkBetween(db, low, high) == WorkBetween(other, low, high)
    decreases high
  {
    if low <= high && 0 <= high {
      WorkAgrees(db, other, low, high - 1);
    }
  }

  // ------------------------------------------------------------------
  // Walks that stop in time
  // ------------------------------------------------------------------

  /** Walking in two stretches is walking. */
  lemma {:induction false} WalkSplit(t: Tally, cfg: Config, window: real, db: ShareDb, height: nat, mid: nat, low: nat)
    requires HasFeeRows(t, cfg) && 0 < low <= mid <= height + 1
    ensures Walk(t, cfg, window, db, height, low)
         == Walk(Walk(t, cfg, window, db, height, mid), cfg, window, db, mid - 1, low)
    decreases height
  {
    hide VisitAll, HasFeeRows;
    if mid <= height && t.paid < window {
      WalkSplit(VisitAll(t, cfg, window, SharesAt(db, height)), cfg, window, db, height - 1, mid, low);
    }
  }

  lemma {:induction false} WalkAgrees(t: Tally, cfg: Config, window: real, db: ShareDb, other: ShareDb, height: nat, low: nat)
    requires HasFeeRows(t, cfg) && low > 0
    requires forall h :: low <= h <= height ==> SharesAt(db, h) == SharesAt(other, h)
    ensures Walk(t, cfg, window, db, height, low) == Walk(t, cfg, window, other, height, low)
    decreases height
  {
    hide VisitAll, HasFeeRows;
    if height >= low && t.paid < window {
      assert SharesAt(db, height) == SharesAt(other, height);
      WalkAgrees(VisitAll(t, cfg, window, SharesAt(db, height)), cfg, window, db, other, height - 1, low);
    }
  }

  /** A payout depends only on the heights down to where the window fills. */
  lemma {:induction false} PayoutNeedsOnlyWindow(cfg: Config, window: real, db: ShareDb, other: ShareDb, height: nat, low: nat)
    requires ValidFees(cfg) && window >= 0.0 && 0 < low <= height + 1
    requires forall h :: low <= h <= height ==> SharesAt(db, h) == SharesAt(other, h)
    requires WorkBetween(db, low, height) >= window
    ensures Payout(cfg, window, db, height) == Payout(cfg, window, other, height)
  {
    hide Walk, VisitAll, HasFeeRows, Initial;
    var t := Initial(cfg);
    InitialBalanced(cfg, window);
    WalkSplit(t, cfg, window, db, height, low, 1);
    WalkSplit(t, cfg, window, other, height, low, 1);
    WalkAgrees(t, cfg, window, db, other, height, low);
    WalkBalanced(t, cfg, window, db, height, low);
    FullWalkStops(Walk(t, cfg, window, db, height, low), cfg, window, db, low - 1);
    FullWalkStops(Walk(t, cfg, window, db, height, low), cfg, window, other, low - 1);
  }

  lemma FullWalkStops(t: Tally, cfg: Config, window: real, db: ShareDb, height: nat)
    requires HasFeeRows(t, cfg) && t.paid >= window
    ensures Walk(t, cfg, window, db, height, 1) == t
  {
  }

  // ------------------------------------------------------------------
  // The cleaner and the payouts
  // ------------------------------------------------------------------

  lemma CleanedKeeps(db: ShareDb, lastBlock: nat, difficulty: int, kept: nat)
    requires lastBlock > 0 && FirstKept(db, lastBlock - 1, 0.0, difficulty) == Some(kept)
    ensures forall h :: kept <= h ==> SharesAt(db, h) == SharesAt(Cleaned(db, lastBlock, difficulty), h)
    ensures forall h :: 0 < h < kept ==> SharesAt(Cleaned(db, lastBlock, difficulty), h) == []
  {
    hide FirstKept, EntryWork;
  }

  lemma NothingDeleted(db: ShareDb, lastBlock: nat, difficulty: int)
    requires lastBlock == 0 || FirstKept(db, lastBlock - 1, 0.0, difficulty).None?
    ensures Cleaned(db, lastBlock, difficulty) == db
  {
    assert lastBlock == 0 ==> FirstKept(db, 0, 0.0, difficulty).None?;
  }

  /**
   Cleaning never changes a payout that starts at `start`, above or below the height the scan started from, as
   long as its window and the work strictly between the two heights fit the scan's threshold.
   */
  lemma {:induction false} CleanupKeepsPayout(cfg: Config, window: real, db: ShareDb, lastBlock: nat, difficulty: int, start: nat)
    requires ValidFees(cfg) && window > 0.0
    requires window + WorkBetween(db, start + 1, lastBlock - 1) <= difficulty as real
    ensures Payout(cfg, window, Cleaned(db, lastBlock, difficulty), start) == Payout(cfg, window, db, start)
  {
    hide Payout, Cleaned, FirstKept, SharesAt, EntriesWork;
    if lastBlock == 0 || FirstKept(db, lastBlock - 1, 0.0, difficulty).None? {
      NothingDeleted(db, lastBlock, difficulty);
    } else {
      var kept := FirstKept(db, lastBlock - 1, 0.0, difficulty).value;
      KeptWork(db, lastBlock - 1, 0.0, difficulty);
      StartIsKept(db, kept, start, lastBlock, difficulty, window);
      CleanedKeeps(db, lastBlock, difficulty, kept);
      PayoutNeedsOnlyWindow(cfg, window, db, Cleaned(db, lastBlock, difficulty), start, kept);
    }
  }

  lemma StartIsKept(db: ShareDb, kept: nat, start: nat, lastBlock: nat, difficulty: int, window: real)
    requires window > 0.0 && 1 <= kept <= lastBlock - 1
    requires WorkBetween(db, kept, lastBlock - 1) >= difficulty as real
    requires window + WorkBetween(db, start + 1, lastBlock - 1) <= difficulty as real
    ensures kept <= start && WorkBetween(db, kept, start) >= window
  {
    hide EntriesWork;
    if start < kept {
      WorkSplit(db, start + 1, kept, lastBlock - 1);
    } else if start < lastBlock {
      WorkSplit(db, kept, start + 1, lastBlock - 1);
    } else {
      WorkSplit(db, kept, lastBlock, start);
    }
  }

  // ------------------------------------------------------------------
  // Exactly when a payout survives
  // ------------------------------------------------------------------

  /** The recipients a payout pays anything to. */
  function Paid(rows: seq<Row>): seq<Row> {
    if rows == [] then [] else (if rows[0].amount == 0.0 then [] else [rows[0]]) + Paid(rows[1..])
  }

  lemma {:induction false} PaidKeepsSum(rows: seq<Row>)
    ensures SumAmounts(Paid(rows)) == SumAmounts(rows)
  {
    if rows != [] {
      PaidKeepsSum(rows[1..]);
      var first := if rows[0].amount == 0.0 then [] else [rows[0]];
      SumConcat(first, Paid(rows[1..]));
    }
  }

  lemma {:induction false} PaidIgnoresEmptyRow(rows: seq<Row>, row: Row)
    requires row.amount == 0.0
    ensures Paid(rows + [row]) == Paid(rows)
  {
    if rows == [] {
      assert [row][1..] == [];
    } else {
      assert (rows + [row])[1..] == rows[1..] + [row];
      PaidIgnoresEmptyRow(rows[1..], row);
    }
  }

  lemma {:induction false} IdleHeightPaysNothing(t: Tally, cfg: Config, window: real, entries: seq<Entry>)
    requires HasFeeRows(t, cfg) && EntriesWork(entries) == 0.0
    ensures VisitAll(t, cfg, window, entries).paid == t.paid
    ensures Paid(VisitAll(t, cfg, window, entries).rows) == Paid(t.rows)
  {
    hide PayShare, HasFeeRows, Paid;
    if entries != [] {
      var n := |entries| - 1;
      IdleHeightPaysNothing(t, cfg, window, entries[..n]);
      if entries[n].Share? {
        PaidIgnoresEmptyRow(VisitAll(t, cfg, window, entries[..n]).rows, MinerRow(entries[n]));
      }
    }
  }

  lemma {:induction false} IdleWalkPaysNothing(t: Tally, cfg: Config, window: real, db: ShareDb, height: nat)
    requires HasFeeRows(t, cfg) && WorkBetween(db, 1, height) == 0.0
    ensures Paid(Walk(t, cfg, window, db, height, 1).rows) == Paid(t.rows)
    decreases height
  {
    hide VisitAll, HasFeeRows, Paid, EntriesWork, SharesAt;
    if height >= 1 && t.paid < window {
      var entries := SharesAt(db, height);
      IdleHeightPaysNothing(t, cfg, window, entries);
      IdleWalkPaysNothing(VisitAll(t, cfg, window, entries), cfg, window, db, height - 1);
    }
  }

  /** Between two stores that agree above `kept`, when one of them has no work below it. */
  lemma {:induction false} SamePaymentsAbove(cfg: Config, window: real, db: ShareDb, other: ShareDb, height: nat, kept: nat)
    requires ValidFees(cfg) && window >= 0.0 && 0 < kept <= height + 1
    requires forall h :: kept <= h <= height ==> SharesAt(db, h) == SharesAt(other, h)
    requires WorkBetween(db, 1, kept - 1) == 0.0 && WorkBetween(other, 1, kept - 1) == 0.0
    ensures Paid(Payout(cfg, window, db, height).rows) == Paid(Payout(cfg, window, other, height).rows)
  {
    hide Walk, VisitAll, HasFeeRows, Initial, Paid, WorkBetween, SharesAt;
    var t := Initial(cfg);
    WalkSplit(t, cfg, window, db, height, kept, 1);
    WalkSplit(t, cfg, window, other, height, kept, 1);
    WalkAgrees(t, cfg, window, db, other, height, kept);
    IdleWalkPaysNothing(Walk(t, cfg, window, db, height, kept), cfg, window, db, kept - 1);
    IdleWalkPaysNothing(Walk(t, cfg, window, db, height, kept), cfg, window, other, kept - 1);
  }

  lemma {:induction false} EmptiedWork(db: ShareDb, high: int)
    requires forall h :: 0 < h <= high ==> SharesAt(db, h) == []
    ensures WorkBetween(db, 1, high) == 0.0
    decreases high
  {
    if high >= 1 {
      EmptiedWork(db, high - 1);
    }
  }

  /**
   When the cleaner deletes anything, a payout keeps its payments exactly when the kept heights below its
   start still fill the window, or nothing of what was deleted could have been paid.
   */
  lemma {:induction false} PayoutSurvivesIff(cfg: Config, window: real, db: ShareDb, lastBlock: nat, difficulty: int, start: nat, kept: nat)
    requires ValidFees(cfg) && window > 0.0
    requires lastBlock > 0 && FirstKept(db, lastBlock - 1, 0.0, difficulty) == Some(kept)
    ensures Paid(Payout(cfg, window, Cleaned(db, lastBlock, difficulty), start).rows) == Paid(Payout(cfg, window, db, start).rows)
       <==> WorkBetween(db, kept, start) >= window || WorkBetween(db, 1, if start < kept then start else kept - 1) == 0.0
  {
    hide Payout, Cleaned, SharesAt, EntriesWork, Paid, SumAmounts, FirstKept;
    var cleaned := Cleaned(db, lastBlock, difficulty);
    KeptWork(db, lastBlock - 1, 0.0, difficulty);
    CleanedKeeps(db, lastBlock, difficulty, kept);
    var below := if start < kept then start else kept - 1;
    EmptiedWork(cleaned, below);
    WorkSplit(db, 1, below + 1, start);
    WorkSplit(cleaned, 1, below + 1, start);
    WorkAgrees(db, cleaned, kept, start);
    KeptPart(db, cleaned, kept, start, below);
    PayoutConservesWork(cfg, window, db, start);
    PayoutConservesWork(cfg, window, cleaned, start);
    PaidKeepsSum(Payout(cfg, window, db, start).rows);
    PaidKeepsSum(Payout(cfg, window, cleaned, start).rows);
    if WorkBetween(db, kept, start) >= window {
      PayoutNeedsOnlyWindow(cfg, window, db, cleaned, start, kept);
    } else if WorkBetween(db, 1, below) == 0.0 {
      SamePaymentsAbove(cfg, window, db, cleaned, start, below + 1);
    }
  }

  lemma KeptPart(db: ShareDb, cleaned: ShareDb, kept: nat, start: nat, below: nat)
    requires kept > 0 && below == if start < kept then start else kept - 1
    ensures WorkBetween(db, below + 1, start) == WorkBetween(db, kept, start)
    ensures WorkBetween(cleaned, below + 1, start) == WorkBetween(cleaned, kept, start)
  {
  }
}
