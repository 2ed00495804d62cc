/**
 The whole cleanup cycle: the oldest block whose payout is still to be
 calculated decides from where shares are scanned, and every pending payout
 gets out of the cleaned store what it would have got out of the full one.
 */
module ShareRetention {
  import opened Wrappers
  import opened Pplns
  import opened ShareCleanup

  /** A main-chain block as stored under its height, and a block of another coin anchored to a main-chain height. */
  datatype MainBlock = MainBlock(height: nat, unlocked: bool, payReady: bool)
  datatype AltBlock = AltBlock(id: nat, anchorHeight: nat, unlocked: bool, payReady: bool)

  /** Cursors run until they find no key, and take the key zero for none. */
  function MainSeen(blocks: seq<MainBlock>): (n: nat)
    ensures n <= |blocks|
    ensures n < |blocks| ==> blocks[n].height == 0
    ensures forall i :: 0 <= i < n ==> blocks[i].height != 0
  {
    if blocks == [] || blocks[0].height == 0 then 0 else 1 + MainSeen(blocks[1..])
  }

  function AltSeen(blocks: seq<AltBlock>): (n: nat)
    ensures n <= |blocks|
    ensures n < |blocks| ==> blocks[n].id == 0
    ensures forall i :: 0 <= i < n ==> blocks[i].id != 0
  {
    if blocks == [] || blocks[0].id == 0 then 0 else 1 + AltSeen(blocks[1..])
  }

  /** Heights of the blocks whose payout is still to be calculated, as far as the cursors see them. */
  ghost function PendingHeights(alts: seq<AltBlock>, mains: seq<MainBlock>): set<nat> {
    (set i | 0 <= i < AltSeen(alts) && !alts[i].unlocked && !alts[i].payReady :: alts[i].anchorHeight)
    + (set i | 0 <= i < MainSeen(mains) && !mains[i].unlocked && !mains[i].payReady :: mains[i].height)
  }

  ghost predicate IsOldest(oldest: Option<nat>, heights: set<nat>) {
    && (oldest.None? ==> heights == {})
    && (oldest.Some? ==> oldest.value in heights && forall h :: h in heights ==> oldest.value <= h)
  }

  lemma IsOldestInsert(oldest: Option<nat>, heights: set<nat>, h: nat)
    requires IsOldest(oldest, heights)
    ensures IsOldest(if oldest.None? || oldest.value > h then Some(h) else oldest, heights + {h})
  {
  }

  ghost function AltHeights(alts: seq<AltBlock>, n: nat): set<nat>
    requires n <= |alts|
  {
    set i | 0 <= i < n && !alts[i].unlocked && !alts[i].payReady :: alts[i].anchorHeight
  }

  ghost function MainHeights(mains: seq<MainBlock>, n: nat): set<nat>
    requires n <= |mains|
  {
    set i | 0 <= i < n && !mains[i].unlocked && !mains[i].payReady :: mains[i].height
  }

  lemma AltHeightsStep(alts: seq<AltBlock>, n: nat)
    requires n < |alts|
    ensures AltHeights(alts, n + 1)
         == AltHeights(alts, n) + if !alts[n].unlocked && !alts[n].payReady then {alts[n].anchorHeight} else {}
  {
  }

  lemma MainHeightsStep(mains: seq<MainBlock>, n: nat)
    requires n < |mains|
    ensures MainHeights(mains, n + 1)
         == MainHeights(mains, n) + if !mains[n].unlocked && !mains[n].payReady then {mains[n].height} else {}
  {
  }

  method OldestAmongAlts(alts: seq<AltBlock>) returns (oldest: Option<nat>)
    ensures IsOldest(oldest, AltHeights(alts, AltSeen(alts)))
  {
    hide AltSeen, AltHeights;
    oldest := None;
    var i := 0;
    NothingSeen(alts, []);
    while i < |alts| && alts[i].id != 0
      invariant 0 <= i <= AltSeen(alts)
      invariant IsOldest(oldest, AltHeights(alts, i))
    {
      AltHeightsStep(alts, i);
      IsOldestInsert(oldest, AltHeights(alts, i), alts[i].anchorHeight);
      if !alts[i].unlocked && !alts[i].payReady {
        if oldest.None? || oldest.value > alts[i].anchorHeight {
          oldest := Some(alts[i].anchorHeight);
        }
      }
      i := i + 1;
    }
  }

  lemma NothingSeen(alts: seq<AltBlock>, mains: seq<MainBlock>)
    ensures AltHeights(alts, 0) == {} && MainHeights(mains, 0) == {}
  {
  }

  method GetOldestLockedBlockHeight(alts: seq<AltBlock>, mains: seq<MainBlock>) returns (oldest: Option<nat>)
    ensures IsOldest(oldest, PendingHeights(alts, mains))
  {
    hide AltSeen, MainSeen;
    oldest := OldestAmongAlts(alts);
    var k := 0;
    ghost var altHeights := AltHeights(alts, AltSeen(alts));
    ghost var heights := altHeights;
    while k < |mains| && mains[k].height != 0
      invariant 0 <= k <= MainSeen(mains)
      invariant heights == altHeights + MainHeights(mains, k)
      invariant IsOldest(oldest, heights)
    {
      MainHeightsStep(mains, k);
      IsOldestInsert(oldest, heights, mains[k].height);
      if !mains[k].unlocked && !mains[k].payReady {
        heights := heights + {mains[k].height};
      }
      if oldest.Some? && oldest.value <= mains[k].height {
      } else if !mains[k].unlocked && !mains[k].payReady {
        oldest := Some(mains[k].height);
      }
      k := k + 1;
    }
  }

  // ------------------------------------------------------------------
  // The cycle
  // ------------------------------------------------------------------

  datatype Header = Header(height: nat, difficulty: Option<real>)

  /** Where a cycle scans from and for how much work; nothing when it gives up. */
  datatype Scan = Abort | Scan(lastBlock: nat, difficulty: int)

  /** The work to keep: two windows, in whole units. */
  function Threshold(difficulty: real, shareMulti: real): int { (difficulty * shareMulti * 2.0).Floor }

  function PlanScan(oldest: Option<nat>, lockedDifficulty: Option<real>, header: Option<Header>, shareMulti: real): Scan {
    if oldest.Some? && lockedDifficulty.None? then Abort
    else if header.None? then Abort
    else if oldest.None? then
      if header.value.difficulty.None? || header.value.difficulty.value <= 0.0 then Abort
      else Scan(header.value.height, Threshold(header.value.difficulty.value, shareMulti))
    else Scan(oldest.value, Threshold(lockedDifficulty.value, shareMulti))
  }

  /** What a cycle leaves of the shares. */
  function CycleResult(db: ShareDb, oldest: Option<nat>, lockedDifficulty: Option<real>, header: Option<Header>,
                       shareMulti: real, blockCleaner: bool): ShareDb {
    var scan := PlanScan(oldest, lockedDifficulty, header, shareMulti);
    if scan.Abort? || !blockCleaner then db else Cleaned(db, scan.lastBlock, scan.difficulty)
  }

  /**
   One cleanup cycle. `lockedDifficulty` is the daemon's answer for the oldest pending height after its retries
   and `header` its answer for the chain tip; `blockCleaner` is the setting that lets anything be deleted.
   */
  method CleanShareDB(db: ShareDb, alts: seq<AltBlock>, mains: seq<MainBlock>, lockedDifficulty: Option<real>,
                      header: Option<Header>, shareMulti: real, blockCleaner: bool)
    returns (after: ShareDb, finished: bool, oldest: Option<nat>)
    ensures IsOldest(oldest, PendingHeights(alts, mains))
    ensures finished <==> PlanScan(oldest, lockedDifficulty, header, shareMulti).Scan?
    ensures after == CycleResult(db, oldest, lockedDifficulty, header, shareMulti, blockCleaner)
    ensures !finished || !blockCleaner ==> after == db
  {
    after := db;
    oldest := GetOldestLockedBlockHeight(alts, mains);
    var scan := PlanScan(oldest, lockedDifficulty, header, shareMulti);
    if scan.Abort? { return db, false, oldest; }
    var blockSet := ScanShares(db, scan.lastBlock, scan.difficulty);
    if blockCleaner {
      after := db - blockSet;
    }
    finished := true;
  }

  // ------------------------------------------------------------------
  // Pending payouts
  // ------------------------------------------------------------------

  /** The threshold is twice the window, rounded down: it covers one window exactly from half a unit of work on. */
  lemma TwiceWindowCovers(window: real)
    requires window > 0.0
    ensures window <= (window * 2.0).Floor as real <==> window >= 0.5
  {
  }

  /** The height a payout for an anchored block starts from. */
  function RoundedAnchor(anchorHeight: nat, anchorRound: nat): (r: nat)
    requires anchorRound > 0
    ensures r <= anchorHeight
  {
    anchorHeight - anchorHeight % anchorRound
  }

  lemma NoWorkBetween(db: ShareDb, start: nat, lastBlock: nat)
    requires start + 1 >= lastBlock
    ensures WorkBetween(db, start + 1, lastBlock - 1) == 0.0
  {
  }

  /** Every main block that waits for its payout calculation keeps it through any finished cycle. */
  lemma {:induction false} PendingMainPayoutsSurvive(cfg: Config, window: real, db: ShareDb, alts: seq<AltBlock>, mains: seq<MainBlock>,
                                  oldest: nat, difficulty: int, k: nat)
    requires ValidFees(cfg) && 0.0 < window <= difficulty as real
    requires IsOldest(Some(oldest), PendingHeights(alts, mains))
    requires k < MainSeen(mains) && !mains[k].unlocked && !mains[k].payReady
    ensures Payout(cfg, window, Cleaned(db, oldest, difficulty), mains[k].height) == Payout(cfg, window, db, mains[k].height)
  {
    hide Payout, Cleaned, MainSeen, AltSeen, WorkBetween;
    assert mains[k].height in PendingHeights(alts, mains);
    NoWorkBetween(db, mains[k].height, oldest);
    CleanupKeepsPayout(cfg, window, db, oldest, difficulty, mains[k].height);
  }

  /**
   A whole cycle, finished or not: a main block that waits for its payout calculation keeps it if its window is
   within the cycle's threshold, in particular if its window is that of the oldest pending height and at least half
   a unit of work; and always if the daemon does not tell that difficulty, because nothing is deleted then.
   */
  lemma CycleKeepsMainPayouts(cfg: Config, window: real, db: ShareDb, alts: seq<AltBlock>, mains: seq<MainBlock>, oldest: Option<nat>,
                              lockedDifficulty: Option<real>, header: Option<Header>, shareMulti: real, blockCleaner: bool, k: nat)
    requires ValidFees(cfg) && window > 0.0 && IsOldest(oldest, PendingHeights(alts, mains))
    requires k < MainSeen(mains) && !mains[k].unlocked && !mains[k].payReady
    requires lockedDifficulty.Some? ==>
      var w := lockedDifficulty.value * shareMulti;
      window <= (w * 2.0).Floor as real || (window == w && window >= 0.5)
    ensures var after := CycleResult(db, oldest, lockedDifficulty, header, shareMulti, blockCleaner);
      Payout(cfg, window, after, mains[k].height) == Payout(cfg, window, db, mains[k].height)
  {
    hide Payout, Cleaned, MainSeen, AltSeen;
    assert mains[k].height in PendingHeights(alts, mains);
    var scan := PlanScan(oldest, lockedDifficulty, header, shareMulti);
    if scan.Scan? && blockCleaner {
      if window == lockedDifficulty.value * shareMulti {
        TwiceWindowCovers(window);
      }
      PendingMainPayoutsSurvive(cfg, window, db, alts, mains, oldest.value, scan.difficulty, k);
    }
  }

  /**
   Every anchored block that waits for its payout calculation keeps it too, if the work between its rounded
   anchor and the oldest pending height leaves room for its window; the rounded anchor is less than one round
   below that height.
   */
  lemma {:induction false} PendingAltPayoutsSurvive(cfg: Config, window: real, db: ShareDb, alts: seq<AltBlock>, mains: seq<MainBlock>,
                                 oldest: nat, difficulty: int, k: nat, anchorRound: nat)
    requires ValidFees(cfg) && window > 0.0 && anchorRound > 0
    requires IsOldest(Some(oldest), PendingHeights(alts, mains))
    requires k < AltSeen(alts) && !alts[k].unlocked && !alts[k].payReady
    ensures var start := RoundedAnchor(alts[k].anchorHeight, anchorRound);
            && start + anchorRound > oldest
            && (window + WorkBetween(db, start + 1, oldest - 1) <= difficulty as real ==>
                  Payout(cfg, window, Cleaned(db, oldest, difficulty), start) == Payout(cfg, window, db, start))
  {
    hide Payout, Cleaned, MainSeen, AltSeen, WorkBetween;
    assert alts[k].anchorHeight in PendingHeights(alts, mains);
    var start := RoundedAnchor(alts[k].anchorHeight, anchorRound);
    if window + WorkBetween(db, start + 1, oldest - 1) <= difficulty as real {
      CleanupKeepsPayout(cfg, window, db, oldest, difficulty, start);
    }
  }

  /**
   Without that room the payout can be lost altogether: the scan starts at the anchor height itself, 6, and
   finds all it needs at height 5, while the payout starts at the rounded anchor, 4, whose shares are gone.
   */
  lemma RoundingCanLosePayout(cfg: Config)
    requires ValidFees(cfg)
    ensures var window := 10.0;
            var difficulty := (window * 2.0).Floor;
            var db: ShareDb := map[5 := [Share(true, "a", None, Some(25.0), 0, None)],
                                   4 := [Share(true, "b", None, Some(10.0), 0, None)]];
            var alts := [AltBlock(1, 6, false, false)];
            var start := RoundedAnchor(6, 4);
            && IsOldest(Some(6), PendingHeights(alts, []))
            && start == 4
            && SumAmounts(Payout(cfg, window, db, start).rows) == 10.0
            && SumAmounts(Payout(cfg, window, Cleaned(db, 6, difficulty), start).rows) == 0.0
  {
    hide Payout, ValidFees;
    var window := 10.0;
    var a, b := Share(true, "a", None, Some(25.0), 0, None), Share(true, "b", None, Some(10.0), 0, None);
    var db: ShareDb := map[5 := [a], 4 := [b]];
    var alts := [AltBlock(1, 6, false, false)];
    assert alts[1..] == [];
    assert AltSeen(alts) == 1;
    assert alts[0].anchorHeight in PendingHeights(alts, []);
    assert PendingHeights(alts, []) == {6};
    assert CountHeight([a], 0.0, 20) == (25.0, true);
    assert FirstKept(db, 5, 0.0, 20) == Some(5);
    var cleaned := Cleaned(db, 6, 20);
    CleanedKeeps(db, 6, 20, 5);
    EmptiedWork(cleaned, 4);
    assert [b][..0] == [];
    assert EntriesWork([b]) == 10.0;
    assert SharesAt(db, 3) == SharesAt(db, 2) == SharesAt(db, 1) == [];
    assert WorkBetween(db, 1, 1) == 0.0;
    assert WorkBetween(db, 1, 3) == 0.0;
    assert WorkBetween(db, 1, 4) == 10.0;
    PayoutConservesWork(cfg, window, db, 4);
    PayoutConservesWork(cfg, window, cleaned, 4);
  }

  // ------------------------------------------------------------------
  // What a cycle deletes
  // ------------------------------------------------------------------

  /**
   With nothing pending, a cycle at chain height h and difficulty d leaves every payout unchanged that starts at h - 1 or
   above and whose window is at most twice the current one: what blocks found from now on will need.
   */
  lemma IdleCycleKeepsPayouts(cfg: Config, window: real, db: ShareDb, alts: seq<AltBlock>, mains: seq<MainBlock>,
                              lockedDifficulty: Option<real>, h: nat, d: real, shareMulti: real, blockCleaner: bool, start: nat)
    requires ValidFees(cfg) && IsOldest(None, PendingHeights(alts, mains)) && d > 0.0
    requires 0.0 < window <= (d * shareMulti * 2.0).Floor as real && start + 1 >= h
    ensures var after := CycleResult(db, None, lockedDifficulty, Some(Header(h, Some(d))), shareMulti, blockCleaner);
      Payout(cfg, window, after, start) == Payout(cfg, window, db, start)
  {
    hide Payout, Cleaned;
    NoWorkBetween(db, start, h);
    if blockCleaner {
      assert (d * shareMulti * 2.0).Floor == Threshold(d, shareMulti);
      CleanupKeepsPayout(cfg, window, db, h, Threshold(d, shareMulti), start);
    }
  }

  /** Going down from a height, this much work is kept above k, and there are shares above k at all. */
  ghost predicate EnoughAbove(db: ShareDb, k: nat, from: nat, work: int) {
    Occupied(db, k + 1, from - 1) && WorkBetween(db, k + 1, from - 1) >= work as real
  }

  /** With nothing pending, a height with shares goes exactly if twice the current window is kept above it. */
  lemma IdleCycleDeletes(db: ShareDb, alts: seq<AltBlock>, mains: seq<MainBlock>, lockedDifficulty: Option<real>, h: nat, d: real,
                         shareMulti: real, k: nat)
    requires IsOldest(None, PendingHeights(alts, mains)) && d > 0.0
    ensures var after := CycleResult(db, None, lockedDifficulty, Some(Header(h, Some(d))), shareMulti, true);
      && (k in db && k !in after <==> k in db && db[k] != [] && k > 0 && EnoughAbove(db, k, h, (d * shareMulti * 2.0).Floor))
      && (k in after ==> k in db && after[k] == db[k])
  {
    hide Cleaned, WorkBetween;
    assert (d * shareMulti * 2.0).Floor == Threshold(d, shareMulti);
    DeletedIff(db, h, Threshold(d, shareMulti), k);
  }

  /** With pending blocks the same holds, going down from the oldest of them and with the window at its height. */
  lemma PendingCycleDeletes(db: ShareDb, alts: seq<AltBlock>, mains: seq<MainBlock>, oldest: nat, d: real, header: Header,
                            shareMulti: real, k: nat)
    requires IsOldest(Some(oldest), PendingHeights(alts, mains))
    ensures var after := CycleResult(db, Some(oldest), Some(d), Some(header), shareMulti, true);
      && (k in db && k !in after <==> k in db && db[k] != [] && k > 0 && EnoughAbove(db, k, oldest, (d * shareMulti * 2.0).Floor))
      && (k in after ==> k in db && after[k] == db[k])
  {
    hide Cleaned, WorkBetween;
    assert (d * shareMulti * 2.0).Floor == Threshold(d, shareMulti);
    DeletedIff(db, oldest, Threshold(d, shareMulti), k);
  }

  /** When the daemon does not answer, or tells no usable difficulty, or deleting is not enabled, nothing goes. */
  lemma UnansweredCycleDeletesNothing(db: ShareDb, oldest: Option<nat>, lockedDifficulty: Option<real>, header: Option<Header>,
                                      shareMulti: real, blockCleaner: bool)
    requires
      || header.None? || !blockCleaner
      || (oldest.Some? && lockedDifficulty.None?)
      || (oldest.None? && (header.value.difficulty.None? || header.value.difficulty.value <= 0.0))
    ensures CycleResult(db, oldest, lockedDifficulty, header, shareMulti, blockCleaner) == db
  {
  }

  /** A stored main block under height zero ends the ascending cursor at once: no pending main block is seen. */
  lemma ZeroHeightHidesAll(alts: seq<AltBlock>, mains: seq<MainBlock>)
    requires mains != [] && mains[0].height == 0
    ensures MainSeen(mains) == 0 && PendingHeights(alts, mains) == AltHeights(alts, AltSeen(alts))
  {
    hide AltSeen;
    NothingSeen(alts, mains);
  }

  /**
   The cycle then scans from the chain tip, and the payout of a pending block can be lost: here that of the block
   at height 4, because height 6 alone fills the threshold.
   */
  lemma ZeroHeightCanLosePayout(cfg: Config)
    requires ValidFees(cfg)
    ensures var db: ShareDb := map[6 := [Share(true, "a", None, Some(25.0), 0, None)],
                                   4 := [Share(true, "b", None, Some(10.0), 0, None)]];
            var mains := [MainBlock(0, true, true), MainBlock(4, false, false)];
            var after := CycleResult(db, None, None, Some(Header(7, Some(10.0))), 1.0, true);
            && IsOldest(None, PendingHeights([], mains))
            && SumAmounts(Payout(cfg, 10.0, db, 4).rows) == 10.0
            && SumAmounts(Payout(cfg, 10.0, after, 4).rows) == 0.0
  {
    hide Payout, ValidFees;
    var a, b := Share(true, "a", None, Some(25.0), 0, None), Share(true, "b", None, Some(10.0), 0, None);
    var db: ShareDb := map[6 := [a], 4 := [b]];
    var mains := [MainBlock(0, true, true), MainBlock(4, false, false)];
    ZeroHeightHidesAll([], mains);
    assert PendingHeights([], mains) == {};
    assert CountHeight([a], 0.0, 20) == (25.0, true);
    assert FirstKept(db, 6, 0.0, 20) == Some(6);
    var cleaned := Cleaned(db, 7, 20);
    CleanedKeeps(db, 7, 20, 6);
    EmptiedWork(cleaned, 4);
    assert [b][..0] == [];
    assert EntriesWork([b]) == 10.0;
    assert SharesAt(db, 3) == SharesAt(db, 2) == SharesAt(db, 1) == [];
    assert WorkBetween(db, 1, 1) == 0.0;
    assert WorkBetween(db, 1, 3) == 0.0;
    assert WorkBetween(db, 1, 4) == 10.0;
    PayoutConservesWork(cfg, 10.0, db, 4);
    PayoutConservesWork(cfg, 10.0, cleaned, 4);
  }
}
