/**
 The payout precalculation as the block manager runs it: running totals of
 shares and of the fraction paid, updated in place while the shares are
 walked, and the stored rows and credits that come out of it.
 */
module PplnsPrecalc {
  import opened Wrappers
  import opened Pplns

  const REWARD_TOTAL: real := 1.0

  // ------------------------------------------------------------------
  // The running totals against the budget they stand for
  // ------------------------------------------------------------------

  /** Dividing by the window and multiplying back loses nothing. */
  lemma FractionPaid(shares: real, window: real)
    requires window > 0.0
    ensures shares / window * REWARD_TOTAL > REWARD_TOTAL <==> shares > window
    ensures shares / window * REWARD_TOTAL == REWARD_TOTAL <==> shares == window
    ensures (shares / window * REWARD_TOTAL - REWARD_TOTAL) / REWARD_TOTAL * window == shares - window
  {
    var q := shares / window;
    assert q * window == shares;
    assert (q - 1.0) * window == shares - window;
  }

  class Precalculation {
    const cfg: Config
    const windowPPLNS: real
    var totalPaid: real
    var totalShares: real
    var paymentData: seq<Row>
    var portShares: map<int, real>
    var firstShareTime: Option<int>
    var lastShareTime: Option<int>

    /** The running totals stand for a budget: what fits the window is paid, and the fraction paid says how much that is. */
    ghost predicate Represents(t: Tally)
      reads this
    {
      && windowPPLNS > 0.0
      && totalShares >= 0.0
      && t.paid == Min(totalShares, windowPPLNS)
      && totalPaid == (if totalShares >= windowPPLNS then REWARD_TOTAL else totalShares / windowPPLNS * REWARD_TOTAL)
      && Tally(t.paid, paymentData, portShares, firstShareTime, lastShareTime) == t
    }

    constructor (cfg: Config, windowPPLNS: real)
      requires windowPPLNS > 0.0
      ensures this.cfg == cfg && this.windowPPLNS == windowPPLNS
      ensures Represents(Initial(cfg))
    {
      this.cfg, this.windowPPLNS := cfg, windowPPLNS;
      totalPaid, totalShares := 0.0, 0.0;
      paymentData := Ensured(Ensured(Ensured([], FeeRow(cfg.feeAddress)), FeeRow(cfg.coinDevAddress)), FeeRow(cfg.poolDevAddress));
      portShares := map[];
      firstShareTime, lastShareTime := None, None;
    }

    lemma PaidFraction(t: Tally)
      requires Represents(t)
      ensures totalPaid >= REWARD_TOTAL <==> t.paid >= windowPPLNS
    {
      FractionPaid(totalShares, windowPPLNS);
    }

    /** Adds the whole amount, then takes back what overshoots the window. */
    method AddPayment(key: string, amount: real, ghost t: Tally)
      requires Represents(t) && HasKey(paymentData, key) && amount >= 0.0
      modifies this
      ensures Represents(Pay(t, windowPPLNS, key, amount))
    {
      PaidFraction(t);
      if amount == 0.0 || totalPaid >= REWARD_TOTAL { 
        AddNothing(paymentData, key);
        return;
      }
      totalShares := totalShares + amount;
      var at := IndexOf(paymentData, key);
      var added := paymentData[at].amount + amount;
      var totalPaidAfter := totalShares / windowPPLNS * REWARD_TOTAL;
      FractionPaid(totalShares, windowPPLNS);
      if totalPaidAfter > REWARD_TOTAL {
        var extra := (totalPaidAfter - REWARD_TOTAL) / REWARD_TOTAL * windowPPLNS;
        paymentData := paymentData[at := paymentData[at].(amount := added - extra)];
        totalPaid := REWARD_TOTAL;
        assert t.paid + amount == totalShares && Min(amount, windowPPLNS - t.paid) == amount - extra;
        return;
      }
      paymentData := paymentData[at := paymentData[at].(amount := added)];
      totalPaid := totalPaidAfter;
    }

    /** Splits a share into the miner's payment and the three fees and adds them in turn. */
    method AddPplnsSharePayments(userIdentifier: string, amountToPay: real, ghost t: Tally)
      requires ValidFees(cfg) && Represents(t) && HasKey(t.rows, userIdentifier) && HasFeeRows(t, cfg) && amountToPay >= 0.0
      modifies this
      ensures Represents(PayShare(t, cfg, windowPPLNS, userIdentifier, amountToPay))
    {
      hide Pay, HasKey, Percent;
      SplitIsExact(cfg, amountToPay);
      var feesToPay := Percent(amountToPay, cfg.pplnsFee);
      var devDonation := Percent(feesToPay, cfg.devDonation);
      var poolDevDonation := Percent(feesToPay, cfg.poolDevDonation);
      var amountToPayAfterFees := amountToPay - feesToPay;
      ghost var s := SplitShare(cfg, amountToPay);
      AddPayment(userIdentifier, amountToPayAfterFees, t);
      ghost var t1 := Pay(t, windowPPLNS, userIdentifier, s.miner);
      AddPayment(cfg.feeAddress, feesToPay - devDonation - poolDevDonation, t1);
      ghost var t2 := Pay(t1, windowPPLNS, cfg.feeAddress, s.pool);
      AddPayment(cfg.poolDevAddress, poolDevDonation, t2);
      ghost var t3 := Pay(t2, windowPPLNS, cfg.poolDevAddress, s.poolDev);
      AddPayment(cfg.coinDevAddress, devDonation, t3);
    }

    /** One share under the cursor. */
    method VisitShare(e: Entry, ghost t: Tally)
      requires ValidFees(cfg) && Represents(t) && HasFeeRows(t, cfg)
      modifies this
      ensures Represents(Visit(t, cfg, windowPPLNS, e))
    {
      hide PayShare, FeeRow, Identifier;
      PaidFraction(t);
      if e.Undecodable? || !e.pplns { return; }
      paymentData := Ensured(paymentData, MinerRow(e));
      if e.shares2.None? || e.shares2.value <= 0.0 { return; }
      var amountToPay := e.shares2.value;
      if firstShareTime.None? { firstShareTime := Some(e.timestamp); }
      if totalPaid < REWARD_TOTAL { lastShareTime := Some(e.timestamp); }
      ghost var t2 := Tally(t.paid, paymentData, portShares, firstShareTime, lastShareTime);
      AddPplnsSharePayments(Identifier(e), amountToPay, t2);
      if e.port.Some? {
        portShares := portShares[e.port.value := PortShare(portShares, e.port.value) + amountToPay];
      }
    }

    method VisitHeight(entries: seq<Entry>, ghost t: Tally)
      requires ValidFees(cfg) && Represents(t) && HasFeeRows(t, cfg)
      modifies this
      ensures Represents(VisitAll(t, cfg, windowPPLNS, entries))
    {
      hide Visit, HasFeeRows;
      for i := 0 to |entries|
        invariant Represents(VisitAll(t, cfg, windowPPLNS, entries[..i]))
      {
        assert entries[..i + 1][..i] == entries[..i];
        VisitShare(entries[i], VisitAll(t, cfg, windowPPLNS, entries[..i]));
      }
      assert entries[..|entries|] == entries;
    }

    /** Walks the heights downwards while the reward is not fully paid. */
    method CollectPplnsSharePayments(db: ShareDb, blockHeight: nat)
      requires ValidFees(cfg) && Represents(Initial(cfg))
      modifies this
      ensures Represents(Payout(cfg, windowPPLNS, db, blockHeight))
    {
      hide VisitAll, HasFeeRows, Initial;
      var currentHeight := blockHeight;
      ghost var t := Initial(cfg);
      PaidFraction(t);
      while currentHeight > 0 && totalPaid < REWARD_TOTAL
        invariant HasFeeRows(t, cfg) && Represents(t)
        invariant Walk(t, cfg, windowPPLNS, db, currentHeight, 1) == Payout(cfg, windowPPLNS, db, blockHeight)
        invariant totalPaid >= REWARD_TOTAL <==> t.paid >= windowPPLNS
      {
        VisitHeight(SharesAt(db, currentHeight), t);
        t := VisitAll(t, cfg, windowPPLNS, SharesAt(db, currentHeight));
        PaidFraction(t);
        currentHeight := currentHeight - 1;
      }
    }
  }

  lemma AddNothing(rows: seq<Row>, key: string)
    requires HasKey(rows, key)
    ensures AddTo(rows, key, 0.0) == rows
  {
  }

  // ------------------------------------------------------------------
  // Stored rows and credits
  // ------------------------------------------------------------------

  /** A recipient's fraction of a block reward, as stored for the block. */
  datatype BlockRow = BlockRow(address: string, paymentId: Option<string>, amount: real)

  function Abs(x: real): real { if x < 0.0 then -x else x }

  function PayWindow(totalPayments: real, window: real): real
    requires window > 0.0
  {
    if Abs(totalPayments / window - 1.0) > 0.0001 then totalPayments else window
  }

  function BlockRows(rows: seq<Row>, payWindow: real): (r: seq<BlockRow>)
    requires payWindow > 0.0
  {
    if rows == [] then []
    else (if rows[0].amount == 0.0 then [] else [BlockRow(rows[0].address, rows[0].paymentId, rows[0].amount / payWindow)])
         + BlockRows(rows[1..], payWindow)
  }

  function SumFractions(rows: seq<BlockRow>): real {
    if rows == [] then 0.0 else rows[0].amount + SumFractions(rows[1..])
  }

  /** What a stored fraction of a reward comes to in whole atomic units. */
  function Credit(row: BlockRow, reward: nat): int {
    (row.amount * reward as real).Floor
  }

  function SumCredits(rows: seq<BlockRow>, reward: nat): int {
    if rows == [] then 0 else Credit(rows[0], reward) + SumCredits(rows[1..], reward)
  }

  lemma {:induction false} SumFractionsConcat(a: seq<BlockRow>, b: seq<BlockRow>)
    ensures SumFractions(a + b) == SumFractions(a) + SumFractions(b)
  {
    if a == [] {
      assert a + b == b;
    } else {
      assert (a + b)[1..] == a[1..] + b;
      SumFractionsConcat(a[1..], b);
    }
  }

  lemma QuotientsAdd(a: real, b: real, w: real)
    requires w > 0.0
    ensures (a + b) / w == a / w + b / w
  {
  }

  lemma {:induction false} BlockRowsTotal(rows: seq<Row>, payWindow: real)
    requires payWindow > 0.0 && NonNegative(rows)
    ensures SumFractions(BlockRows(rows, payWindow)) == SumAmounts(rows) / payWindow
    ensures forall i :: 0 <= i < |BlockRows(rows, payWindow)| ==> BlockRows(rows, payWindow)[i].amount >= 0.0
    ensures SumAmounts(rows) > 0.0 ==> BlockRows(rows, payWindow) != []
  {
    if rows != [] {
      BlockRowsTotal(rows[1..], payWindow);
      QuotientsAdd(rows[0].amount, SumAmounts(rows[1..]), payWindow);
      var first := if rows[0].amount == 0.0 then [] else [BlockRow(rows[0].address, rows[0].paymentId, rows[0].amount / payWindow)];
      SumFractionsConcat(first, BlockRows(rows[1..], payWindow));
    }
  }

  lemma RatioBounds(total: real, window: real)
    requires 0.0 < total <= window
    ensures PayWindow(total, window) > 0.0
    ensures 0.9999 <= total / PayWindow(total, window) <= 1.0
  {
    var q := total / window;
    assert q * window == total;
    assert q <= 1.0;
    SelfRatio(total);
  }

  lemma SelfRatio(x: real)
    requires x > 0.0
    ensures x / x == 1.0
  {
  }

  /** The window is corrected to what was paid exactly if less than 0.9999 of it was. */
  lemma PayWindowIs(total: real, window: real)
    requires 0.0 < total <= window
    ensures PayWindow(total, window) == if total >= 0.9999 * window then window else total
  {
    RatioCompare(total, window, 0.9999);
    RatioCompare(total, window, 1.0);
    assert total / window >= 1.0 ==> total == window;
    if total == window {
      SelfRatio(window);
    }
  }

  lemma RatioCompare(total: real, window: real, c: real)
    requires window > 0.0
    ensures total / window >= c <==> total >= c * window
  {
    var q := total / window;
    assert q * window == total;
    RatioAtLeast(q, c, window);
  }

  lemma RatioAtLeast(q: real, c: real, w: real)
    requires w > 0.0
    ensures q >= c <==> q * w >= c * w
  {
    if q > c {
      assert (q - c) * w > 0.0;
    } else if q < c {
      assert (c - q) * w > 0.0;
    }
  }

  lemma ScaledAdd(a: real, b: real, r: real)
    ensures (a + b) * r == a * r + b * r
  {
  }

  lemma {:induction false} FlooringLosesLittle(rows: seq<BlockRow>, reward: nat)
    ensures SumCredits(rows, reward) as real <= SumFractions(rows) * reward as real
    ensures SumCredits(rows, reward) as real >= SumFractions(rows) * reward as real - |rows| as real
    ensures rows != [] ==> SumCredits(rows, reward) as real > SumFractions(rows) * reward as real - |rows| as real
  {
    if rows != [] {
      FlooringLosesLittle(rows[1..], reward);
      ScaledAdd(rows[0].amount, SumFractions(rows[1..]), reward as real);
    }
  }

  lemma ScaleBounds(fraction: real, reward: real)
    requires 0.9999 <= fraction <= 1.0 && reward >= 0.0
    ensures 0.9999 * reward <= fraction * reward <= reward
  {
  }

  /** The rows a precalculation stores, if it finds any work to pay. */
  function StoredRows(cfg: Config, window: real, db: ShareDb, height: nat): Option<seq<BlockRow>>
    requires window > 0.0
  {
    var rows := Payout(cfg, window, db, height).rows;
    var total := SumAmounts(rows);
    if total <= 0.0 || PayWindow(total, window) <= 0.0 then None
    else Some(BlockRows(rows, PayWindow(total, window)))
  }

  /**
   End to end, from the shares to whole atomic units: the credits of a block never exceed its reward, and fall
   short of 0.9999 of it by less than one unit per recipient.
   */
  lemma {:induction false} CreditsMatchReward(cfg: Config, window: real, db: ShareDb, height: nat, reward: nat)
    requires ValidFees(cfg) && window > 0.0
    ensures StoredRows(cfg, window, db, height).None? <==> WorkBetween(db, 1, height) == 0.0
    ensures var stored := StoredRows(cfg, window, db, height);
            stored.Some? ==>
              && stored.value != []
              && (forall i :: 0 <= i < |stored.value| ==> Credit(stored.value[i], reward) >= 0)
              && SumCredits(stored.value, reward) <= reward
              && SumCredits(stored.value, reward) as real > 0.9999 * reward as real - |stored.value| as real
  {
    hide Payout, BlockRows, PayWindow, SumFractions, SumCredits, WorkBetween, Credit;
    PayoutConservesWork(cfg, window, db, height);
    var rows := Payout(cfg, window, db, height).rows;
    var total := SumAmounts(rows);
    if total > 0.0 {
      RatioBounds(total, window);
      BlockRowsTotal(rows, PayWindow(total, window));
      var stored := BlockRows(rows, PayWindow(total, window));
      FlooringLosesLittle(stored, reward);
      assert SumFractions(stored) == total / PayWindow(total, window);
      ScaleBounds(SumFractions(stored), reward as real);
      BetweenBounds(SumCredits(stored, reward), SumFractions(stored) * reward as real, reward, |stored|);
      CreditsNonNegative(stored, reward);
    }
  }

  lemma BetweenBounds(credits: int, share: real, reward: nat, rows: nat)
    requires share - rows as real < credits as real <= share && 0.9999 * reward as real <= share <= reward as real
    ensures credits <= reward && credits as real > 0.9999 * reward as real - rows as real
  {
  }

  lemma CreditsNonNegative(rows: seq<BlockRow>, reward: nat)
    requires forall i :: 0 <= i < |rows| ==> rows[i].amount >= 0.0
    ensures forall i :: 0 <= i < |rows| ==> Credit(rows[i], reward) >= 0
  {
    forall i | 0 <= i < |rows|
      ensures Credit(rows[i], reward) >= 0
    {
      ProductNonNegative(rows[i].amount, reward as real);
    }
  }

  lemma ProductNonNegative(a: real, b: real)
    requires a >= 0.0 && b >= 0.0
    ensures a * b >= 0.0
  {
  }

  /** Retries at each top height the daemon reports, as long as no work is found; no reply or the same height gives up. */
  function Precalculated(cfg: Config, window: real, db: ShareDb, height: nat, topHeights: seq<Option<nat>>): Option<seq<BlockRow>>
    requires window > 0.0
    decreases |topHeights|
  {
    var stored := StoredRows(cfg, window, db, height);
    if stored.Some? then stored
    else if topHeights == [] || topHeights[0].None? || topHeights[0].value == height then None
    else Precalculated(cfg, window, db, topHeights[0].value, topHeights[1..])
  }

  method PreCalculatePPLNSPayments(cfg: Config, windowPPLNS: real, db: ShareDb, blockHeight: nat, topHeights: seq<Option<nat>>)
    returns (rows: Option<seq<BlockRow>>)
    requires ValidFees(cfg) && windowPPLNS > 0.0
    ensures rows == Precalculated(cfg, windowPPLNS, db, blockHeight, topHeights)
    decreases |topHeights|
  {
    hide Payout, WorkBetween, Initial;
    var run := new Precalculation(cfg, windowPPLNS);
    run.CollectPplnsSharePayments(db, blockHeight);
    ghost var payout := Payout(cfg, windowPPLNS, db, blockHeight);
    PayoutConservesWork(cfg, windowPPLNS, db, blockHeight);
    var totalPayments := TotalPayments(run.paymentData);
    if totalPayments == 0.0 {
      if topHeights == [] || topHeights[0].None? || topHeights[0].value == blockHeight { return None; }
      rows := PreCalculatePPLNSPayments(cfg, windowPPLNS, db, topHeights[0].value, topHeights[1..]);
      return;
    }
    RatioBounds(totalPayments, windowPPLNS);
    var isNeedCorrection := Abs(totalPayments / windowPPLNS - 1.0) > 0.0001;
    var payWindow := if isNeedCorrection then totalPayments else windowPPLNS;
    var stored := PaymentsToRows(run.paymentData, payWindow);
    rows := Some(stored);
  }

  lemma {:induction false} SumSnoc(rows: seq<Row>, i: nat)
    requires i < |rows|
    ensures SumAmounts(rows[..i + 1]) == SumAmounts(rows[..i]) + rows[i].amount
  {
    assert rows[..i + 1] == rows[..i] + [rows[i]];
    SumConcat(rows[..i], [rows[i]]);
    assert [rows[i]][1..] == [];
  }

  method TotalPayments(rows: seq<Row>) returns (total: real)
    ensures total == SumAmounts(rows)
  {
    total := 0.0;
    for i := 0 to |rows|
      invariant total == SumAmounts(rows[..i])
    {
      SumSnoc(rows, i);
      total := total + rows[i].amount;
    }
    assert rows[..|rows|] == rows;
  }

  lemma {:induction false} BlockRowsConcat(a: seq<Row>, b: seq<Row>, payWindow: real)
    requires payWindow > 0.0
    ensures BlockRows(a + b, payWindow) == BlockRows(a, payWindow) + BlockRows(b, payWindow)
  {
    if a == [] {
      assert a + b == b;
    } else {
      assert (a + b)[1..] == a[1..] + b;
      BlockRowsConcat(a[1..], b, payWindow);
    }
  }

  method PaymentsToRows(payments: seq<Row>, payWindow: real) returns (rows: seq<BlockRow>)
    requires payWindow > 0.0
    ensures rows == BlockRows(payments, payWindow)
  {
    rows := [];
    for i := 0 to |payments|
      invariant rows == BlockRows(payments[..i], payWindow)
    {
      var payment := payments[i];
      BlockRowsConcat(payments[..i], [payment], payWindow);
      assert payments[..i + 1] == payments[..i] + [payment];
      assert [payment][1..] == [];
      if payment.amount != 0.0 {
        rows := rows + [BlockRow(payment.address, payment.paymentId, payment.amount / payWindow)];
      }
    }
    assert payments[..|payments|] == payments;
  }
}
