/**
 The PPLNS payout calculation: a newest-first walk over the shares that lays
 their work into a window, splits each share into four payments, and turns
 the resulting amounts into credits in atomic units.

 Work and fractions are reals, credits are integers: the rounding of double
 precision sums is not modelled.
 */
module Pplns {
  import opened Wrappers

  /** Decoded work is finite and not negative; anything else fails to decode. */
  type Work = x: real | x >= 0.0

  datatype Entry =
    | Undecodable
    | Share(pplns: bool, address: string, paymentId: Option<string>, shares2: Option<Work>, timestamp: int, port: Option<int>)

  /** The shares by height, each height in cursor order. */
  type ShareDb = map<nat, seq<Entry>>

  datatype PoolType = Fees | PPLNS

  datatype Row = Row(key: string, poolType: PoolType, address: string, paymentId: Option<string>, amount: real)

  datatype Config = Config(
    feeAddress: string, coinDevAddress: string, poolDevAddress: string,
    pplnsFee: real, devDonation: real, poolDevDonation: real)

  /** Fee percentages that split a share into parts of it. */
  predicate ValidFees(cfg: Config) {
    && 0.0 <= cfg.pplnsFee <= 100.0
    && 0.0 <= cfg.devDonation && 0.0 <= cfg.poolDevDonation
    && cfg.devDonation + cfg.poolDevDonation <= 100.0
  }

  // ------------------------------------------------------------------
  // Payment rows, in the order their keys were first used
  // ------------------------------------------------------------------

  predicate HasKey(rows: seq<Row>, key: string) {
    exists i :: 0 <= i < |rows| && rows[i].key == key
  }

  function IndexOf(rows: seq<Row>, key: string): (i: nat)
    ensures i <= |rows|
    ensures i < |rows| ==> rows[i].key == key
    ensures i == |rows| <==> !HasKey(rows, key)
  {
    if rows == [] then 0
    else if rows[0].key == key then 0
    else
      assert HasKey(rows, key) <==> HasKey(rows[1..], key) by {
        if HasKey(rows, key) {
          var i :| 0 <= i < |rows| && rows[i].key == key;
          assert rows[1..][i - 1].key == key;
        }
      }
      1 + IndexOf(rows[1..], key)
  }

  function AddTo(rows: seq<Row>, key: string, amount: real): (r: seq<Row>)
    requires HasKey(rows, key)
    ensures |r| == |rows|
    ensures forall k :: HasKey(rows, k) ==> HasKey(r, k)
  {
    var i := IndexOf(rows, key);
    var r := rows[i := rows[i].(amount := rows[i].amount + amount)];
    assert forall k :: 0 <= k < |rows| ==> r[k].key == rows[k].key;
    r
  }

  function Ensured(rows: seq<Row>, row: Row): (r: seq<Row>)
    ensures HasKey(r, row.key)
    ensures forall k :: HasKey(rows, k) ==> HasKey(r, k)
  {
    if HasKey(rows, row.key) then rows
    else
      assert (rows + [row])[|rows|].key == row.key;
      assert forall k :: 0 <= k < |rows| ==> (rows + [row])[k] == rows[k];
      rows + [row]
  }

  function SumAmounts(rows: seq<Row>): real {
    if rows == [] then 0.0 else rows[0].amount + SumAmounts(rows[1..])
  }

  ghost predicate NonNegative(rows: seq<Row>) {
    forall i :: 0 <= i < |rows| ==> rows[i].amount >= 0.0
  }

  lemma {:induction false} SumUpdate(rows: seq<Row>, i: nat, row: Row)
    requires i < |rows|
    ensures SumAmounts(rows[i := row]) == SumAmounts(rows) - rows[i].amount + row.amount
  {
    if i == 0 {
      assert rows[0 := row][1..] == rows[1..];
    } else {
      assert rows[i := row][1..] == rows[1..][i - 1 := row];
      SumUpdate(rows[1..], i - 1, row);
    }
  }

  lemma {:induction false} SumConcat(a: seq<Row>, b: seq<Row>)
    ensures SumAmounts(a + b) == SumAmounts(a) + SumAmounts(b)
  {
    if a == [] {
      assert a + b == b;
    } else {
      assert (a + b)[1..] == a[1..] + b;
      SumConcat(a[1..], b);
    }
  }

  // ------------------------------------------------------------------
  // Reference semantics: a budget of `window` that payments are taken out of
  // ------------------------------------------------------------------

  datatype Tally = Tally(
    paid: real,                       // what has been laid into the window so far
    rows: seq<Row>,
    ports: map<int, real>,
    firstShareTime: Option<int>,
    lastShareTime: Option<int>)

  function Min(a: real, b: real): real { if a < b then a else b }

  /** Pays as much of the amount as still fits the window. */
  function Pay(t: Tally, window: real, key: string, amount: real): (r: Tally)
    requires HasKey(t.rows, key)
    ensures forall k :: HasKey(t.rows, k) ==> HasKey(r.rows, k)
  {
    var fits := Min(amount, window - t.paid);
    t.(paid := t.paid + fits, rows := AddTo(t.rows, key, fits))
  }

  datatype Split = Split(miner: real, pool: real, poolDev: real, coinDev: real)

  function SplitShare(cfg: Config, amount: real): Split {
    var fees := Percent(amount, cfg.pplnsFee);
    var dev := Percent(fees, cfg.devDonation);
    var poolDev := Percent(fees, cfg.poolDevDonation);
    Split(amount - fees, fees - dev - poolDev, poolDev, dev)
  }

  predicate HasFeeRows(t: Tally, cfg: Config) {
    HasKey(t.rows, cfg.feeAddress) && HasKey(t.rows, cfg.coinDevAddress) && HasKey(t.rows, cfg.poolDevAddress)
  }

  function PayShare(t: Tally, cfg: Config, window: real, key: string, amount: real): (r: Tally)
    requires HasKey(t.rows, key) && HasFeeRows(t, cfg)
    ensures HasFeeRows(r, cfg)
  {
    var s := SplitShare(cfg, amount);
    var t1 := Pay(t, window, key, s.miner);
    var t2 := Pay(t1, window, cfg.feeAddress, s.pool);
    var t3 := Pay(t2, window, cfg.poolDevAddress, s.poolDev);
    Pay(t3, window, cfg.coinDevAddress, s.coinDev)
  }

  function Identifier(e: Entry): string
    requires e.Share?
  {
    if e.paymentId.Some? && e.paymentId.value != "" then e.address + "." + e.paymentId.value else e.address
  }

  function MinerRow(e: Entry): Row
    requires e.Share?
  {
    Row(Identifier(e), PPLNS, e.address, e.paymentId, 0.0)
  }

  /** The work of an entry that takes part in the payout. */
  function EntryWork(e: Entry): Work {
    if e.Share? && e.pplns && e.shares2.Some? then e.shares2.value else 0.0
  }

  function Visit(t: Tally, cfg: Config, window: real, e: Entry): (r: Tally)
    requires HasFeeRows(t, cfg)
    ensures HasFeeRows(r, cfg)
  {
    if e.Undecodable? || !e.pplns then t
    else
      var t1 := t.(rows := Ensured(t.rows, MinerRow(e)));
      var amount := EntryWork(e);
      if amount == 0.0 then t1
      else
        var t2 := t1.(firstShareTime := if t.firstShareTime.None? then Some(e.timestamp) else t.firstShareTime,
                      lastShareTime := if t.paid < window then Some(e.timestamp) else t.lastShareTime);
        var t3 := PayShare(t2, cfg, window, Identifier(e), amount);
        if e.port.None? then t3
        else t3.(ports := t3.ports[e.port.value := PortShare(t3.ports, e.port.value) + amount])
  }

  function PortShare(ports: map<int, real>, port: int): real {
    if port in ports then ports[port] else 0.0
  }

  function VisitAll(t: Tally, cfg: Config, window: real, entries: seq<Entry>): (r: Tally)
    requires HasFeeRows(t, cfg)
    ensures HasFeeRows(r, cfg)
  {
    if entries == [] then t
    else Visit(VisitAll(t, cfg, window, entries[..|entries| - 1]), cfg, window, entries[|entries| - 1])
  }

  function SharesAt(db: ShareDb, height: nat): seq<Entry> {
    if height in db then db[height] else []
  }

  /** Walks the heights from `height` down to `low`, stopping once the window is full. */
  function Walk(t: Tally, cfg: Config, window: real, db: ShareDb, height: nat, low: nat): (r: Tally)
    requires HasFeeRows(t, cfg) && low > 0
    ensures HasFeeRows(r, cfg)
    decreases height
  {
    if height < low || t.paid >= window then t
    else Walk(VisitAll(t, cfg, window, SharesAt(db, height)), cfg, window, db, height - 1, low)
  }

  function FeeRow(address: string): Row { Row(address, Fees, address, None, 0.0) }

  function Initial(cfg: Config): (r: Tally)
    ensures HasFeeRows(r, cfg)
  {
    Tally(0.0, Ensured(Ensured(Ensured([], FeeRow(cfg.feeAddress)), FeeRow(cfg.coinDevAddress)), FeeRow(cfg.poolDevAddress)),
          map[], None, None)
  }

  /** The payment amounts for a payout that starts at a height. */
  function Payout(cfg: Config, window: real, db: ShareDb, height: nat): (r: Tally)
    ensures HasFeeRows(r, cfg)
  {
    Walk(Initial(cfg), cfg, window, db, height, 1)
  }

  function EntriesWork(entries: seq<Entry>): (r: Work) {
    if entries == [] then 0.0 else EntriesWork(entries[..|entries| - 1]) + EntryWork(entries[|entries| - 1])
  }

  /** The work that takes part in a payout, over the heights from `low` to `high`. */
  function WorkBetween(db: ShareDb, low: nat, high: int): (r: Work)
    decreases high
  {
    if high < low || high < 0 then 0.0 else EntriesWork(SharesAt(db, high)) + WorkBetween(db, low, high - 1)
  }

  // ------------------------------------------------------------------
  // Conservation
  // ------------------------------------------------------------------

  /** What the walk keeps: rows hold exactly what was laid into the window, nobody owes anything. */
  ghost predicate Balanced(t: Tally, window: real) {
    && NonNegative(t.rows)
    && SumAmounts(t.rows) == t.paid
    && 0.0 <= t.paid <= window
  }

  lemma PayBalanced(t: Tally, window: real, key: string, amount: real)
    requires Balanced(t, window) && HasKey(t.rows, key) && amount >= 0.0
    ensures Balanced(Pay(t, window, key, amount), window)
    ensures Pay(t, window, key, amount).paid == Min(window, t.paid + amount)
  {
    var fits := Min(amount, window - t.paid);
    var i := IndexOf(t.rows, key);
    SumUpdate(t.rows, i, t.rows[i].(amount := t.rows[i].amount + fits));
  }

  function Percent(x: real, percent: real): real { x * (percent / 100.0) }

  lemma PercentIsPart(x: real, percent: real)
    requires x >= 0.0 && 0.0 <= percent <= 100.0
    ensures 0.0 <= Percent(x, percent) <= x
  {
    var f := percent / 100.0;
    assert 0.0 <= f <= 1.0;
    assert 0.0 <= x * f;
    assert 0.0 <= x * (1.0 - f);
    assert x * (1.0 - f) == x - x * f;
  }

  lemma PercentAdds(x: real, p: real, q: real)
    ensures Percent(x, p) + Percent(x, q) == Percent(x, p + q)
  {
    var f, g := p / 100.0, q / 100.0;
    assert (p + q) / 100.0 == f + g;
    assert x * (f + g) == x * f + x * g;
  }

  /** The four payments of a share are parts of it and add up to it. */
  lemma SplitIsExact(cfg: Config, amount: real)
    requires ValidFees(cfg) && amount >= 0.0
    ensures var s := SplitShare(cfg, amount);
            && s.miner >= 0.0 && s.pool >= 0.0 && s.poolDev >= 0.0 && s.coinDev >= 0.0
            && s.miner + s.pool + s.poolDev + s.coinDev == amount
  {
    hide Percent;
    PercentIsPart(amount, cfg.pplnsFee);
    var fees := Percent(amount, cfg.pplnsFee);
    PercentIsPart(fees, cfg.devDonation);
    PercentIsPart(fees, cfg.poolDevDonation);
    PercentAdds(fees, cfg.devDonation, cfg.poolDevDonation);
    PercentIsPart(fees, cfg.devDonation + cfg.poolDevDonation);
  }

  lemma PayShareBalanced(t: Tally, cfg: Config, window: real, key: string, amount: real)
    requires ValidFees(cfg) && Balanced(t, window) && HasKey(t.rows, key) && HasFeeRows(t, cfg) && amount >= 0.0
    ensures Balanced(PayShare(t, cfg, window, key, amount), window)
    ensures PayShare(t, cfg, window, key, amount).paid == Min(window, t.paid + amount)
  {
    hide SplitShare, Pay, Balanced, HasKey, Percent;
    SplitIsExact(cfg, amount);
    var s := SplitShare(cfg, amount);
    var t1 := Pay(t, window, key, s.miner);
    PayBalanced(t, window, key, s.miner);
    var t2 := Pay(t1, window, cfg.feeAddress, s.pool);
    PayBalanced(t1, window, cfg.feeAddress, s.pool);
    var t3 := Pay(t2, window, cfg.poolDevAddress, s.poolDev);
    PayBalanced(t2, window, cfg.poolDevAddress, s.poolDev);
    PayBalanced(t3, window, cfg.coinDevAddress, s.coinDev);
  }

  lemma VisitBalanced(t: Tally, cfg: Config, window: real, e: Entry)
    requires ValidFees(cfg) && Balanced(t, window) && HasFeeRows(t, cfg)
    ensures Balanced(Visit(t, cfg, window, e), window)
    ensures Visit(t, cfg, window, e).paid == Min(window, t.paid + EntryWork(e))
  {
    hide PayShare;
    if e.Share? && e.pplns {
      SumConcat(t.rows, [MinerRow(e)]);
      var t1 := t.(rows := Ensured(t.rows, MinerRow(e)));
      assert Balanced(t1, window);
      var t2 := t1.(firstShareTime := if t.firstShareTime.None? then Some(e.timestamp) else t.firstShareTime,
                    lastShareTime := if t.paid < window then Some(e.timestamp) else t.lastShareTime);
      if EntryWork(e) != 0.0 {
        PayShareBalanced(t2, cfg, window, Identifier(e), EntryWork(e));
      }
    }
  }

  lemma {:induction false} VisitAllBalanced(t: Tally, cfg: Config, window: real, entries: seq<Entry>)
    requires ValidFees(cfg) && Balanced(t, window) && HasFeeRows(t, cfg)
    ensures Balanced(VisitAll(t, cfg, window, entries), window)
    ensures VisitAll(t, cfg, window, entries).paid == Min(window, t.paid + EntriesWork(entries))
  {
    hide Visit;
    if entries != [] {
      var n := |entries| - 1;
      VisitAllBalanced(t, cfg, window, entries[..n]);
      VisitBalanced(VisitAll(t, cfg, window, entries[..n]), cfg, window, entries[n]);
    }
  }

  /** Wherever the window edge falls, the walk pays out the work it passes, up to the window and no further. */
  lemma {:induction false} WalkBalanced(t: Tally, cfg: Config, window: real, db: ShareDb, height: nat, low: nat)
    requires ValidFees(cfg) && Balanced(t, window) && HasFeeRows(t, cfg) && low > 0
    ensures Balanced(Walk(t, cfg, window, db, height, low), window)
    ensures Walk(t, cfg, window, db, height, low).paid == Min(window, t.paid + WorkBetween(db, low, height))
    decreases height
  {
    hide Visit, VisitAll;
    if height >= low && t.paid < window {
      VisitAllBalanced(t, cfg, window, SharesAt(db, height));
      WalkBalanced(VisitAll(t, cfg, window, SharesAt(db, height)), cfg, window, db, height - 1, low);
    }
  }

  lemma InitialBalanced(cfg: Config, window: real)
    requires window >= 0.0
    ensures Balanced(Initial(cfg), window) && Initial(cfg).paid == 0.0
  {
    var a, b, c := FeeRow(cfg.feeAddress), FeeRow(cfg.coinDevAddress), FeeRow(cfg.poolDevAddress);
    SumConcat([], [a]);
    SumConcat(Ensured([], a), [b]);
    SumConcat(Ensured(Ensured([], a), b), [c]);
    assert SumAmounts([a]) == 0.0 && SumAmounts([b]) == 0.0 && SumAmounts([c]) == 0.0;
  }

  /** The payment amounts are never negative and add up to the smaller of the window and the work there is. */
  lemma {:induction false} PayoutConservesWork(cfg: Config, window: real, db: ShareDb, height: nat)
    requires ValidFees(cfg) && window >= 0.0
    ensures NonNegative(Payout(cfg, window, db, height).rows)
    ensures SumAmounts(Payout(cfg, window, db, height).rows) == Min(window, WorkBetween(db, 1, height))
  {
    hide Walk, Initial;
    InitialBalanced(cfg, window);
    WalkBalanced(Initial(cfg), cfg, window, db, height, 1);
  }
}
