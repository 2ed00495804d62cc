/**
 Who gets which part of a PPLNS payout, said without the walk: all shares in
 payout order are cut into pieces for the miner, the pool and the two
 developers, the pieces are laid into the window one after the other, and a
 recipient's row holds what fits of its pieces.
 */
module PplnsRecipients {
  import opened Wrappers
  import opened Pplns
  import Precalc = PplnsPrecalc

  datatype Piece = Piece(key: string, amount: real)

  /** The key of a recipient: the address, with the payment id behind a dot if there is one. */
  function KeyOf(address: string, paymentId: Option<string>): string {
    if paymentId.Some? && paymentId.value != "" then address + "." + paymentId.value else address
  }

  /** A share in its pieces, in the order they are paid: of the fee, the pool keeps what the developers do not get. */
  function PiecesOf(cfg: Config, e: Entry): seq<Piece> {
    if e.Undecodable? || !e.pplns || e.shares2.None? || e.shares2.value == 0.0 then []
    else ShareInPieces(cfg, KeyOf(e.address, e.paymentId), e.shares2.value)
  }

  function ShareInPieces(cfg: Config, miner: string, work: real): seq<Piece> {
    [Piece(miner, MinerPart(cfg, work)), Piece(cfg.feeAddress, PoolPart(cfg, work)),
     Piece(cfg.poolDevAddress, PoolDevPart(cfg, work)), Piece(cfg.coinDevAddress, CoinDevPart(cfg, work))]
  }

  function MinerPart(cfg: Config, work: real): real { work * (1.0 - cfg.pplnsFee / 100.0) }

  function PoolPart(cfg: Config, work: real): real {
    work * (cfg.pplnsFee / 100.0) * (1.0 - cfg.devDonation / 100.0 - cfg.poolDevDonation / 100.0)
  }

  function PoolDevPart(cfg: Config, work: real): real { work * (cfg.pplnsFee / 100.0) * (cfg.poolDevDonation / 100.0) }

  function CoinDevPart(cfg: Config, work: real): real { work * (cfg.pplnsFee / 100.0) * (cfg.devDonation / 100.0) }

  function PiecesOfAll(cfg: Config, entries: seq<Entry>): seq<Piece> {
    if entries == [] then [] else PiecesOfAll(cfg, entries[..|entries| - 1]) + PiecesOf(cfg, entries[|entries| - 1])
  }

  /** All pieces of a payout from a height down, newest height first. */
  function Pieces(cfg: Config, db: ShareDb, height: nat): seq<Piece> {
    if height == 0 then [] else PiecesOfAll(cfg, if height in db then db[height] else []) + Pieces(cfg, db, height - 1)
  }

  /** What fits of a key's pieces when all are laid into a budget one after the other. */
  function Fill(pieces: seq<Piece>, budget: real, key: string): real {
    if pieces == [] then 0.0
    else
      var fits := Min(pieces[0].amount, budget);
      (if pieces[0].key == key then fits else 0.0) + Fill(pieces[1..], budget - fits, key)
  }

  function Taken(pieces: seq<Piece>, budget: real): real {
    if pieces == [] then 0.0
    else
      var fits := Min(pieces[0].amount, budget);
      fits + Taken(pieces[1..], budget - fits)
  }

  ghost predicate NoDebt(pieces: seq<Piece>) {
    forall i :: 0 <= i < |pieces| ==> pieces[i].amount >= 0.0
  }

  lemma {:induction false} FillConcat(a: seq<Piece>, b: seq<Piece>, budget: real, key: string)
    ensures Fill(a + b, budget, key) == Fill(a, budget, key) + Fill(b, budget - Taken(a, budget), key)
    ensures Taken(a + b, budget) == Taken(a, budget) + Taken(b, budget - Taken(a, budget))
  {
    if a == [] {
      assert a + b == b;
    } else {
      assert (a + b)[1..] == a[1..] + b;
      FillConcat(a[1..], b, budget - Min(a[0].amount, budget), key);
    }
  }

  lemma {:induction false} NothingFits(pieces: seq<Piece>, key: string)
    requires NoDebt(pieces)
    ensures Fill(pieces, 0.0, key) == 0.0 && Taken(pieces, 0.0) == 0.0
  {
    if pieces != [] {
      NothingFits(pieces[1..], key);
    }
  }

  // ------------------------------------------------------------------
  // The walk lays the pieces
  // ------------------------------------------------------------------

  /** What the rows of a key hold. */
  function Held(rows: seq<Row>, key: string): real {
    if rows == [] then 0.0 else (if rows[0].key == key then rows[0].amount else 0.0) + Held(rows[1..], key)
  }

  lemma {:induction false} HeldUpdate(rows: seq<Row>, i: nat, amount: real, key: string)
    requires i < |rows|
    ensures Held(rows[i := rows[i].(amount := amount)], key) ==
      Held(rows, key) + if rows[i].key == key then amount - rows[i].amount else 0.0
  {
    var row := rows[i].(amount := amount);
    if i == 0 {
      assert rows[0 := row][1..] == rows[1..];
    } else {
      assert rows[i := row][1..] == rows[1..][i - 1 := row];
      HeldUpdate(rows[1..], i - 1, amount, key);
    }
  }

  lemma {:induction false} HeldMore(rows: seq<Row>, row: Row, key: string)
    ensures Held(rows + [row], key) == Held(rows, key) + if row.key == key then row.amount else 0.0
  {
    if rows == [] {
      assert rows + [row] == [row];
      assert [row][1..] == [];
    } else {
      assert (rows + [row])[1..] == rows[1..] + [row];
      HeldMore(rows[1..], row, key);
    }
  }

  /** From one tally to another exactly these pieces were laid into what was left of the window. */
  ghost predicate Lays(t: Tally, t': Tally, pieces: seq<Piece>, window: real) {
    && t'.paid == t.paid + Taken(pieces, window - t.paid)
    && forall key :: Held(t'.rows, key) == Held(t.rows, key) + Fill(pieces, window - t.paid, key)
  }

  lemma LaysThen(t: Tally, t1: Tally, t2: Tally, a: seq<Piece>, b: seq<Piece>, window: real)
    requires Lays(t, t1, a, window) && Lays(t1, t2, b, window)
    ensures Lays(t, t2, a + b, window)
  {
    hide Fill, Taken, Held;
    FillConcat(a, b, window - t.paid, "");
    forall key
      ensures Held(t2.rows, key) == Held(t.rows, key) + Fill(a + b, window - t.paid, key)
    {
      FillConcat(a, b, window - t.paid, key);
      assert window - t1.paid == window - t.paid - Taken(a, window - t.paid);
    }
  }

  lemma PayLays(t: Tally, window: real, key: string, amount: real)
    requires HasKey(t.rows, key)
    ensures Lays(t, Pay(t, window, key, amount), [Piece(key, amount)], window)
  {
    var fits := Min(amount, window - t.paid);
    var i := IndexOf(t.rows, key);
    assert [Piece(key, amount)][1..] == [];
    forall k
      ensures Held(Pay(t, window, key, amount).rows, k) == Held(t.rows, k) + Fill([Piece(key, amount)], window - t.paid, k)
    {
      HeldUpdate(t.rows, i, t.rows[i].amount + fits, k);
    }
  }

  lemma SplitIsPieces(cfg: Config, work: real)
    ensures SplitShare(cfg, work) == Split(MinerPart(cfg, work), PoolPart(cfg, work), PoolDevPart(cfg, work), CoinDevPart(cfg, work))
  {
    var fee, dev, poolDev := cfg.pplnsFee / 100.0, cfg.devDonation / 100.0, cfg.poolDevDonation / 100.0;
    TakeAway(work, fee);
    TakeAwayTwo(work * fee, dev, poolDev);
  }

  lemma TakeAway(x: real, f: real)
    ensures x - x * f == x * (1.0 - f)
  {
  }

  lemma TakeAwayTwo(x: real, f: real, g: real)
    ensures x - x * f - x * g == x * (1.0 - f - g)
  {
  }

  lemma PayShareLays(t: Tally, cfg: Config, window: real, key: string, work: real)
    requires HasKey(t.rows, key) && HasFeeRows(t, cfg)
    ensures Lays(t, PayShare(t, cfg, window, key, work), ShareInPieces(cfg, key, work), window)
  {
    hide Lays, Pay, SplitShare, HasKey, MinerPart, PoolPart, PoolDevPart, CoinDevPart;
    SplitIsPieces(cfg, work);
    var s := SplitShare(cfg, work);
    var t1 := Pay(t, window, key, s.miner);
    var t2 := Pay(t1, window, cfg.feeAddress, s.pool);
    var t3 := Pay(t2, window, cfg.poolDevAddress, s.poolDev);
    var t4 := Pay(t3, window, cfg.coinDevAddress, s.coinDev);
    var a, b, c, d := Piece(key, s.miner), Piece(cfg.feeAddress, s.pool), Piece(cfg.poolDevAddress, s.poolDev), Piece(cfg.coinDevAddress, s.coinDev);
    PayLays(t, window, key, s.miner);
    PayLays(t1, window, cfg.feeAddress, s.pool);
    PayLays(t2, window, cfg.poolDevAddress, s.poolDev);
    PayLays(t3, window, cfg.coinDevAddress, s.coinDev);
    LaysThen(t, t1, t2, [a], [b], window);
    LaysThen(t, t2, t3, [a] + [b], [c], window);
    LaysThen(t, t3, t4, [a] + [b] + [c], [d], window);
    assert ShareInPieces(cfg, key, work) == [a] + [b] + [c] + [d];
  }

  lemma SameRowsLay(t: Tally, t': Tally, window: real)
    requires t'.paid == t.paid && forall key :: Held(t'.rows, key) == Held(t.rows, key)
    ensures Lays(t, t', [], window)
  {
  }

  lemma VisitLays(t: Tally, cfg: Config, window: real, e: Entry)
    requires HasFeeRows(t, cfg)
    ensures Lays(t, Visit(t, cfg, window, e), PiecesOf(cfg, e), window)
  {
    hide Lays, PayShare, ShareInPieces, Held, HasKey;
    if e.Undecodable? || !e.pplns {
      SameRowsLay(t, t, window);
    } else {
      var t1 := t.(rows := Ensured(t.rows, MinerRow(e)));
      forall key
        ensures Held(t1.rows, key) == Held(t.rows, key)
      {
        HeldMore(t.rows, MinerRow(e), key);
      }
      var t2 := t1.(firstShareTime := if t.firstShareTime.None? then Some(e.timestamp) else t.firstShareTime,
                    lastShareTime := if t.paid < window then Some(e.timestamp) else t.lastShareTime);
      if EntryWork(e) == 0.0 {
        SameRowsLay(t, t1, window);
      } else {
        SameRowsLay(t, t2, window);
        PayShareLays(t2, cfg, window, Identifier(e), EntryWork(e));
        var t3 := PayShare(t2, cfg, window, Identifier(e), EntryWork(e));
        LaysThen(t, t2, t3, [], PiecesOf(cfg, e), window);
        assert [] + PiecesOf(cfg, e) == PiecesOf(cfg, e);
        SameRowsLay(t3, Visit(t, cfg, window, e), window);
        LaysThen(t, t3, Visit(t, cfg, window, e), PiecesOf(cfg, e), [], window);
        assert PiecesOf(cfg, e) + [] == PiecesOf(cfg, e);
      }
    }
  }

  lemma {:induction false} VisitAllLays(t: Tally, cfg: Config, window: real, entries: seq<Entry>)
    requires HasFeeRows(t, cfg)
    ensures Lays(t, VisitAll(t, cfg, window, entries), PiecesOfAll(cfg, entries), window)
  {
    hide Lays, Visit, PiecesOf;
    if entries == [] {
      SameRowsLay(t, t, window);
    } else {
      var n := |entries| - 1;
      var t1 := VisitAll(t, cfg, window, entries[..n]);
      VisitAllLays(t, cfg, window, entries[..n]);
      VisitLays(t1, cfg, window, entries[n]);
      LaysThen(t, t1, Visit(t1, cfg, window, entries[n]), PiecesOfAll(cfg, entries[..n]), PiecesOf(cfg, entries[n]), window);
    }
  }

  lemma ShareHasNoDebt(cfg: Config, miner: string, work: real)
    requires ValidFees(cfg) && work >= 0.0
    ensures NoDebt(ShareInPieces(cfg, miner, work))
  {
    hide SplitShare, MinerPart, PoolPart, PoolDevPart, CoinDevPart;
    SplitIsPieces(cfg, work);
    SplitIsExact(cfg, work);
  }

  lemma {:induction false} AllHaveNoDebt(cfg: Config, entries: seq<Entry>)
    requires ValidFees(cfg)
    ensures NoDebt(PiecesOfAll(cfg, entries))
  {
    hide ShareInPieces;
    if entries != [] {
      var n := |entries| - 1;
      AllHaveNoDebt(cfg, entries[..n]);
      if PiecesOf(cfg, entries[n]) != [] {
        ShareHasNoDebt(cfg, KeyOf(entries[n].address, entries[n].paymentId), entries[n].shares2.value);
      }
    }
  }

  lemma {:induction false} PiecesHaveNoDebt(cfg: Config, db: ShareDb, height: nat)
    requires ValidFees(cfg)
    ensures NoDebt(Pieces(cfg, db, height))
  {
    hide PiecesOfAll;
    if height > 0 {
      AllHaveNoDebt(cfg, if height in db then db[height] else []);
      PiecesHaveNoDebt(cfg, db, height - 1);
    }
  }

  lemma {:induction false} WalkLays(t: Tally, cfg: Config, window: real, db: ShareDb, height: nat)
    requires ValidFees(cfg) && HasFeeRows(t, cfg) && Balanced(t, window)
    ensures Lays(t, Walk(t, cfg, window, db, height, 1), Pieces(cfg, db, height), window)
    decreases height
  {
    hide VisitAll, PiecesOfAll, Held, Balanced, Lays, HasFeeRows;
    if height == 0 {
      SameRowsLay(t, t, window);
    } else if t.paid >= window {
      PiecesHaveNoDebt(cfg, db, height);
      FullIsExact(t, window);
      FullLays(t, window, Pieces(cfg, db, height));
    } else {
      var entries := SharesAt(db, height);
      var t1 := VisitAll(t, cfg, window, entries);
      VisitAllLays(t, cfg, window, entries);
      VisitAllBalanced(t, cfg, window, entries);
      WalkLays(t1, cfg, window, db, height - 1);
      LaysThen(t, t1, Walk(t1, cfg, window, db, height - 1, 1), PiecesOfAll(cfg, entries), Pieces(cfg, db, height - 1), window);
    }
  }

  /** Once the window is full nothing more is laid. */
  lemma FullLays(t: Tally, window: real, pieces: seq<Piece>)
    requires NoDebt(pieces) && window - t.paid == 0.0
    ensures Lays(t, t, pieces, window)
  {
    hide Fill, Taken, Held;
    NothingFits(pieces, "");
    forall key
      ensures Fill(pieces, 0.0, key) == 0.0
    {
      NothingFits(pieces, key);
    }
  }

  lemma FullIsExact(t: Tally, window: real)
    requires Balanced(t, window) && t.paid >= window
    ensures window - t.paid == 0.0
  {
  }

  lemma InitialHoldsNothing(cfg: Config)
    ensures forall key :: Held(Initial(cfg).rows, key) == 0.0
  {
    var a, b, c := FeeRow(cfg.feeAddress), FeeRow(cfg.coinDevAddress), FeeRow(cfg.poolDevAddress);
    forall key
      ensures Held(Initial(cfg).rows, key) == 0.0
    {
      HeldMore([], a, key);
      HeldMore(Ensured([], a), b, key);
      HeldMore(Ensured(Ensured([], a), b), c, key);
    }
  }

  /**
   Who holds what after a payout, for every key and every window: what fits of its pieces when the pieces of all shares,
   newest height first, each miner's before the pool's and the developers', are laid into the window in turn.
   */
  lemma PayoutByPieces(cfg: Config, window: real, db: ShareDb, height: nat, key: string)
    requires ValidFees(cfg) && window >= 0.0
    ensures Held(Payout(cfg, window, db, height).rows, key) == Fill(Pieces(cfg, db, height), window, key)
  {
    hide Walk, Initial, Held, Fill, Taken;
    InitialBalanced(cfg, window);
    InitialHoldsNothing(cfg);
    WalkLays(Initial(cfg), cfg, window, db, height);
    assert window - 0.0 == window;
  }

  // ------------------------------------------------------------------
  // Below the window
  // ------------------------------------------------------------------

  function SumOf(pieces: seq<Piece>, key: string): real {
    if pieces == [] then 0.0 else (if pieces[0].key == key then pieces[0].amount else 0.0) + SumOf(pieces[1..], key)
  }

  function TotalOf(pieces: seq<Piece>): real {
    if pieces == [] then 0.0 else pieces[0].amount + TotalOf(pieces[1..])
  }

  lemma {:induction false} TotalIsPositive(pieces: seq<Piece>)
    requires NoDebt(pieces)
    ensures TotalOf(pieces) >= 0.0
  {
    if pieces != [] {
      TotalIsPositive(pieces[1..]);
    }
  }

  /** Pieces that all fit are paid in full. */
  lemma {:induction false} AllFits(pieces: seq<Piece>, budget: real, key: string)
    requires NoDebt(pieces) && TotalOf(pieces) <= budget
    ensures Fill(pieces, budget, key) == SumOf(pieces, key)
  {
    if pieces != [] {
      TotalIsPositive(pieces[1..]);
      AllFits(pieces[1..], budget - pieces[0].amount, key);
    }
  }

  lemma {:induction false} SumsConcat(a: seq<Piece>, b: seq<Piece>, key: string)
    ensures SumOf(a + b, key) == SumOf(a, key) + SumOf(b, key)
    ensures TotalOf(a + b) == TotalOf(a) + TotalOf(b)
  {
    if a == [] {
      assert a + b == b;
    } else {
      assert (a + b)[1..] == a[1..] + b;
      SumsConcat(a[1..], b, key);
    }
  }

  /** The work of a recipient's own shares. */
  function OwnWorkOf(entries: seq<Entry>, key: string): real {
    if entries == [] then 0.0
    else
      var e := entries[|entries| - 1];
      OwnWorkOf(entries[..|entries| - 1], key) +
      if e.Share? && e.pplns && e.shares2.Some? && KeyOf(e.address, e.paymentId) == key then e.shares2.value else 0.0
  }

  function OwnWork(db: ShareDb, height: nat, key: string): real {
    if height == 0 then 0.0 else OwnWorkOf(if height in db then db[height] else [], key) + OwnWork(db, height - 1, key)
  }

  /** What a key is owed for its own work and, at a fee address, for all work. */
  function Owed(cfg: Config, own: real, all: real, key: string): real {
    MinerPart(cfg, own)
    + (if key == cfg.feeAddress then PoolPart(cfg, all) else 0.0)
    + (if key == cfg.poolDevAddress then PoolDevPart(cfg, all) else 0.0)
    + (if key == cfg.coinDevAddress then CoinDevPart(cfg, all) else 0.0)
  }

  lemma PartsAdd(cfg: Config, a: real, b: real)
    ensures MinerPart(cfg, a + b) == MinerPart(cfg, a) + MinerPart(cfg, b)
    ensures PoolPart(cfg, a + b) == PoolPart(cfg, a) + PoolPart(cfg, b)
    ensures PoolDevPart(cfg, a + b) == PoolDevPart(cfg, a) + PoolDevPart(cfg, b)
    ensures CoinDevPart(cfg, a + b) == CoinDevPart(cfg, a) + CoinDevPart(cfg, b)
    ensures MinerPart(cfg, 0.0) == PoolPart(cfg, 0.0) == PoolDevPart(cfg, 0.0) == CoinDevPart(cfg, 0.0) == 0.0
  {
    var f := cfg.pplnsFee / 100.0;
    Spread(a, b, 1.0 - f);
    Spread(a, b, f);
    Spread(a * f, b * f, 1.0 - cfg.devDonation / 100.0 - cfg.poolDevDonation / 100.0);
    Spread(a * f, b * f, cfg.poolDevDonation / 100.0);
    Spread(a * f, b * f, cfg.devDonation / 100.0);
  }

  lemma Spread(a: real, b: real, c: real)
    ensures (a + b) * c == a * c + b * c
  {
  }

  lemma OwedAdds(cfg: Config, own: real, own': real, all: real, all': real, key: string)
    ensures Owed(cfg, own + own', all + all', key) == Owed(cfg, own, all, key) + Owed(cfg, own', all', key)
    ensures Owed(cfg, 0.0, 0.0, key) == 0.0
  {
    hide MinerPart, PoolPart, PoolDevPart, CoinDevPart;
    PartsAdd(cfg, own, own');
    PartsAdd(cfg, all, all');
  }

  lemma ShareSums(cfg: Config, miner: string, work: real, key: string)
    requires ValidFees(cfg) && work >= 0.0
    ensures SumOf(ShareInPieces(cfg, miner, work), key) == Owed(cfg, if miner == key then work else 0.0, work, key)
    ensures TotalOf(ShareInPieces(cfg, miner, work)) == work
  {
    hide MinerPart, PoolPart, PoolDevPart, CoinDevPart, SplitShare;
    SplitIsPieces(cfg, work);
    SplitIsExact(cfg, work);
    PartsAdd(cfg, 0.0, 0.0);
    var p := ShareInPieces(cfg, miner, work);
    assert p == [p[0]] + ([p[1]] + ([p[2]] + [p[3]]));
    SumsConcat([p[2]], [p[3]], key);
    SumsConcat([p[1]], [p[2]] + [p[3]], key);
    SumsConcat([p[0]], [p[1]] + ([p[2]] + [p[3]]), key);
    forall q: Piece
      ensures SumOf([q], key) == (if q.key == key then q.amount else 0.0) && TotalOf([q]) == q.amount
    {
      assert [q][1..] == [];
    }
  }

  lemma NoPieces(key: string)
    ensures SumOf([], key) == 0.0 && TotalOf([]) == 0.0
  {
  }

  lemma EntrySums(cfg: Config, e: Entry, key: string)
    requires ValidFees(cfg)
    ensures SumOf(PiecesOf(cfg, e), key) == Owed(cfg, OwnWorkOf([e], key), EntryWork(e), key)
    ensures TotalOf(PiecesOf(cfg, e)) == EntryWork(e)
  {
    hide ShareInPieces, Owed;
    assert [e][..0] == [];
    OwedAdds(cfg, 0.0, 0.0, 0.0, 0.0, key);
    if e.Share? && e.pplns && e.shares2.Some? && e.shares2.value != 0.0 {
      ShareSums(cfg, KeyOf(e.address, e.paymentId), e.shares2.value, key);
    }
  }

  lemma {:induction false} EntriesSum(cfg: Config, entries: seq<Entry>, key: string)
    requires ValidFees(cfg)
    ensures SumOf(PiecesOfAll(cfg, entries), key) == Owed(cfg, OwnWorkOf(entries, key), EntriesWork(entries), key)
    ensures TotalOf(PiecesOfAll(cfg, entries)) == EntriesWork(entries)
  {
    hide PiecesOf, Owed, EntryWork, SumOf, TotalOf;
    if entries == [] {
      NoPieces(key);
      OwedAdds(cfg, 0.0, 0.0, 0.0, 0.0, key);
    } else {
      var n := |entries| - 1;
      EntriesSum(cfg, entries[..n], key);
      EntrySums(cfg, entries[n], key);
      SumsConcat(PiecesOfAll(cfg, entries[..n]), PiecesOf(cfg, entries[n]), key);
      assert [entries[n]][..0] == [];
      OwedAdds(cfg, OwnWorkOf(entries[..n], key), OwnWorkOf([entries[n]], key), EntriesWork(entries[..n]), EntryWork(entries[n]), key);
    }
  }

  lemma {:induction false} PiecesSum(cfg: Config, db: ShareDb, height: nat, key: string)
    requires ValidFees(cfg)
    ensures SumOf(Pieces(cfg, db, height), key) == Owed(cfg, OwnWork(db, height, key), WorkBetween(db, 1, height), key)
    ensures TotalOf(Pieces(cfg, db, height)) == WorkBetween(db, 1, height)
  {
    hide PiecesOfAll, Owed, EntriesWork, OwnWorkOf, SumOf, TotalOf;
    if height == 0 {
      NoPieces(key);
      OwedAdds(cfg, 0.0, 0.0, 0.0, 0.0, key);
    } else {
      var entries := SharesAt(db, height);
      EntriesSum(cfg, entries, key);
      PiecesSum(cfg, db, height - 1, key);
      SumsConcat(PiecesOfAll(cfg, entries), Pieces(cfg, db, height - 1), key);
      OwedAdds(cfg, OwnWorkOf(entries, key), OwnWork(db, height - 1, key), EntriesWork(entries), WorkBetween(db, 1, height - 1), key);
    }
  }

  /**
   While the window is not exceeded, every recipient holds the work of its own shares less the fee, and the fee
   addresses hold on top their percentages of the fee on all work, added up where addresses coincide.
   */
  lemma BelowWindowEachHoldsItsShare(cfg: Config, window: real, db: ShareDb, height: nat, key: string)
    requires ValidFees(cfg) && WorkBetween(db, 1, height) <= window
    ensures Held(Payout(cfg, window, db, height).rows, key) ==
      Owed(cfg, OwnWork(db, height, key), WorkBetween(db, 1, height), key)
  {
    hide Payout, Held, Fill, Owed, WorkBetween, Pieces, SumOf, TotalOf;
    PayoutByPieces(cfg, window, db, height, key);
    PiecesHaveNoDebt(cfg, db, height);
    PiecesSum(cfg, db, height, key);
    AllFits(Pieces(cfg, db, height), window, key);
  }

  // ------------------------------------------------------------------
  // At the window's edge
  // ------------------------------------------------------------------

  /** What is left for a piece after what comes before it, at most its own amount. */
  function Rest(left: real, before: real, amount: real): real {
    if left <= before then 0.0 else Min(amount, left - before)
  }

  /**
   The share at the edge: of what is left of the window the miner's part is taken first, then the pool's, the pool
   developer's and the coin developer's; no other key gets anything.
   */
  lemma EdgeOfShare(cfg: Config, miner: string, work: real, left: real, key: string)
    requires ValidFees(cfg) && work >= 0.0 && left >= 0.0
    ensures var m, p, q, c := MinerPart(cfg, work), PoolPart(cfg, work), PoolDevPart(cfg, work), CoinDevPart(cfg, work);
      Fill(ShareInPieces(cfg, miner, work), left, key) ==
        (if key == miner then Rest(left, 0.0, m) else 0.0)
        + (if key == cfg.feeAddress then Rest(left, m, p) else 0.0)
        + (if key == cfg.poolDevAddress then Rest(left, m + p, q) else 0.0)
        + (if key == cfg.coinDevAddress then Rest(left, m + p + q, c) else 0.0)
  {
    hide MinerPart, PoolPart, PoolDevPart, CoinDevPart, Fill;
    ShareHasNoDebt(cfg, miner, work);
    var pieces := ShareInPieces(cfg, miner, work);
    var m, p, q := pieces[0].amount, pieces[1].amount, pieces[2].amount;
    FillAt(pieces, left, key);
    var l1 := left - Min(m, left);
    FillAt(pieces[1..], l1, key);
    var l2 := l1 - Min(p, l1);
    assert pieces[1..][1..] == pieces[2..];
    FillAt(pieces[2..], l2, key);
    var l3 := l2 - Min(q, l2);
    assert pieces[2..][1..] == pieces[3..];
    FillAt(pieces[3..], l3, key);
    assert pieces[3..][1..] == [];
  }

  lemma FillAt(pieces: seq<Piece>, budget: real, key: string)
    requires pieces != []
    ensures var fits := Min(pieces[0].amount, budget);
      Fill(pieces, budget, key) == (if pieces[0].key == key then fits else 0.0) + Fill(pieces[1..], budget - fits, key)
    ensures |pieces| == 1 ==> Fill(pieces, budget, key) == if pieces[0].key == key then Min(pieces[0].amount, budget) else 0.0
  {
  }

  // ------------------------------------------------------------------
  // Whose rows they are
  // ------------------------------------------------------------------

  /** Keys are distinct, and each is that of the row's address and payment id. */
  ghost predicate Named(rows: seq<Row>) {
    && (forall i, j :: 0 <= i < j < |rows| ==> rows[i].key != rows[j].key)
    && (forall i :: 0 <= i < |rows| ==> rows[i].key == KeyOf(rows[i].address, rows[i].paymentId))
  }

  /** A row is a fee row, or its address and payment id are those of a share. */
  ghost predicate Known(row: Row, cfg: Config, db: ShareDb) {
    || (row.paymentId.None? && row.address in {cfg.feeAddress, cfg.coinDevAddress, cfg.poolDevAddress})
    || exists h, j :: h in db && 0 <= j < |db[h]| && OfShare(row, db[h][j])
  }

  predicate OfShare(row: Row, e: Entry) {
    e.Share? && e.pplns && row.address == e.address && row.paymentId == e.paymentId
  }

  ghost predicate AllKnown(rows: seq<Row>, cfg: Config, db: ShareDb) {
    Named(rows) && forall i :: 0 <= i < |rows| ==> Known(rows[i], cfg, db)
  }

  lemma AddToKnown(rows: seq<Row>, key: string, amount: real, cfg: Config, db: ShareDb)
    requires AllKnown(rows, cfg, db) && HasKey(rows, key)
    ensures AllKnown(AddTo(rows, key, amount), cfg, db)
  {
    hide KeyOf;
    var i := IndexOf(rows, key);
    var r := AddTo(rows, key, amount);
    forall j | 0 <= j < |r|
      ensures r[j].key == rows[j].key && r[j].address == rows[j].address && r[j].paymentId == rows[j].paymentId && Known(r[j], cfg, db)
    {
      assert Known(rows[j], cfg, db);
      if exists h, n :: h in db && 0 <= n < |db[h]| && OfShare(rows[j], db[h][n]) {
        var h, n :| h in db && 0 <= n < |db[h]| && OfShare(rows[j], db[h][n]);
        assert OfShare(r[j], db[h][n]);
      }
    }
  }

  lemma EnsuredKnown(rows: seq<Row>, row: Row, cfg: Config, db: ShareDb)
    requires AllKnown(rows, cfg, db) && Known(row, cfg, db) && row.key == KeyOf(row.address, row.paymentId)
    ensures AllKnown(Ensured(rows, row), cfg, db)
  {
    hide Known, KeyOf;
  }

  lemma PayShareKnown(t: Tally, cfg: Config, window: real, key: string, work: real, db: ShareDb)
    requires AllKnown(t.rows, cfg, db) && HasKey(t.rows, key) && HasFeeRows(t, cfg)
    ensures AllKnown(PayShare(t, cfg, window, key, work).rows, cfg, db)
  {
    hide AllKnown, SplitShare, AddTo, HasKey;
    var s := SplitShare(cfg, work);
    var t1 := Pay(t, window, key, s.miner);
    var t2 := Pay(t1, window, cfg.feeAddress, s.pool);
    var t3 := Pay(t2, window, cfg.poolDevAddress, s.poolDev);
    AddToKnown(t.rows, key, Min(s.miner, window - t.paid), cfg, db);
    AddToKnown(t1.rows, cfg.feeAddress, Min(s.pool, window - t1.paid), cfg, db);
    AddToKnown(t2.rows, cfg.poolDevAddress, Min(s.poolDev, window - t2.paid), cfg, db);
    AddToKnown(t3.rows, cfg.coinDevAddress, Min(s.coinDev, window - t3.paid), cfg, db);
  }

  lemma VisitKnown(t: Tally, cfg: Config, window: real, db: ShareDb, h: nat, j: nat)
    requires AllKnown(t.rows, cfg, db) && HasFeeRows(t, cfg) && h in db && j < |db[h]|
    ensures AllKnown(Visit(t, cfg, window, db[h][j]).rows, cfg, db)
  {
    hide AllKnown, PayShare, HasKey;
    var e := db[h][j];
    if e.Share? && e.pplns {
      assert OfShare(MinerRow(e), db[h][j]);
      assert Known(MinerRow(e), cfg, db);
      EnsuredKnown(t.rows, MinerRow(e), cfg, db);
      var t1 := t.(rows := Ensured(t.rows, MinerRow(e)));
      var t2 := t1.(firstShareTime := if t.firstShareTime.None? then Some(e.timestamp) else t.firstShareTime,
                    lastShareTime := if t.paid < window then Some(e.timestamp) else t.lastShareTime);
      if EntryWork(e) != 0.0 {
        PayShareKnown(t2, cfg, window, Identifier(e), EntryWork(e), db);
      }
    }
  }

  lemma {:induction false} VisitAllKnown(t: Tally, cfg: Config, window: real, db: ShareDb, h: nat, n: nat)
    requires AllKnown(t.rows, cfg, db) && HasFeeRows(t, cfg) && h in db && n <= |db[h]|
    ensures AllKnown(VisitAll(t, cfg, window, db[h][..n]).rows, cfg, db)
  {
    hide AllKnown, Visit, HasFeeRows;
    if n > 0 {
      VisitAllKnown(t, cfg, window, db, h, n - 1);
      assert db[h][..n][..n - 1] == db[h][..n - 1];
      VisitKnown(VisitAll(t, cfg, window, db[h][..n - 1]), cfg, window, db, h, n - 1);
    }
  }

  lemma {:induction false} WalkKnown(t: Tally, cfg: Config, window: real, db: ShareDb, height: nat)
    requires AllKnown(t.rows, cfg, db) && HasFeeRows(t, cfg)
    ensures AllKnown(Walk(t, cfg, window, db, height, 1).rows, cfg, db)
    decreases height
  {
    hide AllKnown, VisitAll, HasFeeRows;
    if height > 0 && t.paid < window {
      if height in db {
        VisitAllKnown(t, cfg, window, db, height, |db[height]|);
        assert db[height][..|db[height]|] == db[height];
      } else {
        NothingVisited(t, cfg, window);
      }
      WalkKnown(VisitAll(t, cfg, window, SharesAt(db, height)), cfg, window, db, height - 1);
    }
  }

  lemma NothingVisited(t: Tally, cfg: Config, window: real)
    requires HasFeeRows(t, cfg)
    ensures VisitAll(t, cfg, window, []) == t
  {
  }

  /** The rows of a payout have distinct keys, and each belongs to a fee address or to the address and payment id of a share. */
  lemma PayoutRowsAreNamed(cfg: Config, window: real, db: ShareDb, height: nat)
    ensures AllKnown(Payout(cfg, window, db, height).rows, cfg, db)
  {
    hide Walk, AllKnown, HasKey, Ensured;
    var a, b, c := FeeRow(cfg.feeAddress), FeeRow(cfg.coinDevAddress), FeeRow(cfg.poolDevAddress);
    NothingKnown(cfg, db);
    EnsuredKnown([], a, cfg, db);
    EnsuredKnown(Ensured([], a), b, cfg, db);
    EnsuredKnown(Ensured(Ensured([], a), b), c, cfg, db);
    WalkKnown(Initial(cfg), cfg, window, db, height);
  }

  lemma NothingKnown(cfg: Config, db: ShareDb)
    ensures AllKnown([], cfg, db)
  {
  }

  lemma {:induction false} HeldByOne(rows: seq<Row>, i: nat)
    requires i < |rows| && forall j, k :: 0 <= j < k < |rows| ==> rows[j].key != rows[k].key
    ensures Held(rows, rows[i].key) == rows[i].amount
  {
    if i == 0 {
      HeldByNone(rows[1..], rows[0].key);
    } else {
      HeldByOne(rows[1..], i - 1);
    }
  }

  lemma {:induction false} HeldByNone(rows: seq<Row>, key: string)
    requires forall j :: 0 <= j < |rows| ==> rows[j].key != key
    ensures Held(rows, key) == 0.0
  {
    if rows != [] {
      HeldByNone(rows[1..], key);
    }
  }

  // ------------------------------------------------------------------
  // What is stored for the block
  // ------------------------------------------------------------------

  /** A stored row is a payment row with an amount, as a fraction of the pay window. */
  predicate StoredFrom(b: Precalc.BlockRow, row: Row, payWindow: real)
    requires payWindow > 0.0
  {
    row.amount != 0.0 && b.address == row.address && b.paymentId == row.paymentId && b.amount == row.amount / payWindow
  }

  lemma {:induction false} StoredComesFrom(rows: seq<Row>, payWindow: real, n: nat) returns (i: nat)
    requires payWindow > 0.0 && n < |Precalc.BlockRows(rows, payWindow)|
    ensures i < |rows| && StoredFrom(Precalc.BlockRows(rows, payWindow)[n], rows[i], payWindow)
  {
    if rows[0].amount == 0.0 {
      i := StoredComesFrom(rows[1..], payWindow, n);
      i := i + 1;
    } else if n == 0 {
      i := 0;
    } else {
      i := StoredComesFrom(rows[1..], payWindow, n - 1);
      i := i + 1;
    }
  }

  lemma {:induction false} RowIsStored(rows: seq<Row>, payWindow: real, i: nat) returns (n: nat)
    requires payWindow > 0.0 && i < |rows| && rows[i].amount != 0.0
    ensures n < |Precalc.BlockRows(rows, payWindow)| && StoredFrom(Precalc.BlockRows(rows, payWindow)[n], rows[i], payWindow)
  {
    if i == 0 {
      n := 0;
    } else {
      n := RowIsStored(rows[1..], payWindow, i - 1);
      if rows[0].amount != 0.0 {
        n := n + 1;
      }
    }
  }

  /** The window the fractions are taken of: the whole one, unless less than 0.9999 of it was paid. */
  function FinalWindow(paid: real, window: real): real { if paid >= 0.9999 * window then window else paid }

  /**
   What is stored for a block: for each recipient of the payout, and for nobody else, what it holds as a fraction of the
   window, or of all that was paid when that is less than 0.9999 of the window.
   */
  lemma StoredIsOwed(cfg: Config, window: real, db: ShareDb, height: nat)
    requires ValidFees(cfg) && window > 0.0
    ensures var stored := Precalc.StoredRows(cfg, window, db, height);
      stored.Some? ==>
        var paid := Min(window, WorkBetween(db, 1, height));
        && FinalWindow(paid, window) > 0.0
        && (forall n :: 0 <= n < |stored.value| ==>
              var b := stored.value[n];
              b.amount == Fill(Pieces(cfg, db, height), window, KeyOf(b.address, b.paymentId)) / FinalWindow(paid, window))
        && (forall key :: Fill(Pieces(cfg, db, height), window, key) != 0.0 ==>
              exists n :: 0 <= n < |stored.value| && KeyOf(stored.value[n].address, stored.value[n].paymentId) == key)
  {
    hide Payout, Fill, Pieces, WorkBetween, Precalc.BlockRows, Precalc.PayWindow, Held, KeyOf;
    PayoutConservesWork(cfg, window, db, height);
    PayoutRowsAreNamed(cfg, window, db, height);
    var rows := Payout(cfg, window, db, height).rows;
    var paid := SumAmounts(rows);
    if Precalc.StoredRows(cfg, window, db, height).Some? {
      Precalc.PayWindowIs(paid, window);
      var stored := Precalc.StoredRows(cfg, window, db, height).value;
      var payWindow := Precalc.PayWindow(paid, window);
      forall i | 0 <= i < |rows|
        ensures rows[i].amount == Fill(Pieces(cfg, db, height), window, KeyOf(rows[i].address, rows[i].paymentId))
      {
        HeldByOne(rows, i);
        PayoutByPieces(cfg, window, db, height, rows[i].key);
      }
      forall n | 0 <= n < |stored|
        ensures stored[n].amount == Fill(Pieces(cfg, db, height), window, KeyOf(stored[n].address, stored[n].paymentId)) / payWindow
      {
        var i := StoredComesFrom(rows, payWindow, n);
      }
      forall key | Fill(Pieces(cfg, db, height), window, key) != 0.0
        ensures exists n :: 0 <= n < |stored| && KeyOf(stored[n].address, stored[n].paymentId) == key
      {
        PayoutByPieces(cfg, window, db, height, key);
        HeldSomewhere(rows, key);
        var i :| 0 <= i < |rows| && rows[i].key == key && rows[i].amount != 0.0;
        var n := RowIsStored(rows, payWindow, i);
        assert KeyOf(stored[n].address, stored[n].paymentId) == key;
      }
    }
  }

  lemma {:induction false} HeldSomewhere(rows: seq<Row>, key: string)
    requires Held(rows, key) != 0.0
    ensures exists i :: 0 <= i < |rows| && rows[i].key == key && rows[i].amount != 0.0
  {
    if rows[0].key != key || rows[0].amount == 0.0 {
      HeldSomewhere(rows[1..], key);
      var i :| 0 <= i < |rows[1..]| && rows[1..][i].key == key && rows[1..][i].amount != 0.0;
      assert rows[i + 1] == rows[1..][i];
    }
  }
}
