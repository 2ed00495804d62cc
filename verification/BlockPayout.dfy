/**
 The payout of one block from its shares to the balances: the stored
 fractions of the reward become whole atomic units, the units are credited
 to the recipients' balances, and all of it happens in one transaction or
 not at all.
 */
module BlockPayout {
  import opened Wrappers
  import opened Pplns
  import Precalc = PplnsPrecalc
  import Credits = BalanceCredits
  import SqlTransaction
  import Recipients = PplnsRecipients

  type BlockRow = Precalc.BlockRow

  // ------------------------------------------------------------------
  // From stored rows to credits
  // ------------------------------------------------------------------

  /** The balance a stored row is for; payment ids of ten characters or less count as none. */
  function RecipientOf(row: BlockRow): Credits.Recipient {
    Credits.Recipient(row.address, "pplns", if row.paymentId.Some? && |row.paymentId.value| > 10 then row.paymentId else None)
  }

  /**
   What a balance is to grow by: the whole units of the reward in every stored row whose recipient it is the balance of.
   */
  function Growth(stored: seq<BlockRow>, reward: nat, known: map<Credits.Recipient, Credits.Id>, id: Credits.Id): int {
    if stored == [] then 0
    else
      var row := stored[|stored| - 1];
      Growth(stored[..|stored| - 1], reward, known, id) +
      var recipient := Credits.Recipient(row.address, "pplns", if row.paymentId.Some? && |row.paymentId.value| > 10 then row.paymentId else None);
      if recipient in known && known[recipient] == id then (row.amount * reward as real).Floor else 0
  }

  /** The payments of the rows that come to anything. */
  function PaymentsOf(stored: seq<BlockRow>, reward: nat): seq<Credits.Payment> {
    if stored == [] then []
    else
      var row := stored[|stored| - 1];
      var amount := Precalc.Credit(row, reward);
      PaymentsOf(stored[..|stored| - 1], reward) + if amount == 0 then [] else [Credits.Payment(RecipientOf(row), amount)]
  }

  /** Payments, each to the balance its recipient was resolved to. */
  function Resolved(payments: seq<Credits.Payment>, known: map<Credits.Recipient, Credits.Id>): seq<Credits.Credit>
    requires AllIn(payments, known)
  {
    if payments == [] then []
    else
      var last := payments[|payments| - 1];
      Resolved(payments[..|payments| - 1], known) + [Credits.Credit(known[last.recipient], last.amount)]
  }

  lemma {:induction false} CreditsSnoc(stored: seq<BlockRow>, row: BlockRow, reward: nat)
    ensures Precalc.SumCredits(stored + [row], reward) == Precalc.SumCredits(stored, reward) + Precalc.Credit(row, reward)
  {
    if stored == [] {
      assert [row][1..] == [];
      assert stored + [row] == [row];
    } else {
      assert (stored + [row])[1..] == stored[1..] + [row];
      CreditsSnoc(stored[1..], row, reward);
    }
  }

  lemma ResolvedSnoc(payments: seq<Credits.Payment>, p: Credits.Payment, known: map<Credits.Recipient, Credits.Id>)
    requires p.recipient in known && AllIn(payments, known)
    ensures AllIn(payments + [p], known)
    ensures Resolved(payments + [p], known) == Resolved(payments, known) + [Credits.Credit(known[p.recipient], p.amount)]
  {
    assert (payments + [p])[..|payments|] == payments;
  }

  lemma Snocs(stored: seq<BlockRow>, row: BlockRow, reward: nat, known: map<Credits.Recipient, Credits.Id>, id: Credits.Id)
    ensures PaymentsOf(stored + [row], reward) ==
      PaymentsOf(stored, reward) + if Precalc.Credit(row, reward) == 0 then [] else [Credits.Payment(RecipientOf(row), Precalc.Credit(row, reward))]
    ensures Growth(stored + [row], reward, known, id) ==
      Growth(stored, reward, known, id)
      + if RecipientOf(row) in known && known[RecipientOf(row)] == id then Precalc.Credit(row, reward) else 0
  {
    assert (stored + [row])[..|stored|] == stored;
  }

  /** The resolved payments add up, for every balance, to its growth, and together to the credits of the rows. */
  lemma {:induction false} ResolvedGrowth(stored: seq<BlockRow>, reward: nat, known: map<Credits.Recipient, Credits.Id>, id: Credits.Id)
    requires AllIn(PaymentsOf(stored, reward), known)
    ensures Credits.SumFor(Resolved(PaymentsOf(stored, reward), known), id) == Growth(stored, reward, known, id)
    ensures Credits.Total(Resolved(PaymentsOf(stored, reward), known)) == Precalc.SumCredits(stored, reward)
    decreases |stored|
  {
    if stored == [] {
      Credits.SumsOfNone();
    } else {
      var n := |stored| - 1;
      assert stored == stored[..n] + [stored[n]];
      GrowthStep(stored[..n], stored[n], reward, known, id);
    }
  }

  lemma GrowthStep(stored: seq<BlockRow>, row: BlockRow, reward: nat, known: map<Credits.Recipient, Credits.Id>, id: Credits.Id)
    requires AllIn(PaymentsOf(stored + [row], reward), known)
    ensures Credits.SumFor(Resolved(PaymentsOf(stored + [row], reward), known), id) == Growth(stored + [row], reward, known, id)
    ensures Credits.Total(Resolved(PaymentsOf(stored + [row], reward), known)) == Precalc.SumCredits(stored + [row], reward)
    decreases |stored| + 1, 0
  {
    hide PaymentsOf, Growth, Resolved, Credits.SumFor, Credits.Total, Precalc.SumCredits, Precalc.Credit, RecipientOf;
    var before := PaymentsOf(stored, reward);
    var amount := Precalc.Credit(row, reward);
    Snocs(stored, row, reward, known, id);
    CreditsSnoc(stored, row, reward);
    if amount == 0 {
      assert before + [] == before;
      ResolvedGrowth(stored, reward, known, id);
    } else {
      var p := Credits.Payment(RecipientOf(row), amount);
      AllInParts(before, p, known);
      ResolvedGrowth(stored, reward, known, id);
      ResolvedSnoc(before, p, known);
      Credits.SumsConcat(Resolved(before, known), [Credits.Credit(known[p.recipient], amount)], id);
      Credits.SumsOfOne(Credits.Credit(known[p.recipient], amount), id);
    }
  }

  predicate AllIn(payments: seq<Credits.Payment>, known: map<Credits.Recipient, Credits.Id>) {
    forall i :: 0 <= i < |payments| ==> payments[i].recipient in known
  }

  lemma AllInParts(payments: seq<Credits.Payment>, p: Credits.Payment, known: map<Credits.Recipient, Credits.Id>)
    requires AllIn(payments + [p], known)
    ensures AllIn(payments, known) && p.recipient in known
  {
    assert (payments + [p])[|payments|] == p;
    assert forall i :: 0 <= i < |payments| ==> (payments + [p])[i] == payments[i];
  }

  lemma {:induction false} EveryRowIsKnown(stored: seq<BlockRow>, reward: nat, known: map<Credits.Recipient, Credits.Id>, n: nat)
    requires AllIn(PaymentsOf(stored, reward), known) && n < |stored| && Precalc.Credit(stored[n], reward) != 0
    ensures RecipientOf(stored[n]) in known
    decreases |stored|
  {
    hide RecipientOf;
    var last := |stored| - 1;
    var amount := Precalc.Credit(stored[last], reward);
    if amount != 0 {
      AllInParts(PaymentsOf(stored[..last], reward), Credits.Payment(RecipientOf(stored[last]), amount), known);
    } else {
      assert PaymentsOf(stored[..last], reward) + [] == PaymentsOf(stored[..last], reward);
    }
    if n < last {
      EveryRowIsKnown(stored[..last], reward, known, n);
    }
  }

  /** The rows, as payments that are then looked up. */
  method CollectPayments(stored: seq<BlockRow>, reward: nat) returns (payments: seq<Credits.Payment>)
    ensures payments == PaymentsOf(stored, reward)
  {
    payments := [];
    for i := 0 to |stored|
      invariant payments == PaymentsOf(stored[..i], reward)
    {
      assert stored[..i + 1][..i] == stored[..i];
      var amount := Precalc.Credit(stored[i], reward);
      if amount != 0 {
        payments := payments + [Credits.Payment(RecipientOf(stored[i]), amount)];
      }
    }
    assert stored[..|stored|] == stored;
  }

  lemma NothingResolved(known: map<Credits.Recipient, Credits.Id>)
    ensures Resolved([], known) == []
  {
  }

  /** The concurrent lookups, in any interleaving: each payment resolved to the balance of its recipient. */
  method LookUp(payments: seq<Credits.Payment>, lookups: Lookups) returns (resolved: seq<Credits.Credit>, known: map<Credits.Recipient, Credits.Id>)
    requires ValidLookups(lookups)
    ensures Credits.Injective(known) && Credits.Extends(lookups.ids, known)
    ensures AllIn(payments, known) && resolved == Resolved(payments, known)
  {
    hide Resolved, Credits.Extends;
    var workers := if lookups.concurrency < |payments| then lookups.concurrency else |payments|;
    var resolver := new Credits.CreditResolver(payments, workers, lookups.ids, lookups.nextId);
    var _ := resolver.Interleave(lookups.events);
    ghost var between := resolver.ids;
    resolver.AwaitAll();
    Credits.ExtendsThen(lookups.ids, between, resolver.ids);
    known := resolver.ids;
    resolved := Collected(payments, resolver.resolved, known);
  }

  /** The resolved payments, in their order. */
  method Collected(payments: seq<Credits.Payment>, found: seq<Option<Credits.Credit>>, known: map<Credits.Recipient, Credits.Id>)
    returns (resolved: seq<Credits.Credit>)
    requires |found| == |payments| && forall i :: 0 <= i < |payments| ==>
      payments[i].recipient in known && found[i] == Some(Credits.Credit(known[payments[i].recipient], payments[i].amount))
    ensures AllIn(payments, known) && resolved == Resolved(payments, known)
  {
    hide Resolved;
    resolved := [];
    NothingResolved(known);
    for i := 0 to |payments|
      invariant AllIn(payments[..i], known) && resolved == Resolved(payments[..i], known)
    {
      assert payments[..i + 1] == payments[..i] + [payments[i]];
      ResolvedSnoc(payments[..i], payments[i], known);
      resolved := resolved + [found[i].value];
    }
    assert payments[..|payments|] == payments;
  }

  // ------------------------------------------------------------------
  // The transaction
  // ------------------------------------------------------------------

  type Balances = seq<Credits.BalanceRow>

  /** What the work of the transaction leaves: the record of the paid block and the credits, or nothing when either throws. */
  function Applied(rows: Balances, credits: seq<Credits.Credit>, recordOk: bool): Option<Balances> {
    if recordOk && Credits.Affected(rows, credits) == |credits| then Some(Credits.Credited(rows, credits)) else None
  }

  /** The updates of a hundred rows at a time do just that. */
  method ApplyWork(rows: Balances, credits: seq<Credits.Credit>, recordOk: bool) returns (after: Option<Balances>)
    requires Credits.Distinct(credits) && Credits.DistinctRows(rows)
    ensures after == Applied(rows, credits, recordOk)
  {
    hide Credits.Credited, Credits.Affected;
    if !recordOk { return None; }
    var updated, _, threw := Credits.ApplyBalanceCredits(rows, credits);
    Credits.AffectedIffAllExist(rows, credits);
    after := if threw then None else Some(updated);
  }

  /**
   The credits in a transaction on a connection: aggregated, recorded and applied. Whatever fails on the way, the
   balances are as they were; when it commits, each has exactly the sum of its credits on top.
   */
  method CreditInTransaction(conn: SqlTransaction.Connection<Balances>, resolved: seq<Credits.Credit>, recordOk: bool,
                             beginOk: bool, commitOk: bool, rollbackOk: bool)
    returns (committed: bool)
    requires conn.open.None? && conn.calls == [] && Credits.DistinctRows(conn.stored)
    modifies conn
    ensures committed ==>
      && conn.stored == Credits.Credited(old(conn.stored), resolved)
      && Credits.SumRows(conn.stored) == Credits.SumRows(old(conn.stored)) + Credits.Total(resolved)
    ensures !committed ==> conn.stored == old(conn.stored)
    ensures committed ==> recordOk && beginOk && commitOk
    ensures recordOk && beginOk && commitOk && Credits.AllHaveRows(old(conn.stored), resolved) ==> committed
    ensures SqlTransaction.Rollback in conn.calls <==> beginOk && !committed
  {
    hide Credits.SumFor, Credits.Credited, Credits.HasRow, Credits.Affected, Credits.SumRows, Credits.AllHaveRows;
    var aggregated := Credits.Aggregate(resolved);
    Credits.AffectedIffAllExist(conn.stored, aggregated);
    Credits.SameCredits(conn.stored, aggregated, resolved);
    ghost var before := conn.stored;
    committed := conn.WithTransaction(rows => Applied(rows, aggregated, recordOk), beginOk, commitOk, rollbackOk);
    if committed {
      Credits.BalancesGrowByCredits(before, aggregated);
    }
  }

  // ------------------------------------------------------------------
  // The payout of a block
  // ------------------------------------------------------------------

  /** What the outside answers during a payout; `elsewhere` is by how much other balances changed meanwhile. */
  datatype Replies = Replies(
    sumBeforeOk: bool, rowsOk: bool, lookupsOk: bool, recordOk: bool, beginOk: bool, commitOk: bool, rollbackOk: bool, sumAfterOk: bool,
    elsewhere: int)

  /** Everything the lookups go by: the balances known before, how many workers there may be, and how their steps interleave. */
  datatype Lookups = Lookups(ids: map<Credits.Recipient, Credits.Id>, nextId: Credits.Id, concurrency: nat, events: seq<Credits.LookupEvent>)

  ghost predicate ValidLookups(l: Lookups) {
    Credits.Injective(l.ids) && (forall r :: r in l.ids ==> l.ids[r] < l.nextId) && l.concurrency > 0
  }

  /** Some row comes to a whole unit. */
  ghost predicate Payable(stored: seq<BlockRow>, reward: nat) {
    exists n :: 0 <= n < |stored| && (stored[n].amount * reward as real).Floor != 0
  }

  /** The balances that are to grow are in the table. */
  ghost predicate BalancesExist(before: Balances, stored: seq<BlockRow>, reward: nat, known: map<Credits.Recipient, Credits.Id>) {
    forall n :: 0 <= n < |stored| && (stored[n].amount * reward as real).Floor != 0 ==>
      RecipientOf(stored[n]) in known && Credits.HasRow(before, known[RecipientOf(stored[n])])
  }

  datatype Outcome = Outcome(credited: bool, paid: bool, fullStop: bool, threw: bool)

  /** How a payout of stored rows can end, and when. */
  ghost predicate Ends(o: Outcome, before: Balances, after: Balances, stored: seq<BlockRow>, reward: nat,
                       known: map<Credits.Recipient, Credits.Id>, replies: Replies)
  {
    var total := Precalc.SumCredits(stored, reward);
    var asked := replies.sumBeforeOk && replies.rowsOk && (Payable(stored, reward) ==> replies.lookupsOk);
    var done := replies.recordOk && replies.beginOk && replies.commitOk;
    && (o.threw <==> replies.sumBeforeOk && (!replies.rowsOk || (Payable(stored, reward) && !replies.lookupsOk)))
    && (o.credited ==> asked && total != 0 && done && Grown(before, after, stored, reward, known))
    && (o.credited ==> Credits.SumRows(after) == Credits.SumRows(before) + total)
    && (!o.credited ==> after == before)
    && (asked && total != 0 && done && BalancesExist(before, stored, reward, known) ==> o.credited)
    && (o.paid <==> o.credited && replies.sumAfterOk && total + replies.elsewhere != 0)
    && (o.fullStop <==> !replies.sumBeforeOk || (asked && stored != [] && total == 0) || (o.credited && !o.paid))
  }

  /**
   Every row that comes to anything has a balance, every balance grew by exactly what the stored rows of its recipient
   come to, and no balance is anybody else's.
   */
  ghost predicate Grown(before: Balances, after: Balances, stored: seq<BlockRow>, reward: nat, known: map<Credits.Recipient, Credits.Id>) {
    && Credits.Injective(known)
    && (forall n :: 0 <= n < |stored| && (stored[n].amount * reward as real).Floor != 0 ==> RecipientOf(stored[n]) in known)
    && |after| == |before|
    && forall i :: 0 <= i < |before| ==>
         after[i].id == before[i].id && after[i].amount == before[i].amount + Growth(stored, reward, known, before[i].id)
  }

  /**
   Pays the stored rows of a block: each balance grows by the whole units of its recipient's rows, or nothing changes.
   A payout that was credited and is not reported paid stops the manager, so that nothing is paid again after it.
   */
  method DoPplnsPayments(stored: seq<BlockRow>, reward: nat, lookups: Lookups, conn: SqlTransaction.Connection<Balances>, replies: Replies)
    returns (o: Outcome, known: map<Credits.Recipient, Credits.Id>)
    requires ValidLookups(lookups)
    requires conn.open.None? && conn.calls == [] && Credits.DistinctRows(conn.stored)
    modifies conn
    ensures Credits.Extends(lookups.ids, known)
    ensures Ends(o, old(conn.stored), conn.stored, stored, reward, known, replies)
  {
    hide Credits.SumRows, Credits.Total, Precalc.SumCredits, Growth, Resolved, PaymentsOf, Payable, Credits.HasRow, Credits.AllHaveRows, RecipientOf;
    known := lookups.ids;
    Credits.ExtendsSelf(known);
    var none := Outcome(false, false, false, false);
    if !replies.sumBeforeOk { return none.(fullStop := true), known; }
    if !replies.rowsOk { return none.(threw := true), known; }
    NoRows(reward);
    if stored == [] { return none, known; }
    var payments := CollectPayments(stored, reward);
    PayableIff(stored, reward);
    if payments != [] && !replies.lookupsOk { return none.(threw := true), known; }
    var resolved;
    resolved, known := LookUp(payments, lookups);
    CreditsAre(conn.stored, stored, reward, known);
    var total := Credits.TotalOf(resolved);
    if total == 0 { return none.(fullStop := true), known; }
    var credited := CreditInTransaction(conn, resolved, replies.recordOk, replies.beginOk, replies.commitOk, replies.rollbackOk);
    if !credited { return none, known; }
    if !replies.sumAfterOk { return Outcome(true, false, true, false), known; }
    // the sums before and after are compared: they differ by the credits and by what changed elsewhere
    var paid := total + replies.elsewhere != 0;
    o := Outcome(true, paid, !paid, false);
  }

  lemma NoRows(reward: nat)
    ensures !Payable([], reward) && Precalc.SumCredits([], reward) == 0
  {
  }

  lemma {:induction false} PayableIff(stored: seq<BlockRow>, reward: nat)
    ensures Payable(stored, reward) <==> PaymentsOf(stored, reward) != []
    decreases |stored|
  {
    hide RecipientOf, Payable, Precalc.Credit;
    if stored == [] {
      NoRows(reward);
    } else {
      var last := |stored| - 1;
      PayableIff(stored[..last], reward);
      assert stored == stored[..last] + [stored[last]];
      PayableSnoc(stored[..last], stored[last], reward);
    }
  }

  lemma PayableSnoc(stored: seq<BlockRow>, row: BlockRow, reward: nat)
    ensures Payable(stored + [row], reward) <==> Payable(stored, reward) || Precalc.Credit(row, reward) != 0
  {
    var more := stored + [row];
    if Payable(stored, reward) {
      var n :| 0 <= n < |stored| && (stored[n].amount * reward as real).Floor != 0;
      assert more[n] == stored[n];
    }
    assert more[|stored|] == row;
  }

  /** What the credits of the rows come to, and for whom. */
  lemma CreditsAre(rows: Balances, stored: seq<BlockRow>, reward: nat, known: map<Credits.Recipient, Credits.Id>)
    requires AllIn(PaymentsOf(stored, reward), known)
    ensures var resolved := Resolved(PaymentsOf(stored, reward), known);
      && (forall id :: Credits.SumFor(resolved, id) == Growth(stored, reward, known, id))
      && Credits.Total(resolved) == Precalc.SumCredits(stored, reward)
      && (BalancesExist(rows, stored, reward, known) ==> Credits.AllHaveRows(rows, resolved))
    ensures forall n :: 0 <= n < |stored| && (stored[n].amount * reward as real).Floor != 0 ==> RecipientOf(stored[n]) in known
  {
    hide Credits.Total, Precalc.SumCredits, Growth, Resolved, PaymentsOf, Credits.HasRow, Credits.AllHaveRows, RecipientOf, BalancesExist, Credits.SumFor;
    forall id
      ensures Credits.SumFor(Resolved(PaymentsOf(stored, reward), known), id) == Growth(stored, reward, known, id)
    {
      ResolvedGrowth(stored, reward, known, id);
    }
    ResolvedGrowth(stored, reward, known, 0);
    if BalancesExist(rows, stored, reward, known) {
      ResolvedHaveRows(rows, stored, reward, known);
    }
    forall n | 0 <= n < |stored| && (stored[n].amount * reward as real).Floor != 0
      ensures RecipientOf(stored[n]) in known
    {
      EveryRowIsKnown(stored, reward, known, n);
    }
  }

  lemma NoRowNeeded(rows: Balances)
    ensures Credits.AllHaveRows(rows, [])
  {
  }

  lemma OneMoreRow(rows: Balances, credits: seq<Credits.Credit>, c: Credits.Credit)
    requires Credits.AllHaveRows(rows, credits) && Credits.HasRow(rows, c.id)
    ensures Credits.AllHaveRows(rows, credits + [c])
  {
    hide Credits.HasRow;
  }

  lemma {:induction false} ResolvedHaveRows(rows: Balances, stored: seq<BlockRow>, reward: nat, known: map<Credits.Recipient, Credits.Id>)
    requires AllIn(PaymentsOf(stored, reward), known) && BalancesExist(rows, stored, reward, known)
    ensures Credits.AllHaveRows(rows, Resolved(PaymentsOf(stored, reward), known))
    decreases |stored|
  {
    hide RecipientOf, Credits.HasRow, Precalc.SumCredits, Resolved, Credits.AllHaveRows;
    if stored == [] {
      NothingResolved(known);
      NoRowNeeded(rows);
    } else {
      var last := |stored| - 1;
      var amount := Precalc.Credit(stored[last], reward);
      var before := PaymentsOf(stored[..last], reward);
      assert BalancesExist(rows, stored[..last], reward, known) by {
        assert forall n :: 0 <= n < last ==> stored[..last][n] == stored[n];
      }
      if amount != 0 {
        var p := Credits.Payment(RecipientOf(stored[last]), amount);
        AllInParts(before, p, known);
        ResolvedHaveRows(rows, stored[..last], reward, known);
        ResolvedSnoc(before, p, known);
        assert Credits.HasRow(rows, known[p.recipient]);
        OneMoreRow(rows, Resolved(before, known), Credits.Credit(known[p.recipient], amount));
      } else {
        assert before + [] == before;
        ResolvedHaveRows(rows, stored[..last], reward, known);
      }
    }
  }

  /** The bounds hold at whichever height the precalculation found work. */
  lemma {:induction false} PrecalculatedMatchesReward(cfg: Config, window: real, db: ShareDb, height: nat, topHeights: seq<Option<nat>>,
                                                      reward: nat)
    requires ValidFees(cfg) && window > 0.0
    ensures var stored := Precalc.Precalculated(cfg, window, db, height, topHeights);
      stored.Some? ==>
        && stored.value != []
        && Precalc.SumCredits(stored.value, reward) <= reward
        && Precalc.SumCredits(stored.value, reward) as real > 0.9999 * reward as real - |stored.value| as real
    decreases |topHeights|
  {
    hide Precalc.StoredRows, Precalc.SumCredits, WorkBetween;
    Precalc.CreditsMatchReward(cfg, window, db, height, reward);
    if Precalc.StoredRows(cfg, window, db, height).None? && topHeights != [] && topHeights[0].Some? && topHeights[0].value != height {
      PrecalculatedMatchesReward(cfg, window, db, topHeights[0].value, topHeights[1..], reward);
    }
  }

  /**
   From shares to balances, with the retries of the precalculation: a credited payout raises the sum of all balances by
   at most the reward, and by more than 0.9999 of it less one unit per stored row; any other outcome leaves every
   balance as it was. Without any work nothing is stored, and nothing is paid.
   */
  method PayBlock(cfg: Config, window: real, db: ShareDb, height: nat, topHeights: seq<Option<nat>>, reward: nat,
                  lookups: Lookups, conn: SqlTransaction.Connection<Balances>, replies: Replies)
    returns (o: Outcome, known: map<Credits.Recipient, Credits.Id>)
    requires ValidFees(cfg) && window > 0.0 && ValidLookups(lookups)
    requires conn.open.None? && conn.calls == [] && Credits.DistinctRows(conn.stored)
    modifies conn
    ensures Credits.Extends(lookups.ids, known)
    ensures var rows := Precalc.Precalculated(cfg, window, db, height, topHeights);
      if rows.None? then o == Outcome(false, false, false, false) && conn.stored == old(conn.stored)
      else
        && Ends(o, old(conn.stored), conn.stored, rows.value, reward, known, replies)
        && (o.credited ==>
              var growth := Credits.SumRows(conn.stored) - Credits.SumRows(old(conn.stored));
              growth <= reward && growth as real > 0.9999 * reward as real - |rows.value| as real)
    ensures o.credited ==> o.paid || o.fullStop
  {
    hide Precalc.Precalculated, Precalc.SumCredits, Credits.SumRows, WorkBetween, Grown, Payable, BalancesExist;
    PrecalculatedMatchesReward(cfg, window, db, height, topHeights, reward);
    var stored := Precalc.PreCalculatePPLNSPayments(cfg, window, db, height, topHeights);
    if stored.None? {
      Credits.ExtendsSelf(lookups.ids);
      return Outcome(false, false, false, false), lookups.ids;
    }
    o, known := DoPplnsPayments(stored.value, reward, lookups, conn, replies);
  }

  // ------------------------------------------------------------------
  // From shares to one balance
  // ------------------------------------------------------------------

  /** The rows of a payout at the height where work was found. */
  lemma {:induction false} FoundAtSomeHeight(cfg: Config, window: real, db: ShareDb, height: nat, topHeights: seq<Option<nat>>) returns (h: nat)
    requires window > 0.0 && Precalc.Precalculated(cfg, window, db, height, topHeights).Some?
    ensures h == height || Some(h) in topHeights
    ensures Precalc.StoredRows(cfg, window, db, h) == Precalc.Precalculated(cfg, window, db, height, topHeights)
    decreases |topHeights|
  {
    hide Precalc.StoredRows;
    if Precalc.StoredRows(cfg, window, db, height).Some? {
      h := height;
    } else {
      h := FoundAtSomeHeight(cfg, window, db, topHeights[0].value, topHeights[1..]);
    }
  }

  /**
   A recipient's one stored row, from its shares: what fits the window of its pieces, as a fraction of the window that
   was paid.
   */
  lemma RowFromShares(cfg: Config, window: real, db: ShareDb, height: nat, topHeights: seq<Option<nat>>, n: nat) returns (h: nat)
    requires ValidFees(cfg) && window > 0.0 && Precalc.Precalculated(cfg, window, db, height, topHeights).Some?
    requires n < |Precalc.Precalculated(cfg, window, db, height, topHeights).value|
    ensures h == height || Some(h) in topHeights
    ensures var row := Precalc.Precalculated(cfg, window, db, height, topHeights).value[n];
      var final := Recipients.FinalWindow(Min(window, WorkBetween(db, 1, h)), window);
      && final > 0.0
      && row.amount == Recipients.Fill(Recipients.Pieces(cfg, db, h), window, Recipients.KeyOf(row.address, row.paymentId)) / final
  {
    hide Precalc.StoredRows, Precalc.Precalculated, WorkBetween, Recipients.Fill, Recipients.Pieces, Recipients.FinalWindow;
    h := FoundAtSomeHeight(cfg, window, db, height, topHeights);
    Recipients.StoredIsOwed(cfg, window, db, h);
  }
}
