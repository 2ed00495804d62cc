/**
 What the payment-batch machine guarantees over whole runs: at most one
 wallet transfer per batch, guarded writes without the stale-view problem,
 disjoint reservations, and payouts that never exceed what was credited.
 */
module PaymentSafety {
  import opened Wrappers
  import opened PaymentBatches

  function Start(): World {
    World([], map[], [], map[], {}, [], map[], map[])
  }

  lemma StartConsistent()
    ensures Consistent(Start())
  {
  }

  /** What holds of batches and balances after every run, whoever took the steps. */
  ghost predicate Safe(w: World) {
    // the wallet is asked at most once per batch, and only for batches past the submit boundary or taken back by an operator
    && (forall j, k :: 0 <= j < k < |w.sent| ==> w.sent[j] != w.sent[k])
    && (forall k :: 0 <= k < |w.sent| ==>
          w.sent[k] < |w.batches| && (Crossed(w.batches[w.sent[k]].status) || w.sent[k] in w.unlocked))
    // no balance is reserved for two batches
    && (forall i, j, id :: 0 <= i < j < |w.batches| && InFlight(w.batches[i].status) && InFlight(w.batches[j].status) ==>
          !(id in w.batches[i].items && id in w.batches[j].items))
    // a final payment has one transaction row, and a transaction row one final payment
    && |w.transactions| == Finals(w.batches)
    // what was credited is in the balance or was paid
    && (forall id :: id in w.credited ==> id in w.balances && w.credited[id] == w.balances[id].amount + Paid(w.batches, id))
  }

  function Finals(batches: seq<Batch>): nat {
    if batches == [] then 0
    else Finals(batches[..|batches| - 1]) + if batches[|batches| - 1].status.Finalized? then 1 else 0
  }

  ghost function FinalIds(batches: seq<Batch>): set<BatchId> {
    set i | 0 <= i < |batches| && batches[i].status.Finalized?
  }

  lemma {:induction false} FinalsCount(batches: seq<Batch>)
    ensures |FinalIds(batches)| == Finals(batches)
  {
    if batches != [] {
      var n := |batches| - 1;
      FinalsCount(batches[..n]);
      if batches[n].status.Finalized? {
        assert FinalIds(batches) == FinalIds(batches[..n]) + {n};
      } else {
        assert FinalIds(batches) == FinalIds(batches[..n]);
      }
    }
  }

  ghost function Elements(s: seq<BatchId>): set<BatchId> {
    set k | 0 <= k < |s| :: s[k]
  }

  lemma {:induction false} DistinctCount(s: seq<BatchId>)
    requires forall j, k :: 0 <= j < k < |s| ==> s[j] != s[k]
    ensures |Elements(s)| == |s|
  {
    if s != [] {
      var n := |s| - 1;
      DistinctCount(s[..n]);
      assert s[n] !in Elements(s[..n]);
      assert Elements(s) == Elements(s[..n]) + {s[n]};
    }
  }

  lemma TransactionsCount(w: World)
    requires RowsOk(w.batches) && Booked(w.batches, w.transactions)
    ensures |w.transactions| == Finals(w.batches)
  {
    FinalsCount(w.batches);
    DistinctCount(w.transactions);
    assert Elements(w.transactions) == FinalIds(w.batches);
  }

  lemma ConsistentIsSafe(w: World)
    requires Consistent(w)
    ensures Safe(w)
  {
    hide Finals, Paid, RowOk, Crossed, InFlight;
    TransactionsCount(w);
    assert forall k :: 0 <= k < |w.sent| ==> w.sent[k] in w.claimed;
    forall i, j, id | 0 <= i < j < |w.batches| && InFlight(w.batches[i].status) && InFlight(w.batches[j].status) && id in w.batches[i].items
      ensures id !in w.batches[j].items
    {
      assert w.balances[id].pending == Some(i);
    }
  }

  /** Every run from empty tables, by any interleaving of processes, is safe. */
  lemma EveryRunIsSafe(steps: seq<Step>)
    requires Lawful(Start(), steps)
    ensures Safe(Run(Start(), steps))
  {
    hide Safe, Consistent, Run;
    StartConsistent();
    RunKeeps(Start(), steps);
    ConsistentIsSafe(Run(Start(), steps));
  }

  /**
   A guarded write compares only the status, and that is enough: if the row has the status a process saw at any
   earlier time, it was not changed in between in anything that decides about money.
   */
  lemma SameStatusSameRow(w: World, steps: seq<Step>, i: BatchId)
    requires Consistent(w) && Lawful(w, steps) && i < |w.batches|
    ensures i < |Run(w, steps).batches|
    ensures var before, after := w.batches[i], Run(w, steps).batches[i];
      before.status == after.status ==> before.(txKey := after.txKey) == after
  {
    hide Run, RowsOk, Pinned, Booked, Conserved, ClaimsKnown, SentOnce;
    RunKeeps(w, steps);
    assert RowEvolves(w.batches[i], Run(w, steps).batches[i]);
  }

  /** A batch past the submit boundary never becomes eligible for submission again, and one with a transfer is never released. */
  lemma NeverReopened(w: World, steps: seq<Step>, i: BatchId)
    requires Consistent(w) && Lawful(w, steps) && i < |w.batches| && Crossed(w.batches[i].status)
    ensures i < |Run(w, steps).batches|
    ensures var before, after := w.batches[i], Run(w, steps).batches[i];
      && !after.status.Reserved? && !after.status.Retrying?
      && (before.status.Submitted? ==> !after.status.Retryable? && after.txHash == before.txHash)
      && (before.status.Finalized? || before.status.ManualReview? ==> after.(txKey := before.txKey) == before)
      && (after.status.Retryable? ==> i in Run(w, steps).unlocked)
  {
    hide Run, Pinned, Booked, Conserved, SentOnce;
    RunKeeps(w, steps);
    assert RowEvolves(w.batches[i], Run(w, steps).batches[i]);
    assert i in w.claimed;
  }

  // ------------------------------------------------------------------
  // Payouts never exceed credits
  // ------------------------------------------------------------------

  /** No balance is negative, and a batch in flight takes no more than is there. */
  ghost predicate Solvent(w: World) {
    && (forall id :: id in w.balances ==> w.balances[id].amount >= 0)
    && (forall i, id :: 0 <= i < |w.batches| && InFlight(w.batches[i].status) && id in w.batches[i].items && id in w.balances ==>
          w.batches[i].items[id] <= w.balances[id].amount)
  }

  /** A reservation takes no more than the balance holds when it is made: the plan is still current. */
  predicate Fresh(w: World, s: Step) {
    s.Reserve? ==> forall id :: id in s.items && id in w.balances ==> s.items[id] <= w.balances[id].amount
  }

  ghost predicate AllFresh(w: World, steps: seq<Step>)
    decreases |steps|
  {
    steps == [] || (Fresh(w, steps[0]) && AllFresh(Next(w, steps[0]), steps[1..]))
  }

  lemma SolventRow(w: World, s: Step)
    requires Consistent(w) && Solvent(w) && Allowed(w, s) && Applies(w, s)
    requires s.HoldForRetry? || s.Claim? || s.Persist? || s.Escalate? || s.Release? || s.Unlock?
    ensures Solvent(Next(w, s))
  {
    hide Paid, RowOk, Pinned, Booked, Conserved, ClaimsKnown, SentOnce, RowsOk, Allowed, Applies, Written, InFlight;
    WrittenEvolves(w, s, 0);
    if s.Release? || s.Unlock? {
      ReleaseStatus(w, s);
    } else {
      RowStatus(w, s);
    }
  }

  lemma SolventFinalize(w: World, s: Step)
    requires Consistent(w) && Solvent(w) && Allowed(w, s) && Applies(w, s) && s.Finalize?
    ensures Solvent(Next(w, s))
  {
    hide Paid, RowOk, Booked, Conserved, ClaimsKnown, SentOnce, RowsOk, Allowed, Written, InFlight;
    FinalizeStatus(w, s);
  }

  lemma SolventStep(w: World, s: Step)
    requires Consistent(w) && Solvent(w) && Allowed(w, s) && Fresh(w, s)
    ensures Solvent(Next(w, s))
  {
    hide Paid, RowOk, Booked, Conserved, ClaimsKnown, SentOnce, RowsOk, Allowed, Written, InFlight, Pinned;
    if Applies(w, s) {
      match s
      case Credit(id, amount) => SolventCredit(w, id, amount);
      case Reserve(items, fee) => SolventReserve(w, items, fee);
      case Send(_, _) =>
      case Finalize(_, _, _, _, _) => SolventFinalize(w, s);
      case _ => SolventRow(w, s);
    }
  }

  lemma SolventCredit(w: World, id: BalanceId, amount: nat)
    requires Consistent(w) && Solvent(w)
    ensures Solvent(Next(w, Credit(id, amount)))
  {
    hide Paid, RowOk, Booked, Conserved, ClaimsKnown, SentOnce, RowsOk, InFlight;
  }

  /** A reservation leaves the balances solvent if and only if its plan is current. */
  lemma SolventReserve(w: World, items: map<BalanceId, nat>, fee: int)
    requires Consistent(w) && Solvent(w) && Applies(w, Reserve(items, fee))
    ensures Solvent(Next(w, Reserve(items, fee))) <==> Fresh(w, Reserve(items, fee))
  {
    hide Paid, RowOk, Booked, Conserved, ClaimsKnown, SentOnce, RowsOk, Pinned;
    var v := Next(w, Reserve(items, fee));
    assert v.batches[|w.batches|] == NewBatch(items, fee);
    assert forall id :: id in w.balances ==> v.balances[id].amount == w.balances[id].amount;
  }

  function CreditsTo(steps: seq<Step>, id: BalanceId): nat {
    if steps == [] then 0
    else (if steps[0].Credit? && steps[0].balance == id then steps[0].amount else 0) + CreditsTo(steps[1..], id)
  }

  lemma PinnedStep(w: World, s: Step, i: BatchId, id: BalanceId)
    requires Consistent(w) && Allowed(w, s) && i < |w.batches| && id in w.batches[i].items
    requires InFlight(w.batches[i].status) && i < |Next(w, s).batches| && InFlight(Next(w, s).batches[i].status)
    ensures id in w.balances && id in Next(w, s).balances
    ensures Next(w, s).balances[id].amount == w.balances[id].amount + CreditsTo([s], id)
  {
    hide RowsOk, Booked, Conserved, ClaimsKnown, SentOnce, Paid, InFlight, Allowed, Current;
    assert w.balances[id].pending == Some(i);
    assert [s][1..] == [];
    if s.Finalize? && s.id == i && Applies(w, s) {
      NotInFlight(w, s);
      assert false;
    }
  }

  lemma NotInFlight(w: World, s: Step)
    requires s.Finalize? && Applies(w, s)
    ensures s.id < |Next(w, s).batches| && !InFlight(Next(w, s).batches[s.id].status)
  {
  }

  /** While a batch is in flight, what its balances hold changes by credits only, whoever does what meanwhile. */
  lemma {:induction false} PinnedHolds(w: World, steps: seq<Step>, i: BatchId, id: BalanceId)
    requires Consistent(w) && Lawful(w, steps) && i < |w.batches| && id in w.batches[i].items && InFlight(w.batches[i].status)
    requires i < |Run(w, steps).batches| && InFlight(Run(w, steps).batches[i].status)
    ensures id in w.balances && id in Run(w, steps).balances && Run(w, steps).batches[i].items == w.batches[i].items
    ensures Run(w, steps).balances[id].amount == w.balances[id].amount + CreditsTo(steps, id)
    decreases |steps|
  {
    hide Next, Allowed, RowsOk, Booked, Conserved, ClaimsKnown, SentOnce;
    if steps != [] {
      var v := Next(w, steps[0]);
      StepKeeps(w, steps[0]);
      RunKeeps(v, steps[1..]);
      assert RowEvolves(w.batches[i], v.batches[i]) && RowEvolves(v.batches[i], Run(v, steps[1..]).batches[i]);
      PinnedStep(w, steps[0], i, id);
      PinnedHolds(v, steps[1..], i, id);
      assert [steps[0]][1..] == [];
    }
  }

  /**
   When a batch overdraws a balance: exactly when its item exceeds what the balance held at any time since the
   reservation together with what was credited after that.
   */
  lemma FinalizeOverdrawsIff(w: World, steps: seq<Step>, s: Step, id: BalanceId)
    requires Consistent(w) && Lawful(w, steps) && s.Finalize?
    requires s.id < |w.batches| && id in w.batches[s.id].items && InFlight(w.batches[s.id].status)
    requires Allowed(Run(w, steps), s) && Applies(Run(w, steps), s)
    ensures id in w.balances && id in Next(Run(w, steps), s).balances
    ensures Next(Run(w, steps), s).balances[id].amount < 0 <==>
      w.batches[s.id].items[id] > w.balances[id].amount + CreditsTo(steps, id)
  {
    hide Run, RowsOk, Booked, Conserved, ClaimsKnown, SentOnce, Pinned, Written;
    RunKeeps(w, steps);
    var v := Run(w, steps);
    assert InFlight(v.batches[s.id].status);
    PinnedHolds(w, steps, s.id, id);
    assert v.balances[id].pending == Some(s.id);
  }

  /** No step takes anything from this balance. */
  ghost predicate Spared(w: World, steps: seq<Step>, id: BalanceId)
    decreases |steps|
  {
    steps == [] ||
    (&& (steps[0].Finalize? && steps[0].id < |w.batches| ==> id !in w.batches[steps[0].id].items)
     && Spared(Next(w, steps[0]), steps[1..], id))
  }

  /**
   A plan stays current as long as nobody finalises a batch of one of its balances: while a runtime is alone, the
   batches it submits between planning and reserving are of other balances, and credits only add.
   */
  lemma {:induction false} PlanStaysCurrent(w: World, steps: seq<Step>, id: BalanceId)
    requires id in w.balances && Spared(w, steps, id)
    ensures id in Run(w, steps).balances && Run(w, steps).balances[id].amount >= w.balances[id].amount
    decreases |steps|
  {
    hide Next;
    if steps != [] {
      SparedStep(w, steps[0], id);
      PlanStaysCurrent(Next(w, steps[0]), steps[1..], id);
    }
  }

  lemma SparedStep(w: World, s: Step, id: BalanceId)
    requires id in w.balances && (s.Finalize? && s.id < |w.batches| ==> id !in w.batches[s.id].items)
    ensures id in Next(w, s).balances && Next(w, s).balances[id].amount >= w.balances[id].amount
  {
  }

  lemma {:induction false} SolventRun(w: World, steps: seq<Step>)
    requires Consistent(w) && Solvent(w) && Lawful(w, steps) && AllFresh(w, steps)
    ensures Solvent(Run(w, steps))
    decreases |steps|
  {
    hide Consistent, Solvent, Allowed, Fresh, Next;
    if steps != [] {
      SolventStep(w, steps[0]);
      StepKeeps(w, steps[0]);
      SolventRun(Next(w, steps[0]), steps[1..]);
    }
  }

  /** Beyond what is paid, a balance is claimed by at most the one batch it is pinned to. */
  lemma {:induction false} OutgoingIsPaidOrPinned(w: World, n: nat, id: BalanceId)
    requires Consistent(w) && n <= |w.batches| && id in w.balances
    ensures var pin := w.balances[id].pending;
      Outgoing(w.batches[..n], id) <=
        Paid(w.batches[..n], id) + if pin.Some? && pin.value < n then GrossOf(w.batches[pin.value], id) else 0
  {
    hide RowOk, Booked, Conserved, ClaimsKnown, SentOnce, RowsOk;
    if n > 0 {
      OutgoingIsPaidOrPinned(w, n - 1, id);
      assert w.batches[..n][..n - 1] == w.batches[..n - 1];
    }
  }

  /**
   If every reservation is made from a current plan, no balance goes negative, and what is sent out of a balance
   by all batches that were not taken back never exceeds what was credited to it.
   */
  lemma PayoutsWithinCredits(steps: seq<Step>, id: BalanceId)
    requires Lawful(Start(), steps) && AllFresh(Start(), steps)
    ensures var w := Run(Start(), steps);
      id in w.balances ==> id in w.credited && w.balances[id].amount >= 0 && Outgoing(w.batches, id) <= w.credited[id]
  {
    hide Run, Outgoing, Paid, RowsOk, Booked, SentOnce;
    var w := Run(Start(), steps);
    StartConsistent();
    RunKeeps(Start(), steps);
    SolventRun(Start(), steps);
    if id in w.balances {
      OutgoingIsPaidOrPinned(w, |w.batches|, id);
      assert w.batches[..|w.batches|] == w.batches;
    }
  }

  // ------------------------------------------------------------------
  // Why the plan must be current
  // ------------------------------------------------------------------

  /** Paying balance 0 through one batch, by a process of its own. */
  function PayOnce(batch: BatchId, amount: nat): seq<Step> {
    [Reserve(map[0 := amount], 20), Claim(batch, batch, Reserved), Send(batch, batch),
     Persist(batch, Submitting, 1, Some(2), 20), Finalize(batch, Submitted, Some(1), Some(2), 20)]
  }

  lemma {:induction false} RunConcat(w: World, a: seq<Step>, b: seq<Step>)
    ensures Run(w, a + b) == Run(Run(w, a), b)
    ensures Lawful(w, a) && Lawful(Run(w, a), b) ==> Lawful(w, a + b)
    decreases |a|
  {
    hide Next, Allowed;
    if a == [] {
      assert [] + b == b;
    } else {
      assert (a + b)[1..] == a[1..] + b;
      RunConcat(Next(w, a[0]), a[1..], b);
    }
  }

  lemma RunOne(w: World, s: Step, rest: seq<Step>)
    ensures Run(w, [s] + rest) == Run(Next(w, s), rest)
    ensures Allowed(w, s) && Lawful(Next(w, s), rest) ==> Lawful(w, [s] + rest)
  {
    hide Next, Allowed;
    assert ([s] + rest)[1..] == rest;
  }

  /** The only balance is free and holds this much, and nothing is known of the next two batches. */
  predicate FreeBalance(w: World, n: nat, amount: int) {
    && w.balances == map[0 := Balance(amount, None)]
    && |w.batches| == n && w.holding == map[]
    && (forall i :: i in w.claimed ==> i < n)
    && (forall i :: i in w.sent ==> i < n)
  }

  /** The balance is pinned to the last batch, which has this status. */
  predicate PinnedBalance(w: World, n: nat, held: int, b: Batch) {
    && w.balances == map[0 := Balance(held, Some(n))]
    && |w.batches| == n + 1 && w.batches[n] == b
    && w.holding == (if b.status.Reserved? then map[] else map[n := n])
    && (forall i :: i in w.claimed ==> i < n || (i == n && b.status != Reserved))
    && (forall i :: i in w.sent ==> i < n)
  }

  lemma PayReserve(w: World, n: nat, held: int, amount: nat)
    requires FreeBalance(w, n, held)
    ensures PinnedBalance(Next(w, Reserve(map[0 := amount], 20)), n, held, NewBatch(map[0 := amount], 20))
  {
    assert 0 in map[0 := amount];
  }

  lemma PayClaimSend(w: World, n: nat, held: int, amount: nat)
    requires PinnedBalance(w, n, held, NewBatch(map[0 := amount], 20))
    ensures var v := Next(w, Claim(n, n, Reserved));
      && PinnedBalance(v, n, held, NewBatch(map[0 := amount], 20).(status := Submitting, submitStartedAt := true))
      && Allowed(w, Claim(n, n, Reserved)) && Allowed(v, Send(n, n)) && v.holding == map[n := n]
  {
  }

  lemma PayPersist(w: World, n: nat, b: Batch)
    requires |w.batches| == n + 1 && w.batches[n] == b && b.status.Submitting? && !b.finalizedAt && b.transactionId.None?
    ensures Next(w, Persist(n, Submitting, 1, Some(2), 20)) ==
      w.(batches := w.batches[n := b.(status := Submitted, submittedAt := true, txHash := Some(1), txKey := Some(2), totalFee := 20)])
  {
  }

  lemma PayFinalize(w: World, n: nat, held: int, amount: nat)
    requires w.balances == map[0 := Balance(held, Some(n))] && |w.batches| == n + 1
    requires w.batches[n].status.Submitted? && w.batches[n].items == map[0 := amount] && w.batches[n].txHash == Some(1)
    requires w.batches[n].totalFee == 20 && !w.batches[n].finalizedAt && w.batches[n].transactionId.None?
    ensures var s := Finalize(n, Submitted, Some(1), Some(2), 20);
      && Allowed(w, s) && Next(w, s).balances == map[0 := Balance(held - amount, None)]
      && |Next(w, s).batches| == n + 1 && Next(w, s).claimed == w.claimed && Next(w, s).sent == w.sent && Next(w, s).holding == w.holding
  {
    hide Written;
  }

  lemma PaySettle(w: World, n: nat, held: int, amount: nat)
    requires w.balances == map[0 := Balance(held, Some(n))]
    requires |w.batches| == n + 1
    requires w.batches[n] == NewBatch(map[0 := amount], 20).(status := Submitting, submitStartedAt := true)
    ensures var v := Next(w, Persist(n, Submitting, 1, Some(2), 20));
      var s := Finalize(n, Submitted, Some(1), Some(2), 20);
      && Allowed(v, s) && Next(v, s).balances == map[0 := Balance(held - amount, None)]
      && |Next(v, s).batches| == n + 1 && Next(v, s).claimed == w.claimed && Next(v, s).sent == w.sent && Next(v, s).holding == w.holding
  {
    hide Next, Allowed, Applies;
    PayPersist(w, n, w.batches[n]);
    PayFinalize(Next(w, Persist(n, Submitting, 1, Some(2), 20)), n, held, amount);
  }

  /** A whole payment goes through, whatever the balance holds. */
  lemma PaidOnce(w: World, n: nat, held: int, amount: nat)
    requires FreeBalance(w, n, held)
    ensures Lawful(w, PayOnce(n, amount)) && FreeBalance(Run(w, PayOnce(n, amount)), n + 1, held - amount)
  {
    hide Run, Lawful, Written, Applies;
    var s := PayOnce(n, amount);
    PayReserve(w, n, held, amount);
    var w1 := Next(w, s[0]);
    PayClaimSend(w1, n, held, amount);
    var w2 := Next(w1, s[1]);
    var w3 := SendOf(w2, n);
    PaySettle(w3, n, held, amount);
    var w4 := Next(w3, s[3]);
    RunNone(Next(w4, s[4]));
    RunOne(w4, s[4], []);
    RunOne(w3, s[3], [s[4]]);
    RunOne(w2, s[2], [s[3], s[4]]);
    RunOne(w1, s[1], [s[2], s[3], s[4]]);
    RunOne(w, s[0], [s[1], s[2], s[3], s[4]]);
    assert [s[4]] + [] == [s[4]] && [s[3]] + [s[4]] == [s[3], s[4]] && [s[2]] + [s[3], s[4]] == [s[2], s[3], s[4]];
    assert [s[1]] + [s[2], s[3], s[4]] == [s[1], s[2], s[3], s[4]];
    assert [s[0]] + [s[1], s[2], s[3], s[4]] == s;
    assert Allowed(w, s[0]) && Allowed(w1, s[1]) && Allowed(w2, s[2]) && Allowed(w3, s[3]);
    assert Lawful(w, s);
    assert Run(w, s) == Next(w4, s[4]);
    assert w2.claimed == w1.claimed + {n};
  }

  function SendOf(w: World, id: BatchId): (v: World)
    ensures v == Next(w, Send(id, id)) && v == w.(sent := w.sent + [id], holding := w.holding - {id})
  {
    w.(sent := w.sent + [id], holding := w.holding - {id})
  }

  lemma RunNone(w: World)
    ensures Run(w, []) == w && Lawful(w, [])
  {
  }

  /**
   The plan must be current: a runtime that made its plan before another one paid, and reserves after that,
   pays the balance a second time.
   */
  lemma StalePlanOverdraws()
    ensures var steps := [Credit(0, 10)] + (PayOnce(0, 10) + PayOnce(1, 10));
      Lawful(Start(), steps) && Run(Start(), steps).balances == map[0 := Balance(-10, None)]
  {
    hide Run, Lawful;
    var w := Next(Start(), Credit(0, 10));
    assert FreeBalance(w, 0, 10);
    PaidOnce(w, 0, 10, 10);
    PaidOnce(Run(w, PayOnce(0, 10)), 1, 0, 10);
    RunConcat(w, PayOnce(0, 10), PayOnce(1, 10));
    RunOne(Start(), Credit(0, 10), PayOnce(0, 10) + PayOnce(1, 10));
  }
}
