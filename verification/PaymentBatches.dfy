/**
 The durable payment-batch state machine: payment batches, the balance rows
 they pin, and the guarded SQL writes through which every process moves them.

 A step is one atomic write. Its guard is the WHERE clause of the statement,
 or the affected-row check of the transaction; a write whose guard fails
 changes nothing. Steps may come in any order from any number of payment
 runtimes, stale ones included, from the operator's unlock and from the block
 manager's credits, so what every step keeps holds in every interleaving.
 */
module PaymentBatches {
  import opened Wrappers

  type BatchId = nat
  type BalanceId = nat
  type Hash = nat

  /** A running instance of the payments program; one that was restarted is another. */
  type Pid = nat

  datatype Status = Reserved | Retrying | Submitting | Submitted | Finalized | Retryable | ManualReview

  /** A row of payment_batches together with its items, the gross amount taken from each balance. */
  datatype Batch = Batch(
    status: Status, items: map<BalanceId, nat>, totalFee: int,
    submitStartedAt: bool, submittedAt: bool, finalizedAt: bool, releasedAt: bool,
    txHash: Option<Hash>, txKey: Option<Hash>, transactionId: Option<nat>)

  datatype Balance = Balance(amount: int, pending: Option<BatchId>)

  /**
   The tables, where an id is a position; the processes whose claim of a batch went through and that are about to
   ask the wallet for its transfer; and a record of what happened that nothing depends on: which batches were
   claimed for submission, the wallet transfers asked for, the claimed batches an operator released and whether
   the wallet had been consulted, and what each balance was credited.
   */
  datatype World = World(
    batches: seq<Batch>, balances: map<BalanceId, Balance>, transactions: seq<BatchId>, holding: map<Pid, BatchId>,
    claimed: set<BatchId>, sent: seq<BatchId>, unlocked: map<BatchId, bool>, credited: map<BalanceId, int>)

  const MIN_SUCCESS_FEE_ATOMIC: int := 10

  /** Batches that own their reserved balances. */
  predicate InFlight(s: Status) { !s.Finalized? && !s.Retryable? }

  /** Batches that may have reached the wallet. */
  predicate Crossed(s: Status) { s.Submitting? || s.Submitted? || s.Finalized? || s.ManualReview? }

  function GrossOf(b: Batch, id: BalanceId): nat { if id in b.items then b.items[id] else 0 }

  // ------------------------------------------------------------------
  // What a row can look like, and how it can change
  // ------------------------------------------------------------------

  /** Which stamps a status comes with. */
  predicate RowOk(b: Batch) {
    && (b.status.Finalized? <==> b.transactionId.Some?)
    && (b.status.Finalized? <==> b.finalizedAt)
    && (Crossed(b.status) <==> b.submitStartedAt)
    && (b.status.Retryable? <==> b.releasedAt)
    && (b.status.Submitted? || b.status.Finalized? ==> b.submittedAt && b.txHash.Some? && b.totalFee > MIN_SUCCESS_FEE_ATOMIC)
    && (!Crossed(b.status) || b.status.Submitting? ==> !b.submittedAt && b.txHash.None? && b.txKey.None?)
  }

  function Rank(s: Status): nat {
    match s
    case Reserved => 0
    case Retrying => 1
    case Submitting => 2
    case Submitted => 3
    case _ => 4
  }

  /** A status is never entered again once it was left, and a batch with a known transfer is never released. */
  predicate Reaches(s: Status, t: Status) {
    s == t || (Rank(s) < Rank(t) && !(s.Submitted? && t.Retryable?))
  }

  /**
   What a row can become: its items stay, its transaction hash stays once known, and while its status stays
   everything that decides about money stays.
   */
  predicate RowEvolves(a: Batch, b: Batch) {
    && a.items == b.items
    && Reaches(a.status, b.status)
    && (a.txHash.Some? && !b.status.Retryable? ==> b.txHash == a.txHash)
    && (a.status == b.status ==> a.(txKey := b.txKey) == b)
  }

  lemma RowEvolvesTransitive(a: Batch, b: Batch, c: Batch)
    requires RowEvolves(a, b) && RowEvolves(b, c)
    requires RowOk(a) && RowOk(b) && RowOk(c)
    ensures RowEvolves(a, c)
  {
  }

  /** The worlds that can follow: rows evolve, and what was recorded stays recorded. */
  ghost predicate Evolves(w: World, v: World) {
    && |w.batches| <= |v.batches|
    && (forall i :: 0 <= i < |w.batches| ==> RowEvolves(w.batches[i], v.batches[i]))
    && w.transactions <= v.transactions
    && w.sent <= v.sent
    && w.claimed <= v.claimed
    && (forall i :: i in w.unlocked ==> i in v.unlocked && v.unlocked[i] == w.unlocked[i])
  }

  ghost predicate RowsOk(batches: seq<Batch>) {
    forall i :: 0 <= i < |batches| ==> RowOk(batches[i])
  }

  lemma EvolvesTransitive(u: World, v: World, w: World)
    requires Evolves(u, v) && Evolves(v, w)
    requires RowsOk(u.batches) && RowsOk(v.batches) && RowsOk(w.batches)
    ensures Evolves(u, w)
  {
    hide RowOk, RowEvolves;
    forall i | 0 <= i < |u.batches|
      ensures RowEvolves(u.batches[i], w.batches[i])
    {
      RowEvolvesTransitive(u.batches[i], v.batches[i], w.batches[i]);
    }
  }

  // ------------------------------------------------------------------
  // Consistency of the tables and of what happened
  // ------------------------------------------------------------------

  /** What finalised batches have taken from a balance. */
  function Paid(batches: seq<Batch>, id: BalanceId): nat {
    if batches == [] then 0
    else Paid(batches[..|batches| - 1], id) + PaidBy(batches[|batches| - 1], id)
  }

  function PaidBy(b: Batch, id: BalanceId): nat {
    if b.status.Finalized? then GrossOf(b, id) else 0
  }

  /** What batches that may have reached the wallet, and were not released, send out of a balance. */
  function Outgoing(batches: seq<Batch>, id: BalanceId): nat {
    if batches == [] then 0
    else Outgoing(batches[..|batches| - 1], id) + if Crossed(batches[|batches| - 1].status) then GrossOf(batches[|batches| - 1], id) else 0
  }

  /** A balance row is pinned to exactly the batch in flight it is an item of. */
  ghost predicate Pinned(batches: seq<Batch>, balances: map<BalanceId, Balance>) {
    && (forall id :: id in balances && balances[id].pending.Some? ==>
          var i := balances[id].pending.value;
          i < |batches| && InFlight(batches[i].status) && id in batches[i].items)
    && (forall i, id :: 0 <= i < |batches| && InFlight(batches[i].status) && id in batches[i].items ==>
          id in balances && balances[id].pending == Some(i))
    && (forall i, id :: 0 <= i < |batches| && id in batches[i].items ==> id in balances)
  }

  /** Every finalised batch has its one transaction row. */
  ghost predicate Booked(batches: seq<Batch>, transactions: seq<BatchId>) {
    && (forall i :: 0 <= i < |batches| && batches[i].transactionId.Some? ==>
          batches[i].transactionId.value < |transactions| && transactions[batches[i].transactionId.value] == i)
    && (forall t :: 0 <= t < |transactions| ==>
          transactions[t] < |batches| && batches[transactions[t]].transactionId == Some(t))
  }

  /** No credit is lost: it is still in the balance or was taken by a finalised batch. */
  ghost predicate Conserved(w: World) {
    && w.balances.Keys == w.credited.Keys
    && forall id :: id in w.balances ==> w.credited[id] == w.balances[id].amount + Paid(w.batches, id)
  }

  /** A batch was claimed if it is past the submit boundary, or an operator took it back from there. */
  ghost predicate ClaimsKnown(batches: seq<Batch>, claimed: set<BatchId>, unlocked: map<BatchId, bool>) {
    && (forall i :: i in claimed ==> i < |batches|)
    && (forall i :: i in unlocked ==> i < |batches| && batches[i].status.Retryable?)
    && (forall i :: 0 <= i < |batches| ==> (i in claimed <==> Crossed(batches[i].status) || i in unlocked))
  }

  /**
   The wallet is asked for a transfer only of claimed batches, and never twice for one: a batch about to be sent
   is held by one process and was not sent yet.
   */
  ghost predicate SentOnce(claimed: set<BatchId>, sent: seq<BatchId>, holding: map<Pid, BatchId>) {
    && (forall k :: 0 <= k < |sent| ==> sent[k] in claimed)
    && (forall j, k :: 0 <= j < k < |sent| ==> sent[j] != sent[k])
    && (forall p :: p in holding ==> holding[p] in claimed && holding[p] !in sent)
    && (forall p, q :: p in holding && q in holding && p != q ==> holding[p] != holding[q])
  }

  ghost predicate Consistent(w: World) {
    && RowsOk(w.batches)
    && Pinned(w.batches, w.balances)
    && Booked(w.batches, w.transactions)
    && Conserved(w)
    && ClaimsKnown(w.batches, w.claimed, w.unlocked)
    && SentOnce(w.claimed, w.sent, w.holding)
  }

  // ------------------------------------------------------------------
  // The writes
  // ------------------------------------------------------------------

  datatype Step =
    | Credit(balance: BalanceId, amount: nat)
    | Reserve(items: map<BalanceId, nat>, totalFee: int)
    | HoldForRetry(id: BatchId, expected: Status)
    | Claim(pid: Pid, id: BatchId, expected: Status)
    | Send(pid: Pid, id: BatchId)
    | Persist(id: BatchId, expected: Status, hash: Hash, key: Option<Hash>, fee: int)
    | Escalate(id: BatchId, expected: Status, found: Option<Hash>, key: Option<Hash>, foundFee: Option<int>)
    | Finalize(id: BatchId, expected: Status, known: Option<Hash>, key: Option<Hash>, fee: int)
    | Release(id: BatchId, expected: Status)
    | Unlock(id: BatchId, confirmed: bool, walletChecked: bool)

  /** The guarded update of a row: it has the status the writer saw, and is not settled. */
  predicate Current(w: World, id: BatchId, expected: Status) {
    && id < |w.batches|
    && w.batches[id].status == expected
    && !w.batches[id].finalizedAt && w.batches[id].transactionId.None?
  }

  /** The guard of each write. */
  predicate Applies(w: World, s: Step) {
    match s
    case Credit(_, _) => true
    case Reserve(items, _) =>
      items != map[] && forall id :: id in items ==> id in w.balances && w.balances[id].pending.None?
    case HoldForRetry(id, expected) => Current(w, id, expected)
    case Claim(_, id, expected) => id < |w.batches| && w.batches[id].status == expected
    case Send(_, _) => true
    case Persist(id, expected, _, _, _) => Current(w, id, expected)
    case Escalate(id, expected, _, _, _) => Current(w, id, expected)
    case Finalize(id, expected, _, _, _) =>
      && Current(w, id, expected)
      && forall b :: b in w.batches[id].items ==> b in w.balances && w.balances[b].pending == Some(id)
    case Release(id, expected) =>
      && Current(w, id, expected)
      && !w.batches[id].submitStartedAt && !w.batches[id].submittedAt
      && w.batches[id].txHash.None? && w.batches[id].txKey.None?
    case Unlock(id, confirmed, _) =>
      && id < |w.batches|
      && if confirmed then w.batches[id].status in {Reserved, Retrying, Submitting}
         else !w.batches[id].submitStartedAt && w.batches[id].status in {Reserved, Retrying}
  }

  /** What each write leaves in the row of its batch. */
  function Written(b: Batch, s: Step, transactionId: nat): Batch {
    match s
    case HoldForRetry(_, _) => b.(status := Retrying, submitStartedAt := false, submittedAt := false, txHash := None, txKey := None)
    case Claim(_, _, _) => b.(status := Submitting, submitStartedAt := true)
    case Persist(_, _, hash, key, fee) => b.(status := Submitted, submittedAt := true, txHash := Some(hash), txKey := key, totalFee := fee)
    case Escalate(_, _, hash, key, fee) =>
      b.(status := ManualReview, txHash := if hash.Some? then hash else b.txHash, txKey := if key.Some? then key else b.txKey,
         totalFee := if fee.Some? then fee.value else b.totalFee)
    case Finalize(_, _, hash, key, fee) =>
      b.(status := Finalized, finalizedAt := true, transactionId := Some(transactionId), txHash := hash, txKey := key, totalFee := fee)
    case Release(_, _) => b.(status := Retryable, releasedAt := true)
    case Unlock(_, confirmed, _) => b.(status := Retryable, releasedAt := true, submitStartedAt := if confirmed then false else b.submitStartedAt)
    case _ => b
  }

  function NewBatch(items: map<BalanceId, nat>, totalFee: int): Batch {
    Batch(Reserved, items, totalFee, false, false, false, false, None, None, None)
  }

  function Unpin(balances: map<BalanceId, Balance>, batch: BatchId): map<BalanceId, Balance> {
    map id | id in balances :: if balances[id].pending == Some(batch) then balances[id].(pending := None) else balances[id]
  }

  function Pin(balances: map<BalanceId, Balance>, items: map<BalanceId, nat>, batch: BatchId): map<BalanceId, Balance> {
    map id | id in balances :: if id in items && balances[id].pending.None? then balances[id].(pending := Some(batch)) else balances[id]
  }

  function Consume(balances: map<BalanceId, Balance>, items: map<BalanceId, nat>, batch: BatchId): map<BalanceId, Balance> {
    map id | id in balances ::
      if balances[id].pending == Some(batch) && id in items then Balance(balances[id].amount - items[id], None) else balances[id]
  }

  /** One write, all or nothing. */
  function Next(w: World, s: Step): World {
    if !Applies(w, s) then w else
    match s
    case Credit(id, amount) =>
      var was := if id in w.balances then w.balances[id] else Balance(0, None);
      w.(balances := w.balances[id := was.(amount := was.amount + amount)],
         credited := w.credited[id := (if id in w.credited then w.credited[id] else 0) + amount])
    case Reserve(items, fee) =>
      w.(batches := w.batches + [NewBatch(items, fee)], balances := Pin(w.balances, items, |w.batches|))
    case Send(p, id) => w.(sent := w.sent + [id], holding := w.holding - {p})
    case Claim(p, id, _) =>
      w.(batches := w.batches[id := Written(w.batches[id], s, 0)], claimed := w.claimed + {id}, holding := w.holding[p := id])
    case HoldForRetry(id, _) => w.(batches := w.batches[id := Written(w.batches[id], s, 0)])
    case Persist(id, _, _, _, _) => w.(batches := w.batches[id := Written(w.batches[id], s, 0)])
    case Escalate(id, _, _, _, _) => w.(batches := w.batches[id := Written(w.batches[id], s, 0)])
    case Finalize(id, _, _, _, _) =>
      w.(batches := w.batches[id := Written(w.batches[id], s, |w.transactions|)],
         balances := Consume(w.balances, w.batches[id].items, id), transactions := w.transactions + [id])
    case Release(id, _) =>
      w.(batches := w.batches[id := Written(w.batches[id], s, 0)], balances := Unpin(w.balances, id))
    case Unlock(id, _, checked) =>
      w.(batches := w.batches[id := Written(w.batches[id], s, 0)], balances := Unpin(w.balances, id),
         unlocked := if Crossed(w.batches[id].status) then w.unlocked[id := checked] else w.unlocked)
  }

  /**
   What the processes keep to, whatever they saw last: which statuses they expect in which write, what they
   write about a transfer, and that a process asks for a transfer next after its own claim went through. The
   processor's methods are shown to keep to it at every write. Nothing here asks whether a batch was sent before.
   */
  predicate Allowed(w: World, s: Step) {
    match s
    case HoldForRetry(_, expected) => expected.Reserved? || expected.Retrying?
    case Claim(p, _, expected) => p !in w.holding && (expected.Reserved? || expected.Retrying?)
    case Send(p, id) => p in w.holding && w.holding[p] == id
    case Persist(_, expected, _, _, fee) => expected.Submitting? && fee > MIN_SUCCESS_FEE_ATOMIC
    case Escalate(id, expected, hash, _, _) =>
      && (expected.Submitting? || expected.Submitted?)
      && (expected.Submitted? && Current(w, id, expected) && hash.Some? ==> hash == w.batches[id].txHash)
    case Finalize(id, expected, hash, _, fee) =>
      && expected.Submitted?
      && (Current(w, id, expected) ==> hash == w.batches[id].txHash && fee == w.batches[id].totalFee)
    case Release(_, expected) => expected.Reserved?
    case _ => true
  }

  // ------------------------------------------------------------------
  // What every write keeps
  // ------------------------------------------------------------------

  lemma {:induction false} PaidUpdate(batches: seq<Batch>, i: nat, b: Batch, id: BalanceId)
    requires i < |batches|
    ensures Paid(batches[i := b], id) == Paid(batches, id) - PaidBy(batches[i], id) + PaidBy(b, id)
  {
    var n := |batches| - 1;
    if i == n {
      assert batches[i := b][..n] == batches[..n];
    } else {
      assert batches[i := b][..n] == batches[..n][i := b];
      PaidUpdate(batches[..n], i, b, id);
    }
  }

  lemma PaidMore(batches: seq<Batch>, b: Batch, id: BalanceId)
    ensures Paid(batches + [b], id) == Paid(batches, id) + PaidBy(b, id)
  {
    assert (batches + [b])[..|batches|] == batches;
  }

  /** The row a write leaves is well formed and follows from the row it found. */
  lemma WrittenEvolves(w: World, s: Step, transactionId: nat)
    requires RowsOk(w.batches) && Applies(w, s) && Allowed(w, s)
    requires !s.Credit? && !s.Reserve? && !s.Send?
    ensures s.id < |w.batches|
    ensures RowOk(Written(w.batches[s.id], s, transactionId))
    ensures RowEvolves(w.batches[s.id], Written(w.batches[s.id], s, transactionId))
  {
  }

  lemma RowReflexive(batches: seq<Batch>)
    ensures forall i :: 0 <= i < |batches| ==> RowEvolves(batches[i], batches[i])
  {
  }

  /** One row moved. */
  predicate RowMoves(batches: seq<Batch>, i: nat, b: Batch) {
    i < |batches| && InFlight(batches[i].status) && batches[i].items == b.items
  }

  lemma MoveRows(batches: seq<Batch>, i: nat, b: Batch)
    requires RowMoves(batches, i, b) && RowsOk(batches) && RowOk(b) && RowEvolves(batches[i], b)
    ensures RowsOk(batches[i := b])
    ensures forall k :: 0 <= k < |batches| ==> RowEvolves(batches[k], batches[i := b][k])
  {
    hide RowOk, RowEvolves;
    RowReflexive(batches);
  }

  lemma MovePinned(batches: seq<Batch>, balances: map<BalanceId, Balance>, i: nat, b: Batch)
    requires RowMoves(batches, i, b) && InFlight(b.status) && Pinned(batches, balances)
    ensures Pinned(batches[i := b], balances)
  {
    hide InFlight;
  }

  lemma MoveUnpinned(batches: seq<Batch>, before: map<BalanceId, Balance>, after: map<BalanceId, Balance>, i: nat, b: Batch)
    requires RowMoves(batches, i, b) && !InFlight(b.status) && Pinned(batches, before)
    requires after.Keys == before.Keys
    requires forall id :: id in after ==> after[id].pending == if before[id].pending == Some(i) then None else before[id].pending
    ensures Pinned(batches[i := b], after)
  {
    hide InFlight;
  }

  lemma MoveBooked(batches: seq<Batch>, transactions: seq<BatchId>, i: nat, b: Batch)
    requires i < |batches| && batches[i].transactionId.None? && b.transactionId.None? && Booked(batches, transactions)
    ensures Booked(batches[i := b], transactions)
  {
  }

  lemma MoveClaims(batches: seq<Batch>, claimed: set<BatchId>, unlocked: map<BatchId, bool>, i: nat, b: Batch)
    requires RowMoves(batches, i, b) && ClaimsKnown(batches, claimed, unlocked)
    requires (Crossed(b.status) <==> Crossed(batches[i].status))
    ensures ClaimsKnown(batches[i := b], claimed, unlocked)
  {
  }

  lemma ClaimClaims(batches: seq<Batch>, claimed: set<BatchId>, unlocked: map<BatchId, bool>, i: nat, b: Batch)
    requires RowMoves(batches, i, b) && ClaimsKnown(batches, claimed, unlocked) && b.status.Submitting?
    ensures ClaimsKnown(batches[i := b], claimed + {i}, unlocked)
  {
  }

  /**
   The status guard lets one claim through: a batch that is still reserved or waits for a retry was never claimed,
   so that nobody holds it and nobody sent it.
   */
  lemma ClaimIsFirst(w: World, id: BatchId, expected: Status)
    requires Consistent(w) && (expected.Reserved? || expected.Retrying?)
    requires id < |w.batches| && w.batches[id].status == expected
    ensures id !in w.claimed && id !in w.sent && forall p :: p in w.holding ==> w.holding[p] != id
  {
    hide RowsOk, Pinned, Booked, Conserved;
  }

  lemma ClaimHolds(w: World, p: Pid, id: BatchId)
    requires SentOnce(w.claimed, w.sent, w.holding) && id !in w.claimed && p !in w.holding
    ensures SentOnce(w.claimed + {id}, w.sent, w.holding[p := id])
  {
  }

  lemma UnlockClaims(batches: seq<Batch>, claimed: set<BatchId>, unlocked: map<BatchId, bool>, i: nat, b: Batch, checked: bool)
    requires RowMoves(batches, i, b) && ClaimsKnown(batches, claimed, unlocked) && b.status.Retryable?
    ensures ClaimsKnown(batches[i := b], claimed, if Crossed(batches[i].status) then unlocked[i := checked] else unlocked)
  {
  }

  lemma MovePaid(batches: seq<Batch>, i: nat, b: Batch)
    requires RowMoves(batches, i, b) && !b.status.Finalized?
    ensures forall id :: Paid(batches[i := b], id) == Paid(batches, id)
  {
    hide Paid;
    forall id
      ensures Paid(batches[i := b], id) == Paid(batches, id)
    {
      PaidUpdate(batches, i, b, id);
    }
  }

  /** A write that leaves a batch in flight touches its row only, and claims it when it is a claim. */
  lemma RowWriteKeeps(w: World, s: Step)
    requires Consistent(w) && Applies(w, s) && Allowed(w, s)
    requires s.HoldForRetry? || s.Claim? || s.Persist? || s.Escalate?
    ensures Consistent(Next(w, s)) && Evolves(w, Next(w, s))
  {
    hide RowOk, RowEvolves, Paid, RowsOk, Pinned, Booked, ClaimsKnown, SentOnce, InFlight, Crossed, Written, Applies, Allowed;
    WrittenEvolves(w, s, 0);
    var b := Written(w.batches[s.id], s, 0);
    RowStatus(w, s);
    MoveRows(w.batches, s.id, b);
    MovePinned(w.batches, w.balances, s.id, b);
    MoveBooked(w.batches, w.transactions, s.id, b);
    MovePaid(w.batches, s.id, b);
    if s.Claim? {
      ClaimClaims(w.batches, w.claimed, w.unlocked, s.id, b);
      ClaimIsFirst(w, s.id, s.expected);
      ClaimHolds(w, s.pid, s.id);
    } else {
      MoveClaims(w.batches, w.claimed, w.unlocked, s.id, b);
    }
  }

  lemma RowStatus(w: World, s: Step)
    requires RowsOk(w.batches) && Applies(w, s) && Allowed(w, s)
    requires s.HoldForRetry? || s.Claim? || s.Persist? || s.Escalate?
    ensures var a, b := w.batches[s.id], Written(w.batches[s.id], s, 0);
      && RowMoves(w.batches, s.id, b) && InFlight(b.status) && !b.status.Finalized?
      && a.transactionId.None? && b.transactionId.None?
      && (s.Claim? ==> b.status.Submitting? && a.status == s.expected && (a.status.Reserved? || a.status.Retrying?) && s.pid !in w.holding)
      && (!s.Claim? ==> (Crossed(b.status) <==> Crossed(a.status)))
  {
  }

  lemma CreditKeeps(w: World, id: BalanceId, amount: nat)
    requires Consistent(w)
    ensures Consistent(Next(w, Credit(id, amount))) && Evolves(w, Next(w, Credit(id, amount)))
  {
    hide RowOk, RowsOk, RowEvolves, Paid, Pinned, Booked, ClaimsKnown, Conserved;
    RowReflexive(w.batches);
    CreditConserves(w, id, amount);
    CreditPinned(w.batches, w.balances, id, Next(w, Credit(id, amount)).balances[id]);
  }

  lemma CreditConserves(w: World, id: BalanceId, amount: nat)
    requires Consistent(w)
    ensures Conserved(Next(w, Credit(id, amount)))
  {
    hide RowOk, RowsOk, RowEvolves, Paid, Booked, ClaimsKnown, InFlight;
    if id !in w.balances {
      assert forall i :: 0 <= i < |w.batches| ==> id !in w.batches[i].items;
      NothingPaid(w.batches, id);
    }
  }

  lemma CreditPinned(batches: seq<Batch>, balances: map<BalanceId, Balance>, id: BalanceId, after: Balance)
    requires Pinned(batches, balances) && after.pending == if id in balances then balances[id].pending else None
    ensures Pinned(batches, balances[id := after])
  {
    hide InFlight;
  }

  /** A balance that is no item of any batch was paid nothing. */
  lemma {:induction false} NothingPaid(batches: seq<Batch>, id: BalanceId)
    requires forall i :: 0 <= i < |batches| ==> id !in batches[i].items
    ensures Paid(batches, id) == 0
  {
    if batches != [] {
      NothingPaid(batches[..|batches| - 1], id);
    }
  }

  lemma ReservePinned(batches: seq<Batch>, balances: map<BalanceId, Balance>, b: Batch)
    requires Pinned(batches, balances) && InFlight(b.status)
    requires forall id :: id in b.items ==> id in balances && balances[id].pending.None?
    ensures Pinned(batches + [b], Pin(balances, b.items, |batches|))
  {
    hide InFlight;
  }

  lemma ReserveRecords(w: World, b: Batch)
    requires Booked(w.batches, w.transactions) && ClaimsKnown(w.batches, w.claimed, w.unlocked)
    requires b.status.Reserved? && b.transactionId.None?
    ensures Booked(w.batches + [b], w.transactions) && ClaimsKnown(w.batches + [b], w.claimed, w.unlocked)
  {
  }

  lemma ReserveKeeps(w: World, items: map<BalanceId, nat>, fee: int)
    requires Consistent(w) && Applies(w, Reserve(items, fee))
    ensures Consistent(Next(w, Reserve(items, fee))) && Evolves(w, Next(w, Reserve(items, fee)))
  {
    hide RowEvolves, Paid, Pinned, Booked, ClaimsKnown;
    RowReflexive(w.batches);
    ReservePinned(w.batches, w.balances, NewBatch(items, fee));
    ReserveRecords(w, NewBatch(items, fee));
    forall id | id in w.balances
      ensures Paid(w.batches + [NewBatch(items, fee)], id) == Paid(w.batches, id)
    {
      PaidMore(w.batches, NewBatch(items, fee), id);
    }
  }

  /** A process that holds a batch sends it for the first time, and does not hold it any more. */
  lemma SendKeeps(w: World, p: Pid, id: BatchId)
    requires Consistent(w) && Allowed(w, Send(p, id))
    ensures Consistent(Next(w, Send(p, id))) && Evolves(w, Next(w, Send(p, id)))
  {
    hide RowOk, RowEvolves, Paid, Pinned, Booked, ClaimsKnown;
    RowReflexive(w.batches);
  }

  /** Releasing a batch that is not settled unpins exactly its balances. */
  lemma ReleaseKeeps(w: World, s: Step)
    requires Consistent(w) && Applies(w, s) && Allowed(w, s)
    requires s.Release? || s.Unlock?
    ensures Consistent(Next(w, s)) && Evolves(w, Next(w, s))
  {
    hide RowOk, RowEvolves, Paid, RowsOk, Pinned, Booked, ClaimsKnown, SentOnce, Conserved, InFlight, Crossed, Written, Applies, Allowed;
    WrittenEvolves(w, s, 0);
    var b := Written(w.batches[s.id], s, 0);
    ReleaseStatus(w, s);
    MoveRows(w.batches, s.id, b);
    MoveUnpinned(w.batches, w.balances, Unpin(w.balances, s.id), s.id, b);
    MoveBooked(w.batches, w.transactions, s.id, b);
    ReleaseConserves(w, s);
    if s.Release? {
      MoveClaims(w.batches, w.claimed, w.unlocked, s.id, b);
    } else {
      UnlockClaims(w.batches, w.claimed, w.unlocked, s.id, b, s.walletChecked);
      NotUnlockedYet(w, s.id);
    }
  }

  lemma ReleaseConserves(w: World, s: Step)
    requires Consistent(w) && Applies(w, s) && Allowed(w, s)
    requires s.Release? || s.Unlock?
    ensures Conserved(Next(w, s))
  {
    hide RowOk, RowEvolves, Paid, RowsOk, Pinned, Booked, ClaimsKnown, SentOnce, InFlight, Crossed, Written, Allowed;
    ReleaseStatus(w, s);
    MovePaid(w.batches, s.id, Written(w.batches[s.id], s, 0));
  }

  lemma NotUnlockedYet(w: World, id: BatchId)
    requires ClaimsKnown(w.batches, w.claimed, w.unlocked) && id < |w.batches| && InFlight(w.batches[id].status)
    ensures id !in w.unlocked
  {
  }

  lemma ReleaseStatus(w: World, s: Step)
    requires RowsOk(w.batches) && Applies(w, s) && Allowed(w, s)
    requires s.Release? || s.Unlock?
    ensures var a, b := w.batches[s.id], Written(w.batches[s.id], s, 0);
      && RowMoves(w.batches, s.id, b) && b.status.Retryable? && !InFlight(b.status)
      && a.transactionId.None? && b.transactionId.None?
      && (s.Release? ==> (Crossed(a.status) <==> Crossed(b.status)))
  {
  }

  /** Finalising takes from each balance of the batch its gross amount, and from no other. */
  lemma FinalizeKeeps(w: World, s: Step)
    requires Consistent(w) && Applies(w, s) && Allowed(w, s) && s.Finalize?
    ensures Consistent(Next(w, s)) && Evolves(w, Next(w, s))
  {
    hide RowOk, RowEvolves, Paid, RowsOk, Pinned, Booked, ClaimsKnown, InFlight, Crossed, Written, Applies, Allowed, Conserved;
    WrittenEvolves(w, s, |w.transactions|);
    var b := Written(w.batches[s.id], s, |w.transactions|);
    FinalizeStatus(w, s);
    MoveRows(w.batches, s.id, b);
    FinalizeUnpins(w, s);
    MoveClaims(w.batches, w.claimed, w.unlocked, s.id, b);
    FinalizeConserves(w, s);
    FinalizeBooks(w, s);
  }

  lemma FinalizeStatus(w: World, s: Step)
    requires RowsOk(w.batches) && Applies(w, s) && Allowed(w, s) && s.Finalize?
    ensures var a, b := w.batches[s.id], Written(w.batches[s.id], s, |w.transactions|);
      && RowMoves(w.batches, s.id, b) && b.status.Finalized? && !InFlight(b.status)
      && (Crossed(a.status) <==> Crossed(b.status))
      && a.transactionId.None? && b.transactionId == Some(|w.transactions|)
  {
  }

  lemma FinalizeUnpins(w: World, s: Step)
    requires Consistent(w) && Applies(w, s) && Allowed(w, s) && s.Finalize?
    ensures Pinned(Next(w, s).batches, Next(w, s).balances)
  {
    hide RowOk, RowEvolves, Paid, RowsOk, Booked, ClaimsKnown, InFlight, Crossed, Written, Allowed, Conserved;
    FinalizeStatus(w, s);
    MoveUnpinned(w.batches, w.balances, Next(w, s).balances, s.id, Next(w, s).batches[s.id]);
  }

  lemma FinalizeConserves(w: World, s: Step)
    requires Consistent(w) && Applies(w, s) && Allowed(w, s) && s.Finalize?
    ensures Conserved(Next(w, s))
  {
    hide RowOk, RowEvolves, Paid, RowsOk, Booked, ClaimsKnown, InFlight, Crossed, Written, Allowed, SentOnce;
    FinalizeStatus(w, s);
    var a, b := w.batches[s.id], Written(w.batches[s.id], s, |w.transactions|);
    forall id | id in w.balances
      ensures Paid(w.batches[s.id := b], id) == Paid(w.batches, id) + GrossOf(a, id)
    {
      PaidUpdate(w.batches, s.id, b, id);
    }
  }

  lemma FinalizeBooks(w: World, s: Step)
    requires Consistent(w) && Applies(w, s) && Allowed(w, s) && s.Finalize?
    ensures Booked(Next(w, s).batches, Next(w, s).transactions)
  {
    hide RowOk, RowEvolves, Paid, RowsOk, Pinned, ClaimsKnown, InFlight, Crossed, Written, Allowed, Conserved;
    FinalizeStatus(w, s);
  }

  /** Every write any process may make keeps the tables consistent, and moves rows forward only. */
  lemma StepKeeps(w: World, s: Step)
    requires Consistent(w) && Allowed(w, s)
    ensures Consistent(Next(w, s)) && Evolves(w, Next(w, s))
  {
    hide RowOk, RowEvolves, Paid, Pinned, Booked, Conserved, ClaimsKnown, SentOnce;
    if !Applies(w, s) {
      RowReflexive(w.batches);
      return;
    }
    match s
    case Credit(id, amount) => CreditKeeps(w, id, amount);
    case Reserve(items, fee) => ReserveKeeps(w, items, fee);
    case Send(p, id) => SendKeeps(w, p, id);
    case Finalize(_, _, _, _, _) => FinalizeKeeps(w, s);
    case Release(_, _) => ReleaseKeeps(w, s);
    case Unlock(_, _, _) => ReleaseKeeps(w, s);
    case _ => RowWriteKeeps(w, s);
  }

  // ------------------------------------------------------------------
  // Whole runs
  // ------------------------------------------------------------------

  /** Each step is allowed where it is taken. */
  ghost predicate Lawful(w: World, steps: seq<Step>)
    decreases |steps|
  {
    steps == [] || (Allowed(w, steps[0]) && Lawful(Next(w, steps[0]), steps[1..]))
  }

  function Run(w: World, steps: seq<Step>): World
    decreases |steps|
  {
    if steps == [] then w else Run(Next(w, steps[0]), steps[1..])
  }

  lemma {:induction false} RunKeeps(w: World, steps: seq<Step>)
    requires Consistent(w) && Lawful(w, steps)
    ensures Consistent(Run(w, steps)) && Evolves(w, Run(w, steps))
    decreases |steps|
  {
    hide RowOk, RowEvolves, Pinned, Booked, Conserved, ClaimsKnown, SentOnce;
    if steps == [] {
      RowReflexive(w.batches);
    } else {
      StepKeeps(w, steps[0]);
      RunKeeps(Next(w, steps[0]), steps[1..]);
      EvolvesTransitive(w, Next(w, steps[0]), Run(w, steps));
    }
  }
}
