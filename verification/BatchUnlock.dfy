/**
 The operator's tool that releases a payment batch for another attempt:
 what it refuses, even when forced, and what the release does. Other
 processes may still write between the moment the tool loads the batch and
 the moment its transaction runs.
 */
module BatchUnlock {
  import opened Wrappers
  import opened PaymentBatches

  datatype Flag =
    | SubmitStartedIsSet | SubmittedIsSet | TxHashIsSet | TxKeyIsSet | TransactionIdIsSet | FinalizedIsSet
    | StatusIsNotSafe | ReleasedIsSet | ReservedRowsDiffer

  datatype WalletReply = NoMatch | MatchFound | Unavailable

  datatype Refusal =
    | LockBusy | MissingBatch | UnsafeBatch(flags: seq<Flag>) | ForceRequired(riskFlags: seq<Flag>)
    | WalletTxMatch | WalletUnavailable | ChangedWhileUnlocking

  datatype Result = Unlocked(clearedPendingRows: nat) | Refused(why: Refusal)

  function FlagIf(condition: bool, flag: Flag): seq<Flag> { if condition then [flag] else [] }

  /** What each flag says of a batch. */
  predicate Says(flag: Flag, b: Batch, confirmed: bool, reservedRows: nat) {
    match flag
    case SubmitStartedIsSet => !confirmed && b.submitStartedAt
    case SubmittedIsSet => b.submittedAt
    case TxHashIsSet => b.txHash.Some?
    case TxKeyIsSet => b.txKey.Some?
    case TransactionIdIsSet => b.transactionId.Some?
    case FinalizedIsSet => b.finalizedAt
    case StatusIsNotSafe => !(b.status.Reserved? || b.status.Retrying?)
    case ReleasedIsSet => b.releasedAt
    case ReservedRowsDiffer => reservedRows != |b.items|
  }

  predicate IsRisk(flag: Flag) { flag.StatusIsNotSafe? || flag.ReleasedIsSet? || flag.ReservedRowsDiffer? }

  /** Signs that the batch crossed the wallet submit boundary; none of them can be forced away. */
  function CollectUnsafeUnlockFlags(b: Batch, confirmed: bool): (flags: seq<Flag>)
    ensures flags == [] <==>
      && (confirmed || !b.submitStartedAt)
      && !b.submittedAt && b.txHash.None? && b.txKey.None? && b.transactionId.None? && !b.finalizedAt
    ensures forall flag, n :: !IsRisk(flag) ==> (flag in flags <==> Says(flag, b, confirmed, n))
  {
    FlagIf(!confirmed && b.submitStartedAt, SubmitStartedIsSet)
    + FlagIf(b.submittedAt, SubmittedIsSet)
    + FlagIf(b.txHash.Some?, TxHashIsSet)
    + FlagIf(b.txKey.Some?, TxKeyIsSet)
    + FlagIf(b.transactionId.Some?, TransactionIdIsSet)
    + FlagIf(b.finalizedAt, FinalizedIsSet)
  }

  /** Oddities an operator may override. */
  function CollectRiskFlags(b: Batch, reservedRows: nat): (flags: seq<Flag>)
    ensures flags == [] <==> (b.status.Reserved? || b.status.Retrying?) && !b.releasedAt && reservedRows == |b.items|
    ensures forall flag, c :: IsRisk(flag) ==> (flag in flags <==> Says(flag, b, c, reservedRows))
  {
    FlagIf(!(b.status.Reserved? || b.status.Retrying?), StatusIsNotSafe)
    + FlagIf(b.releasedAt, ReleasedIsSet)
    + FlagIf(reservedRows != |b.items|, ReservedRowsDiffer)
  }

  /** The balance rows reserved for a batch. */
  function ReservedRows(w: World, id: BatchId): set<BalanceId> {
    set b | b in w.balances && w.balances[b].pending == Some(id)
  }

  /** A batch in flight has reserved exactly the balances of its items. */
  lemma ReservedAreItems(w: World, id: BatchId)
    requires Consistent(w) && id < |w.batches| && InFlight(w.batches[id].status)
    ensures ReservedRows(w, id) == w.batches[id].items.Keys && |ReservedRows(w, id)| == |w.batches[id].items|
  {
    hide RowsOk, Booked, Conserved, ClaimsKnown, SentOnce, InFlight;
    assert ReservedRows(w, id) == w.batches[id].items.Keys;
  }

  /** Whether the tool goes on to its transaction, judged on the batch as loaded. */
  predicate Permitted(w: World, id: BatchId, force: bool, confirmed: bool, wallet: WalletReply) {
    && id < |w.batches|
    && CollectUnsafeUnlockFlags(w.batches[id], confirmed) == []
    && (force || CollectRiskFlags(w.batches[id], |ReservedRows(w, id)|) == [])
    && (Checked(w.batches[id], confirmed) ==> wallet.NoMatch?)
  }

  /** The wallet is consulted only for a batch that was loaded past the submit boundary. */
  predicate Checked(b: Batch, confirmed: bool) { confirmed && b.submitStartedAt }

  class UnlockTool {
    var w: World
    var lockBusy: bool

    constructor (w: World)
      ensures this.w == w && !lockBusy
    {
      this.w := w;
      lockBusy := false;
    }

    /**
     Releases a batch: its row becomes retryable and all its balances are free, in one transaction, or nothing of
     this happens. `others` is what other processes write between the load and the transaction. The tool takes any
     row that is stored, whatever its columns say together.
     */
    method UnlockBatch(id: BatchId, force: bool, confirmed: bool, wallet: WalletReply, others: seq<Step>, sqlOk: bool)
      returns (result: Result)
      modifies this`w
      ensures Consistent(old(w)) && Lawful(old(w), others) ==> Consistent(w)
      ensures var unlock := Unlock(id, confirmed, id < |old(w.batches)| && Checked(old(w.batches)[id], confirmed));
        && (result.Unlocked? <==>
              !lockBusy && Permitted(old(w), id, force, confirmed, wallet) && sqlOk && Applies(Run(old(w), others), unlock))
        && (result.Unlocked? ==>
              && w == Next(Run(old(w), others), unlock)
              && result.clearedPendingRows == |ReservedRows(Run(old(w), others), id)|)
        && (result.Refused? && result.why.UnsafeBatch? ==>
              id < |old(w.batches)| && result.why.flags == CollectUnsafeUnlockFlags(old(w.batches)[id], confirmed) != [])
        && (result.Refused? && result.why.ForceRequired? ==>
              !force && id < |old(w.batches)| && CollectUnsafeUnlockFlags(old(w.batches)[id], confirmed) == [] != result.why.riskFlags)
        && (result.Refused? && result.why.WalletTxMatch? ==> wallet.MatchFound?)
        && (result.Refused? ==>
              w == if !lockBusy && Permitted(old(w), id, force, confirmed, wallet) then Run(old(w), others) else old(w))
    {
      hide Consistent, Run, Next, Applies, Lawful;
      if lockBusy { return Refused(LockBusy); }
      if id >= |w.batches| { return Refused(MissingBatch); }
      var loaded := w.batches[id];
      var unsafeFlags := CollectUnsafeUnlockFlags(loaded, confirmed);
      if unsafeFlags != [] { return Refused(UnsafeBatch(unsafeFlags)); }
      var riskFlags := CollectRiskFlags(loaded, |ReservedRows(w, id)|);
      if riskFlags != [] && !force { return Refused(ForceRequired(riskFlags)); }
      if confirmed && loaded.submitStartedAt && !wallet.NoMatch? {
        return Refused(if wallet.MatchFound? then WalletTxMatch else WalletUnavailable);
      }
      ghost var lawful := Consistent(w) && Lawful(w, others);
      if lawful {
        RunKeeps(w, others);
      }
      w := Run(w, others);
      var unlock := Unlock(id, confirmed, Checked(loaded, confirmed));
      if !sqlOk || !Applies(w, unlock) { return Refused(ChangedWhileUnlocking); }
      result := Unlocked(|ReservedRows(w, id)|);
      if lawful {
        StepKeeps(w, unlock);
      }
      w := Next(w, unlock);
    }
  }

  lemma RunKeepsItems(w: World, steps: seq<Step>, id: BatchId)
    requires Consistent(w) && Lawful(w, steps) && id < |w.batches|
    ensures id < |Run(w, steps).batches| && Run(w, steps).batches[id].items == w.batches[id].items
    ensures Reaches(w.batches[id].status, Run(w, steps).batches[id].status)
  {
    hide Run, RowsOk, Pinned, Booked, Conserved, ClaimsKnown, SentOnce;
    RunKeeps(w, steps);
    assert RowEvolves(w.batches[id], Run(w, steps).batches[id]);
  }

  /** In consistent tables the rows cleared are those of the batch's items. */
  lemma UnlockReserved(w: World, s: Step)
    requires Consistent(w) && s.Unlock? && Applies(w, s)
    ensures s.id < |w.batches| && ReservedRows(w, s.id) == w.batches[s.id].items.Keys
    ensures |ReservedRows(w, s.id)| == |w.batches[s.id].items|
  {
    hide Consistent;
    ReservedAreItems(w, s.id);
  }

  // ------------------------------------------------------------------
  // What a successful unlock means
  // ------------------------------------------------------------------

  /** The transaction goes through. */
  ghost predicate Succeeds(w: World, id: BatchId, force: bool, confirmed: bool, wallet: WalletReply, others: seq<Step>) {
    && Permitted(w, id, force, confirmed, wallet)
    && Applies(Run(w, others), Unlock(id, confirmed, Checked(w.batches[id], confirmed)))
  }

  /** No trace of a transfer in the row. */
  predicate NoTrace(b: Batch) {
    b.txHash.None? && b.txKey.None? && b.transactionId.None? && !b.submittedAt && !b.finalizedAt
  }

  /**
   Whatever rows are stored, and forced or not: a batch is released only if it is reserved or retrying when the
   transaction runs, or submitting and confirmed; it was loaded without a trace of a transfer; and if it was loaded
   with a submit stamp, it was confirmed and the wallet showed no matching transfer.
   */
  lemma OnlySafeBatchesAreReleased(w: World, id: BatchId, force: bool, confirmed: bool, wallet: WalletReply, others: seq<Step>)
    requires Succeeds(w, id, force, confirmed, wallet, others)
    ensures id < |w.batches| && id < |Run(w, others).batches|
    ensures var loaded, now := w.batches[id], Run(w, others).batches[id];
      && (now.status.Reserved? || now.status.Retrying? || (now.status.Submitting? && confirmed))
      && (!confirmed ==> !now.submitStartedAt)
      && NoTrace(loaded)
      && (loaded.submitStartedAt ==> confirmed && wallet.NoMatch?)
  {
    hide Run;
  }

  /**
   Whatever rows are stored: that a submitting batch is released only with the wallet showing no matching transfer
   fails if and only if it was confirmed and loaded without a submit stamp, whatever the reply of the wallet would
   have been, and nothing else stood in the way.
   */
  lemma ReleasedUncheckedIff(w: World, id: BatchId, force: bool, confirmed: bool, wallet: WalletReply, others: seq<Step>)
    requires id < |w.batches| && id < |Run(w, others).batches| && Run(w, others).batches[id].status.Submitting? && !wallet.NoMatch?
    ensures Succeeds(w, id, force, confirmed, wallet, others) <==>
      && confirmed && !w.batches[id].submitStartedAt
      && NoTrace(w.batches[id]) && (force || CollectRiskFlags(w.batches[id], |ReservedRows(w, id)|) == [])
  {
    hide Run, CollectRiskFlags;
  }

  /**
   In consistent tables a stamp comes with the boundary. What is released was then loaded as reserved or retrying, or
   as submitting with confirmation and no matching wallet transfer; and a batch is past the boundary without a check
   if and only if it was confirmed, loaded before the boundary, and crossed it before the transaction.
   */
  lemma ConsistentBatchesAreSafe(w: World, id: BatchId, force: bool, confirmed: bool, wallet: WalletReply, others: seq<Step>)
    requires Consistent(w) && Lawful(w, others) && Succeeds(w, id, force, confirmed, wallet, others)
    ensures id < |Run(w, others).batches|
    ensures var b := w.batches[id];
      b.status.Reserved? || b.status.Retrying? || (b.status.Submitting? && confirmed && wallet.NoMatch?)
    ensures (Crossed(Run(w, others).batches[id].status) && !Checked(w.batches[id], confirmed)) <==>
      confirmed && !Crossed(w.batches[id].status) && Run(w, others).batches[id].status.Submitting?
  {
    hide Run, Pinned, Booked, Conserved, ClaimsKnown, SentOnce, Lawful;
    RunKeepsItems(w, others, id);
    assert RowOk(w.batches[id]);
    RunKeeps(w, others);
  }

  /** The release frees the balances reserved for the batch and no others, takes nothing from any balance, and settles the row. */
  lemma ReleaseFreesExactlyItsBalances(w: World, s: Step)
    requires s.Unlock? && Applies(w, s)
    ensures var v := Next(w, s);
      && |v.batches| == |w.batches| && v.batches[s.id].status.Retryable? && !v.batches[s.id].submitStartedAt
      && ReservedRows(v, s.id) == {} && v.balances.Keys == w.balances.Keys
      && (forall b :: b in w.balances ==>
            && v.balances[b].amount == w.balances[b].amount
            && (b !in ReservedRows(w, s.id) ==> v.balances[b] == w.balances[b]))
      && (forall i :: 0 <= i < |w.batches| && i != s.id ==> v.batches[i] == w.batches[i])
  {
  }

  /** Without confirmation nothing past the boundary is ever released, whatever others do meanwhile. */
  lemma UnconfirmedStaysBeforeBoundary(w: World, id: BatchId, force: bool, wallet: WalletReply, others: seq<Step>)
    requires Succeeds(w, id, force, false, wallet, others)
    ensures id < |Run(w, others).batches| && !Crossed(Run(w, others).batches[id].status) && !Run(w, others).batches[id].submitStartedAt
    ensures Consistent(w) && Lawful(w, others) ==> id !in Run(w, others).claimed
  {
    hide Run, Pinned, Booked, Conserved, SentOnce, Lawful;
    if Consistent(w) && Lawful(w, others) {
      RunKeeps(w, others);
    }
  }

  // ------------------------------------------------------------------
  // Where the wallet is not asked
  // ------------------------------------------------------------------

  /** One batch of one balance, in any state. */
  function OneBatch(b: Batch): World {
    World([b], map[0 := Balance(10, Some(0))], [], map[], {}, [], map[], map[0 := 10])
  }

  lemma OneBatchReserved(b: Batch)
    requires b.items == map[0 := 10]
    ensures |ReservedRows(OneBatch(b), 0)| == 1 == |b.items|
  {
    assert ReservedRows(OneBatch(b), 0) == {0};
    assert b.items.Keys == {0};
  }

  /**
   A row that says submitting but has no submit stamp, which the table allows, is released under force and
   confirmation although the wallet has a matching transfer.
   */
  lemma UnstampedIsReleasedUnchecked()
    ensures var w := OneBatch(NewBatch(map[0 := 10], 20).(status := Submitting));
      Succeeds(w, 0, true, true, MatchFound, [])
  {
  }

  /** A retrying row with a submit stamp is released without force, but only with the wallet's consent. */
  lemma StampedRetryingIsChecked(wallet: WalletReply)
    ensures var w := OneBatch(NewBatch(map[0 := 10], 20).(status := Retrying, submitStartedAt := true));
      Succeeds(w, 0, false, true, wallet, []) <==> wallet.NoMatch?
  {
    OneBatchReserved(NewBatch(map[0 := 10], 20).(status := Retrying, submitStartedAt := true));
  }

  /** One reserved batch of one balance. */
  function Example(): World {
    OneBatch(NewBatch(map[0 := 10], 20))
  }

  lemma ExampleConsistent()
    ensures Consistent(Example())
  {
    var w := Example();
    assert w.batches[..0] == [];
    assert Paid(w.batches, 0) == 0;
  }

  /** What a stale runtime makes of it. */
  function ExampleSent(): World {
    Example().(batches := [NewBatch(map[0 := 10], 20).(status := Submitting, submitStartedAt := true)], claimed := {0}, sent := [0])
  }

  lemma ExampleRuns()
    ensures var others := [Claim(7, 0, Reserved), Send(7, 0)];
      Lawful(Example(), others) && Run(Example(), others) == ExampleSent()
  {
    var claimed := Next(Example(), Claim(7, 0, Reserved));
    assert claimed == ExampleSent().(sent := [], holding := map[7 := 0]);
    assert Next(claimed, Send(7, 0)) == ExampleSent();
    var others := [Claim(7, 0, Reserved), Send(7, 0)];
    assert others[1..] == [Send(7, 0)] && others[1..][1..] == [];
  }

  /**
   The exception is real: confirmation on a batch loaded as reserved needs no wallet check, and if a stale runtime
   claims and sends the batch before the transaction, its balance is freed although the transfer was asked for.
   */
  lemma RaceReleasesSentBatch()
    ensures var others := [Claim(7, 0, Reserved), Send(7, 0)];
      && Consistent(Example()) && Lawful(Example(), others)
      && Succeeds(Example(), 0, false, true, Unavailable, others)
      && var v := Next(Run(Example(), others), Unlock(0, true, false));
         v.sent == [0] && v.balances == map[0 := Balance(10, None)]
  {
    hide Consistent, Run, Lawful;
    ExampleConsistent();
    ExampleRuns();
    ReservedAreItems(Example(), 0);
    assert |map[0 := 10]| == 1;
  }
}
