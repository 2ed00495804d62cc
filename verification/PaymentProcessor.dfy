/**
 The payment processor: submitting a reserved batch to the wallet,
 reconciling a batch that may have reached it, and recovering the batches in
 flight before new ones are planned.

 Between any two statements that wait, other processes may take any steps
 (`Interfere`); what the wallet and the lock check answer is a parameter. The
 processor carries its own view of a batch, a copy of the row as it was at
 some earlier time. Every contract says which writes the call tries, given
 the replies, and what its outcome says about the row.
 */
module PaymentProcessor {
  import opened Wrappers
  import opened PaymentBatches

  datatype Outcome = Cleared | Unresolved | NeedsReview

  /** What asking the wallet for a transaction key can answer. */
  datatype KeyReply = KeyRetry | KeyMissing | KeyFound(key: Hash)

  datatype Transfer = Transfer(matchesBatch: bool, txid: Option<Hash>, fee: Option<int>)

  datatype WalletMatch =
    | WalletUnavailable
    | NoMatch
    | MultipleMatches
    | IncompleteMatch
    | MatchedWaitingKey(hash: Hash, fee: int)
    | MatchedMissingKey(hash: Hash, fee: int)
    | Matched(hash: Hash, fee: int, key: Hash)

  datatype Visibility = Visible | TxNotFound | SearchUnavailable

  /** The reply to the transfer request. */
  datatype TransferReply = CheckedError | OtherError | Accepted(hash: Option<Hash>, fee: Option<int>, key: Option<Hash>)

  predicate PlausibleFee(fee: Option<int>) { fee.Some? && fee.value > MIN_SUCCESS_FEE_ATOMIC }

  function Matching(transfers: seq<Transfer>): seq<Transfer> {
    if transfers == [] then []
    else (if transfers[0].matchesBatch then [transfers[0]] else []) + Matching(transfers[1..])
  }

  /** Exactly one of the transfers, this one, matches. */
  ghost predicate OnlyMatch(transfers: seq<Transfer>, n: nat) {
    n < |transfers| && transfers[n].matchesBatch && forall i :: 0 <= i < |transfers| && i != n ==> !transfers[i].matchesBatch
  }

  ghost predicate TwoMatch(transfers: seq<Transfer>, i: nat, j: nat) {
    i < j < |transfers| && transfers[i].matchesBatch && transfers[j].matchesBatch
  }

  /** What a single match is worth. */
  ghost predicate Worth(t: Transfer, key: KeyReply, r: WalletMatch) {
    if t.txid.Some? && t.fee.Some? && t.fee.value > 10 then
      r == match key
           case KeyRetry => MatchedWaitingKey(t.txid.value, t.fee.value)
           case KeyMissing => MatchedMissingKey(t.txid.value, t.fee.value)
           case KeyFound(k) => Matched(t.txid.value, t.fee.value, k)
    else r == IncompleteMatch
  }

  /** The wallet's answer about a batch: only a single complete match is a match. */
  function FindWalletTransferMatch(transfers: Option<seq<Transfer>>, key: KeyReply): WalletMatch {
    if transfers.None? then WalletUnavailable else
    var matches := Matching(transfers.value);
    if |matches| > 1 then MultipleMatches
    else if |matches| == 0 then NoMatch
    else
      var t := matches[0];
      if t.txid.None? || !PlausibleFee(t.fee) then IncompleteMatch
      else match key
        case KeyRetry => MatchedWaitingKey(t.txid.value, t.fee.value)
        case KeyMissing => MatchedMissingKey(t.txid.value, t.fee.value)
        case KeyFound(k) => Matched(t.txid.value, t.fee.value, k)
  }

  /** What each answer means for the transfers the wallet listed. */
  lemma WalletMatchMeans(transfers: Option<seq<Transfer>>, key: KeyReply)
    ensures var r := FindWalletTransferMatch(transfers, key);
      && (r == WalletUnavailable <==> transfers == None)
      && (transfers.Some? ==>
            && (r == NoMatch <==> forall i :: 0 <= i < |transfers.value| ==> !transfers.value[i].matchesBatch)
            && (r == MultipleMatches <==> exists i: nat, j: nat :: TwoMatch(transfers.value, i, j))
            && (forall n: nat :: OnlyMatch(transfers.value, n) ==> Worth(transfers.value[n], key, r)))
  {
    if transfers.Some? {
      MatchingCounts(transfers.value);
      hide Matching;
    }
  }

  lemma {:induction false} MatchingCounts(transfers: seq<Transfer>)
    ensures |Matching(transfers)| == 0 <==> forall i :: 0 <= i < |transfers| ==> !transfers[i].matchesBatch
    ensures |Matching(transfers)| > 1 <==> exists i: nat, j: nat :: TwoMatch(transfers, i, j)
    ensures forall n: nat :: OnlyMatch(transfers, n) ==> Matching(transfers) == [transfers[n]]
  {
    if transfers != [] {
      var rest := transfers[1..];
      MatchingCounts(rest);
      assert forall i :: 0 <= i < |rest| ==> rest[i] == transfers[i + 1];
      TwoOfTail(transfers);
      OneOfTail(transfers);
    }
  }

  lemma TwoOfTail(transfers: seq<Transfer>)
    requires transfers != []
    ensures (exists i: nat, j: nat :: TwoMatch(transfers, i, j)) <==>
      || (exists i: nat, j: nat :: TwoMatch(transfers[1..], i, j))
      || (transfers[0].matchesBatch && exists j :: 0 <= j < |transfers[1..]| && transfers[1..][j].matchesBatch)
  {
    var rest := transfers[1..];
    if i: nat, j: nat :| TwoMatch(transfers, i, j) {
      assert rest[j - 1].matchesBatch;
      if i > 0 { assert TwoMatch(rest, i - 1, j - 1); }
    }
    if i: nat, j: nat :| TwoMatch(rest, i, j) {
      assert TwoMatch(transfers, i + 1, j + 1);
    }
    if transfers[0].matchesBatch && exists j :: 0 <= j < |rest| && rest[j].matchesBatch {
      var j :| 0 <= j < |rest| && rest[j].matchesBatch;
      assert TwoMatch(transfers, 0, j + 1);
    }
  }

  lemma OneOfTail(transfers: seq<Transfer>)
    requires transfers != []
    ensures forall n: nat :: OnlyMatch(transfers, n) ==>
      if n == 0 then forall i :: 0 <= i < |transfers[1..]| ==> !transfers[1..][i].matchesBatch
      else !transfers[0].matchesBatch && OnlyMatch(transfers[1..], n - 1)
  {
  }

  /** What the wallet, the lock and the books answer during one call; each question is asked at most once. */
  datatype LockReply = LockHeld | LockLost | LockUnknown

  datatype Replies = Replies(
    lock: LockReply, preflight: bool, lockAgain: LockReply, transfer: TransferReply,
    throttled: bool, transfers: Option<seq<Transfer>>, matchKey: KeyReply,
    acceptedKey: KeyReply, visibility: Visibility, finalKey: KeyReply, sqlOk: bool)

  // ------------------------------------------------------------------
  // What a call tries to write
  // ------------------------------------------------------------------

  datatype Attempt = Attempt(step: Step, done: bool)

  /** These writes were tried, in this order. */
  ghost predicate Tried(before: seq<Attempt>, after: seq<Attempt>, steps: seq<Step>) {
    && before <= after && |after| == |before| + |steps|
    && forall i :: 0 <= i < |steps| ==> after[|before| + i].step == steps[i]
  }

  /** The last of the writes was a booking that went through. */
  ghost predicate BookedLast(before: seq<Attempt>, after: seq<Attempt>) {
    |before| < |after| && after[|after| - 1].step.Finalize? && after[|after| - 1].done
  }

  /** A batch is booked with its hash, and with its key or the one the wallet gives now; without either it waits or is for review. */
  ghost function FinalizeSteps(id: BatchId, view: Batch, r: Replies): seq<Step> {
    if view.txHash == None then [Escalate(id, view.status, None, None, None)]
    else if view.txKey == None && r.finalKey == KeyRetry then []
    else if view.txKey == None && r.finalKey == KeyMissing then [Escalate(id, view.status, view.txHash, None, Some(view.totalFee))]
    else if !r.sqlOk then []
    else [Finalize(id, view.status, view.txHash, if view.txKey == None then Some(r.finalKey.key) else view.txKey, view.totalFee)]
  }

  /** A recorded transfer is booked once the wallet shows it. */
  ghost function SubmittedSteps(id: BatchId, view: Batch, r: Replies): seq<Step> {
    if view.totalFee <= 10 then [Escalate(id, view.status, view.txHash, None, Some(view.totalFee))]
    else if r.visibility == Visible then FinalizeSteps(id, view, r)
    else []
  }

  /** The row as it is once the transfer was recorded. */
  ghost function Recorded(view: Batch, hash: Hash, key: Option<Hash>, fee: int): Batch {
    view.(status := Submitted, submittedAt := true, txHash := Some(hash), txKey := key, totalFee := fee)
  }

  /** A batch that may have reached the wallet: one complete match is recorded and booked, several are for review, otherwise it waits. */
  ghost predicate ReconcileDid(before: seq<Attempt>, after: seq<Attempt>, id: BatchId, view: Batch, r: Replies) {
    if r.throttled then Tried(before, after, [])
    else if view.status == Submitted then Tried(before, after, SubmittedSteps(id, view, r))
    else
      match FindWalletTransferMatch(r.transfers, r.matchKey)
      case MultipleMatches => Tried(before, after, [Escalate(id, view.status, None, None, None)])
      case MatchedMissingKey(hash, fee) => Tried(before, after, [Escalate(id, view.status, Some(hash), None, Some(fee))])
      case MatchedWaitingKey(hash, fee) => RecordDid(before, after, id, view, hash, None, fee, [])
      case Matched(hash, fee, k) => RecordDid(before, after, id, view, hash, Some(k), fee, FinalizeSteps(id, Recorded(view, hash, Some(k), fee), r))
      case _ => Tried(before, after, [])
  }

  /** The transfer is recorded, and only when that went through more is tried. */
  ghost predicate RecordDid(before: seq<Attempt>, after: seq<Attempt>, id: BatchId, view: Batch, hash: Hash, key: Option<Hash>, fee: int,
                            more: seq<Step>)
  {
    && |before| < |after|
    && Tried(before, after, [Persist(id, view.status, hash, key, fee)] + if after[|before|].done then more else [])
  }

  /** After an error that claims nothing was sent, anything that matches is for review. */
  ghost function CheckedSteps(id: BatchId, view: Batch, r: Replies): seq<Step> {
    match FindWalletTransferMatch(r.transfers, r.matchKey)
    case WalletUnavailable => []
    case NoMatch => []
    case MatchedWaitingKey(hash, fee) => [Escalate(id, view.status, Some(hash), None, Some(fee))]
    case MatchedMissingKey(hash, fee) => [Escalate(id, view.status, Some(hash), None, Some(fee))]
    case Matched(hash, fee, k) => [Escalate(id, view.status, Some(hash), Some(k), Some(fee))]
    case _ => [Escalate(id, view.status, None, None, None)]
  }

  /** An accepted transfer is recorded, with its key if there is one, and booked once the wallet shows it. */
  ghost predicate AcceptedDid(before: seq<Attempt>, after: seq<Attempt>, id: BatchId, view: Batch, hash: Hash, fee: int, replyKey: Option<Hash>,
                              r: Replies)
  {
    if replyKey == None && r.acceptedKey == KeyMissing then
      RecordDid(before, after, id, view, hash, None, fee, [Escalate(id, Submitted, Some(hash), None, Some(fee))])
    else
      var key := if replyKey == None && r.acceptedKey.KeyFound? then Some(r.acceptedKey.key) else replyKey;
      RecordDid(before, after, id, view, hash, key, fee,
        if r.visibility == Visible then FinalizeSteps(id, Recorded(view, hash, key, fee), r) else [])
  }

  /** Another process changed the row first: nothing is tried. */
  ghost predicate StoodDown(before: seq<Attempt>, after: seq<Attempt>, w: World, id: BatchId, view: Batch, outcome: Outcome) {
    after == before && Exact(w, id, outcome) && w.batches[id].status != view.status
  }

  /** What follows the request for the transfer. */
  ghost predicate ReplyDid(before: seq<Attempt>, after: seq<Attempt>, w: World, id: BatchId, view: Batch, outcome: Outcome, r: Replies) {
    if r.transfer == CheckedError then Tried(before, after, CheckedSteps(id, view, r))
    else if r.transfer.Accepted? && r.transfer.hash.Some? && r.transfer.fee.Some? && r.transfer.fee.value > 10 then
      AcceptedDid(before, after, id, view, r.transfer.hash.value, r.transfer.fee.value, r.transfer.key, r)
    else ReconcileDid(before, after, id, view, r) || StoodDown(before, after, w, id, view, outcome)
  }

  /** How a submission goes: the wallet is asked exactly when lock, funds, lock and claim allow it, in that order. */
  ghost predicate SubmitDid(before: seq<Attempt>, after: seq<Attempt>, w: World, me: Pid, id: BatchId, view: Batch, outcome: Outcome, asked: bool,
                            wasStopped: bool, stopped: bool, r: Replies)
  {
    if wasStopped || r.lock != LockHeld then
      !asked && after == before && outcome == Unresolved && stopped == (wasStopped || r.lock == LockLost)
    else if !r.preflight then
      && !asked && Exact(w, id, outcome) && !stopped
      && Tried(before, after,
           if view.submitStartedAt || view.submittedAt || view.txHash.Some? || view.txKey.Some? then [] else [HoldForRetry(id, view.status)])
    else if r.lockAgain != LockHeld then
      !asked && after == before && outcome == Unresolved && stopped == (r.lockAgain == LockLost)
    else
      var claim := Claim(me, id, view.status);
      if asked then
        exists now: Batch ::
          now.status.Submitting? && ReplyDid(before + [Attempt(claim, true)] + [Attempt(Send(me, id), true)], after, w, id, now, outcome, r)
      else
        after == before + [Attempt(claim, false)] && Exact(w, id, outcome) && stopped == outcome.NeedsReview?
  }

  /** How one batch in flight is recovered, by its status. */
  ghost predicate RecoverDid(before: seq<Attempt>, after: seq<Attempt>, w: World, me: Pid, id: BatchId, view: Batch, ok: bool, asked: bool,
                             wasStopped: bool, stopped: bool, r: Replies)
  {
    if view.status == ManualReview then !ok && stopped && after == before
    else if view.status == Retrying then
      exists outcome :: SubmitDid(before, after, w, me, id, view, outcome, asked, wasStopped, stopped, r) && (ok <==> outcome == Cleared)
    else if view.status == Reserved && !view.submitStartedAt then
      after == before + [Attempt(Release(id, view.status), ok)] && stopped == wasStopped
    else ReconcileDid(before, after, id, view, r) && (BookedLast(before, after) ==> ok)
  }

  lemma TriedThen(before: seq<Attempt>, middle: seq<Attempt>, after: seq<Attempt>, step: Step, more: seq<Step>)
    requires middle == before + [Attempt(step, true)] && Tried(middle, after, more)
    ensures before <= after && |before| < |after| && after[|before|].done && Tried(before, after, [step] + more)
    ensures BookedLast(before, after) && !step.Finalize? ==> BookedLast(middle, after)
  {
    assert after[|before|] == middle[|before|];
    forall i | 0 <= i < |more| + 1
      ensures after[|before| + i].step == ([step] + more)[i]
    {
      if i > 0 {
        assert after[|middle| + (i - 1)].step == more[i - 1];
      }
    }
  }

  lemma SameFinalizeSteps(id: BatchId, now: Batch, view: Batch, hash: Hash, key: Option<Hash>, fee: int, r: Replies)
    requires now.status.Submitted? && now.txHash == Some(hash) && now.txKey == key && now.totalFee == fee
    ensures FinalizeSteps(id, now, r) == FinalizeSteps(id, Recorded(view, hash, key, fee), r)
  {
  }

  lemma CheckedNeverBooks(before: seq<Attempt>, after: seq<Attempt>, id: BatchId, view: Batch, r: Replies)
    requires Tried(before, after, CheckedSteps(id, view, r))
    ensures !BookedLast(before, after)
  {
    var steps := CheckedSteps(id, view, r);
    if steps != [] {
      OneTried(before, after, steps[0]);
    }
  }

  lemma OneTried(before: seq<Attempt>, after: seq<Attempt>, step: Step)
    requires Tried(before, after, [step])
    ensures |after| == |before| + 1 && after[|before|].step == step
  {
    assert after[|before| + 0].step == [step][0];
  }

  /** A match that is recorded has a plausible fee. */
  lemma MatchIsPlausible(transfers: Option<seq<Transfer>>, key: KeyReply)
    ensures var m := FindWalletTransferMatch(transfers, key);
      m.Matched? || m.MatchedWaitingKey? || m.MatchedMissingKey? ==> m.fee > MIN_SUCCESS_FEE_ATOMIC
  {
  }

  // ------------------------------------------------------------------
  // Views and what they are worth
  // ------------------------------------------------------------------

  /** A world that follows from an earlier one. */
  ghost predicate Leads(u: World, w: World) {
    Consistent(u) && Consistent(w) && Evolves(u, w)
  }

  /** The view of a batch is what its row was at some time. */
  ghost predicate Seen(w: World, id: BatchId, view: Batch) {
    id < |w.batches| && RowOk(view) && RowEvolves(view, w.batches[id])
  }

  lemma LeadsTransitive(u: World, v: World, w: World)
    requires Leads(u, v) && Leads(v, w)
    ensures Leads(u, w)
  {
    hide Evolves, RowsOk, Pinned, Booked, Conserved, ClaimsKnown, SentOnce;
    EvolvesTransitive(u, v, w);
  }

  lemma SeenLater(v: World, w: World, id: BatchId, view: Batch)
    requires Leads(v, w) && Seen(v, id, view)
    ensures Seen(w, id, view)
  {
    hide RowOk, RowEvolves, Pinned, Booked, Conserved, ClaimsKnown, SentOnce;
    RowEvolvesTransitive(view, v.batches[id], w.batches[id]);
  }

  lemma SeenNow(w: World, id: BatchId)
    requires Consistent(w) && id < |w.batches|
    ensures Seen(w, id, w.batches[id])
  {
  }

  /** What a finished call says about the batch. */
  ghost predicate OutcomeTrue(w: World, id: BatchId, outcome: Outcome) {
    && id < |w.batches|
    && (outcome.Cleared? ==> w.batches[id].status.Finalized?)
    && (outcome.NeedsReview? ==> w.batches[id].status.ManualReview?)
  }

  /** The outcome says just what the row says. */
  ghost predicate Exact(w: World, id: BatchId, outcome: Outcome) {
    && id < |w.batches|
    && (outcome.Cleared? <==> w.batches[id].status.Finalized?)
    && (outcome.NeedsReview? <==> w.batches[id].status.ManualReview?)
  }

  /** A batch in flight that has left a status does not come back to it. */
  lemma NotBack(v: World, w: World, id: BatchId, view: Batch)
    requires Leads(v, w) && Seen(v, id, view) && !Current(v, id, view.status) && InFlight(view.status)
    ensures id < |w.batches| && w.batches[id].status != view.status
  {
    hide Pinned, Booked, Conserved, ClaimsKnown, SentOnce;
    assert RowOk(v.batches[id]);
    assert RowEvolves(v.batches[id], w.batches[id]);
  }

  function TransitionOutcome(view: Batch): Outcome {
    if view.status.Finalized? then Cleared
    else if view.status.ManualReview? then NeedsReview
    else Unresolved
  }

  lemma TransitionOutcomeTrue(w: World, id: BatchId, view: Batch)
    requires Seen(w, id, view)
    ensures OutcomeTrue(w, id, TransitionOutcome(view))
  {
  }

  /** The batch a process is about to send. */
  function Held(w: World, p: Pid): Option<BatchId> {
    if p in w.holding then Some(w.holding[p]) else None
  }

  /** A claim or a request of this process. */
  predicate TakenBy(s: Step, p: Pid) {
    (s.Claim? || s.Send?) && s.pid == p
  }

  class Processor {
    /** Which process this is; the others have other names. */
    const me: Pid

    var w: World
    var failStop: bool

    /** The transfers this process has asked the wallet for. */
    ghost var requests: seq<BatchId>

    /** The writes this process has tried. */
    ghost var tried: seq<Attempt>

    constructor (me: Pid)
      ensures Calm(w) && !failStop && requests == [] && tried == [] && this.me == me
    {
      this.me := me;
      w := World([], map[], [], map[], {}, [], map[], map[]);
      failStop := false;
      requests, tried := [], [];
    }

    /** The tables follow from earlier ones, and this process is not about to send anything. */
    ghost predicate Calm(u: World)
      reads this
    {
      Leads(u, w) && me !in w.holding
    }

    /** While this process waits, other processes take any steps they may take. */
    method Interfere(ghost u: World, id: BatchId, ghost view: Batch)
      requires Leads(u, w) && Seen(w, id, view)
      modifies this`w
      ensures Leads(u, w) && Seen(w, id, view)
      ensures Held(w, me) == Held(old(w), me)
    {
      hide Consistent, Evolves, RowOk, RowEvolves, Next, Allowed, Held;
      var steps: seq<Step> := *;
      for k := 0 to |steps|
        invariant Leads(u, w) && Seen(w, id, view)
        invariant Held(w, me) == Held(old(w), me)
      {
        var s := steps[k];
        if Allowed(w, s) && !TakenBy(s, me) {
          HeldBy(w, s, me);
          StepLeads(u, w, s, id, view);
          w := Next(w, s);
        }
      }
    }

    /** One write of this process. */
    method Write(ghost u: World, s: Step, id: BatchId, ghost view: Batch) returns (done: bool)
      requires Leads(u, w) && Seen(w, id, view) && Allowed(w, s)
      modifies this`w, this`tried
      ensures done == Applies(old(w), s) && w == Next(old(w), s)
      ensures tried == old(tried) + [Attempt(s, done)]
      ensures Leads(u, w) && Seen(w, id, view)
      ensures !TakenBy(s, me) ==> Held(w, me) == Held(old(w), me)
    {
      hide Consistent, Evolves, RowOk, RowEvolves, Allowed;
      done := Applies(w, s);
      if !TakenBy(s, me) {
        HeldBy(w, s, me);
      }
      StepLeads(u, w, s, id, view);
      w := Next(w, s);
      tried := tried + [Attempt(s, done)];
    }

    /** Reads the row again after a write that did not find what it expected. */
    method Reload(ghost u: World, id: BatchId, ghost view: Batch) returns (now: Batch)
      requires Calm(u) && Seen(w, id, view)
      modifies this`w
      ensures Calm(u) && Seen(w, id, now) && now == w.batches[id]
      ensures Leads(old(w), w)
    {
      hide Consistent, Evolves, RowOk, RowEvolves;
      ghost var before := w;
      LeadsSelf(w);
      Interfere(before, id, view);
      LeadsTransitive(u, before, w);
      now := w.batches[id];
      SeenNow(w, id);
    }

    /** A guarded update of notes only: attempts, stamps of the last reconcile, error texts. */
    method Annotate(ghost u: World, id: BatchId, view: Batch) returns (done: bool, now: Batch)
      requires Calm(u) && Seen(w, id, view)
      modifies this`w
      ensures Calm(u) && Seen(w, id, now)
      ensures done ==> now == view && w.batches[id].status == view.status
      ensures !done ==> now == w.batches[id] && (InFlight(view.status) ==> now.status != view.status)
    {
      hide Consistent, Evolves, RowOk, RowEvolves;
      Interfere(u, id, view);
      done, now := Current(w, id, view.status), view;
      if !done {
        ghost var before := w;
        now := Reload(u, id, view);
        if InFlight(view.status) { NotBack(before, w, id, view); }
      }
    }

    /** Keeps the batch as it is until a later pass can settle it. */
    method HoldBatch(ghost u: World, id: BatchId, view: Batch) returns (outcome: Outcome)
      requires Calm(u) && Seen(w, id, view) && InFlight(view.status) && !view.status.ManualReview?
      modifies this`w
      ensures Calm(u) && Exact(w, id, outcome)
    {
      hide Consistent, Evolves, RowOk, RowEvolves;
      var done, now := Annotate(u, id, view);
      outcome := if done then Unresolved else TransitionOutcome(now);
    }

    /** Reopens a batch that never crossed the submit boundary for another submission; holds any other. */
    method HoldBatchForRetry(ghost u: World, id: BatchId, view: Batch) returns (outcome: Outcome)
      requires Calm(u) && Seen(w, id, view) && (view.status.Reserved? || view.status.Retrying?)
      modifies this`w, this`tried
      ensures Calm(u) && Exact(w, id, outcome)
      ensures Tried(old(tried), tried,
        if view.submitStartedAt || view.submittedAt || view.txHash.Some? || view.txKey.Some? then [] else [HoldForRetry(id, view.status)])
    {
      hide Consistent, Evolves, RowOk, RowEvolves;
      if view.submitStartedAt || view.submittedAt || view.txHash.Some? || view.txKey.Some? {
        outcome := HoldBatch(u, id, view);
        return;
      }
      Interfere(u, id, view);
      var done := Write(u, HoldForRetry(id, view.status), id, view);
      if done { return Unresolved; }
      var now := Reload(u, id, view);
      outcome := TransitionOutcome(now);
    }

    /** Hands an ambiguous batch to the operator and stops the runtime. */
    method MarkManualReview(ghost u: World, id: BatchId, view: Batch, hash: Option<Hash>, key: Option<Hash>, fee: Option<int>)
      returns (outcome: Outcome)
      requires Calm(u) && Seen(w, id, view) && (view.status.Submitting? || view.status.Submitted?)
      requires view.status.Submitted? && hash.Some? ==> hash == view.txHash
      modifies this`w, this`failStop, this`tried
      ensures Calm(u) && Exact(w, id, outcome)
      ensures failStop == (old(failStop) || outcome.NeedsReview?)
      ensures Tried(old(tried), tried, [Escalate(id, view.status, hash, key, fee)]) && !BookedLast(old(tried), tried)
    {
      hide Consistent, Evolves, RowOk, RowEvolves;
      Interfere(u, id, view);
      EscalateAllowed(w, id, view, hash, key, fee);
      var done := Write(u, Escalate(id, view.status, hash, key, fee), id, view);
      if !done {
        var now := Reload(u, id, view);
        outcome := TransitionOutcome(now);
        if outcome.NeedsReview? { failStop := true; }
        return;
      }
      failStop := true;
      outcome := NeedsReview;
    }

    /** The durable record of the transfer; a stale runtime does not overwrite what another one settled. */
    method PersistSubmitted(ghost u: World, id: BatchId, view: Batch, hash: Hash, key: Option<Hash>, fee: int)
      returns (done: bool, now: Batch)
      requires Calm(u) && Seen(w, id, view) && view.status.Submitting? && fee > MIN_SUCCESS_FEE_ATOMIC
      modifies this`w, this`tried
      ensures Calm(u) && Seen(w, id, now) && now == w.batches[id]
      ensures done ==> now.status.Submitted? && now.txHash == Some(hash) && now.txKey == key && now.totalFee == fee
      ensures tried == old(tried) + [Attempt(Persist(id, view.status, hash, key, fee), done)]
    {
      hide Consistent, Evolves, RowOk, RowEvolves;
      Interfere(u, id, view);
      done := Write(u, Persist(id, view.status, hash, key, fee), id, view);
      if done {
        now := w.batches[id];
        SeenNow(w, id);
      } else {
        now := Reload(u, id, view);
      }
    }

    /** Books the payment: transaction and payment rows, the balances and the batch, all or nothing. */
    method FinalizeBatch(ghost u: World, id: BatchId, view: Batch, r: Replies) returns (finalized: bool)
      requires Calm(u) && Seen(w, id, view) && view.status.Submitted?
      modifies this`w, this`failStop, this`tried
      ensures Calm(u) && id < |w.batches|
      ensures finalized ==> w.batches[id].status.Finalized? && failStop == old(failStop)
      ensures Tried(old(tried), tried, FinalizeSteps(id, view, r))
      ensures finalized <==> BookedLast(old(tried), tried)
    {
      hide Consistent, Evolves, RowOk, RowEvolves;
      if view.txHash.None? {
        var _ := MarkManualReview(u, id, view, None, None, None);
        return false;
      }
      var key := view.txKey;
      if key.None? {
        Interfere(u, id, view);
        match r.finalKey {
          case KeyRetry =>
            var _ := HoldBatch(u, id, view);
            return false;
          case KeyMissing =>
            var _ := MarkManualReview(u, id, view, view.txHash, None, Some(view.totalFee));
            return false;
          case KeyFound(k) => key := Some(k);
        }
      }
      finalized := Book(u, id, view, key, r.sqlOk);
    }

    /** The transaction that books the payment. */
    method Book(ghost u: World, id: BatchId, view: Batch, key: Option<Hash>, sqlOk: bool) returns (finalized: bool)
      requires Calm(u) && Seen(w, id, view) && view.status.Submitted?
      modifies this`w, this`tried
      ensures Calm(u) && id < |w.batches|
      ensures finalized ==> w.batches[id].status.Finalized?
      ensures Tried(old(tried), tried, if sqlOk then [Finalize(id, view.status, view.txHash, key, view.totalFee)] else [])
      ensures finalized <==> BookedLast(old(tried), tried)
    {
      hide Consistent, Evolves, RowOk, RowEvolves;
      Interfere(u, id, view);
      FinalizeAllowed(w, id, view, key);
      finalized := false;
      if sqlOk {
        finalized := Write(u, Finalize(id, view.status, view.txHash, key, view.totalFee), id, view);
      }
      if !finalized {
        var _, _ := Annotate(u, id, view);
      }
    }

    /** Frees the balances of a batch that never crossed the submit boundary. */
    method ReleaseReservation(ghost u: World, id: BatchId, view: Batch) returns (released: bool)
      requires Calm(u) && Seen(w, id, view) && view.status.Reserved?
      modifies this`w, this`tried
      ensures Calm(u) && id < |w.batches|
      ensures released ==> w.batches[id].status.Retryable?
      ensures tried == old(tried) + [Attempt(Release(id, view.status), released)]
    {
      hide Consistent, Evolves, RowOk, RowEvolves;
      Interfere(u, id, view);
      released := Write(u, Release(id, view.status), id, view);
    }

    /** A batch with a known transfer waits for the wallet to show it, and is then booked. */
    method ReconcileSubmitted(ghost u: World, id: BatchId, view: Batch, r: Replies) returns (outcome: Outcome)
      requires Calm(u) && Seen(w, id, view) && view.status.Submitted?
      modifies this`w, this`failStop, this`tried
      ensures Calm(u) && OutcomeTrue(w, id, outcome)
      ensures outcome.Cleared? ==> failStop == old(failStop)
      ensures Tried(old(tried), tried, SubmittedSteps(id, view, r))
      ensures BookedLast(old(tried), tried) ==> outcome.Cleared?
    {
      hide Consistent, Evolves, RowOk, RowEvolves, FinalizeSteps;
      if !PlausibleFee(Some(view.totalFee)) {
        outcome := MarkManualReview(u, id, view, view.txHash, None, Some(view.totalFee));
        return;
      }
      Interfere(u, id, view);
      if r.visibility != Visible {
        outcome := HoldBatch(u, id, view);
        return;
      }
      var finalized := FinalizeBatch(u, id, view, r);
      outcome := if finalized then Cleared else Unresolved;
    }

    /** Records a transfer that was found or accepted, and books it when that went through. */
    method RecordAndFinalize(ghost u: World, id: BatchId, view: Batch, hash: Hash, key: Option<Hash>, fee: int, books: bool, r: Replies)
      returns (outcome: Outcome)
      requires Calm(u) && Seen(w, id, view) && view.status.Submitting? && fee > MIN_SUCCESS_FEE_ATOMIC
      modifies this`w, this`failStop, this`tried
      ensures Calm(u) && OutcomeTrue(w, id, outcome)
      ensures outcome.Cleared? ==> failStop == old(failStop)
      ensures RecordDid(old(tried), tried, id, view, hash, key, fee, if books then FinalizeSteps(id, Recorded(view, hash, key, fee), r) else [])
      ensures BookedLast(old(tried), tried) ==> outcome.Cleared?
    {
      hide Consistent, Evolves, RowOk, RowEvolves, FinalizeSteps;
      ghost var before := tried;
      var done, now := PersistSubmitted(u, id, view, hash, key, fee);
      if !done { return TransitionOutcome(now); }
      Interfere(u, id, now);
      ghost var more := if books then FinalizeSteps(id, Recorded(view, hash, key, fee), r) else [];
      if !books {
        outcome := HoldBatch(u, id, now);
      } else {
        ghost var persisted := tried;
        SameFinalizeSteps(id, now, view, hash, key, fee, r);
        var finalized := FinalizeBatch(u, id, now, r);
        TriedThen(before, persisted, tried, Persist(id, view.status, hash, key, fee), more);
        outcome := if finalized then Cleared else Unresolved;
      }
    }

    /** A batch that may have reached the wallet is never submitted again: it is matched, held or handed over. */
    method ReconcileBatch(ghost u: World, id: BatchId, view: Batch, r: Replies) returns (outcome: Outcome)
      requires Calm(u) && Seen(w, id, view) && (view.status.Submitting? || view.status.Submitted?)
      modifies this`w, this`failStop, this`tried
      ensures Calm(u) && OutcomeTrue(w, id, outcome)
      ensures outcome.Cleared? ==> failStop == old(failStop)
      ensures ReconcileDid(old(tried), tried, id, view, r)
      ensures BookedLast(old(tried), tried) ==> outcome.Cleared?
    {
      hide Consistent, Evolves, RowOk, RowEvolves, FinalizeSteps, SubmittedSteps;
      if r.throttled { return Unresolved; }
      if view.status.Submitted? {
        outcome := ReconcileSubmitted(u, id, view, r);
        return;
      }
      Interfere(u, id, view);
      MatchIsPlausible(r.transfers, r.matchKey);
      match FindWalletTransferMatch(r.transfers, r.matchKey)
      case MultipleMatches => outcome := MarkManualReview(u, id, view, None, None, None);
      case MatchedMissingKey(hash, fee) => outcome := MarkManualReview(u, id, view, Some(hash), None, Some(fee));
      case MatchedWaitingKey(hash, fee) => outcome := RecordAndFinalize(u, id, view, hash, None, fee, false, r);
      case Matched(hash, fee, k) => outcome := RecordAndFinalize(u, id, view, hash, Some(k), fee, true, r);
      case _ => outcome := HoldBatch(u, id, view);
    }

    /** After a wallet error that claims nothing was sent, a matching transfer is for the operator to judge. */
    method ReconcileCheckedError(ghost u: World, id: BatchId, view: Batch, r: Replies) returns (outcome: Outcome)
      requires Calm(u) && Seen(w, id, view) && view.status.Submitting?
      modifies this`w, this`failStop, this`tried
      ensures Calm(u) && Exact(w, id, outcome)
      ensures outcome.Cleared? ==> failStop == old(failStop)
      ensures Tried(old(tried), tried, CheckedSteps(id, view, r))
    {
      hide Consistent, Evolves, RowOk, RowEvolves;
      Interfere(u, id, view);
      match FindWalletTransferMatch(r.transfers, r.matchKey)
      case WalletUnavailable => outcome := HoldBatch(u, id, view);
      case NoMatch => outcome := HoldBatch(u, id, view);
      case MatchedWaitingKey(hash, fee) => outcome := MarkManualReview(u, id, view, Some(hash), None, Some(fee));
      case MatchedMissingKey(hash, fee) => outcome := MarkManualReview(u, id, view, Some(hash), None, Some(fee));
      case Matched(hash, fee, k) => outcome := MarkManualReview(u, id, view, Some(hash), Some(k), Some(fee));
      case _ => outcome := MarkManualReview(u, id, view, None, None, None);
    }

    method ReconcileAmbiguous(ghost u: World, id: BatchId, view: Batch, r: Replies) returns (outcome: Outcome)
      requires Calm(u) && Seen(w, id, view) && view.status.Submitting?
      modifies this`w, this`failStop, this`tried
      ensures Calm(u) && OutcomeTrue(w, id, outcome)
      ensures outcome.Cleared? ==> failStop == old(failStop)
      ensures ReconcileDid(old(tried), tried, id, view, r) || StoodDown(old(tried), tried, w, id, view, outcome)
      ensures BookedLast(old(tried), tried) ==> outcome.Cleared?
    {
      hide Consistent, Evolves, RowOk, RowEvolves, ReconcileDid;
      var done, now := Annotate(u, id, view);
      if !done { return TransitionOutcome(now); }
      outcome := ReconcileBatch(u, id, now, r);
      if !outcome.Cleared? { outcome := Unresolved; }
    }

    /** Whether this process still holds the advisory lock; finding it lost stops the runtime. */
    method CheckExclusiveAccess(lock: LockReply) returns (ok: bool)
      modifies this`failStop
      ensures ok <==> !old(failStop) && lock == LockHeld
      ensures failStop == (old(failStop) || lock == LockLost)
    {
      if failStop { return false; }
      ok := lock.LockHeld?;
      if lock.LockLost? { failStop := true; }
    }

    /** Takes the batch over the submit boundary, unless its row is no longer what this process saw. */
    method ClaimForSubmit(ghost u: World, id: BatchId, view: Batch) returns (claimed: bool, now: Batch)
      requires Calm(u) && Seen(w, id, view) && (view.status.Reserved? || view.status.Retrying?)
      modifies this`w, this`tried
      ensures Leads(u, w) && Seen(w, id, now) && now == w.batches[id]
      ensures Held(w, me) == if claimed then Some(id) else None
      ensures claimed ==> now.status.Submitting? && id !in old(w.claimed)
      ensures tried == old(tried) + [Attempt(Claim(me, id, view.status), claimed)]
    {
      hide Consistent, Evolves, RowOk, RowEvolves;
      ghost var before := w;
      LeadsSelf(w);
      Interfere(before, id, view);
      if Applies(w, Claim(me, id, view.status)) {
        ClaimIsFirst(w, id, view.status);
      }
      NotClaimedBefore(before, w, id);
      LeadsTransitive(u, before, w);
      claimed := Write(u, Claim(me, id, view.status), id, view);
      if claimed {
        now := w.batches[id];
        SeenNow(w, id);
      } else {
        now := Reload(u, id, view);
      }
    }

    /** Another process has the batch: stand down. */
    method HandleLostSubmitClaim(id: BatchId, view: Batch) returns (outcome: Outcome)
      requires Seen(w, id, view)
      modifies this`failStop
      ensures OutcomeTrue(w, id, outcome)
      ensures outcome.Cleared? <==> view.status.Finalized?
      ensures outcome.NeedsReview? <==> view.status.ManualReview?
      ensures failStop == (old(failStop) || outcome.NeedsReview?)
    {
      hide Consistent, Evolves, RowOk, RowEvolves;
      TransitionOutcomeTrue(w, id, view);
      outcome := TransitionOutcome(view);
      if outcome.NeedsReview? { failStop := true; }
    }

    /** What follows once the wallet has accepted the transfer. */
    method RecordAccepted(ghost u: World, id: BatchId, view: Batch, hash: Hash, fee: int, replyKey: Option<Hash>, r: Replies)
      returns (outcome: Outcome)
      requires Calm(u) && Seen(w, id, view) && view.status.Submitting? && fee > MIN_SUCCESS_FEE_ATOMIC
      modifies this`w, this`failStop, this`tried
      ensures Calm(u) && OutcomeTrue(w, id, outcome)
      ensures outcome.Cleared? ==> failStop == old(failStop)
      ensures AcceptedDid(old(tried), tried, id, view, hash, fee, replyKey, r)
      ensures BookedLast(old(tried), tried) ==> outcome.Cleared?
    {
      hide Consistent, Evolves, RowOk, RowEvolves, FinalizeSteps;
      var key := replyKey;
      if key.None? {
        Interfere(u, id, view);
        match r.acceptedKey {
          case KeyFound(k) => key := Some(k);
          case KeyRetry =>
          case KeyMissing =>
            var done, now := PersistSubmitted(u, id, view, hash, None, fee);
            if !done { return TransitionOutcome(now); }
            outcome := MarkManualReview(u, id, now, Some(hash), None, Some(fee));
            return;
        }
      }
      outcome := RecordAndFinalize(u, id, view, hash, key, fee, r.visibility == Visible, r);
    }

    /** The one request for the transfer, and what its reply leads to. */
    method AskWallet(ghost u: World, id: BatchId, view: Batch, r: Replies) returns (outcome: Outcome)
      requires Leads(u, w) && Seen(w, id, view) && view.status.Submitting?
      requires Held(w, me) == Some(id)
      modifies this
      ensures Calm(u) && OutcomeTrue(w, id, outcome)
      ensures outcome.Cleared? ==> failStop == old(failStop)
      ensures id in w.sent && requests == old(requests) + [id]
      ensures ReplyDid(old(tried) + [Attempt(Send(me, id), true)], tried, w, id, view, outcome, r)
      ensures BookedLast(old(tried) + [Attempt(Send(me, id), true)], tried) ==> outcome.Cleared?
    {
      hide Consistent, Evolves, RowOk, RowEvolves, ReconcileDid, AcceptedDid, CheckedSteps, StoodDown;
      var _ := Write(u, Send(me, id), id, view);
      requests := requests + [id];
      ghost var v := w;
      LeadsSelf(w);
      Interfere(v, id, view);
      match r.transfer {
        case CheckedError =>
          ghost var asked := tried;
          outcome := ReconcileCheckedError(v, id, view, r);
          CheckedNeverBooks(asked, tried, id, view, r);
        case OtherError => outcome := ReconcileAmbiguous(v, id, view, r);
        case Accepted(hash, fee, key) =>
          if hash.None? || !PlausibleFee(fee) {
            outcome := ReconcileAmbiguous(v, id, view, r);
          } else {
            outcome := RecordAccepted(v, id, view, hash.value, fee.value, key, r);
          }
      }
      SentStays(v, w, id);
      LeadsTransitive(u, v, w);
    }

    /**
     Submits a batch. The wallet is asked only when this call took the batch over the submit boundary, which no
     call had done before, with the lock checked twice and the funds there; a batch reported cleared is finalised,
     whoever finalised it.
     */
    method SubmitReservedBatch(ghost u: World, id: BatchId, view: Batch, r: Replies) returns (outcome: Outcome, asked: bool)
      requires Calm(u) && Seen(w, id, view) && (view.status.Reserved? || view.status.Retrying?)
      modifies this
      ensures Calm(u) && OutcomeTrue(w, id, outcome)
      ensures outcome.Cleared? ==> failStop == old(failStop)
      ensures outcome.Cleared? ==> !old(failStop)
      ensures asked ==> id !in old(w.claimed) && id in w.sent
      ensures requests == if asked then old(requests) + [id] else old(requests)
      ensures SubmitDid(old(tried), tried, w, me, id, view, outcome, asked, old(failStop), failStop, r)
    {
      hide Consistent, Evolves, RowOk, RowEvolves, ReplyDid;
      asked := false;
      ghost var start := w;
      LeadsSelf(w);
      var ok := CheckExclusiveAccess(r.lock);
      if !ok { return Unresolved, false; }
      Interfere(start, id, view);
      LeadsTransitive(u, start, w);
      if !r.preflight {
        outcome := HoldBatchForRetry(u, id, view);
        return;
      }
      ok := CheckExclusiveAccess(r.lockAgain);
      if !ok { return Unresolved, false; }
      ghost var before := w;
      var claimed, now := ClaimForSubmit(u, id, view);
      if !claimed {
        outcome := HandleLostSubmitClaim(id, now);
        return;
      }
      NotClaimedBefore(start, before, id);
      Interfere(u, id, now);
      outcome := AskWallet(u, id, now, r);
      asked := true;
    }

    /**
     Settles every batch in flight before new ones are planned. When it succeeds, every batch there was is
     finalised or released, whatever other processes did meanwhile, and nothing made the runtime stop. Otherwise it
     ended at one that was in flight, with all before it settled. The wallet is asked only for batches that were
     waiting for a retry.
     */
    method RecoverPendingBatches(replies: nat -> Replies, locks: nat -> LockReply) returns (ok: bool, ghost endedAt: nat)
      requires Consistent(w) && me !in w.holding
      modifies this
      ensures Calm(old(w))
      ensures ok ==> failStop == old(failStop)
      ensures endedAt <= |old(w.batches)| <= |w.batches| && (ok <==> endedAt == |old(w.batches)|)
      ensures forall i :: 0 <= i < endedAt ==> !InFlight(w.batches[i].status)
      ensures forall i :: 0 <= i < endedAt && InFlight(old(w.batches)[i].status) ==> !old(failStop) && locks(i) == LockHeld
      ensures !ok ==> InFlight(old(w.batches)[endedAt].status)
      ensures |old(requests)| <= |requests| && OnlyRetries(old(w).batches, requests[|old(requests)|..])
    {
      hide Consistent, Evolves, RowOk, RowEvolves, RecoverDid;
      ghost var start := w;
      LeadsSelf(w);
      var batches := w.batches;
      for k := 0 to |batches|
        invariant start == old(w) && start.batches == batches && Calm(start)
        invariant failStop == old(failStop)
        invariant |old(requests)| <= |requests| && OnlyRetries(batches, requests[|old(requests)|..])
        invariant k <= |w.batches| && forall i :: 0 <= i < k ==> !InFlight(w.batches[i].status)
        invariant forall i :: 0 <= i < k && InFlight(batches[i].status) ==> !old(failStop) && locks(i) == LockHeld
      {
        var batch := batches[k];
        endedAt := k;
        ghost var before, requestsBefore := w, requests;
        LeadsSelf(w);
        SeenFrom(start, w, k);
        LeadsLength(start, w);
        if InFlight(batch.status) {
          ok := CheckExclusiveAccess(locks(k));
          if !ok { return; }
          ok := RecoverBatch(before, k, batch, replies(k));
          LeadsTransitive(start, before, w);
          LeadsLength(start, w);
          RetriesMore(batches, old(requests), requestsBefore, requests, k);
          SettledBefore(before, w, k);
          if !ok { return; }
        } else {
          SettledSeen(w, k, batch);
        }
        SettledStay(before, w, k);
      }
      LeadsLength(start, w);
      ok, endedAt := true, |batches|;
    }

    /** One batch as the query found it. */
    method RecoverBatch(ghost u: World, id: BatchId, view: Batch, r: Replies) returns (ok: bool)
      requires Calm(u) && Seen(w, id, view) && InFlight(view.status)
      modifies this
      ensures Calm(u) && id < |w.batches|
      ensures ok ==> failStop == old(failStop) && !InFlight(w.batches[id].status)
      ensures requests == old(requests) || (view.status.Retrying? && requests == old(requests) + [id])
      ensures RecoverDid(old(tried), tried, w, me, id, view, ok, requests != old(requests), old(failStop), failStop, r)
    {
      hide Consistent, Evolves, RowOk, RowEvolves, SubmitDid, ReconcileDid;
      Interfere(u, id, view);
      if view.status.ManualReview? {
        failStop := true;
        return false;
      }
      if view.status.Retrying? {
        var outcome, asked := SubmitReservedBatch(u, id, view, r);
        return outcome.Cleared?;
      }
      if view.status.Reserved? && !view.submitStartedAt {
        ok := ReleaseReservation(u, id, view);
        return;
      }
      NotReserved(view);
      var outcome := ReconcileBatch(u, id, view, r);
      ok := outcome.Cleared?;
    }
  }

  /** Every request is for a batch that was waiting for a retry. */
  predicate OnlyRetries(batches: seq<Batch>, requests: seq<BatchId>) {
    forall k :: 0 <= k < |requests| ==> requests[k] < |batches| && batches[requests[k]].status.Retrying?
  }

  lemma RetriesMore(batches: seq<Batch>, start: seq<BatchId>, before: seq<BatchId>, after: seq<BatchId>, id: BatchId)
    requires |start| <= |before| && OnlyRetries(batches, before[|start|..]) && id < |batches|
    requires after == before || (batches[id].status.Retrying? && after == before + [id])
    ensures |start| <= |after| && OnlyRetries(batches, after[|start|..])
  {
  }

  lemma LeadsSelf(w: World)
    requires Consistent(w)
    ensures Leads(w, w)
  {
    hide RowEvolves, RowsOk, Pinned, Booked, Conserved, ClaimsKnown, SentOnce;
    RowReflexive(w.batches);
  }

  lemma NotClaimedBefore(v: World, w: World, id: BatchId)
    requires Leads(v, w)
    ensures id !in w.claimed ==> id !in v.claimed
  {
    hide Consistent;
  }

  lemma SentStays(v: World, w: World, id: BatchId)
    requires Leads(v, w) && id in v.sent
    ensures id in w.sent
  {
    hide Consistent;
    assert forall k :: 0 <= k < |v.sent| ==> v.sent[k] == w.sent[k];
  }

  lemma SeenFrom(start: World, w: World, id: BatchId)
    requires Leads(start, w) && id < |start.batches|
    ensures Seen(w, id, start.batches[id])
  {
    hide Pinned, Booked, Conserved, ClaimsKnown, SentOnce, RowOk, RowEvolves;
  }

  lemma SettledSeen(w: World, id: BatchId, view: Batch)
    requires Seen(w, id, view) && !InFlight(view.status)
    ensures !InFlight(w.batches[id].status)
  {
  }

  lemma LeadsLength(v: World, w: World)
    requires Leads(v, w)
    ensures |v.batches| <= |w.batches|
  {
    hide Consistent;
  }

  lemma SettledBefore(v: World, w: World, n: nat)
    requires Leads(v, w) && n <= |v.batches|
    requires forall i :: 0 <= i < n ==> !InFlight(v.batches[i].status)
    ensures n <= |w.batches| && forall i :: 0 <= i < n ==> !InFlight(w.batches[i].status)
  {
    hide Consistent;
    assert forall i :: 0 <= i < n ==> RowEvolves(v.batches[i], w.batches[i]);
  }

  lemma SettledStay(v: World, w: World, n: nat)
    requires Leads(v, w) && n < |v.batches|
    requires forall i :: 0 <= i < n ==> !InFlight(v.batches[i].status)
    ensures n < |w.batches| && forall i :: 0 <= i < n ==> !InFlight(w.batches[i].status)
    ensures !InFlight(v.batches[n].status) ==> !InFlight(w.batches[n].status)
  {
    hide Consistent;
    assert forall i :: 0 <= i <= n ==> RowEvolves(v.batches[i], w.batches[i]);
  }

  /** A batch past its reservation that is in flight and not for review has crossed the boundary. */
  lemma NotReserved(view: Batch)
    requires RowOk(view) && InFlight(view.status) && !view.status.ManualReview? && !view.status.Retrying?
    requires !(view.status.Reserved? && !view.submitStartedAt)
    ensures view.status.Submitting? || view.status.Submitted?
  {
  }

  lemma StepLeads(u: World, w: World, s: Step, id: BatchId, view: Batch)
    requires Leads(u, w) && Seen(w, id, view) && Allowed(w, s)
    ensures Leads(u, Next(w, s)) && Seen(Next(w, s), id, view)
  {
    hide Consistent, Evolves, RowOk, RowEvolves, Next, Allowed;
    StepKeeps(w, s);
    LeadsTransitive(u, w, Next(w, s));
    SeenLater(w, Next(w, s), id, view);
  }

  lemma HeldBy(w: World, s: Step, p: Pid)
    requires !TakenBy(s, p)
    ensures Held(Next(w, s), p) == Held(w, p)
  {
  }

  lemma EscalateAllowed(w: World, id: BatchId, view: Batch, hash: Option<Hash>, key: Option<Hash>, fee: Option<int>)
    requires Seen(w, id, view) && (view.status.Submitting? || view.status.Submitted?)
    requires view.status.Submitted? && hash.Some? ==> hash == view.txHash
    ensures Allowed(w, Escalate(id, view.status, hash, key, fee))
  {
  }

  lemma FinalizeAllowed(w: World, id: BatchId, view: Batch, key: Option<Hash>)
    requires Seen(w, id, view) && view.status.Submitted?
    ensures Allowed(w, Finalize(id, view.status, view.txHash, key, view.totalFee))
  {
  }
}
