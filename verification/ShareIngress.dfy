/**
 The share ingress queue of the remote share server: shares are queued,
 flushed to the store in batches by a timer and by chained immediates, and a
 failed store latches the runtime into rejecting new work.

 Each method is one turn of the event loop; whether a store succeeds is a
 parameter of the turn.
 */
module ShareIngress {

  type Share = int

  function Flatten(batches: seq<seq<Share>>): seq<Share> {
    if batches == [] then [] else batches[0] + Flatten(batches[1..])
  }

  lemma {:induction false} FlattenAppend(batches: seq<seq<Share>>, batch: seq<Share>)
    ensures Flatten(batches + [batch]) == Flatten(batches) + batch
  {
    if batches == [] {
      assert [batch][1..] == [];
    } else {
      assert (batches + [batch])[1..] == batches[1..] + [batch];
      FlattenAppend(batches[1..], batch);
    }
  }

  class ShareIngress {
    const shareBatchSize: nat
    var lmdbRejecting: bool
    var started: bool
    var shareQueue: seq<Share>
    var shareTimer: bool           // the flush timer is set
    var shareDrainActive: bool
    var immediate: bool            // the next chunk is scheduled
    var waiters: nat               // callers waiting for the drain to end
    var totalAccepted: nat
    var totalFlushed: nat
    var flushBatches: nat

    /** The committed batches, and every share ever accepted, in order. */
    ghost var stored: seq<seq<Share>>
    ghost var accepted: seq<Share>

    /** Nothing is lost, duplicated or reordered. */
    ghost predicate Conserved()
      reads this
    {
      && shareBatchSize > 0
      && Flatten(stored) + shareQueue == accepted
      && totalAccepted == |accepted| && totalAccepted - totalFlushed == |shareQueue|
      && flushBatches == |stored|
      && forall i :: 0 <= i < |stored| ==> 0 < |stored[i]| <= shareBatchSize
    }

    /** Between turns, besides: who waits has a drain to wait for, and what is queued will be fetched. */
    ghost predicate Valid()
      reads this
    {
      && Conserved()
      && (waiters > 0 ==> shareDrainActive)
      && (shareDrainActive ==> immediate)
      && (immediate && !shareDrainActive ==> lmdbRejecting)
      && (shareQueue != [] && started && !lmdbRejecting ==> shareTimer || shareDrainActive)
    }

    /** What no turn takes back: accepted shares, committed batches and the reject latch. */
    twostate predicate Progress()
      reads this
    {
      && old(accepted) <= accepted
      && old(stored) <= stored
      && (old(lmdbRejecting) ==> lmdbRejecting)
    }

    constructor (shareBatchSize: nat)
      requires shareBatchSize > 0
      ensures Valid() && accepted == [] && started && !lmdbRejecting
    {
      this.shareBatchSize := shareBatchSize;
      lmdbRejecting, started, shareQueue := false, true, [];
      shareTimer, shareDrainActive, immediate, waiters := false, false, false, 0;
      totalAccepted, totalFlushed, flushBatches := 0, 0, 0;
      stored, accepted := [], [];
    }

    /** Accepts a share, unless the store is broken, and makes sure a flush will come. */
    method QueueShare(share: Share)
      requires Valid()
      modifies this
      ensures Valid() && Progress()
      ensures accepted == if old(lmdbRejecting) then old(accepted) else old(accepted) + [share]
      ensures stored == old(stored) && lmdbRejecting == old(lmdbRejecting) && waiters == old(waiters)
      ensures shareTimer == (old(shareTimer) || !lmdbRejecting)
      ensures immediate == old(immediate) && shareDrainActive == old(shareDrainActive) && started == old(started)
    {
      if lmdbRejecting { return; }
      assert Flatten(stored) + (shareQueue + [share]) == accepted + [share];
      shareQueue := shareQueue + [share];
      accepted := accepted + [share];
      totalAccepted := totalAccepted + 1;
      if shareTimer { return; }
      shareTimer := true;
    }

    /** Ends the drain and answers those who wait for it, unless shares arrived in the meantime. */
    method FinishShareDrain()
      requires Conserved() && shareQueue == [] && !immediate
      modifies this`shareDrainActive, this`waiters
      ensures Valid() && !shareDrainActive && waiters == 0
    {
      shareDrainActive := false;
      if shareQueue == [] {
        waiters := 0;
      }
    }

    /** A batch taken off the queue is committed in one transaction. */
    method Commit(batch: seq<Share>)
      requires shareBatchSize > 0 && 0 < |batch| <= shareBatchSize
      requires Flatten(stored) + (batch + shareQueue) == accepted
      requires totalAccepted == |accepted| && totalAccepted - totalFlushed == |batch| + |shareQueue|
      requires flushBatches == |stored| && forall i :: 0 <= i < |stored| ==> 0 < |stored[i]| <= shareBatchSize
      modifies this`stored, this`flushBatches, this`totalFlushed
      ensures Conserved() && stored == old(stored) + [batch]
    {
      hide Flatten;
      FlattenAppend(stored, batch);
      assert Flatten(stored) + (batch + shareQueue) == Flatten(stored) + batch + shareQueue;
      stored := stored + [batch];
      flushBatches := flushBatches + 1;
      totalFlushed := totalFlushed + |batch|;
    }

    /**
     Flushes one batch. On failure the batch goes back to the front of the queue, the runtime stops taking work
     and everybody waiting is let go; on success the rest is scheduled or the drain ends.
     */
    method FlushNextChunk(storeSucceeds: bool)
      requires Conserved() && !immediate
      requires !shareDrainActive ==> lmdbRejecting && waiters == 0
      modifies this
      ensures Valid() && Progress()
      ensures accepted == old(accepted) && started == old(started) && shareTimer == old(shareTimer)
      ensures immediate <==> storeSucceeds && shareQueue != []
      ensures shareDrainActive <==> old(shareDrainActive) && immediate
      ensures waiters == if shareDrainActive then old(waiters) else 0
      ensures var n := Min(shareBatchSize, |old(shareQueue)|);
              if storeSucceeds && n > 0 then
                && stored == old(stored) + [old(shareQueue)[..n]] && shareQueue == old(shareQueue)[n..]
                && lmdbRejecting == old(lmdbRejecting)
              else
                && stored == old(stored) && shareQueue == old(shareQueue)
                && lmdbRejecting == (old(lmdbRejecting) || n > 0)
    {
      hide Flatten;
      if shareQueue == [] {
        FinishShareDrain();
        return;
      }
      var n := Min(shareBatchSize, |shareQueue|);
      var batch := shareQueue[..n];
      shareQueue := shareQueue[n..];
      if !storeSucceeds {
        lmdbRejecting := true;
        shareQueue := batch + shareQueue;
        shareDrainActive := false;
        waiters := 0;
        return;
      }
      Commit(batch);
      if shareQueue != [] {
        immediate := true;
      } else {
        FinishShareDrain();
      }
    }

    /** Starts a drain unless one is active; a broken store only lets the waiting go. */
    method DrainShareQueue(storeSucceeds: bool)
      requires Conserved()
      requires shareDrainActive ==> immediate
      requires immediate && !shareDrainActive ==> lmdbRejecting
      modifies this
      ensures Valid() && Progress()
      ensures accepted == old(accepted) && started == old(started) && shareTimer == old(shareTimer)
      ensures waiters == if shareDrainActive then old(waiters) else 0
      ensures !shareDrainActive && !lmdbRejecting ==> shareQueue == []
      ensures storeSucceeds ==> lmdbRejecting == old(lmdbRejecting)
      ensures old(shareDrainActive) && !lmdbRejecting ==> unchanged(this)
      ensures !old(shareDrainActive) && !old(lmdbRejecting) && storeSucceeds ==>
        Flatten(stored) == accepted[..|Flatten(old(stored))| + Min(shareBatchSize, |old(shareQueue)|)]
    {
      if lmdbRejecting {
        shareDrainActive := false;
        waiters := 0;
        return;
      }
      if shareDrainActive || shareQueue == [] {
        if !shareDrainActive && shareQueue == [] {
          waiters := 0;
          assert accepted[..|Flatten(stored)|] == Flatten(stored);
        }
        return;
      }
      shareDrainActive := true;
      FlushNextChunk(storeSucceeds);
      assert Flatten(stored) == accepted[..|Flatten(stored)|];
    }

    /** The flush timer fires. */
    method OnShareTimer(storeSucceeds: bool)
      requires Valid() && shareTimer
      modifies this
      ensures Valid() && Progress() && accepted == old(accepted) && !shareTimer && started == old(started)
      ensures shareQueue != [] && started && !lmdbRejecting ==> shareDrainActive
      ensures !old(shareDrainActive) && !old(lmdbRejecting) && storeSucceeds ==>
        Flatten(stored) == accepted[..|Flatten(old(stored))| + Min(shareBatchSize, |old(shareQueue)|)]
      ensures storeSucceeds ==> lmdbRejecting == old(lmdbRejecting)
    {
      shareTimer := false;
      DrainShareQueue(storeSucceeds);
    }

    /** The scheduled next chunk runs. */
    method OnImmediate(storeSucceeds: bool)
      requires Valid() && immediate
      modifies this
      ensures Valid() && Progress() && accepted == old(accepted)
      ensures storeSucceeds ==> |shareQueue| <= |old(shareQueue)| && (old(shareQueue) != [] ==> |shareQueue| < |old(shareQueue)|)
      ensures storeSucceeds && shareQueue == [] ==> !immediate
      ensures storeSucceeds && !immediate ==> shareQueue == [] && waiters == 0
    {
      immediate := false;
      FlushNextChunk(storeSucceeds);
    }

    /** A caller waits until the queue is flushed; it does not wait when there is nothing to wait for. */
    method WaitForShareDrain(storeSucceeds: bool) returns (waits: bool)
      requires Valid()
      modifies this
      ensures Valid() && Progress() && accepted == old(accepted)
      ensures waits ==> shareDrainActive && waiters == old(waiters) + 1
      ensures old(shareDrainActive) && !lmdbRejecting ==> waits
      ensures !waits && !lmdbRejecting ==> shareQueue == [] && !shareDrainActive
      ensures storeSucceeds ==> lmdbRejecting == old(lmdbRejecting)
    {
      if lmdbRejecting { return false; }
      if !shareDrainActive && shareQueue == [] { return false; }
      waiters := waiters + 1;
      if !shareDrainActive && shareQueue != [] {
        DrainShareQueue(storeSucceeds);
      }
      waits := waiters > 0;
    }

    /** A failure elsewhere, such as a full map while processing pending jobs, latches the runtime too. */
    method EnterRejectMode()
      requires Valid()
      modifies this`lmdbRejecting
      ensures Valid() && Progress() && lmdbRejecting
    {
      lmdbRejecting := true;
    }

    /** Shutdown clears the flush timer; what is queued is then drained by waiting for it. */
    method StopIntervals()
      requires Valid()
      modifies this`started, this`shareTimer
      ensures Valid() && Progress() && !started && !shareTimer
    {
      started := false;
      shareTimer := false;
    }

    /** With a working store and no new shares, a drain that was waited for stores everything. */
    method DrainToEnd()
      requires Valid() && !lmdbRejecting
      modifies this
      ensures Valid() && accepted == old(accepted)
      ensures Flatten(stored) == accepted && shareQueue == [] && waiters == 0 && !immediate
    {
      var waits := WaitForShareDrain(true);
      while immediate
        invariant Valid() && accepted == old(accepted)
        invariant !immediate ==> shareQueue == [] && waiters == 0
        decreases |shareQueue|, immediate
      {
        OnImmediate(true);
      }
      assert Flatten(stored) + [] == Flatten(stored);
    }
  }

  function Min(a: nat, b: nat): nat { if a < b then a else b }

  // ------------------------------------------------------------------
  // Every sequence of turns
  // ------------------------------------------------------------------

  datatype Turn =
    | Queue(share: Share)
    | TimerFires(storeSucceeds: bool)
    | NextChunk(storeSucceeds: bool)
    | Wait(storeSucceeds: bool)
    | Reject
    | StopTimers

  function Offered(turns: seq<Turn>): seq<Share> {
    if turns == [] then []
    else Offered(turns[..|turns| - 1]) + if turns[|turns| - 1].Queue? then [turns[|turns| - 1].share] else []
  }

  lemma OfferedSnoc(turns: seq<Turn>, k: nat)
    requires k < |turns|
    ensures Offered(turns[..k + 1]) == Offered(turns[..k]) + if turns[k].Queue? then [turns[k].share] else []
  {
    assert turns[..k + 1][..k] == turns[..k];
  }

  /**
   Any turns in any order, with any store failing: the stored batches and then the queue are the accepted shares in
   their order; those are a prefix of the offered ones, and all of them unless the runtime rejects.
   */
  method RunTurns(shareBatchSize: nat, turns: seq<Turn>) returns (ingress: ShareIngress)
    requires shareBatchSize > 0
    ensures fresh(ingress) && ingress.Valid()
    ensures Flatten(ingress.stored) + ingress.shareQueue == ingress.accepted <= Offered(turns)
    ensures !ingress.lmdbRejecting ==> ingress.accepted == Offered(turns)
  {
    hide Flatten, Offered;
    ingress := new ShareIngress(shareBatchSize);
    NothingOffered(turns[..0]);
    for k := 0 to |turns|
      invariant fresh(ingress) && ingress.Valid()
      invariant ingress.accepted <= Offered(turns[..k])
      invariant !ingress.lmdbRejecting ==> ingress.accepted == Offered(turns[..k])
    {
      OfferedSnoc(turns, k);
      match turns[k] {
        case Queue(share) => ingress.QueueShare(share);
        case TimerFires(ok) => if ingress.shareTimer { ingress.OnShareTimer(ok); }
        case NextChunk(ok) => if ingress.immediate { ingress.OnImmediate(ok); }
        case Wait(ok) => var _ := ingress.WaitForShareDrain(ok);
        case Reject => ingress.EnterRejectMode();
        case StopTimers => ingress.StopIntervals();
      }
    }
    assert turns[..|turns|] == turns;
  }

  lemma NothingOffered(turns: seq<Turn>)
    requires turns == []
    ensures Offered(turns) == []
  {
  }
}
