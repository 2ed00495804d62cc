/**
 The payments runtime: one cycle at a time takes the advisory lock, recovers
 what is in flight, plans, and reserves and submits batch by batch; a
 fail-stop latches the runtime for good.

 Each method is one turn of the event loop: the start of a cycle, the reply
 to what the cycle waits for, or the loss of the lock connection, which may
 come at any time. Replies are arbitrary.
 */
module PaymentsRuntime {
  import opened Wrappers

  // ------------------------------------------------------------------
  // What happened, in order
  // ------------------------------------------------------------------

  datatype Event =
    | Started
    | Verified           // the lock was found held by this runtime's connection
    | Recovered
    | Planned
    | Reserve(k: nat)    // the k-th planned batch is reserved
    | Cleared(k: nat)
    | Held(k: nat)       // submitted, but not cleared
    | Advanced           // lastPaymentCycle moves on
    | FailStopped(outside: bool)   // by the runtime's own turns, or by a recovery requested from outside the cycle

  type Log = seq<Event>

  /** The cycle in progress after these events began at s. */
  predicate CycleFrom(log: Log, s: nat) {
    && s < |log| && log[s] == Started
    && forall j :: s < j < |log| ==> log[j] != Started
  }

  /** Every batch reserved since s was cleared, except one. */
  ghost predicate AllCleared(log: Log, s: nat, but: Option<nat>) {
    forall j :: s <= j < |log| && log[j].Reserve? && but != Some(log[j].k) ==> Cleared(log[j].k) in log[s..]
  }

  /** Since s, recovery succeeded and every batch that was reserved was cleared. */
  ghost predicate CleanSince(log: Log, s: nat) {
    CycleFrom(log, s) && Recovered in log[s..] && AllCleared(log, s, None)
  }

  predicate Stopped(log: Log) {
    exists i :: 0 <= i < |log| && log[i].FailStopped?
  }

  /** Nothing was reserved after a fail-stop. */
  predicate NoneSinceStop(log: Log) {
    forall i, j :: 0 <= i < j < |log| && log[i].FailStopped? ==> !log[j].Reserve?
  }

  /** The k-th batch was not reserved after a fail-stop. */
  predicate NotSinceStop(log: Log, k: nat) {
    forall i, j :: 0 <= i < j < |log| && log[i].FailStopped? ==> log[j] != Reserve(k)
  }

  /** What must have happened before an event. */
  ghost predicate EventOk(before: Log, e: Event) {
    match e
    case Started => !Stopped(before)
    case FailStopped(_) => !Stopped(before)
    case Planned => exists s: nat :: CycleFrom(before, s) && Recovered in before[s..]
    case Reserve(_) =>
      && FailStopped(false) !in before && NoneSinceStop(before)
      && before != [] && before[|before| - 1] == Verified
      && exists s: nat :: CleanSince(before, s)
    case Cleared(k) => NotSinceStop(before, k)
    case Advanced => !Stopped(before) && exists s: nat :: CleanSince(before, s)
    case _ => true
  }

  ghost predicate Safe(log: Log) {
    forall i :: 0 <= i < |log| ==> EventOk(log[..i], log[i])
  }

  lemma SafeAppend(log: Log, e: Event)
    requires Safe(log) && EventOk(log, e)
    ensures Safe(log + [e])
  {
    hide EventOk;
    var more := log + [e];
    forall i | 0 <= i < |more|
      ensures EventOk(more[..i], more[i])
    {
      assert more[..i] == log[..i];
      assert log[..|log|] == log;
    }
  }

  /**
   After the fail-stop no cycle starts and the cycle stamp stays; only a cycle begun before may still plan. Only a stop
   from outside can be followed by a reservation, by one at most, and that batch is not cleared.
   */
  lemma AfterFailStop(log: Log, f: nat, i: nat)
    requires Safe(log) && f < i < |log| && log[f].FailStopped?
    ensures !log[i].Started? && !log[i].Advanced? && !log[i].FailStopped?
    ensures log[i].Planned? ==> exists s: nat :: s < f && CycleFrom(log[..i], s)
    ensures log[i].Reserve? ==> log[f].outside && forall j :: f < j < i ==> !log[j].Reserve?
    ensures log[i].Cleared? ==> forall j :: f < j < i ==> log[j] != Reserve(log[i].k)
  {
    hide CleanSince;
    var before := log[..i];
    assert EventOk(before, log[i]);
    assert before[f] == log[f];
    assert forall j :: 0 <= j < i ==> before[j] == log[j];
    if log[i].Planned? {
      var s: nat :| CycleFrom(before, s) && Recovered in before[s..];
      StartedBefore(log, f, s);
    }
  }

  lemma StartedBefore(log: Log, f: nat, s: nat)
    requires Safe(log) && f < |log| && s < |log| && log[f].FailStopped? && log[s] == Started
    ensures s < f
  {
    assert EventOk(log[..s], log[s]);
    assert forall j :: 0 <= j < s ==> log[..s][j] == log[j];
  }

  /** There is one fail-stop at most. */
  lemma OneStop(log: Log)
    requires Safe(log) && FailStopped(true) in log
    ensures FailStopped(false) !in log
  {
    hide EventOk;
    var i :| 0 <= i < |log| && log[i] == FailStopped(true);
    forall j | 0 <= j < |log|
      ensures log[j] != FailStopped(false)
    {
      var n := if i < j then j else i;
      StopIsFirst(log, n);
      assert i < j ==> log[..n][i] == log[i];
      assert j < i ==> log[..n][j] == log[j];
    }
  }

  lemma StopIsFirst(log: Log, n: nat)
    requires Safe(log) && n < |log|
    ensures log[n].FailStopped? ==> forall j :: 0 <= j < n ==> !log[..n][j].FailStopped?
  {
    assert EventOk(log[..n], log[n]);
  }

  // ------------------------------------------------------------------
  // The runtime
  // ------------------------------------------------------------------

  datatype Goal = ToRecovery | ToProcessor | ToReserve(k: nat)

  /** What the cycle waits for. */
  datatype Phase =
    | Idle
    | Connecting
    | FetchingId
    | Locking
    | ReleasingBusyLock
    | Verifying(goal: Goal)
    | Recovering
    | Planning
    | Reserving(k: nat)
    | Submitting(k: nat, stopped: bool)   // whether the runtime was stopped when the submission began

  predicate PastRecovery(p: Phase) {
    p.Planning? || (p.Verifying? && p.goal.ToReserve?) || p.Reserving? || p.Submitting?
  }

  function InHand(p: Phase): Option<nat> {
    match p
    case Reserving(k) => Some(k)
    case Submitting(k, _) => Some(k)
    case _ => None
  }

  class Runtime {
    var isFailStop: bool
    var lockConnection: bool            // a dedicated connection is kept
    var lockConnectionId: Option<nat>
    var handlersAttached: bool
    var phase: Phase
    var plans: nat                      // how many batches this cycle has planned
    var lastPaymentCycle: nat
    ghost var log: Log
    ghost var start: nat

    /** What is true in the cycle in progress. */
    ghost predicate CycleOk()
      reads this
    {
      !phase.Idle? ==>
        && CycleFrom(log, start)
        && AllCleared(log, start, InHand(phase))
        && (PastRecovery(phase) ==> Recovered in log[start..])
        && (phase.Verifying? && phase.goal.ToReserve? ==> phase.goal.k < plans)
        && (phase.Reserving? || phase.Submitting? ==> phase.k < plans)
        && (!phase.Reserving? && !(phase.Submitting? && phase.stopped) ==> NoneSinceStop(log))
    }

    /** The log and the latch. */
    ghost predicate Logged()
      reads this
    {
      Safe(log) && (isFailStop <==> Stopped(log))
    }

    /** A connection that is kept is watched. In a cycle the runtime is stopped when it lost the connection it holds the lock on, or else from outside. */
    ghost predicate LockOk()
      reads this
    {
      && (!lockConnection ==> lockConnectionId.None? && !handlersAttached)
      && (phase.Connecting? ==> !lockConnection && !isFailStop)
      && (phase.FetchingId? ==> lockConnection && !handlersAttached)
      && (lockConnection && !phase.FetchingId? ==> handlersAttached)
      && (!phase.Idle? && !phase.Connecting? ==>
            (!lockConnection ==> isFailStop) && (isFailStop && lockConnection ==> FailStopped(true) in log))
    }

    ghost predicate Valid()
      reads this
    {
      Logged() && LockOk() && CycleOk()
    }

    /** Fail-stop is a latch, and what happened stays. */
    twostate predicate Progress()
      reads this
    {
      (old(isFailStop) ==> isFailStop) && old(log) <= log
    }

    constructor ()
      ensures Valid() && phase.Idle? && !isFailStop && log == [] && !lockConnection
    {
      isFailStop, lockConnection, lockConnectionId, handlersAttached := false, false, None, false;
      phase, plans, lastPaymentCycle := Idle, 0, 0;
      log, start := [], 0;
    }

    method EnterFailStop(outside: bool := false)
      requires Logged()
      modifies this`isFailStop, this`log
      ensures Logged() && isFailStop
      ensures log == if old(isFailStop) then old(log) else old(log) + [FailStopped(outside)]
    {
      hide Safe;
      if isFailStop { return; }
      isFailStop := true;
      SafeAppend(log, FailStopped(outside));
      log := log + [FailStopped(outside)];
      assert log[|log| - 1].FailStopped?;
    }

    method ClearConnection()
      modifies this`lockConnection, this`lockConnectionId, this`handlersAttached
      ensures !lockConnection && lockConnectionId.None? && !handlersAttached
    {
      lockConnection, lockConnectionId, handlersAttached := false, None, false;
    }

    /** The cycle gives up, with the runtime stopped or not, and the connection dropped or kept. */
    method Abort(stops: bool, drops: bool)
      requires Logged() && (!lockConnection ==> lockConnectionId.None? && !handlersAttached)
      requires lockConnection && !drops ==> handlersAttached
      modifies this
      ensures Valid() && phase.Idle? && isFailStop == (old(isFailStop) || stops) && lastPaymentCycle == old(lastPaymentCycle)
      ensures log == if stops && !old(isFailStop) then old(log) + [FailStopped(false)] else old(log)
      ensures lockConnection == (old(lockConnection) && !drops)
    {
      hide Safe;
      if drops { ClearConnection(); }
      if stops { EnterFailStop(); }
      phase := Idle;
    }

    /** The lock connection closes: the runtime stops, wherever the cycle is. */
    method OnConnectionClose()
      requires Valid() && handlersAttached
      modifies this
      ensures Valid() && Progress() && isFailStop && phase == old(phase) && !lockConnection
      ensures lastPaymentCycle == old(lastPaymentCycle)
    {
      hide Safe, AllCleared, CycleFrom, NoneSinceStop, Stopped;
      ClearConnection();
      if !isFailStop && !phase.Idle? {
        CycleAppends(log, FailStopped(false), start, InHand(phase));
        StopAppends(log, FailStopped(false));
      }
      EnterFailStop();
    }

    /**
     A recovery requested from outside the cycle finds a batch under review, or the lock lost, while the connection is
     there: the runtime stops and keeps the connection, wherever the cycle is.
     */
    method OnOutsideStop()
      requires Valid() && lockConnection
      modifies this`isFailStop, this`log
      ensures Valid() && Progress() && isFailStop
      ensures log == if old(isFailStop) then old(log) else old(log) + [FailStopped(true)]
    {
      hide Safe, AllCleared, CycleFrom, NoneSinceStop, Stopped;
      if !isFailStop && !phase.Idle? {
        CycleAppends(log, FailStopped(true), start, InHand(phase));
        StopAppends(log, FailStopped(true));
      }
      EnterFailStop(true);
      assert !old(isFailStop) ==> log == old(log) + [FailStopped(true)];
    }

    /** Stopping the runtime, once no cycle is in progress, gives the lock back. */
    method ReleaseLock()
      requires Valid() && phase.Idle?
      modifies this`lockConnection, this`lockConnectionId, this`handlersAttached
      ensures Valid() && !lockConnection
    {
      ClearConnection();
    }

    /** A tick of the timer; while a cycle is in progress it joins that cycle, and a stopped runtime does nothing. */
    method StartCycle()
      requires Valid()
      modifies this
      ensures Valid() && Progress() && lastPaymentCycle == old(lastPaymentCycle)
      ensures old(isFailStop) || !old(phase).Idle? ==> unchanged(this)
      ensures !old(isFailStop) && old(phase).Idle? ==>
        && plans == 0 && log == old(log) + [Started] && phase == (if lockConnection then Verifying(ToRecovery) else Connecting)
        && unchanged(this`isFailStop, this`lockConnection, this`lockConnectionId)
    {
      hide Safe;
      if !phase.Idle? || isFailStop { return; }
      SafeAppend(log, Started);
      start := |log|;
      log := log + [Started];
      plans := 0;
      FailStopKnown(log[..|log| - 1], Started);
      phase := if lockConnection then Verifying(ToRecovery) else Connecting;
    }

    /** The pool hands out a connection, or fails. */
    method OnConnected(ok: bool)
      requires Valid() && phase.Connecting?
      modifies this
      ensures Valid() && Progress() && lastPaymentCycle == old(lastPaymentCycle)
      ensures if ok then phase.FetchingId? && log == old(log) && isFailStop == old(isFailStop) else isFailStop && phase.Idle?
    {
      hide Safe;
      if !ok {
        Abort(true, true);
      } else {
        lockConnection, lockConnectionId, handlersAttached := true, None, false;
        phase := FetchingId;
      }
    }

    /** The connection tells its id, or fails. */
    method OnConnectionId(ok: bool, id: Option<nat>)
      requires Valid() && phase.FetchingId?
      modifies this
      ensures Valid() && Progress() && lastPaymentCycle == old(lastPaymentCycle)
      ensures if ok then phase.Locking? && log == old(log) && lockConnectionId == id && lockConnection else isFailStop && phase.Idle?
      ensures ok ==> isFailStop == old(isFailStop)
    {
      hide Safe;
      if !ok {
        Abort(true, true);
      } else {
        lockConnectionId, handlersAttached := id, true;
        phase := Locking;
      }
    }

    /** The lock is granted, busy, or the request fails. */
    method OnLockReply(ok: bool, locked: bool)
      requires Valid() && phase.Locking?
      modifies this
      ensures Valid() && Progress() && lastPaymentCycle == old(lastPaymentCycle)
      ensures !ok ==> isFailStop && phase.Idle?
      ensures ok && !locked ==> isFailStop || phase.ReleasingBusyLock?
      ensures ok && locked && !old(isFailStop) ==>
        && phase == Verifying(ToProcessor) && unchanged(this`log, this`isFailStop, this`lockConnection, this`lockConnectionId)
    {
      hide Safe;
      if !ok {
        Abort(true, true);
      } else if locked {
        BeginRecovery();
      } else if lockConnection {
        phase := ReleasingBusyLock;
      } else {
        Abort(true, false);
      }
    }

    method OnReleased()
      requires Valid() && phase.ReleasingBusyLock?
      modifies this
      ensures Valid() && Progress() && isFailStop && phase.Idle? && !lockConnection && lastPaymentCycle == old(lastPaymentCycle)
    {
      hide Safe;
      ClearConnection();
      Abort(true, true);
    }

    /** The lock is there: recover, after checking the lock once more. */
    method BeginRecovery()
      requires Valid() && (phase.Locking? || phase == Verifying(ToRecovery))
      modifies this`phase
      ensures Valid()
      ensures phase == if isFailStop then Idle else Verifying(ToProcessor)
    {
      hide Safe;
      phase := if isFailStop then Idle else Verifying(ToProcessor);
    }

    /** Who owns the lock: this runtime's connection, another one or nobody; or the question fails. */
    method OnVerified(ok: bool, owner: Option<nat>)
      requires Valid() && phase.Verifying?
      modifies this
      ensures Valid() && Progress() && lastPaymentCycle == old(lastPaymentCycle)
      ensures phase.Idle? ==> isFailStop
      ensures ok && owner.Some? && owner == old(lockConnectionId) ==>
        && isFailStop == old(isFailStop) && lockConnection && lockConnectionId == old(lockConnectionId) && plans == old(plans)
        && match old(phase).goal {
             case ToRecovery => phase == if isFailStop then Idle else Verifying(ToProcessor)
             case ToProcessor => phase == Recovering && log == old(log) + [Verified]
             case ToReserve(k) => phase == Reserving(k) && log == old(log) + [Verified, Reserve(k)]
           }
      ensures !(ok && owner.Some? && owner == old(lockConnectionId)) ==> isFailStop && phase.Idle?
    {
      hide Safe, NoneSinceStop, Stopped;
      if !ok {
        Abort(true, true);
        return;
      }
      if owner.None? || owner != lockConnectionId {
        Abort(true, false);
        return;
      }
      SafeAppend(log, Verified);
      CycleAppends(log, Verified, start, None);
      StopAppends(log, Verified);
      FailStopKnown(log, Verified);
      log := log + [Verified];
      match phase.goal
      case ToRecovery => BeginRecovery();
      case ToProcessor => phase := Recovering;
      case ToReserve(k) =>
        ReserveNext(k);
        assert log == old(log) + [Verified, Reserve(k)];
    }

    /** Asks for the reservation in the turn that found the lock held. */
    method ReserveNext(k: nat)
      requires Valid() && phase == Verifying(ToReserve(k)) && lockConnection
      requires log != [] && log[|log| - 1] == Verified
      modifies this`log, this`phase
      ensures Valid() && phase == Reserving(k) && log == old(log) + [Reserve(k)]
    {
      hide Safe;
      assert CleanSince(log, start);
      if isFailStop {
        OneStop(log);
      } else {
        NotStopped(log);
      }
      SafeAppend(log, Reserve(k));
      ReserveAppends(log, k, start);
      FailStopKnown(log, Reserve(k));
      log := log + [Reserve(k)];
      phase := Reserving(k);
    }

    /**
     The processor is done recovering. When it reports success it has not made the runtime stop; the loss of the
     connection meanwhile is a turn of its own.
     */
    method OnRecovered(success: bool, stops: bool, drops: bool)
      requires Valid() && phase.Recovering? && (success ==> !stops)
      modifies this
      ensures Valid() && Progress() && lastPaymentCycle == old(lastPaymentCycle)
      ensures phase == if success then Planning else Idle
      ensures success ==> log == old(log) + [Recovered] && unchanged(this`isFailStop, this`lockConnection, this`lockConnectionId)
    {
      hide Safe, NoneSinceStop, Stopped;
      if !success {
        Abort(stops, stops && drops);
        return;
      }
      SafeAppend(log, Recovered);
      CycleAppends(log, Recovered, start, None);
      StopAppends(log, Recovered);
      FailStopKnown(log, Recovered);
      log := log + [Recovered];
      phase := Planning;
      assert log[|log| - 1] == Recovered && log[|log| - 1] in log[start..];
    }

    /** The plan is made, or planning throws. */
    method OnPlanned(batches: Option<nat>, now: nat)
      requires Valid() && phase.Planning?
      modifies this
      ensures Valid() && Progress()
      ensures lastPaymentCycle != old(lastPaymentCycle) ==> batches == Some(0) && !isFailStop
      ensures batches.Some? && batches.value > 0 && old(lockConnection) ==>
        && phase == Verifying(ToReserve(0)) && plans == batches.value && log == old(log) + [Planned]
        && unchanged(this`isFailStop, this`lockConnection, this`lockConnectionId)
    {
      hide Safe, NoneSinceStop, Stopped;
      if batches.None? {
        Abort(false, false);
        return;
      }
      assert CycleFrom(log, start) && Recovered in log[start..];
      SafeAppend(log, Planned);
      CycleAppends(log, Planned, start, None);
      StopAppends(log, Planned);
      FailStopKnown(log, Planned);
      log := log + [Planned];
      plans := batches.value;
      NextBatch(0, now);
    }

    /** The next planned batch, if the connection is still there; a finished plan moves the cycle stamp on. */
    method NextBatch(k: nat, now: nat)
      requires Valid() && (phase.Planning? || phase.Submitting?) && AllCleared(log, start, None) && NoneSinceStop(log)
      requires k <= plans
      modifies this
      ensures Valid() && Progress() && plans == old(plans)
      ensures phase == if k == plans || !lockConnection then Idle else Verifying(ToReserve(k))
      ensures unchanged(this`isFailStop, this`lockConnection, this`lockConnectionId)
      ensures log == if k == plans && !isFailStop then old(log) + [Advanced] else old(log)
      ensures lastPaymentCycle == if k == plans && !isFailStop then now else old(lastPaymentCycle)
    {
      hide Safe;
      if k < plans {
        phase := if lockConnection then Verifying(ToReserve(k)) else Idle;
        return;
      }
      if !isFailStop {
        assert CleanSince(log, start);
        SafeAppend(log, Advanced);
        FailStopKnown(log, Advanced);
        log := log + [Advanced];
        lastPaymentCycle := now;
      }
      phase := Idle;
    }

    /** The reservation is made, or it throws. */
    method OnReserved(ok: bool)
      requires Valid() && phase.Reserving?
      modifies this
      ensures Valid() && Progress() && lastPaymentCycle == old(lastPaymentCycle)
      ensures phase == if ok then Submitting(old(phase).k, isFailStop) else Idle
    {
      hide Safe;
      if ok {
        if !isFailStop {
          NotStopped(log);
        }
        phase := Submitting(phase.k, isFailStop);
      } else {
        Abort(false, false);
      }
    }

    /**
     The processor is done with the batch; a batch that is not cleared ends the cycle. The processor does not clear a
     batch when the runtime was stopped before the submission began.
     */
    method OnSubmitted(cleared: bool, stops: bool, drops: bool, now: nat)
      requires Valid() && phase.Submitting? && (cleared ==> !stops && !phase.stopped)
      modifies this
      ensures Valid() && Progress()
      ensures !cleared ==> phase.Idle? && lastPaymentCycle == old(lastPaymentCycle)
      ensures lastPaymentCycle != old(lastPaymentCycle) ==> cleared && !isFailStop && old(phase).k + 1 == plans
    {
      hide Safe, NoneSinceStop, Stopped;
      var k := phase.k;
      if !cleared {
        SafeAppend(log, Held(k));
        log := log + [Held(k)];
        FailStopKnown(log[..|log| - 1], Held(k));
        assert log[..|log| - 1] + [Held(k)] == log;
        Abort(stops, stops && drops);
        return;
      }
      NoneMeansNot(log, k);
      SafeAppend(log, Cleared(k));
      ClearedAppends(log, k, start);
      StopAppends(log, Cleared(k));
      FailStopKnown(log, Cleared(k));
      log := log + [Cleared(k)];
      NextBatch(k + 1, now);
    }
  }

  lemma FailStopKnown(log: Log, e: Event)
    requires !e.FailStopped?
    ensures Stopped(log + [e]) <==> Stopped(log)
    ensures FailStopped(true) in log + [e] <==> FailStopped(true) in log
  {
    assert forall i :: 0 <= i < |log| ==> (log + [e])[i] == log[i];
  }

  lemma NotStopped(log: Log)
    requires !Stopped(log)
    ensures NoneSinceStop(log) && FailStopped(false) !in log
  {
  }

  lemma NoneMeansNot(log: Log, k: nat)
    requires NoneSinceStop(log)
    ensures NotSinceStop(log, k)
  {
  }

  lemma StopAppends(log: Log, e: Event)
    requires !e.Reserve?
    ensures NoneSinceStop(log) ==> NoneSinceStop(log + [e])
  {
    assert forall i :: 0 <= i < |log| ==> (log + [e])[i] == log[i];
  }

  lemma CycleAppends(log: Log, e: Event, s: nat, but: Option<nat>)
    requires !e.Started? && !e.Reserve? && CycleFrom(log, s)
    ensures CycleFrom(log + [e], s)
    ensures AllCleared(log, s, but) ==> AllCleared(log + [e], s, but)
    ensures Recovered in log[s..] ==> Recovered in (log + [e])[s..]
  {
    assert (log + [e])[s..] == log[s..] + [e];
  }

  lemma ReserveAppends(log: Log, k: nat, s: nat)
    requires CycleFrom(log, s)
    ensures CycleFrom(log + [Reserve(k)], s)
    ensures AllCleared(log, s, None) ==> AllCleared(log + [Reserve(k)], s, Some(k))
    ensures Recovered in log[s..] ==> Recovered in (log + [Reserve(k)])[s..]
  {
    assert (log + [Reserve(k)])[s..] == log[s..] + [Reserve(k)];
  }

  lemma ClearedAppends(log: Log, k: nat, s: nat)
    requires CycleFrom(log, s)
    ensures CycleFrom(log + [Cleared(k)], s)
    ensures AllCleared(log, s, Some(k)) ==> AllCleared(log + [Cleared(k)], s, None)
    ensures Recovered in log[s..] ==> Recovered in (log + [Cleared(k)])[s..]
  {
    assert (log + [Cleared(k)])[s..] == log[s..] + [Cleared(k)];
  }

  // ------------------------------------------------------------------
  // Every sequence of turns
  // ------------------------------------------------------------------

  /** What a cycle is answered; which parts matter depends on what it waits for. */
  datatype Answer = Answer(ok: bool, locked: bool, id: Option<nat>, stops: bool, drops: bool, batches: Option<nat>, now: nat)

  datatype Turn = Tick | CloseConnection | OutsideStop | Stop | Reply(answer: Answer)

  /**
   Any turns in any order. What happened is safe as a whole: reservations only right after the lock was verified, in
   a cycle that recovered, with every earlier batch of it cleared, and none after a fail-stop but one at most after a
   stop from outside.
   */
  method RunTurns(turns: seq<Turn>) returns (runtime: Runtime)
    ensures fresh(runtime) && runtime.Valid() && Safe(runtime.log)
    ensures runtime.isFailStop <==> Stopped(runtime.log)
    ensures forall f, i :: 0 <= f < i < |runtime.log| && runtime.log[f].FailStopped? ==>
      && !runtime.log[i].Started? && !runtime.log[i].Advanced?
      && (runtime.log[i].Reserve? ==> runtime.log[f].outside && forall j :: f < j < i ==> !runtime.log[j].Reserve?)
  {
    hide Safe;
    runtime := new Runtime();
    for n := 0 to |turns|
      invariant fresh(runtime) && runtime.Valid()
    {
      match turns[n] {
        case Tick => runtime.StartCycle();
        case CloseConnection => if runtime.handlersAttached { runtime.OnConnectionClose(); }
        case OutsideStop => if runtime.lockConnection { runtime.OnOutsideStop(); }
        case Stop => if runtime.phase.Idle? { runtime.ReleaseLock(); }
        case Reply(a) => TakeReply(runtime, a);
      }
    }
    forall f, i | 0 <= f < i < |runtime.log| && runtime.log[f].FailStopped?
      ensures !runtime.log[i].Started? && !runtime.log[i].Advanced?
      ensures runtime.log[i].Reserve? ==> runtime.log[f].outside && forall j :: f < j < i ==> !runtime.log[j].Reserve?
    {
      AfterFailStop(runtime.log, f, i);
    }
  }

  method TakeReply(runtime: Runtime, a: Answer)
    requires runtime.Valid()
    modifies runtime
    ensures runtime.Valid() && old(runtime.log) <= runtime.log && (old(runtime.isFailStop) ==> runtime.isFailStop)
  {
    hide Safe;
    match runtime.phase {
      case Idle =>
      case Connecting => runtime.OnConnected(a.ok);
      case FetchingId => runtime.OnConnectionId(a.ok, a.id);
      case Locking => runtime.OnLockReply(a.ok, a.locked);
      case ReleasingBusyLock => runtime.OnReleased();
      case Verifying(_) => runtime.OnVerified(a.ok, a.id);
      case Recovering => runtime.OnRecovered(a.ok, !a.ok && a.stops, a.drops);
      case Planning => runtime.OnPlanned(a.batches, a.now);
      case Reserving(_) => runtime.OnReserved(a.ok);
      case Submitting(_, stopped) => runtime.OnSubmitted(a.ok && !stopped, !(a.ok && !stopped) && a.stops, a.drops, a.now);
    }
  }

  /** The lock check does not look at the latch: a stop from outside while it waits is followed by a reservation. */
  method ReservedAfterStop() returns (runtime: Runtime)
    ensures fresh(runtime) && runtime.Valid() && runtime.isFailStop
    ensures runtime.log == [Started, Verified, Recovered, Planned, FailStopped(true), Verified, Reserve(0)]
  {
    hide Safe, EventOk, Runtime.CycleOk, Runtime.Logged;
    runtime := new Runtime();
    runtime.StartCycle();
    runtime.OnConnected(true);
    runtime.OnConnectionId(true, Some(1));
    runtime.OnLockReply(true, true);
    runtime.OnVerified(true, Some(1));
    runtime.OnRecovered(true, false, false);
    runtime.OnPlanned(Some(1), 0);
    runtime.OnOutsideStop();
    runtime.OnVerified(true, Some(1));
  }
}
