/**
 The remote share verifiers: a budget of bytes and tasks shared by all
 verifier queues, per-miner counters, and the life of one verification
 through its socket, timeout and asynchronous compression.

 Any queued task may be started at any time, which includes every order in
 which the bounded queues would start them.
 */
module VerifierPool {

  const PEARL_PENDING_VERIFY_MAX_BYTES: nat := 32 * 1024 * 1024
  const PEARL_PENDING_VERIFY_MAX_TASKS: nat := 256
  const VERIFY_TIMEOUT_MS: int := 60 * 1000
  const MINER_PENDING_LIMIT: nat := 100

  // ------------------------------------------------------------------
  // Tasks
  // ------------------------------------------------------------------

  datatype Phase =
    | Queued
    | Running(isCb: bool, compressing: bool, connected: bool, destroyed: bool)
    | Ended

  /** A task; the last three fields count its callbacks, budget releases and completions of its queue slot. */
  datatype VerifyTask = VerifyTask(
    queue: nat, pearl: bool, miner: string, time: int, verifyBytes: nat, phase: Phase,
    callbacks: nat, releases: nat, completions: nat)

  /** Exactly one callback and one release by the time a task has ended, and none twice before. */
  predicate TaskOk(t: VerifyTask) {
    && (!t.pearl ==> t.verifyBytes == 0 && t.releases == 0)
    && match t.phase
       case Queued =>
         t.callbacks == 0 && t.releases == 0 && t.completions == 0 && (t.pearl ==> t.verifyBytes > 0)
       case Running(isCb, compressing, connected, destroyed) =>
         && t.callbacks == (if isCb then 1 else 0) && t.releases == 0 && t.completions == 0
         && (t.pearl ==> t.verifyBytes > 0)
         && (isCb ==> compressing) && (compressing ==> connected)
       case Ended =>
         t.callbacks == 1 && t.verifyBytes == 0 && t.releases == (if t.pearl then 1 else 0) && t.completions <= 1
  }

  function Bytes(tasks: seq<VerifyTask>): nat {
    if tasks == [] then 0 else tasks[0].verifyBytes + Bytes(tasks[1..])
  }

  function Charged(t: VerifyTask): nat { if t.verifyBytes > 0 then 1 else 0 }

  function Live(tasks: seq<VerifyTask>): nat {
    if tasks == [] then 0 else Charged(tasks[0]) + Live(tasks[1..])
  }

  function Waits(t: VerifyTask, miner: string): nat { if t.phase.Queued? && t.miner == miner then 1 else 0 }

  function QueuedBy(tasks: seq<VerifyTask>, miner: string): nat {
    if tasks == [] then 0 else Waits(tasks[0], miner) + QueuedBy(tasks[1..], miner)
  }

  lemma {:induction false} UpdateTotals(tasks: seq<VerifyTask>, i: nat, t: VerifyTask, miner: string)
    requires i < |tasks|
    ensures Bytes(tasks[i := t]) == Bytes(tasks) - tasks[i].verifyBytes + t.verifyBytes
    ensures Live(tasks[i := t]) == Live(tasks) - Charged(tasks[i]) + Charged(t)
    ensures QueuedBy(tasks[i := t], miner) == QueuedBy(tasks, miner) - Waits(tasks[i], miner) + Waits(t, miner)
    ensures Bytes(tasks) >= tasks[i].verifyBytes && Live(tasks) >= Charged(tasks[i])
    ensures QueuedBy(tasks, miner) >= Waits(tasks[i], miner)
  {
    hide Charged, Waits;
    if i == 0 {
      assert tasks[0 := t][1..] == tasks[1..];
    } else {
      assert tasks[i := t][1..] == tasks[1..][i - 1 := t];
      UpdateTotals(tasks[1..], i - 1, t, miner);
    }
  }

  lemma {:induction false} AppendTotals(tasks: seq<VerifyTask>, t: VerifyTask, miner: string)
    ensures Bytes(tasks + [t]) == Bytes(tasks) + t.verifyBytes
    ensures Live(tasks + [t]) == Live(tasks) + Charged(t)
    ensures QueuedBy(tasks + [t], miner) == QueuedBy(tasks, miner) + Waits(t, miner)
  {
    hide Charged, Waits;
    if tasks == [] {
      assert [t][1..] == [];
    } else {
      assert (tasks + [t])[1..] == tasks[1..] + [t];
      AppendTotals(tasks[1..], t, miner);
    }
  }

  // ------------------------------------------------------------------
  // Per-miner counters
  // ------------------------------------------------------------------

  function Counter(counters: map<string, nat>, miner: string): nat {
    if miner in counters then counters[miner] else 0
  }

  function Decremented(counters: map<string, nat>, miner: string): map<string, nat> {
    if miner !in counters then counters
    else if counters[miner] <= 1 then counters - {miner}
    else counters[miner := counters[miner] - 1]
  }

  lemma DecrementedCounts(counters: map<string, nat>, miner: string, other: string)
    requires Counter(counters, miner) > 0
    ensures Counter(Decremented(counters, miner), other) == Counter(counters, other) - if other == miner then 1 else 0
  {
  }

  // ------------------------------------------------------------------
  // Counters that are never lowered again
  // ------------------------------------------------------------------

  /** How often a request of this miner raised the counter and then threw before anything was queued. */
  function Leaked(leaks: seq<string>, miner: string): nat {
    if leaks == [] then 0 else Leaked(leaks[..|leaks| - 1], miner) + if leaks[|leaks| - 1] == miner then 1 else 0
  }

  lemma LeakedMore(leaks: seq<string>, thrower: string, miner: string)
    ensures Leaked(leaks + [thrower], miner) == Leaked(leaks, miner) + if thrower == miner then 1 else 0
  {
    assert (leaks + [thrower])[..|leaks|] == leaks;
  }

  lemma {:induction false} LeakedIff(leaks: seq<string>, miner: string)
    ensures Leaked(leaks, miner) > 0 <==> miner in leaks
  {
    if leaks != [] {
      LeakedIff(leaks[..|leaks| - 1], miner);
    }
  }

  // ------------------------------------------------------------------
  // The pool
  // ------------------------------------------------------------------

  class VerifierPool {
    /** Every task ever enqueued, in the order it was. */
    var tasks: seq<VerifyTask>
    var pearlPendingVerifyBytes: nat
    var pearlPendingVerifyTasks: nat
    var minerAddressVerify: map<string, nat>

    /** The miners of requests that threw after their counter was raised. */
    ghost var leaks: seq<string>

    ghost predicate Valid()
      reads this
    {
      && (forall i :: 0 <= i < |tasks| ==> TaskOk(tasks[i]))
      && pearlPendingVerifyBytes == Bytes(tasks) <= PEARL_PENDING_VERIFY_MAX_BYTES
      && pearlPendingVerifyTasks == Live(tasks) <= PEARL_PENDING_VERIFY_MAX_TASKS
      && CountersMatch()
    }

    ghost predicate CountersMatch()
      reads this
    {
      forall miner :: Counter(minerAddressVerify, miner) == QueuedBy(tasks, miner) + Leaked(leaks, miner) <= MINER_PENDING_LIMIT + 1
    }

    /** A miner's counter is the number of its waiting tasks exactly when none of its requests threw. */
    ghost predicate CountersExact()
      reads this
    {
      forall miner :: Counter(minerAddressVerify, miner) == QueuedBy(tasks, miner) <==> miner !in leaks
    }

    lemma ExactUnlessThrown()
      requires Valid()
      ensures CountersExact()
    {
      forall miner
        ensures Counter(minerAddressVerify, miner) == QueuedBy(tasks, miner) <==> miner !in leaks
      {
        LeakedIff(leaks, miner);
      }
    }

    constructor ()
      ensures Valid() && tasks == [] && leaks == []
    {
      tasks := [];
      pearlPendingVerifyBytes, pearlPendingVerifyTasks := 0, 0;
      minerAddressVerify := map[];
      leaks := [];
    }

    /** Replacing a task by one that waits no longer keeps the counters that the waiting decides. */
    lemma CountersAfter(i: nat, t: VerifyTask, counters: map<string, nat>)
      requires i < |tasks| && CountersMatch() && !t.phase.Queued?
      requires counters == if tasks[i].phase.Queued? then Decremented(minerAddressVerify, tasks[i].miner) else minerAddressVerify
      ensures forall miner :: Counter(counters, miner) == QueuedBy(tasks[i := t], miner) + Leaked(leaks, miner) <= MINER_PENDING_LIMIT + 1
    {
      forall miner
        ensures Counter(counters, miner) == QueuedBy(tasks[i := t], miner) + Leaked(leaks, miner) <= MINER_PENDING_LIMIT + 1
      {
        UpdateTotals(tasks, i, t, miner);
        UpdateTotals(tasks, i, t, tasks[i].miner);
        if tasks[i].phase.Queued? {
          DecrementedCounts(minerAddressVerify, tasks[i].miner, miner);
        }
      }
    }

    /** Moves a task on without touching the budget. */
    method Advance(i: nat, t: VerifyTask)
      requires Valid() && i < |tasks| && TaskOk(t) && !t.phase.Queued?
      requires t.verifyBytes == tasks[i].verifyBytes
      modifies this`tasks, this`pearlPendingVerifyBytes, this`pearlPendingVerifyTasks, this`minerAddressVerify
      ensures Valid() && tasks == old(tasks)[i := t]
      ensures pearlPendingVerifyBytes == old(pearlPendingVerifyBytes) && pearlPendingVerifyTasks == old(pearlPendingVerifyTasks)
    {
      hide TaskOk, Decremented, Counter, QueuedBy, Bytes, Live, Leaked;
      var counters := if tasks[i].phase.Queued? then Decremented(minerAddressVerify, tasks[i].miner) else minerAddressVerify;
      CountersAfter(i, t, counters);
      UpdateTotals(tasks, i, t, "");
      minerAddressVerify := counters;
      tasks := tasks[i := t];
    }

    /**
     Ends a task and gives back what it holds of the budget. The subtractions never have to be cut off at zero,
     because the totals are sums that include it.
     */
    method End(i: nat, calls: nat, completions: nat)
      requires Valid() && i < |tasks| && !tasks[i].phase.Ended?
      requires tasks[i].callbacks + calls == 1 && tasks[i].completions + completions <= 1
      modifies this`tasks, this`pearlPendingVerifyBytes, this`pearlPendingVerifyTasks, this`minerAddressVerify
      ensures Valid()
      ensures tasks == old(tasks)[i := Final(old(tasks)[i], calls, completions)]
      ensures pearlPendingVerifyBytes == old(pearlPendingVerifyBytes) - old(tasks)[i].verifyBytes
      ensures pearlPendingVerifyTasks == old(pearlPendingVerifyTasks) - Charged(old(tasks)[i])
    {
      hide Decremented, Counter, QueuedBy, Bytes, Live, Leaked;
      var task := tasks[i];
      assert TaskOk(task);
      var t := Final(task, calls, completions);
      var counters := if task.phase.Queued? then Decremented(minerAddressVerify, task.miner) else minerAddressVerify;
      CountersAfter(i, t, counters);
      UpdateTotals(tasks, i, t, "");
      minerAddressVerify := counters;
      if task.pearl && task.verifyBytes != 0 {
        pearlPendingVerifyBytes := MaxZero(pearlPendingVerifyBytes - task.verifyBytes);
        pearlPendingVerifyTasks := MaxZero(pearlPendingVerifyTasks - 1);
      }
      tasks := tasks[i := t];
    }

    // ---------------- enqueueing ----------------

    /** A share whose hash is verified remotely; refused when the miner has too many waiting. */
    method SlowHashAsync(miner: string, time: int, queue: nat) returns (queued: bool)
      requires Valid()
      modifies this`tasks, this`pearlPendingVerifyBytes, this`pearlPendingVerifyTasks, this`minerAddressVerify
      ensures Valid()
      ensures queued <==> Counter(old(minerAddressVerify), miner) <= MINER_PENDING_LIMIT
      ensures tasks == if queued then old(tasks) + [VerifyTask(queue, false, miner, time, 0, Queued, 0, 0, 0)] else old(tasks)
    {
      if Counter(minerAddressVerify, miner) > MINER_PENDING_LIMIT { return false; }
      Add(VerifyTask(queue, false, miner, time, 0, Queued, 0, 0, 0));
      return true;
    }

    /**
     A share whose verifier input cannot be built, such as one of a template without its seed hash: the counter was
     raised before, nothing is queued, and nothing will lower the counter again.
     */
    method SlowHashThrows(miner: string) returns (raised: bool)
      requires Valid()
      modifies this`minerAddressVerify, this`leaks
      ensures Valid()
      ensures raised <==> Counter(old(minerAddressVerify), miner) <= MINER_PENDING_LIMIT
      ensures leaks == if raised then old(leaks) + [miner] else old(leaks)
    {
      hide QueuedBy, Bytes, Live, TaskOk, Leaked;
      if Counter(minerAddressVerify, miner) > MINER_PENDING_LIMIT { return false; }
      forall other
        ensures Leaked(leaks + [miner], other) == Leaked(leaks, other) + if miner == other then 1 else 0
      {
        LeakedMore(leaks, miner, other);
      }
      minerAddressVerify := minerAddressVerify[miner := Counter(minerAddressVerify, miner) + 1];
      leaks := leaks + [miner];
      return true;
    }

    /** A proof of `verifyBytes` bytes; refused when the miner has too many waiting or the budget would be exceeded. */
    method VerifyPearlAsync(miner: string, time: int, verifyBytes: nat, queue: nat) returns (queued: bool)
      requires Valid() && verifyBytes > 0
      modifies this`tasks, this`pearlPendingVerifyBytes, this`pearlPendingVerifyTasks, this`minerAddressVerify
      ensures Valid()
      ensures queued <==>
        && Counter(old(minerAddressVerify), miner) <= MINER_PENDING_LIMIT
        && old(pearlPendingVerifyTasks) < PEARL_PENDING_VERIFY_MAX_TASKS
        && old(pearlPendingVerifyBytes) + verifyBytes <= PEARL_PENDING_VERIFY_MAX_BYTES
      ensures tasks == if queued then old(tasks) + [VerifyTask(queue, true, miner, time, verifyBytes, Queued, 0, 0, 0)] else old(tasks)
    {
      if Counter(minerAddressVerify, miner) > MINER_PENDING_LIMIT { return false; }
      if pearlPendingVerifyTasks >= PEARL_PENDING_VERIFY_MAX_TASKS
         || verifyBytes > PEARL_PENDING_VERIFY_MAX_BYTES - pearlPendingVerifyBytes { return false; }
      Add(VerifyTask(queue, true, miner, time, verifyBytes, Queued, 0, 0, 0));
      return true;
    }

    method Add(t: VerifyTask)
      requires Valid() && t.phase.Queued? && TaskOk(t) && Counter(minerAddressVerify, t.miner) <= MINER_PENDING_LIMIT
      requires t.verifyBytes > 0 ==> pearlPendingVerifyTasks < PEARL_PENDING_VERIFY_MAX_TASKS
      requires pearlPendingVerifyBytes + t.verifyBytes <= PEARL_PENDING_VERIFY_MAX_BYTES
      modifies this`tasks, this`pearlPendingVerifyBytes, this`pearlPendingVerifyTasks, this`minerAddressVerify
      ensures Valid() && tasks == old(tasks) + [t]
    {
      hide QueuedBy, Bytes, Live, TaskOk, Leaked;
      forall miner
        ensures QueuedBy(tasks + [t], miner) == QueuedBy(tasks, miner) + Waits(t, miner)
      {
        AppendTotals(tasks, t, miner);
      }
      AppendTotals(tasks, t, "");
      minerAddressVerify := minerAddressVerify[t.miner := Counter(minerAddressVerify, t.miner) + 1];
      if t.verifyBytes > 0 {
        pearlPendingVerifyBytes := pearlPendingVerifyBytes + t.verifyBytes;
        pearlPendingVerifyTasks := pearlPendingVerifyTasks + 1;
      }
      tasks := tasks + [t];
    }

    // ---------------- the life of a task ----------------

    /** The worker takes a task; one that waited too long is answered and completed at once. */
    method Start(i: nat, now: int)
      requires Valid() && i < |tasks| && tasks[i].phase.Queued?
      modifies this`tasks, this`pearlPendingVerifyBytes, this`pearlPendingVerifyTasks, this`minerAddressVerify
      ensures Valid()
      ensures tasks == old(tasks)[i :=
        if now - old(tasks)[i].time > VERIFY_TIMEOUT_MS then Final(old(tasks)[i], 1, 1)
        else old(tasks)[i].(phase := Running(false, false, false, false))]
    {
      var task := tasks[i];
      assert TaskOk(task);
      if now - task.time > VERIFY_TIMEOUT_MS {
        End(i, 1, 1);
      } else {
        Advance(i, task.(phase := Running(false, false, false, false)));
      }
    }

    /** The socket connects, which it never does after it was destroyed; a proof may have to be compressed first. */
    method OnConnect(i: nat, compress: bool)
      requires Valid() && i < |tasks| && tasks[i].phase.Running? && !tasks[i].phase.connected && !tasks[i].phase.destroyed
      modifies this`tasks, this`pearlPendingVerifyBytes, this`pearlPendingVerifyTasks, this`minerAddressVerify
      ensures Valid()
      ensures tasks == old(tasks)[i := old(tasks)[i].(
        phase := old(tasks)[i].phase.(connected := true, compressing := compress && old(tasks)[i].pearl))]
    {
      var task := tasks[i];
      assert TaskOk(task);
      Advance(i, task.(phase := task.phase.(connected := true, compressing := compress && task.pearl)));
    }

    /** Compression finishes; a task that was answered in the meantime ends only now. */
    method OnCompressed(i: nat)
      requires Valid() && i < |tasks| && tasks[i].phase.Running? && tasks[i].phase.compressing
      modifies this`tasks, this`pearlPendingVerifyBytes, this`pearlPendingVerifyTasks, this`minerAddressVerify
      ensures Valid()
      ensures tasks == old(tasks)[i :=
        if old(tasks)[i].phase.isCb then Final(old(tasks)[i], 0, 1)
        else old(tasks)[i].(phase := old(tasks)[i].phase.(compressing := false))]
    {
      var task := tasks[i];
      assert TaskOk(task);
      if task.phase.isCb {
        End(i, 0, 1);
      } else {
        Advance(i, task.(phase := task.phase.(compressing := false)));
      }
    }

    /**
     A timeout, a reply, a socket error or an oversized reply. Only the first of them is passed on,
     and while the proof is being compressed its bytes stay charged.
     */
    method OnOutcome(i: nat, destroys: bool)
      requires Valid() && i < |tasks| && tasks[i].phase.Running?
      modifies this`tasks, this`pearlPendingVerifyBytes, this`pearlPendingVerifyTasks, this`minerAddressVerify
      ensures Valid()
      ensures tasks == old(tasks)[i := Answered(old(tasks)[i], destroys)]
    {
      var task := tasks[i];
      assert TaskOk(task);
      if task.phase.isCb {
        Advance(i, task.(phase := task.phase.(destroyed := task.phase.destroyed || destroys)));
      } else if task.phase.compressing {
        Advance(i, task.(phase := task.phase.(isCb := true, destroyed := task.phase.destroyed || destroys), callbacks := task.callbacks + 1));
      } else {
        End(i, 1, 1);
      }
    }

    /**
     The periodic sweep of one queue. It does nothing unless the earliest task that waits there is too old; then
     every task that waits there and is too old is answered and dropped.
     */
    method SweepExpired(queue: nat, now: int)
      requires Valid()
      modifies this`tasks, this`pearlPendingVerifyBytes, this`pearlPendingVerifyTasks, this`minerAddressVerify
      ensures Valid() && |tasks| == |old(tasks)|
      ensures forall k :: 0 <= k < |tasks| ==>
        tasks[k] == if Swept(old(tasks), queue, now, k) then Final(old(tasks)[k], 1, 0) else old(tasks)[k]
    {
      var oldest := Oldest(tasks, queue);
      if oldest == |tasks| || now - tasks[oldest].time <= VERIFY_TIMEOUT_MS { return; }
      var index := |tasks|;
      while index > 0
        invariant 0 <= index <= |tasks| == |old(tasks)|
        invariant Valid()
        invariant forall k :: 0 <= k < index ==> tasks[k] == old(tasks)[k]
        invariant forall k :: index <= k < |tasks| ==>
          tasks[k] == if Swept(old(tasks), queue, now, k) then Final(old(tasks)[k], 1, 0) else old(tasks)[k]
      {
        index := index - 1;
        if tasks[index].queue == queue && Expired(tasks[index], now) {
          assert TaskOk(tasks[index]);
          End(index, 1, 0);
        }
      }
    }
  }

  /** The earliest enqueued of the tasks that wait in a queue. */
  function Oldest(tasks: seq<VerifyTask>, queue: nat): (i: nat)
    ensures i <= |tasks|
    ensures i < |tasks| ==> tasks[i].queue == queue && tasks[i].phase.Queued?
    ensures forall k :: 0 <= k < i ==> !(tasks[k].queue == queue && tasks[k].phase.Queued?)
  {
    OldestFrom(tasks, queue, 0)
  }

  function OldestFrom(tasks: seq<VerifyTask>, queue: nat, from: nat): (i: nat)
    requires from <= |tasks|
    ensures from <= i <= |tasks|
    ensures i < |tasks| ==> tasks[i].queue == queue && tasks[i].phase.Queued?
    ensures forall k :: from <= k < i ==> !(tasks[k].queue == queue && tasks[k].phase.Queued?)
    decreases |tasks| - from
  {
    if from == |tasks| || (tasks[from].queue == queue && tasks[from].phase.Queued?) then from
    else OldestFrom(tasks, queue, from + 1)
  }

  predicate Swept(tasks: seq<VerifyTask>, queue: nat, now: int, k: nat)
    requires k < |tasks|
  {
    && tasks[k].queue == queue && Expired(tasks[k], now)
    && var oldest := Oldest(tasks, queue);
       oldest < |tasks| && Expired(tasks[oldest], now)
  }

  /** While the clock does not go back between enqueues, the sweep takes exactly the tasks that wait there and are too old. */
  lemma SweepIsComplete(tasks: seq<VerifyTask>, queue: nat, now: int, k: nat)
    requires k < |tasks| && forall i, j :: 0 <= i < j < |tasks| ==> tasks[i].time <= tasks[j].time
    ensures Swept(tasks, queue, now, k) <==> tasks[k].queue == queue && Expired(tasks[k], now)
  {
    assert tasks[k].queue == queue && Expired(tasks[k], now) ==> Oldest(tasks, queue) <= k;
  }

  /** If the clock went back, a task that is too old can stay behind one that is not: the earliest decides. */
  lemma ClockStepHidesExpired()
    ensures var waits := VerifyTask(0, false, "m", 100000, 0, Queued, 0, 0, 0);
            var tasks := [waits, waits.(time := 0)];
            Expired(tasks[1], 120000) && !Swept(tasks, 0, 120000, 1)
  {
    var waits := VerifyTask(0, false, "m", 100000, 0, Queued, 0, 0, 0);
    var tasks := [waits, waits.(time := 0)];
    assert Oldest(tasks, 0) == 0;
  }

  predicate Expired(t: VerifyTask, now: int) {
    t.phase.Queued? && now - t.time > VERIFY_TIMEOUT_MS
  }

  function MaxZero(x: int): nat { if x < 0 then 0 else x }

  /** A task that ends: answered now unless it already was, released, and completed when it had a queue slot. */
  function Final(t: VerifyTask, calls: nat, completions: nat): VerifyTask {
    t.(phase := Ended, verifyBytes := 0, callbacks := t.callbacks + calls, completions := t.completions + completions,
       releases := if t.pearl && t.verifyBytes != 0 then t.releases + 1 else t.releases)
  }

  function Answered(t: VerifyTask, destroys: bool): VerifyTask
    requires t.phase.Running?
  {
    var p := t.phase.(destroyed := t.phase.destroyed || destroys);
    if p.isCb then t.(phase := p)
    else if p.compressing then t.(phase := p.(isCb := true), callbacks := t.callbacks + 1)
    else Final(t, 1, 1)
  }

  // ------------------------------------------------------------------
  // Every interleaving
  // ------------------------------------------------------------------

  datatype Event =
    | Hash(miner: string, time: int, queue: nat)
    | HashThrows(miner: string)
    | Pearl(miner: string, time: int, verifyBytes: nat, queue: nat)
    | Begin(task: nat, now: int)
    | Connect(task: nat, compress: bool)
    | Compressed(task: nat)
    | Outcome(task: nat, destroys: bool)
    | Sweep(queue: nat, now: int)

  /** One event; one that its task is not ready for does not happen. */
  method Happen(pool: VerifierPool, event: Event)
    requires pool.Valid()
    modifies pool
    ensures pool.Valid()
    ensures pool.leaks ==
      if event.HashThrows? && Counter(old(pool.minerAddressVerify), event.miner) <= MINER_PENDING_LIMIT
      then old(pool.leaks) + [event.miner] else old(pool.leaks)
  {
    match event {
      case Hash(miner, time, queue) => var _ := pool.SlowHashAsync(miner, time, queue);
      case HashThrows(miner) => var _ := pool.SlowHashThrows(miner);
      case Pearl(miner, time, verifyBytes, queue) =>
        if verifyBytes > 0 { var _ := pool.VerifyPearlAsync(miner, time, verifyBytes, queue); }
      case Begin(i, now) =>
        if i < |pool.tasks| && pool.tasks[i].phase.Queued? { pool.Start(i, now); }
      case Connect(i, compress) =>
        if i < |pool.tasks| && pool.tasks[i].phase.Running? && !pool.tasks[i].phase.connected && !pool.tasks[i].phase.destroyed {
          pool.OnConnect(i, compress);
        }
      case Compressed(i) =>
        if i < |pool.tasks| && pool.tasks[i].phase.Running? && pool.tasks[i].phase.compressing { pool.OnCompressed(i); }
      case Outcome(i, destroys) =>
        if i < |pool.tasks| && pool.tasks[i].phase.Running? { pool.OnOutcome(i, destroys); }
      case Sweep(queue, now) => pool.SweepExpired(queue, now);
    }
  }

  /**
   Any events in any order. A miner's counter is its waiting tasks and its requests that threw, and so its waiting
   tasks exactly when none threw.
   */
  method RunEvents(events: seq<Event>) returns (pool: VerifierPool)
    ensures fresh(pool) && pool.Valid() && pool.CountersExact()
    ensures forall miner :: miner in pool.leaks ==> HashThrows(miner) in events
  {
    pool := new VerifierPool();
    for n := 0 to |events|
      invariant fresh(pool) && pool.Valid()
      invariant forall miner :: miner in pool.leaks ==> HashThrows(miner) in events
    {
      Happen(pool, events[n]);
    }
    pool.ExactUnlessThrown();
  }

  /**
   The lock-out: after 101 requests that threw, the miner has nothing waiting and yet is refused, whatever happens
   after that, for as long as the process lives.
   */
  method LockOut(miner: string, later: seq<Event>, time: int, verifyBytes: nat) returns (pool: VerifierPool, hashed: bool, proved: bool)
    requires verifyBytes > 0
    ensures fresh(pool) && pool.Valid()
    ensures Leaked(pool.leaks, miner) == 101 == Counter(pool.minerAddressVerify, miner) && QueuedBy(pool.tasks, miner) == 0
    ensures !hashed && !proved
  {
    hide QueuedBy, Leaked, Counter;
    pool := new VerifierPool();
    NoneLeaked(pool.leaks, miner);
    var n := 0;
    while n < 101
      invariant 0 <= n <= 101 && fresh(pool) && pool.Valid()
      invariant pool.tasks == [] && Leaked(pool.leaks, miner) == n
    {
      NoneQueued(pool.tasks, miner);
      LeakedMore(pool.leaks, miner, miner);
      assert Counter(pool.minerAddressVerify, miner) == n;
      var raised := pool.SlowHashThrows(miner);
      n := n + 1;
    }
    for k := 0 to |later|
      invariant fresh(pool) && pool.Valid() && Leaked(pool.leaks, miner) == 101
    {
      assert Counter(pool.minerAddressVerify, miner) > MINER_PENDING_LIMIT;
      ghost var leaks := pool.leaks;
      Happen(pool, later[k]);
      if pool.leaks != leaks {
        LeakedMore(leaks, pool.leaks[|leaks|], miner);
      }
    }
    assert Counter(pool.minerAddressVerify, miner) > MINER_PENDING_LIMIT;
    hashed := pool.SlowHashAsync(miner, time, 0);
    proved := pool.VerifyPearlAsync(miner, time, verifyBytes, 0);
    assert Counter(pool.minerAddressVerify, miner) == QueuedBy(pool.tasks, miner) + Leaked(pool.leaks, miner);
  }

  lemma NoneLeaked(leaks: seq<string>, miner: string)
    requires leaks == []
    ensures Leaked(leaks, miner) == 0
  {
  }

  lemma NoneQueued(tasks: seq<VerifyTask>, miner: string)
    requires tasks == []
    ensures QueuedBy(tasks, miner) == 0
  {
  }
}
