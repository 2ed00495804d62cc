/**
 The bounded task queue. Workers and completion callbacks are arbitrary user
 code that may call back into the queue while it is pumping: here they follow
 a script, and everything is proved for every script.
 */
module TaskQueue {
  import opened Wrappers

  /** A task, with the stamp that orders it by insertion. */
  datatype Task = Task(data: int, order: nat)

  /**
   What user code does next: call the queue, report a started task done, be it for the first time or again, return
   to the queue, or throw. Removal is by any predicate, given as the set of orders it holds of.
   */
  datatype Action = Push(data: int) | Unshift(data: int) | Remove(victims: set<nat>) | Done(order: nat) | Return | Throw

  // ------------------------------------------------------------------
  // The ledger: what became of each task, by insertion order
  // ------------------------------------------------------------------

  datatype Fate = Pending | Running | Finished | Removed

  type Ledger = seq<Fate>

  function Count(ledger: Ledger, fate: Fate): nat {
    if ledger == [] then 0 else (if ledger[0] == fate then 1 else 0) + Count(ledger[1..], fate)
  }

  /** The moves a task can make: it starts at most once and never comes back. */
  predicate Moves(before: Fate, after: Fate) {
    before == after || before == Pending || (before == Running && after == Finished)
  }

  ghost predicate Later(before: Ledger, after: Ledger) {
    |before| <= |after| && forall o :: 0 <= o < |before| ==> Moves(before[o], after[o])
  }

  lemma LaterTransitive(a: Ledger, b: Ledger, c: Ledger)
    requires Later(a, b) && Later(b, c)
    ensures Later(a, c)
  {
  }

  ghost predicate Distinct(tasks: seq<Task>) {
    forall i, j :: 0 <= i < j < |tasks| ==> tasks[i].order != tasks[j].order
  }

  /** The queue's own state agrees with the ledger, but for the tasks that were reported done again. */
  ghost predicate Accounts(pending: seq<Task>, running: int, again: nat, ledger: Ledger) {
    && Distinct(pending)
    && (forall i :: 0 <= i < |pending| ==> pending[i].order < |ledger| && ledger[pending[i].order] == Pending)
    && |pending| == Count(ledger, Pending)
    && running + again == Count(ledger, Running)
  }

  lemma {:induction false} CountUpdate(ledger: Ledger, o: nat, fate: Fate, of: Fate)
    requires o < |ledger|
    ensures Count(ledger[o := fate], of)
         == Count(ledger, of) - (if ledger[o] == of then 1 else 0) + (if fate == of then 1 else 0)
  {
    if o == 0 {
      assert ledger[0 := fate][1..] == ledger[1..];
    } else {
      assert ledger[o := fate][1..] == ledger[1..][o - 1 := fate];
      CountUpdate(ledger[1..], o - 1, fate, of);
    }
  }

  lemma {:induction false} CountAppend(ledger: Ledger, fate: Fate, of: Fate)
    ensures Count(ledger + [fate], of) == Count(ledger, of) + if fate == of then 1 else 0
  {
    if ledger == [] {
      assert [fate][1..] == [];
    } else {
      assert (ledger + [fate])[1..] == ledger[1..] + [fate];
      CountAppend(ledger[1..], fate, of);
    }
  }

  /** Nothing is lost and nothing is counted twice. */
  lemma {:induction false} EveryTaskIsSomewhere(pending: seq<Task>, running: int, again: nat, ledger: Ledger)
    requires Accounts(pending, running, again, ledger)
    ensures |ledger| == |pending| + (running + again) + Count(ledger, Finished) + Count(ledger, Removed)
  {
    FatesAddUp(ledger);
  }

  lemma {:induction false} FatesAddUp(ledger: Ledger)
    ensures |ledger| == Count(ledger, Pending) + Count(ledger, Running) + Count(ledger, Finished) + Count(ledger, Removed)
  {
    if ledger != [] {
      FatesAddUp(ledger[1..]);
    }
  }

  lemma AccountsAdd(pending: seq<Task>, running: int, again: nat, ledger: Ledger, data: int)
    requires Accounts(pending, running, again, ledger)
    ensures Accounts(pending + [Task(data, |ledger|)], running, again, ledger + [Pending])
    ensures Accounts([Task(data, |ledger|)] + pending, running, again, ledger + [Pending])
    ensures Later(ledger, ledger + [Pending])
  {
    CountAppend(ledger, Pending, Pending);
    CountAppend(ledger, Pending, Running);
  }

  lemma AccountsTakeOut(pending: seq<Task>, running: int, again: nat, ledger: Ledger, k: nat, fate: Fate)
    requires Accounts(pending, running, again, ledger) && k < |pending| && (fate == Running || fate == Removed)
    ensures var task := pending[k];
            && Accounts(pending[..k] + pending[k + 1..], if fate == Running then running + 1 else running, again, ledger[task.order := fate])
            && Later(ledger, ledger[task.order := fate])
  {
    var o := pending[k].order;
    CountUpdate(ledger, o, fate, Pending);
    CountUpdate(ledger, o, fate, Running);
    var rest := pending[..k] + pending[k + 1..];
    assert forall i :: 0 <= i < |rest| ==> rest[i] == pending[if i < k then i else i + 1];
  }

  /** A report takes one off the count of running tasks, whether its task was running or had been reported before. */
  lemma AccountsFinish(pending: seq<Task>, running: int, again: nat, ledger: Ledger, order: nat)
    requires Accounts(pending, running, again, ledger) && order < |ledger| && (ledger[order] == Running || ledger[order] == Finished)
    ensures Accounts(pending, running - 1, if ledger[order] == Finished then again + 1 else again, ledger[order := Finished])
    ensures Later(ledger, ledger[order := Finished])
  {
    CountUpdate(ledger, order, Finished, Pending);
    CountUpdate(ledger, order, Finished, Running);
  }

  /** No task did anything but start. */
  ghost predicate OnlyStarted(before: Ledger, after: Ledger) {
    |after| == |before| && forall o :: 0 <= o < |before| ==> after[o] == before[o] || (before[o] == Pending && after[o] == Running)
  }

  // ------------------------------------------------------------------
  // Removal
  // ------------------------------------------------------------------

  function Kept(tasks: seq<Task>, victims: set<nat>): seq<Task> {
    if tasks == [] then []
    else (if tasks[0].order in victims then [] else [tasks[0]]) + Kept(tasks[1..], victims)
  }

  /** A removal takes every victim and nothing else. */
  lemma {:induction false} RemovalTakesVictims(tasks: seq<Task>, victims: set<nat>)
    ensures forall t :: t in Kept(tasks, victims) <==> t in tasks && t.order !in victims
  {
    if tasks != [] {
      RemovalTakesVictims(tasks[1..], victims);
      assert tasks == [tasks[0]] + tasks[1..];
    }
  }

  /** What it leaves stays in its order. */
  lemma {:induction false} RemovalKeepsOrder(a: seq<Task>, b: seq<Task>, victims: set<nat>)
    ensures Kept(a + b, victims) == Kept(a, victims) + Kept(b, victims)
    decreases |a|
  {
    hide Kept;
    if a == [] {
      assert a + b == b;
      NoneKept(victims);
    } else {
      var rest := a[1..];
      assert a == [a[0]] + rest && a + b == [a[0]] + (rest + b);
      RemovalKeepsOrder(rest, b, victims);
      KeptFirst(a[0], rest, victims);
      KeptFirst(a[0], rest + b, victims);
    }
  }

  lemma NoneKept(victims: set<nat>)
    ensures Kept([], victims) == []
  {
  }

  lemma KeptFirst(t: Task, rest: seq<Task>, victims: set<nat>)
    ensures Kept([t] + rest, victims) == (if t.order in victims then [] else [t]) + Kept(rest, victims)
  {
    assert ([t] + rest)[1..] == rest;
  }

  // ------------------------------------------------------------------
  // The queue
  // ------------------------------------------------------------------

  class TaskQueue {
    const concurrency: nat
    var pending: seq<Task>
    var running: int
    var pumping: bool
    var enqueueOrder: nat

    /** What user code is still going to do. */
    var script: seq<Action>

    /** What became of its tasks so far: user code knows which of them were started. */
    var ledger: Ledger

    /** How often a task was reported done that had been before, and whether user code ever threw. */
    ghost var again: nat
    ghost var thrown: bool

    ghost predicate Valid()
      reads this
    {
      && running <= concurrency
      && |ledger| == enqueueOrder
      && Accounts(pending, running, again, ledger)
    }

    /** No task waits while there is room to run it. */
    ghost predicate Settled()
      reads this
    {
      pending == [] || running == concurrency
    }

    /** What every call keeps, from inside user code or from outside; only a throw leaves the queue pumping. */
    twostate predicate Progress()
      reads this
    {
      && Valid()
      && Later(old(ledger), ledger)
      && (pumping == old(pumping) || (pumping && thrown))
      && (old(thrown) ==> thrown)
      && old(again) <= again
      && |script| <= old(|script|)
    }

    /** User code did nothing that the queue could notice. */
    twostate predicate Quiet()
      reads this
    {
      script == [] && again == old(again) && thrown == old(thrown)
    }

    constructor (concurrency: nat, script: seq<Action>)
      ensures Valid() && Settled() && !pumping && !thrown && again == 0
      ensures this.script == script && this.concurrency == concurrency
      ensures ledger == []
    {
      this.concurrency, this.script := concurrency, script;
      pending, running, pumping, enqueueOrder := [], 0, false, 0;
      ledger, again, thrown := [], 0, false;
    }

    /** Stamps a task and puts it at the tail or at the front, then pumps. */
    method Enqueue(front: bool, data: int) returns (threw: bool)
      requires Valid()
      modifies this
      ensures Progress() && (!pumping && !thrown ==> Settled()) && (threw ==> thrown)
      ensures |ledger| > old(|ledger|)
      // when nothing can start, a new task waits at the end it was put
      ensures old(pumping) || old(running) == concurrency ==>
        var task := Task(data, old(enqueueOrder));
        pending == if front then [task] + old(pending) else old(pending) + [task]
      ensures old(script) == [] ==> Quiet() && OnlyStarted(old(ledger) + [Pending], ledger)
      decreases |script|, 3
    {
      hide Accounts, Later;
      AccountsAdd(pending, running, again, ledger, data);
      var task := Task(data, enqueueOrder);
      pending := if front then [task] + pending else pending + [task];
      enqueueOrder := enqueueOrder + 1;
      ledger := ledger + [Pending];
      label Added:
      threw := Pump();
      LaterTransitive(old(ledger), old@Added(ledger), ledger);
      LaterGrows(old@Added(ledger), ledger);
    }

    /** Takes the front task and counts it as running. */
    method StartNext() returns (task: Task)
      requires Valid() && pending != [] && running < concurrency
      modifies this`pending, this`running, this`ledger
      ensures Valid() && Later(old(ledger), ledger)
      ensures old(pending) == [task] + pending && running == old(running) + 1
      ensures task.order < old(|ledger|) && old(ledger)[task.order] == Pending && ledger == old(ledger)[task.order := Running]
    {
      hide Accounts, Later;
      task := pending[0];
      AccountsTakeOut(pending, running, again, ledger, 0, Running);
      assert pending[..0] + pending[1..] == pending[1..];
      PendingOrder(pending, running, again, ledger, 0);
      pending := pending[1..];
      running := running + 1;
      ledger := ledger[task.order := Running];
    }

    /** Starts tasks while there is room. A call from inside a worker returns at once. */
    method Pump() returns (threw: bool)
      requires Valid()
      modifies this
      ensures Progress() && (!pumping && !thrown ==> Settled()) && (threw ==> thrown)
      ensures old(pumping) || old(running) == concurrency ==> unchanged(this`pending, this`running, this`ledger, this`script)
      ensures old(script) == [] ==> Quiet() && OnlyStarted(old(ledger), ledger)
      decreases |script|, 1
    {
      hide Accounts, Later;
      LaterReflexive(ledger);
      if pumping { return false; }
      pumping := true;
      while running < concurrency && |pending| > 0
        invariant Valid() && pumping && |script| <= old(|script|) && (old(thrown) ==> thrown) && old(again) <= again
        invariant Later(old(ledger), ledger)
        invariant old(running) == concurrency ==> unchanged(this`pending, this`running, this`ledger, this`script)
        invariant old(script) == [] ==> Quiet() && OnlyStarted(old(ledger), ledger)
        decreases |script|, |pending|
      {
        ghost var before := ledger;
        var task := StartNext();
        LaterTransitive(old(ledger), before, ledger);
        before := ledger;
        threw := RunUserCode();
        LaterTransitive(old(ledger), before, ledger);
        if threw { return; }
      }
      pumping := false;
      threw := false;
    }

    /** A started task reports that it is done; its callback runs, then the queue pumps. */
    method OnDone(order: nat) returns (threw: bool)
      requires Valid() && order < |ledger| && (ledger[order] == Running || ledger[order] == Finished)
      modifies this
      ensures Progress() && (!pumping && !thrown ==> Settled()) && (threw ==> thrown)
      ensures old(script) == [] ==>
        && script == [] && thrown == old(thrown) && again == old(again) + (if old(ledger)[order] == Finished then 1 else 0)
        && OnlyStarted(old(ledger)[order := Finished], ledger)
      decreases |script|, 3
    {
      hide Accounts, Later;
      AccountsFinish(pending, running, again, ledger, order);
      again := if ledger[order] == Finished then again + 1 else again;
      running := running - 1;
      ledger := ledger[order := Finished];
      label Reported:
      threw := RunUserCode();
      LaterTransitive(old(ledger), old@Reported(ledger), ledger);
      if threw { return; }
      label Called:
      threw := Pump();
      LaterTransitive(old(ledger), old@Called(ledger), ledger);
    }

    /** Splices out the matching pending tasks, from the back to the front. */
    method RemoveTasks(victims: set<nat>)
      requires Valid()
      modifies this`pending, this`ledger
      ensures Progress()
      ensures pending == Kept(old(pending), victims)
      ensures old(Settled()) ==> Settled()
    {
      hide Accounts, Later;
      LaterReflexive(ledger);
      ghost var tasks := pending;
      var index := |pending|;
      while index > 0
        invariant 0 <= index <= |tasks| && index <= |pending|
        invariant pending[..index] == tasks[..index]
        invariant pending[index..] == Kept(tasks[index..], victims)
        invariant Valid() && Later(old(ledger), ledger)
        invariant tasks == [] ==> pending == []
      {
        index := index - 1;
        var task := pending[index];
        assert pending[..index + 1][index] == tasks[..index + 1][index];
        assert tasks[index..][0] == task && tasks[index..][1..] == tasks[index + 1..];
        if task.order in victims {
          ghost var before := ledger;
          AccountsTakeOut(pending, running, again, ledger, index, Removed);
          PendingOrder(pending, running, again, ledger, index);
          pending := pending[..index] + pending[index + 1..];
          ledger := ledger[task.order := Removed];
          LaterTransitive(old(ledger), before, ledger);
        } else {
          assert pending[index..] == [task] + pending[index + 1..];
        }
      }
      assert tasks[0..] == tasks && pending[0..] == pending;
    }

    /** The earliest enqueued task that is still pending, wherever it sits in the queue. */
    method Oldest() returns (oldestTask: Option<Task>)
      ensures oldestTask.None? <==> pending == []
      ensures oldestTask.Some? ==> oldestTask.value in pending
      ensures oldestTask.Some? ==> forall i :: 0 <= i < |pending| ==> oldestTask.value.order <= pending[i].order
    {
      oldestTask := None;
      for i := 0 to |pending|
        invariant oldestTask.None? <==> i == 0
        invariant oldestTask.Some? ==> oldestTask.value in pending
        invariant oldestTask.Some? ==> forall k :: 0 <= k < i ==> oldestTask.value.order <= pending[k].order
      {
        if oldestTask.None? || pending[i].order < oldestTask.value.order {
          oldestTask := Some(pending[i]);
        }
      }
    }

    /**
     User code: follows the script until it returns to the queue, throws, or the script ends. What a call into the
     queue throws it may catch or not.
     */
    method RunUserCode() returns (threw: bool)
      requires Valid()
      modifies this
      ensures Progress() && (threw ==> thrown)
      ensures !pumping && !thrown && old(Settled()) ==> Settled()
      ensures |script| == old(|script|) ==> pending == old(pending)
      ensures old(script) == [] ==> unchanged(this)
      decreases |script|, 0
    {
      hide Accounts, Later, Kept;
      LaterReflexive(ledger);
      threw := false;
      while script != []
        invariant Progress()
        invariant !pumping && !thrown && old(Settled()) ==> Settled()
        invariant |script| == old(|script|) ==> pending == old(pending)
        invariant old(script) == [] ==> unchanged(this)
        decreases |script|
      {
        var action := script[0];
        script := script[1..];
        label Next:
        LaterReflexive(ledger);
        match action {
          case Push(data) => threw := Enqueue(false, data);
          case Unshift(data) => threw := Enqueue(true, data);
          case Remove(victims) => RemoveTasks(victims);
          case Done(order) =>
            if order < |ledger| && (ledger[order] == Running || ledger[order] == Finished) {
              threw := OnDone(order);
            }
          case Return => return false;
          case Throw =>
            thrown := true;
            return true;
        }
        LaterTransitive(old(ledger), old@Next(ledger), ledger);
        var caught: bool := *;
        if threw && !caught { return; }
        threw := false;
      }
    }
  }

  lemma LaterReflexive(ledger: Ledger)
    ensures Later(ledger, ledger)
  {
  }

  lemma LaterGrows(before: Ledger, after: Ledger)
    requires Later(before, after)
    ensures |before| <= |after|
  {
  }

  lemma PendingOrder(pending: seq<Task>, running: int, again: nat, ledger: Ledger, k: nat)
    requires Accounts(pending, running, again, ledger) && k < |pending|
    ensures pending[k].order < |ledger| && ledger[pending[k].order] == Pending
  {
  }

  /**
   Any user code at all, run against a new queue: whatever it pushes, removes and completes, also from inside
   workers and callbacks, every task is accounted for once. As many tasks more than the limit can run as tasks were
   reported done again, so that the limit holds while none is; and while no user code throws, no task is left waiting.
   */
  method RunScript(concurrency: nat, script: seq<Action>) returns (queue: TaskQueue)
    ensures fresh(queue) && queue.Valid() && queue.concurrency == concurrency
    ensures Count(queue.ledger, Running) == queue.running + queue.again <= concurrency + queue.again
    ensures !queue.thrown ==> queue.Settled() && !queue.pumping
    ensures queue.enqueueOrder ==
      |queue.pending| + Count(queue.ledger, Running) + Count(queue.ledger, Finished) + Count(queue.ledger, Removed)
  {
    queue := new TaskQueue(concurrency, script);
    var _ := queue.RunUserCode();
    EveryTaskIsSomewhere(queue.pending, queue.running, queue.again, queue.ledger);
  }

  lemma CountOfThree(ledger: Ledger, of: Fate)
    requires |ledger| == 3
    ensures Count(ledger, of) ==
      (if ledger[0] == of then 1 else 0) + (if ledger[1] == of then 1 else 0) + (if ledger[2] == of then 1 else 0)
  {
    assert ledger[2..][1..] == [];
    assert Count(ledger[2..], of) == if ledger[2] == of then 1 else 0;
    assert ledger[1..][1..] == ledger[2..];
    assert Count(ledger[1..], of) == (if ledger[1] == of then 1 else 0) + Count(ledger[2..], of);
  }

  lemma CountOfOne(ledger: Ledger, of: Fate)
    requires |ledger| == 1
    ensures Count(ledger, of) == if ledger[0] == of then 1 else 0
  {
    assert ledger[1..] == [];
  }

  /** Reporting a task done again lets one task more than the limit run. */
  method ReportedAgainExceedsLimit() returns (queue: TaskQueue)
    ensures fresh(queue) && queue.concurrency == 1 && queue.again == 1 && !queue.thrown
    ensures Count(queue.ledger, Running) == 2
  {
    hide Count, Later;
    queue := new TaskQueue(1, []);
    var _ := queue.Enqueue(false, 0);
    CountOfOne(queue.ledger, Pending);
    CountOfOne(queue.ledger, Running);
    assert queue.ledger[0] == Running;
    var _ := queue.Enqueue(false, 1);
    var _ := queue.Enqueue(false, 2);
    var _ := queue.OnDone(0);
    var _ := queue.OnDone(0);
    CountOfThree(queue.ledger, Pending);
    CountOfThree(queue.ledger, Running);
  }
}
