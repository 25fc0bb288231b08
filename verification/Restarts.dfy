/** The queue over a restart, in any state the supervisor can reach: from a current snapshot a new
    process restores the same line of tasks, and nothing that happens later tells them apart. */
module Restarts {
  import opened Options
  import opened TaskQueue
  import opened Supervisor

  lemma {:induction false} SortOrderly(q: Queue)
    requires Orderly(q)
    ensures StableSort(q.pending) == q.pending
  {
    hide StableSort, Sorted, Numbered;
    LineIsSorted(q.pending);
    SortedIsFixed(q.pending);
  }

  lemma {:induction false} RestoreOrderly(q: Queue, rows: seq<Task>, now: string)
    requires Orderly(q)
    ensures Orderly(Restore(q, rows, now))
  {
    hide Orderly, Enqueue;
    if rows != [] {
      RestoreOrderly(q, rows[..|rows| - 1], now);
      EnqueueAtSlot(Restore(q, rows[..|rows| - 1], now), rows[|rows| - 1], false, now);
    }
  }

  lemma {:induction false} RetryOrderly(q: Queue, killed: seq<Running>, newId: string -> string, now: string)
    requires Orderly(q)
    ensures Orderly(RetryAll(q, killed, newId, now))
  {
    hide Orderly, Enqueue, Retried;
    if killed != [] {
      var q1 := RetryAll(q, killed[..|killed| - 1], newId, now);
      RetryOrderly(q, killed[..|killed| - 1], newId, now);
      EnqueueAtSlot(q1, Retried(killed[|killed| - 1], newId), true, now);
    }
  }

  lemma {:induction false} EmptyOrderly(counter: nat)
    ensures Orderly(Queue([], counter))
  {
  }

  lemma {:induction false} CounterKept(q: Queue)
    requires Orderly(q)
    ensures q.counter >= 0
  {
  }

  lemma {:induction false} DropKindOrderly(q: Queue, kind: string)
    requires Orderly(q)
    ensures Orderly(q.(pending := WithoutKind(q.pending, kind)))
    ensures Orderly(q.(pending := StableSort(WithoutKind(q.pending, kind))))
  {
    hide Orderly, WithoutKind, StableSort;
    DropOrderly(q.pending, q.counter, kind);
    SortOrderly(q.(pending := WithoutKind(q.pending, kind)));
  }

  lemma {:induction false} RestartOrderly(s: Sup, age: Option<real>, maxAge: real, nowTs: string)
    ensures Orderly(Restart(s, age, maxAge, nowTs).queue) && Orderly(Boot(s, age, maxAge, nowTs).queue)
  {
    hide Orderly, Restore, OnlyRestorable, Rows;
    EmptyOrderly(0);
    if s.rows.Some? {
      RestoreOrderly(Queue([], 0), s.rows.value, nowTs);
    }
    RestoreOrderly(Queue([], 0), Rows([]), nowTs);
  }

  lemma {:induction false} AssignOrderly(s: Sup, remaining: real, now: real, c: Config)
    requires Orderly(s.queue)
    ensures Orderly(Assign(s, remaining, now, c).queue)
  {
    hide Orderly, WithoutKind, Rows, Put;
    DropKindOrderly(s.queue, EVOLUTION);
    LeaveOrderly(s.queue, FirstAffordable(s.queue.pending, remaining, c));
  }

  lemma {:induction false} ToggleOrderly(s: Sup, on: bool)
    requires Orderly(s.queue)
    ensures Orderly(ToggleByTool(s, on).queue) && Orderly(ToggleByOwner(s, on).queue)
  {
    hide Orderly, WithoutKind, StableSort, Rows;
    DropKindOrderly(s.queue, EVOLUTION);
  }

  lemma {:induction false} TickOrderly(s: Sup, remaining: real, id: string, text: string, origin: nat, nowTs: string,
                                       c: Config)
    requires Orderly(s.queue)
    ensures Orderly(EvolutionTick(s, remaining, id, text, origin, nowTs, c).queue)
  {
    hide Orderly, Enqueue;
    if s.evo.owner.Some? {
      EnqueueAtSlot(s.queue, EvolutionTask(id, s.evo.owner.value, text, origin), false, nowTs);
    }
  }

  lemma {:induction false} CrashOrderly(s: Sup, id: string, bySignal: bool, nowTs: string)
    requires Orderly(s.queue)
    ensures Orderly(Crash(s, id, bySignal, nowTs).queue)
  {
    hide Orderly, Enqueue, Rows, Pop;
    var k := IndexOfId(s.running, id);
    if k < |s.running| {
      EnqueueAtSlot(s.queue, s.running[k].meta.task, true, nowTs);
    }
  }

  lemma {:induction false} QuietOrderly(s: Sup, at: nat, id: string, kind: string, cost: real, rounds: int, c: Config)
    requires Orderly(s.queue)
    ensures Orderly(CancelPending(s, at).queue) && Orderly(TaskDone(s, id, kind, cost, rounds, c).queue)
    ensures Orderly(KillWorkers(s).queue) && Orderly(Persist(s).queue)
  {
    hide Orderly, Rows, Pop;
    LeaveOrderly(s.queue, at);
    CounterKept(s.queue);
    EmptyOrderly(s.queue.counter);
  }

  lemma {:induction false} TimeoutsOrderly(s: Sup, now: real, nowTs: string, newId: string -> string, c: Config)
    requires Orderly(s.queue)
    ensures Orderly(Timeouts(s, now, nowTs, newId, c).queue)
  {
    hide Orderly, RetryAll, Rows, Survivors, Killed;
    RetryOrderly(s.queue, Killed(s.running, now, c), newId, nowTs);
  }

  lemma {:induction false} StepOrderly(s: Sup, op: Op, newId: string -> string, c: Config)
    requires Orderly(s.queue)
    ensures Orderly(Step(s, op, newId, c).queue)
  {
    hide Orderly, Timeouts, Assign, Enqueue, EvolutionTick, Crash, TaskDone, ToggleByTool, ToggleByOwner, CancelPending,
      Restart, Boot, KillWorkers, Pop, Rows;
    match op {
      case EnqueueOp(t, front, nowTs) => EnqueueAtSlot(s.queue, t, front, nowTs);
      case AssignOp(remaining, now) => AssignOrderly(s, remaining, now, c);
      case DoneOp(id, kind, cost, rounds) => QuietOrderly(s, 0, id, kind, cost, rounds, c);
      case TimeoutsOp(now, nowTs) => TimeoutsOrderly(s, now, nowTs, newId, c);
      case CancelPendingOp(at) => QuietOrderly(s, at, "", "", 0.0, 0, c);
      case CancelRunningOp(_) =>
      case ToolToggleOp(on) => ToggleOrderly(s, on);
      case OwnerToggleOp(on) => ToggleOrderly(s, on);
      case TickOp(remaining, id, text, origin, nowTs) => TickOrderly(s, remaining, id, text, origin, nowTs, c);
      case CrashOp(id, bySignal, nowTs) => CrashOrderly(s, id, bySignal, nowTs);
      case PersistOp =>
      case RestartOp(age, maxAge, nowTs) => RestartOrderly(s, age, maxAge, nowTs);
      case KillWorkersOp => QuietOrderly(s, 0, "", "", 0.0, 0, c);
      case BootOp(age, maxAge, nowTs) => RestartOrderly(s, age, maxAge, nowTs);
    }
  }

  /** In every reachable state the queue is strictly ordered by priority and number. */
  lemma {:induction false} OrderlyAlways(evo: Evo, ops: seq<Op>, newId: string -> string, c: Config, n: nat)
    requires n <= |ops|
    ensures Orderly(After(Empty(evo), ops, newId, c, n).queue)
  {
    hide Orderly, Step;
    EmptyOrderly(0);
    if n > 0 {
      OrderlyAlways(evo, ops, newId, c, n - 1);
      StepOrderly(After(Empty(evo), ops, newId, c, n - 1), Stamped(ops[n - 1], n - 1), newId, c);
    }
  }

  /** What a new process restores from a current snapshot that is young enough. */
  lemma {:induction false} RestoredLine(s: Sup, age: real, maxAge: real, nowTs: string)
    requires Orderly(s.queue) && s.rows == Some(Rows(s.queue.pending)) && age <= maxAge
    ensures var q := Restart(s, Some(age), maxAge, nowTs).queue;
            && Orderly(q) && SameLine(q.pending, OnlyRestorable(Rows(s.queue.pending)))
            && (AllRestorable(s.queue.pending) ==> SameLine(q.pending, s.queue.pending))
  {
    hide Orderly, Restore, OnlyRestorable, Rows;
    RestoreFromSnapshot(s.queue, 0, nowTs);
    EmptyOrderly(0);
    if AllRestorable(s.queue.pending) {
      assert AllRestorable(Rows(s.queue.pending)) && |Rows(s.queue.pending)| == |s.queue.pending|;
      NoneSkipped(Rows(s.queue.pending));
    }
  }

  /** A restart cannot be noticed from the queue's order: in any reachable state with a current
      snapshot no older than allowed, and all of whose tasks have an id and a chat, the new
      process holds the same line, and after any further enqueues (normal or front), removals and
      drops it is in the same line as the one that never went down, although the sequence numbers
      differ. */
  lemma {:induction false} RestartTransparent(evo: Evo, ops: seq<Op>, newId: string -> string, c: Config, n: nat,
                                              age: real, maxAge: real, nowTs: string, later: seq<QueueOp>)
    requires n <= |ops| && age <= maxAge
    requires var s := After(Empty(evo), ops, newId, c, n);
             s.rows == Some(Rows(s.queue.pending)) && AllRestorable(s.queue.pending)
    ensures var s := After(Empty(evo), ops, newId, c, n);
            SameLine(DoAll(Restart(s, Some(age), maxAge, nowTs).queue, later).pending, DoAll(s.queue, later).pending)
  {
    hide Orderly, After, Restart, Rows, AllRestorable, SameLine, DoAll;
    var s := After(Empty(evo), ops, newId, c, n);
    OrderlyAlways(evo, ops, newId, c, n);
    RestoredLine(s, age, maxAge, nowTs);
    DoAllKeepsLine(Restart(s, Some(age), maxAge, nowTs).queue, s.queue, later);
  }
}
