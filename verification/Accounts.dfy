/** Accounts over a run of the supervisor: for any weight of tasks, what is pending, running or
    stored in the snapshot only grows by what enters and by what replaces a killed task. */
module Accounts {
  import opened Options
  import opened TaskQueue
  import opened Supervisor
  import opened Tallies

  /** A stored row weighs no more than the task it was taken from. */
  ghost predicate Shrinking(f: Task -> int) {
    forall t: Task {:trigger Kept(t)} :: f(Kept(t)) <= f(t)
  }

  ghost predicate Weighs(f: Task -> int) {
    Steady(f) && NonNegative(f) && Shrinking(f)
  }

  /** What is pending or running. */
  function Live(s: Sup, f: Task -> int): int {
    Total(s.queue.pending, f) + TotalRunning(s.running, f)
  }

  /** What the snapshot on disk would bring back after a restart. */
  function Stored(s: Sup, f: Task -> int): int {
    if s.rows.Some? then Total(s.rows.value, f) else 0
  }

  /** A restart replaces what is live by what is stored, so the larger one counts. */
  function Account(s: Sup, f: Task -> int): int {
    if Live(s, f) >= Stored(s, f) then Live(s, f) else Stored(s, f)
  }

  // ---- What enters and what is killed ----

  /** The scheduler's guards. */
  predicate TickEnters(s: Sup, remaining: real, c: Config) {
    && s.queue.pending == [] && s.running == [] && s.evo.enabled
    && s.evo.owner.Some? && s.evo.owner.value != 0
    && s.evo.failures < 3 && remaining >= c.reserve
  }

  /** The task an operation brings in, if any. */
  function Arriving(s: Sup, op: Op, c: Config): Option<Task> {
    match op
    case EnqueueOp(t, _, _) => Some(t)
    case TickOp(remaining, id, text, origin, _) =>
      if TickEnters(s, remaining, c) then Some(EvolutionTask(id, s.evo.owner.value, text, origin)) else None
    case _ => None
  }

  function Enters(s: Sup, op: Op, c: Config, f: Task -> int): int {
    var t := Arriving(s, op, c);
    if t.Some? then f(t.value) else 0
  }

  /** The running tasks an operation kills at their hard limit. */
  function Lost(s: Sup, op: Op, c: Config): seq<Running> {
    if op.TimeoutsOp? then Killed(s.running, op.now, c) else []
  }

  /** The tasks put back for killed ones. */
  function Retries(killed: seq<Running>, newId: string -> string): seq<Task> {
    if killed == [] then []
    else
      var r := killed[|killed| - 1];
      Retries(killed[..|killed| - 1], newId)
      + if RunAttempt(r.meta) <= QUEUE_MAX_RETRIES then [Retried(r, newId)] else []
  }

  // ---- Each operation ----

  lemma {:induction false} TotalNonNegative(s: seq<Task>, f: Task -> int)
    requires NonNegative(f)
    ensures Total(s, f) >= 0
  {
    TotalWithout(s, "", f);
  }

  lemma {:induction false} AccountsNonNegative(s: Sup, f: Task -> int)
    requires NonNegative(f)
    ensures Total(s.queue.pending, f) >= 0 && TotalRunning(s.running, f) >= 0
    ensures Live(s, f) >= 0 && Stored(s, f) >= 0 && Account(s, f) >= 0
  {
    TotalNonNegative(s.queue.pending, f);
    RunningNonNegative(s.running, f);
    if s.rows.Some? {
      TotalNonNegative(s.rows.value, f);
    }
  }

  lemma {:induction false} RowsWeighLess(s: seq<Task>, f: Task -> int)
    requires Shrinking(f)
    ensures Total(Rows(s), f) <= Total(s, f)
  {
    if s != [] {
      var m := |s| - 1;
      RowsWeighLess(s[..m], f);
      assert Rows(s)[..m] == Rows(s[..m]);
      assert Rows(s)[m] == Kept(s[m]);
    }
  }

  /** Once the queue is saved, what is stored is part of what is live. */
  lemma {:induction false} Saved(s: Sup, f: Task -> int)
    requires Weighs(f)
    ensures Account(Persist(s), f) == Live(Persist(s), f) == Live(s, f)
  {
    RowsWeighLess(s.queue.pending, f);
    RunningNonNegative(s.running, f);
  }

  lemma {:induction false} EnqueueAccount(s: Sup, t: Task, front: bool, nowTs: string, f: Task -> int)
    requires Weighs(f)
    ensures var s' := s.(queue := Enqueue(s.queue, t, front, nowTs));
            Live(s', f) == Live(s, f) + f(t) && Account(s', f) <= Account(s, f) + f(t)
  {
    TotalEnqueue(s.queue, t, front, nowTs, f);
    assert f(t) >= 0;
  }

  lemma {:induction false} AssignAccount(s: Sup, remaining: real, now: real, c: Config, f: Task -> int)
    requires Weighs(f)
    ensures Account(Assign(s, remaining, now, c), f) <= Account(s, f)
  {
    hide WithoutKind, Put, Rows, Persist;
    var p := s.queue.pending;
    if !(remaining <= 0.0 || p == []) {
      var k := FirstAffordable(p, remaining, c);
      if k == |p| {
        TotalWithout(p, EVOLUTION, f);
        Saved(s.(queue := s.queue.(pending := WithoutKind(p, EVOLUTION))), f);
      } else {
        TotalRemoved(p, k, f);
        var meta := Meta(p[k], now, now, false, Int(AttemptOf(p[k])));
        TotalPut(s.running, p[k].id, meta, f);
        Saved(s.(queue := s.queue.(pending := p[..k] + p[k + 1..]), running := Put(s.running, p[k].id, meta)), f);
      }
    }
  }

  /** The weight of the entry an event takes out of RUNNING. */
  function Popped(running: seq<Running>, id: string, f: Task -> int): int {
    var k := IndexOfId(running, id);
    if id != "" && k < |running| then f(running[k].meta.task) else 0
  }

  lemma {:induction false} DoneAccount(s: Sup, id: string, kind: string, cost: real, rounds: int, c: Config,
                                       f: Task -> int)
    requires Weighs(f)
    ensures Account(TaskDone(s, id, kind, cost, rounds, c), f) == Live(s, f) - Popped(s.running, id, f) <= Account(s, f)
  {
    hide Persist, Pop;
    TotalPop(s.running, id, f);
    var evo := CountFailure(s.evo, kind, cost, rounds, c);
    var k := IndexOfId(s.running, id);
    if k < |s.running| {
      assert f(s.running[k].meta.task) >= 0;
    }
    Saved(s.(evo := evo, running := if id == "" then s.running else Pop(s.running, id)), f);
  }

  lemma {:induction false} RetryTotal(q: Queue, killed: seq<Running>, newId: string -> string, now: string,
                                      f: Task -> int)
    requires Steady(f)
    ensures Total(RetryAll(q, killed, newId, now).pending, f) == Total(q.pending, f) + Total(Retries(killed, newId), f)
  {
    hide Enqueue, Retried;
    if killed != [] {
      var m := |killed| - 1;
      RetryTotal(q, killed[..m], newId, now, f);
      var before := Retries(killed[..m], newId);
      if RunAttempt(killed[m].meta) <= QUEUE_MAX_RETRIES {
        TotalEnqueue(RetryAll(q, killed[..m], newId, now), Retried(killed[m], newId), true, now, f);
        TotalAppend(before, [Retried(killed[m], newId)], f);
        TotalOne(Retried(killed[m], newId), f);
      } else {
        assert before + [] == before;
      }
    }
  }

  /** A pass of timeouts trades what it kills for the retries, exactly. */
  lemma {:induction false} PassExchanges(s: Sup, now: real, nowTs: string, newId: string -> string, c: Config,
                                         f: Task -> int)
    requires Weighs(f)
    ensures var s', killed := Timeouts(s, now, nowTs, newId, c), Killed(s.running, now, c);
            && Live(s', f) + TotalRunning(killed, f) == Live(s, f) + Total(Retries(killed, newId), f)
            && Account(s', f) + TotalRunning(killed, f) <= Account(s, f) + Total(Retries(killed, newId), f)
  {
    hide RetryAll, Survivors, Killed, Retries, Persist;
    var killed := Killed(s.running, now, c);
    RetryTotal(s.queue, killed, newId, nowTs, f);
    TotalPass(s.running, now, c, f);
    var s1 := s.(running := Survivors(s.running, now, c), queue := RetryAll(s.queue, killed, newId, nowTs));
    Saved(s1, f);
    if killed == [] {
      assert Retries([], newId) == [] && TotalRunning([], f) == 0 && Total([], f) == 0 by {
        NothingKilled(newId, f);
      }
    }
  }

  lemma {:induction false} NothingKilled(newId: string -> string, f: Task -> int)
    ensures Retries([], newId) == [] && TotalRunning([], f) == 0 && Total([], f) == 0
  {
  }

  lemma {:induction false} CancelAccount(s: Sup, at: nat, f: Task -> int)
    requires Weighs(f)
    ensures Account(CancelPending(s, at), f) <= Account(s, f)
  {
    hide Persist;
    if at < |s.queue.pending| {
      TotalRemoved(s.queue.pending, at, f);
      assert f(s.queue.pending[at]) >= 0;
      Saved(s.(queue := s.queue.(pending := s.queue.pending[..at] + s.queue.pending[at + 1..])), f);
    }
  }

  lemma {:induction false} PopAccount(s: Sup, id: string, f: Task -> int)
    requires Weighs(f)
    ensures Account(Persist(s.(running := Pop(s.running, id))), f) <= Account(s, f)
    ensures Account(Persist(s), f) <= Account(s, f)
  {
    hide Persist, Pop;
    TotalPop(s.running, id, f);
    Saved(s.(running := Pop(s.running, id)), f);
    Saved(s, f);
  }

  lemma {:induction false} DropAccount(s: Sup, f: Task -> int)
    requires Weighs(f)
    ensures Account(DropEvolution(s), f) <= Account(s, f)
  {
    hide Persist, WithoutKind, StableSort;
    var w := WithoutKind(s.queue.pending, EVOLUTION);
    TotalWithout(s.queue.pending, EVOLUTION, f);
    TotalSort(w, f);
    Saved(s.(queue := s.queue.(pending := StableSort(w))), f);
  }

  lemma {:induction false} ToggleAccount(s: Sup, on: bool, f: Task -> int)
    requires Weighs(f)
    ensures Account(ToggleByTool(s, on), f) <= Account(s, f) && Account(ToggleByOwner(s, on), f) <= Account(s, f)
  {
    hide DropEvolution;
    DropAccount(s.(evo := s.evo.(enabled := on)), f);
    DropAccount(s.(evo := s.evo.(enabled := on, failures := if on then 0 else s.evo.failures)), f);
  }

  /** What a tick of the scheduler leaves. */
  lemma {:induction false} TickShape(s: Sup, op: Op, newId: string -> string, c: Config)
    requires op.TickOp?
    ensures var s', t := Step(s, op, newId, c), Arriving(s, op, c);
            && s'.queue == (if t.Some? then Enqueue(s.queue, t.value, false, op.nowTs) else s.queue)
            && s'.running == s.running && s'.rows == s.rows && s'.evo.failures == s.evo.failures
  {
    hide Enqueue;
  }

  lemma {:induction false} TickAccount(s: Sup, op: Op, newId: string -> string, c: Config, f: Task -> int)
    requires Weighs(f) && op.TickOp?
    ensures Account(Step(s, op, newId, c), f) <= Account(s, f) + Enters(s, op, c, f)
  {
    hide Enqueue, Step, TickEnters;
    TickShape(s, op, newId, c);
    var t := Arriving(s, op, c);
    if t.Some? {
      EnqueueAccount(s, t.value, false, op.nowTs, f);
      var s' := Step(s, op, newId, c);
      assert Live(s', f) == Live(s.(queue := s'.queue), f) && Stored(s', f) == Stored(s, f);
    }
  }

  lemma {:induction false} CrashAccount(s: Sup, id: string, bySignal: bool, nowTs: string, f: Task -> int)
    requires Weighs(f)
    ensures Account(Crash(s, id, bySignal, nowTs), f) <= Account(s, f)
  {
    hide Persist, Pop, Enqueue;
    TotalPop(s.running, id, f);
    var k := IndexOfId(s.running, id);
    var s1 := s.(running := Pop(s.running, id));
    if k == |s.running| {
      Saved(s, f);
    } else {
      var t := s.running[k].meta.task;
      EnqueueAccount(s1, t, true, nowTs, f);
      Saved(s1, f);
      Saved(s1.(queue := Enqueue(s1.queue, t, true, nowTs)), f);
    }
  }

  lemma {:induction false} RestoreAccount(s: Sup, age: Option<real>, maxAge: real, nowTs: string, f: Task -> int)
    requires Weighs(f) && s.queue.pending == [] && s.running == []
    ensures Account(RestoreSnapshot(s, age, maxAge, nowTs), f) <= Account(s, f)
  {
    hide Persist, Restore, OnlyRestorable;
    if s.rows.Some? {
      NothingKilled(id => id, f);
      AccountsNonNegative(s, f);
      TotalRestore(s.queue, s.rows.value, nowTs, f);
      Saved(s.(queue := Restore(s.queue, s.rows.value, nowTs)), f);
    }
  }

  lemma {:induction false} EmptiedAccount(s: Sup, q: Queue, f: Task -> int)
    requires Weighs(f) && q.pending == []
    ensures var s' := s.(queue := q, running := []); Live(s', f) == 0 && Account(s', f) <= Account(s, f)
  {
    NothingKilled(id => id, f);
    AccountsNonNegative(s, f);
  }

  lemma {:induction false} KillAccount(s: Sup, f: Task -> int)
    requires Weighs(f)
    ensures Account(KillWorkers(s), f) == 0
  {
    EmptiedAccount(s, s.queue.(pending := []), f);
    Saved(Persist(s.(queue := s.queue.(pending := []))).(running := []), f);
  }

  /** A restart drops what runs and can bring back what is stored, no more; a start-up with
      kill_workers in front brings back nothing. */
  lemma {:induction false} RestartAccount(s: Sup, age: Option<real>, maxAge: real, nowTs: string, f: Task -> int)
    requires Weighs(f)
    ensures Account(Restart(s, age, maxAge, nowTs), f) <= Account(s, f)
    ensures Account(Boot(s, age, maxAge, nowTs), f) <= Account(s, f)
  {
    hide RestoreSnapshot, Persist, KillWorkers;
    EmptiedAccount(s, Queue([], 0), f);
    RestoreAccount(NewProcess(s), age, maxAge, nowTs, f);
    KillAccount(NewProcess(s), f);
    KilledIdle(NewProcess(s));
    var k := KillWorkers(NewProcess(s));
    RestoreAccount(k, age, maxAge, nowTs, f);
    Saved(RestoreSnapshot(k, age, maxAge, nowTs), f);
    AccountsNonNegative(s, f);
  }

  lemma {:induction false} KilledIdle(s: Sup)
    ensures KillWorkers(s).queue.pending == [] && KillWorkers(s).running == []
  {
  }

  /** No operation creates weight: what a step kills and what is left never exceed what was
      there, what the step brought in and what it put back for the killed. */
  lemma {:induction false} StepBalances(s: Sup, op: Op, newId: string -> string, c: Config, f: Task -> int)
    requires Weighs(f)
    ensures Account(Step(s, op, newId, c), f) + TotalRunning(Lost(s, op, c), f)
         <= Account(s, f) + Enters(s, op, c, f) + Total(Retries(Lost(s, op, c), newId), f)
  {
    hide Timeouts, Assign, Enqueue, EvolutionTick, Crash, TaskDone, ToggleByTool, ToggleByOwner, CancelPending, Restart,
      Boot, KillWorkers, Pop, Persist, Account, Retries, Total, TotalRunning, TickEnters, Killed;
    NothingKilled(newId, f);
    AccountsNonNegative(s, f);
    match op {
      case EnqueueOp(t, front, nowTs) => EnqueueAccount(s, t, front, nowTs, f);
      case AssignOp(remaining, now) => AssignAccount(s, remaining, now, c, f);
      case DoneOp(id, kind, cost, rounds) => DoneAccount(s, id, kind, cost, rounds, c, f);
      case TimeoutsOp(now, nowTs) => PassExchanges(s, now, nowTs, newId, c, f);
      case CancelPendingOp(at) => CancelAccount(s, at, f);
      case CancelRunningOp(id) => PopAccount(s, id, f);
      case ToolToggleOp(on) => ToggleAccount(s, on, f);
      case OwnerToggleOp(on) => ToggleAccount(s, on, f);
      case TickOp(_, _, _, _, _) => TickAccount(s, op, newId, c, f);
      case CrashOp(id, bySignal, nowTs) => CrashAccount(s, id, bySignal, nowTs, f);
      case PersistOp => PopAccount(s, "", f);
      case RestartOp(age, maxAge, nowTs) => RestartAccount(s, age, maxAge, nowTs, f);
      case KillWorkersOp => KillAccount(s, f);
      case BootOp(age, maxAge, nowTs) => RestartAccount(s, age, maxAge, nowTs, f);
    }
  }
}
