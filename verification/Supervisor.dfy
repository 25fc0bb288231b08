/** The supervisor as a transition system (supervisor/queue.py, events.py, workers.py):
    pending and running tasks, the snapshot on disk, hard timeouts with retries, and the
    evolution task that schedules itself behind a circuit breaker. */
module Supervisor {
  import opened Options
  import opened TaskQueue

  const QUEUE_MAX_RETRIES := 1
  const EVOLUTION := "evolution"
  const DEEP_REVIEW := "deep_self_review"

  datatype Config = Config(soft: real, hard: real, reserve: real, evoCost: real)

  /** What RUNNING keeps of a task. */
  datatype Meta = Meta(task: Task, started: real, heartbeat: real, softSent: bool, attempt: Field)

  /** RUNNING is a dictionary: entries in insertion order, one per id. */
  datatype Running = Running(id: string, meta: Meta)

  /** The scheduling part of the persistent state. */
  datatype Evo = Evo(enabled: bool, owner: Option<int>, failures: int, cycle: int)

  datatype Sup = Sup(queue: Queue, running: seq<Running>, rows: Option<seq<Task>>, evo: Evo)

  function Empty(evo: Evo): Sup {
    Sup(Queue([], 0), [], None, evo)
  }

  /** persist_queue_snapshot, as far as a restore reads it. */
  function Persist(s: Sup): Sup {
    s.(rows := Some(Rows(s.queue.pending)))
  }

  // ---- RUNNING ----

  function IndexOfId(running: seq<Running>, id: string): (k: nat)
    ensures k <= |running|
    ensures k < |running| ==> running[k].id == id
    ensures forall i | 0 <= i < k :: running[i].id != id
  {
    if running == [] then 0
    else if running[0].id == id then 0
    else 1 + IndexOfId(running[1..], id)
  }

  /** RUNNING[id] = meta */
  function Put(running: seq<Running>, id: string, meta: Meta): seq<Running> {
    var k := IndexOfId(running, id);
    if k < |running| then running[k := Running(id, meta)] else running + [Running(id, meta)]
  }

  /** RUNNING.pop(id, None) */
  function Pop(running: seq<Running>, id: string): seq<Running> {
    var k := IndexOfId(running, id);
    if k < |running| then running[..k] + running[k + 1..] else running
  }

  predicate DistinctIds(running: seq<Running>) {
    forall i, j | 0 <= i < j < |running| :: running[i].id != running[j].id
  }

  // ---- Hard timeouts ----

  /** int(task.get("_attempt") or 1) */
  function AttemptOf(t: Task): int {
    if t.attempt.Int? && t.attempt.n != 0 then t.attempt.n else 1
  }

  /** The attempt number enforce_task_timeouts works with. */
  function RunAttempt(m: Meta): int {
    if m.attempt.Int? then m.attempt.n else if m.task.attempt.Int? then m.task.attempt.n else 1
  }

  function SoftLimit(m: Meta, c: Config): real {
    if m.task.kind == DEEP_REVIEW then 3000.0 else c.soft
  }

  function HardLimit(m: Meta, c: Config): real {
    if m.task.kind == DEEP_REVIEW then 3600.0 else c.hard
  }

  function Runtime(m: Meta, now: real): real {
    if now - m.started >= 0.0 then now - m.started else 0.0
  }

  predicate TimedOut(m: Meta, now: real, c: Config) {
    m.started > 0.0 && Runtime(m, now) >= HardLimit(m, c)
  }

  /** The soft notice is sent once. */
  function Noticed(m: Meta, now: real, c: Config): Meta {
    if m.started > 0.0 && Runtime(m, now) >= SoftLimit(m, c) then m.(softSent := true) else m
  }

  /** The retry of a task killed at its hard limit; uuid4 is an oracle on the killed id. */
  function Retried(r: Running, newId: string -> string): Task {
    r.meta.task.(id := newId(r.id), attempt := Int(RunAttempt(r.meta) + 1), retryFrom := Some(r.id))
  }

  /** What stays in RUNNING after a timeout pass. */
  function Survivors(running: seq<Running>, now: real, c: Config): seq<Running> {
    if running == [] then []
    else
      var r := running[|running| - 1];
      Survivors(running[..|running| - 1], now, c)
      + if TimedOut(r.meta, now, c) then [] else [Running(r.id, Noticed(r.meta, now, c))]
  }

  /** The entries a pass kills, in order. */
  function Killed(running: seq<Running>, now: real, c: Config): seq<Running> {
    if running == [] then []
    else
      var r := running[|running| - 1];
      Killed(running[..|running| - 1], now, c) + if TimedOut(r.meta, now, c) then [r] else []
  }

  /** The queue after the killed tasks that have a retry left were put at the front. */
  function RetryAll(q: Queue, killed: seq<Running>, newId: string -> string, now: string): Queue {
    if killed == [] then q
    else
      var r := killed[|killed| - 1];
      var q1 := RetryAll(q, killed[..|killed| - 1], newId, now);
      if RunAttempt(r.meta) <= QUEUE_MAX_RETRIES then Enqueue(q1, Retried(r, newId), true, now) else q1
  }

  /** enforce_task_timeouts */
  function Timeouts(s: Sup, now: real, nowTs: string, newId: string -> string, c: Config): Sup {
    var killed := Killed(s.running, now, c);
    var s1 := s.(running := Survivors(s.running, now, c), queue := RetryAll(s.queue, killed, newId, nowTs));
    if killed == [] then s1 else Persist(s1)
  }

  // ---- The other operations ----

  predicate OverBudget(t: Task, remaining: real, c: Config) {
    t.kind == EVOLUTION && remaining < c.reserve
  }

  function FirstAffordable(pending: seq<Task>, remaining: real, c: Config): (k: nat)
    ensures k <= |pending|
    ensures k < |pending| ==> !OverBudget(pending[k], remaining, c)
    ensures forall i | 0 <= i < k :: OverBudget(pending[i], remaining, c)
  {
    if pending == [] then 0
    else if !OverBudget(pending[0], remaining, c) then 0
    else 1 + FirstAffordable(pending[1..], remaining, c)
  }

  /** assign_tasks for one idle worker. */
  function Assign(s: Sup, remaining: real, now: real, c: Config): Sup {
    if remaining <= 0.0 || s.queue.pending == [] then s
    else
      var p := s.queue.pending;
      var k := FirstAffordable(p, remaining, c);
      if k == |p| then Persist(s.(queue := s.queue.(pending := WithoutKind(p, EVOLUTION))))
      else
        var t := p[k];
        Persist(s.(queue := s.queue.(pending := p[..k] + p[k + 1..]),
                   running := Put(s.running, t.id, Meta(t, now, now, false, Int(AttemptOf(t))))))
  }

  /** assign_tasks: one idle worker after the other, each at its own time. */
  function AssignAll(s: Sup, remaining: real, times: seq<real>, c: Config): Sup {
    if times == [] then s
    else Assign(AssignAll(s, remaining, times[..|times| - 1], c), remaining, times[|times| - 1], c)
  }

  /** The failure counter's part of _handle_task_done. */
  function CountFailure(evo: Evo, kind: string, cost: real, rounds: int, c: Config): Evo {
    if kind != EVOLUTION then evo
    else if cost > c.evoCost && rounds >= 1 then evo.(failures := 0)
    else evo.(failures := evo.failures + 1)
  }

  function TaskDone(s: Sup, id: string, kind: string, cost: real, rounds: int, c: Config): Sup {
    Persist(s.(evo := CountFailure(s.evo, kind, cost, rounds, c),
               running := if id == "" then s.running else Pop(s.running, id)))
  }

  function DropEvolution(s: Sup): Sup {
    Persist(s.(queue := s.queue.(pending := StableSort(WithoutKind(s.queue.pending, EVOLUTION)))))
  }

  /** _handle_toggle_evolution: the agent's tool does not reset the failure counter. */
  function ToggleByTool(s: Sup, on: bool): Sup {
    var s1 := s.(evo := s.evo.(enabled := on));
    if on then s1 else DropEvolution(s1)
  }

  /** The owner's /evolve command does. */
  function ToggleByOwner(s: Sup, on: bool): Sup {
    var s1 := s.(evo := s.evo.(enabled := on, failures := if on then 0 else s.evo.failures));
    if on then s1 else DropEvolution(s1)
  }

  function EvolutionTask(id: string, chat: int, text: string, origin: nat): Task {
    Task(id, EVOLUTION, Some(chat), Missing, Missing, Payload(Some(text), None, None, None, None, None, None, origin),
         Missing, "", None, map[])
  }

  /** enqueue_evolution_task_if_needed */
  function EvolutionTick(s: Sup, remaining: real, id: string, text: string, origin: nat, nowTs: string,
                         c: Config): Sup {
    if s.queue.pending != [] || s.running != [] then s
    else if !s.evo.enabled then s
    else if s.evo.owner.None? || s.evo.owner.value == 0 then s
    else if s.evo.failures >= 3 then s.(evo := s.evo.(enabled := false))
    else if remaining < c.reserve then s.(evo := s.evo.(enabled := false))
    else
      s.(queue := Enqueue(s.queue, EvolutionTask(id, s.evo.owner.value, text, origin), false, nowTs),
         evo := s.evo.(cycle := s.evo.cycle + 1))
  }

  /** A dead worker's task goes back to the front, unless it is a deep review killed by a signal. */
  function Crash(s: Sup, id: string, bySignal: bool, nowTs: string): Sup {
    var k := IndexOfId(s.running, id);
    if k == |s.running| then Persist(s)
    else
      var t := s.running[k].meta.task;
      var s1 := s.(running := Pop(s.running, id));
      Persist(if t.kind == DEEP_REVIEW && bySignal then s1 else s1.(queue := Enqueue(s1.queue, t, true, nowTs)))
  }

  function CancelPending(s: Sup, at: nat): Sup {
    if at < |s.queue.pending| then
      Persist(s.(queue := s.queue.(pending := s.queue.pending[..at] + s.queue.pending[at + 1..])))
    else s
  }

  /** A new process: nothing runs, the counter starts over, and the snapshot is restored
      unless it is older than allowed or its time is unreadable. */
  function RestoreSnapshot(s: Sup, age: Option<real>, maxAge: real, nowTs: string): Sup {
    if s.queue.pending != [] || s.rows.None? || age.None? || age.value > maxAge then s
    else if OnlyRestorable(s.rows.value) == [] then s
    else Persist(s.(queue := Restore(s.queue, s.rows.value, nowTs)))
  }

  function NewProcess(s: Sup): Sup {
    s.(queue := Queue([], 0), running := [])
  }

  function Restart(s: Sup, age: Option<real>, maxAge: real, nowTs: string): Sup {
    RestoreSnapshot(NewProcess(s), age, maxAge, nowTs)
  }

  /** kill_workers: drains the queue and persists the emptied one. */
  function KillWorkers(s: Sup): Sup {
    Persist(Persist(s.(queue := s.queue.(pending := []))).(running := []))
  }

  /** The start-up sequence of server.py: kill_workers first, then the restore, then a snapshot. */
  function Boot(s: Sup, age: Option<real>, maxAge: real, nowTs: string): Sup {
    Persist(RestoreSnapshot(KillWorkers(NewProcess(s)), age, maxAge, nowTs))
  }

  /** In that order nothing is ever restored: whatever the snapshot on disk held, the call
      to kill_workers has replaced it by an empty one before it is read. */
  lemma {:induction false} BootRestoresNothing(s: Sup, age: Option<real>, maxAge: real, nowTs: string)
    ensures Boot(s, age, maxAge, nowTs).queue.pending == [] && Boot(s, age, maxAge, nowTs).rows == Some([])
  {
    assert Rows([]) == [];
  }

  // ---- The transition system ----

  datatype Op =
    | EnqueueOp(task: Task, front: bool, nowTs: string)
    | AssignOp(remaining: real, now: real)
    | DoneOp(id: string, kind: string, cost: real, rounds: int)
    | TimeoutsOp(now: real, nowTs: string)
    | CancelPendingOp(at: nat)
    | CancelRunningOp(id: string)
    | ToolToggleOp(on: bool)
    | OwnerToggleOp(on: bool)
    | TickOp(remaining: real, id: string, text: string, origin: nat, nowTs: string)
    | CrashOp(id: string, bySignal: bool, nowTs: string)
    | PersistOp
    | RestartOp(age: Option<real>, maxAge: real, nowTs: string)
    | KillWorkersOp
    | BootOp(age: Option<real>, maxAge: real, nowTs: string)

  function Step(s: Sup, op: Op, newId: string -> string, c: Config): Sup {
    match op
    case EnqueueOp(t, front, nowTs) => s.(queue := Enqueue(s.queue, t, front, nowTs))
    case AssignOp(remaining, now) => Assign(s, remaining, now, c)
    case DoneOp(id, kind, cost, rounds) => TaskDone(s, id, kind, cost, rounds, c)
    case TimeoutsOp(now, nowTs) => Timeouts(s, now, nowTs, newId, c)
    case CancelPendingOp(at) => CancelPending(s, at)
    case CancelRunningOp(id) => Persist(s.(running := Pop(s.running, id)))
    case ToolToggleOp(on) => ToggleByTool(s, on)
    case OwnerToggleOp(on) => ToggleByOwner(s, on)
    case TickOp(remaining, id, text, origin, nowTs) => EvolutionTick(s, remaining, id, text, origin, nowTs, c)
    case CrashOp(id, bySignal, nowTs) => Crash(s, id, bySignal, nowTs)
    case PersistOp => Persist(s)
    case RestartOp(age, maxAge, nowTs) => Restart(s, age, maxAge, nowTs)
    case KillWorkersOp => KillWorkers(s)
    case BootOp(age, maxAge, nowTs) => Boot(s, age, maxAge, nowTs)
  }

  /** The i-th operation of a run, with i as the origin of the task it brings in. */
  function Stamped(op: Op, i: nat): Op {
    match op
    case EnqueueOp(t, front, nowTs) => EnqueueOp(t.(payload := t.payload.(origin := i)), front, nowTs)
    case TickOp(remaining, id, text, _, nowTs) => TickOp(remaining, id, text, i, nowTs)
    case _ => op
  }

  /** The state after the first n operations. */
  function After(s: Sup, ops: seq<Op>, newId: string -> string, c: Config, n: nat): Sup
    requires n <= |ops|
  {
    if n == 0 then s else Step(After(s, ops, newId, c, n - 1), Stamped(ops[n - 1], n - 1), newId, c)
  }
}
