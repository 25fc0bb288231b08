/** The self-scheduling evolution task: never two of them, and a circuit breaker that holds. */
module EvolutionBreaker {
  import opened Options
  import opened TaskQueue
  import opened Supervisor
  import opened Tallies
  import opened Accounts

  const LIMIT := 3

  function IsEvolution(t: Task): int {
    if t.kind == EVOLUTION then 1 else 0
  }

  function EvolutionTasks(s: Sup): int {
    Live(s, IsEvolution)
  }

  /** Evolution tasks come from the scheduler alone. */
  predicate FromScheduler(op: Op) {
    op.EnqueueOp? ==> op.task.kind != EVOLUTION
  }

  /** A task_done that counts as a failed evolution. */
  predicate Fails(op: Op, c: Config) {
    op.DoneOp? && op.kind == EVOLUTION && !(op.cost > c.evoCost && op.rounds >= 1)
  }

  /** One that does not come from a running evolution task: the task was cancelled or killed
      before, or the event is a duplicate. */
  predicate Late(s: Sup, op: Op, c: Config) {
    Fails(op, c) && Popped(s.running, op.id, IsEvolution) == 0
  }

  /** A task_done arrives for a task that is running, with its own type. */
  predicate Arrives(s: Sup, op: Op) {
    op.DoneOp? ==>
      var k := IndexOfId(s.running, op.id);
      op.id != "" && k < |s.running| && s.running[k].meta.task.kind == op.kind
  }

  lemma {:induction false} ArrivingIsNotLate(s: Sup, op: Op, c: Config)
    requires Arrives(s, op)
    ensures !Late(s, op, c)
  {
  }

  lemma {:induction false} Weight()
    ensures Weighs(IsEvolution)
  {
  }

  /** A killed evolution task is replaced by at most one. */
  lemma {:induction false} RetriesKeepKind(killed: seq<Running>, newId: string -> string)
    ensures Total(Retries(killed, newId), IsEvolution) <= TotalRunning(killed, IsEvolution)
  {
    if killed != [] {
      var m := |killed| - 1;
      RetriesKeepKind(killed[..m], newId);
      TotalAppend(Retries(killed[..m], newId), [Retried(killed[m], newId)], IsEvolution);
      TotalOne(Retried(killed[m], newId), IsEvolution);
      assert Retries(killed[..m], newId) + [] == Retries(killed[..m], newId);
    }
  }

  /** No step but one of the scheduler adds an evolution task. */
  lemma {:induction false} StepAddsNone(s: Sup, op: Op, newId: string -> string, c: Config)
    requires FromScheduler(op) && (Arriving(s, op, c).Some? ==> op.EnqueueOp?)
    ensures Account(Step(s, op, newId, c), IsEvolution) <= Account(s, IsEvolution)
  {
    hide Step, Account, Total, TotalRunning, Retries, Killed;
    Weight();
    StepBalances(s, op, newId, c, IsEvolution);
    RetriesKeepKind(Lost(s, op, c), newId);
  }

  /** The scheduler enqueues only into an idle supervisor with failures below the limit. */
  lemma {:induction false} TickAddsOne(s: Sup, op: Op, newId: string -> string, c: Config)
    requires op.TickOp? && Arriving(s, op, c).Some? && Account(s, IsEvolution) <= 1
    ensures Account(Step(s, op, newId, c), IsEvolution) == 1 && s.evo.failures < LIMIT
    ensures Step(s, op, newId, c).evo.failures == s.evo.failures
  {
    hide Enqueue, Step;
    Weight();
    TickShape(s, op, newId, c);
    NothingKilled(newId, IsEvolution);
    EnqueueAccount(s, Arriving(s, op, c).value, false, op.nowTs, IsEvolution);
  }

  /** What a step does to the failure counter. */
  lemma {:induction false} CounterStep(s: Sup, op: Op, newId: string -> string, c: Config)
    ensures var f := Step(s, op, newId, c).evo.failures;
            f == if Fails(op, c) then s.evo.failures + 1
                 else if (op.DoneOp? && op.kind == EVOLUTION) || (op.OwnerToggleOp? && op.on) then 0
                 else s.evo.failures
  {
    hide Enqueue, StableSort, WithoutKind, Restore, RetryAll, Survivors, Killed, Put, Pop, Rows, OnlyRestorable;
  }

  function Top(a: int, b: int): int {
    if a >= b then a else b
  }

  /** At most one evolution task; the counter has room for it, but for late events. */
  predicate Guarded(s: Sup, bound: int) {
    Account(s, IsEvolution) <= 1 && s.evo.failures + Account(s, IsEvolution) <= bound
  }

  lemma {:induction false} StepKeeps(s: Sup, op: Op, newId: string -> string, c: Config, bound: int)
    requires Guarded(s, bound) && FromScheduler(op) && bound >= LIMIT
    ensures Guarded(Step(s, op, newId, c), bound + if Late(s, op, c) then 1 else 0)
  {
    hide Step, Account, TickEnters, Live, Popped;
    CounterStep(s, op, newId, c);
    if op.TickOp? && Arriving(s, op, c).Some? {
      TickAddsOne(s, op, newId, c);
    } else {
      StepAddsNone(s, op, newId, c);
      if Fails(op, c) {
        FailStep(s, op, newId, c);
      }
    }
  }

  /** A failure that is not late takes its task along. */
  lemma {:induction false} FailStep(s: Sup, op: Op, newId: string -> string, c: Config)
    requires Fails(op, c)
    ensures Account(Step(s, op, newId, c), IsEvolution) + Popped(s.running, op.id, IsEvolution)
            <= Account(s, IsEvolution)
    ensures 0 <= Popped(s.running, op.id, IsEvolution) <= 1
  {
    hide TaskDone;
    Weight();
    DoneAccount(s, op.id, op.kind, op.cost, op.rounds, c, IsEvolution);
  }

  predicate AllFromScheduler(ops: seq<Op>, n: nat)
    requires n <= |ops|
  {
    forall i | 0 <= i < n :: FromScheduler(ops[i])
  }

  /** How many late failures a run has seen. */
  function LateBy(s: Sup, ops: seq<Op>, newId: string -> string, c: Config, n: nat): nat
    requires n <= |ops|
  {
    if n == 0 then 0
    else
      LateBy(s, ops, newId, c, n - 1)
      + if Late(After(s, ops, newId, c, n - 1), Stamped(ops[n - 1], n - 1), c) then 1 else 0
  }

  lemma {:induction false} GuardedAlways(evo: Evo, ops: seq<Op>, newId: string -> string, c: Config, n: nat)
    requires n <= |ops| && AllFromScheduler(ops, n)
    ensures Guarded(After(Empty(evo), ops, newId, c, n),
                    Top(LIMIT, evo.failures) + LateBy(Empty(evo), ops, newId, c, n))
  {
    hide Step, Guarded, Late;
    if n == 0 {
      EmptyGuarded(evo);
    } else {
      GuardedAlways(evo, ops, newId, c, n - 1);
      StepKeeps(After(Empty(evo), ops, newId, c, n - 1), Stamped(ops[n - 1], n - 1), newId, c,
                Top(LIMIT, evo.failures) + LateBy(Empty(evo), ops, newId, c, n - 1));
    }
  }

  lemma {:induction false} EmptyGuarded(evo: Evo)
    ensures Guarded(Empty(evo), Top(LIMIT, evo.failures))
  {
    NothingKilled(id => id, IsEvolution);
  }

  /** In every run, whatever events arrive, through retries, crashes, cancellations, toggles,
      restarts and start-ups: at most one evolution task is pending or running, and a restart
      would bring back at most one. */
  lemma {:induction false} AtMostOneAlways(evo: Evo, ops: seq<Op>, newId: string -> string, c: Config, n: nat)
    requires n <= |ops| && AllFromScheduler(ops, n)
    ensures var s := After(Empty(evo), ops, newId, c, n);
            0 <= EvolutionTasks(s) <= 1 && 0 <= Stored(s, IsEvolution) <= 1
  {
    hide After, Step;
    Weight();
    GuardedAlways(evo, ops, newId, c, n);
    AccountsNonNegative(After(Empty(evo), ops, newId, c, n), IsEvolution);
  }

  /** And the failure counter passes the limit (or where it started, if that was beyond it) by at
      most one for each late failure, although the agent's own toggle re-enables evolution
      without resetting it. */
  lemma {:induction false} BreakerHolds(evo: Evo, ops: seq<Op>, newId: string -> string, c: Config, n: nat)
    requires n <= |ops| && AllFromScheduler(ops, n)
    ensures After(Empty(evo), ops, newId, c, n).evo.failures
         <= Top(LIMIT, evo.failures) + LateBy(Empty(evo), ops, newId, c, n)
  {
    hide After, Step;
    Weight();
    GuardedAlways(evo, ops, newId, c, n);
    AccountsNonNegative(After(Empty(evo), ops, newId, c, n), IsEvolution);
  }

  /** Every task_done of a run arrives so. */
  predicate AllArrive(s: Sup, ops: seq<Op>, newId: string -> string, c: Config, n: nat)
    requires n <= |ops|
  {
    forall i | 0 <= i < n :: Arrives(After(s, ops, newId, c, i), Stamped(ops[i], i))
  }

  lemma {:induction false} NoneLate(s: Sup, ops: seq<Op>, newId: string -> string, c: Config, n: nat)
    requires n <= |ops| && AllArrive(s, ops, newId, c, n)
    ensures LateBy(s, ops, newId, c, n) == 0
  {
    hide After, Arrives, Late;
    if n > 0 {
      NoneLate(s, ops, newId, c, n - 1);
      ArrivingIsNotLate(After(s, ops, newId, c, n - 1), Stamped(ops[n - 1], n - 1), c);
    }
  }

  /** So if task_done arrives for running tasks only, the counter never passes the limit. */
  lemma {:induction false} LimitHolds(evo: Evo, ops: seq<Op>, newId: string -> string, c: Config, n: nat)
    requires n <= |ops| && AllFromScheduler(ops, n) && evo.failures <= LIMIT
    requires AllArrive(Empty(evo), ops, newId, c, n)
    ensures After(Empty(evo), ops, newId, c, n).evo.failures <= LIMIT
  {
    hide After, AllArrive, LateBy;
    BreakerHolds(evo, ops, newId, c, n);
    NoneLate(Empty(evo), ops, newId, c, n);
  }

  /** One step takes the counter past the limit exactly if it is a failure that finds the counter at
      the limit; while there is room in the counter for the evolution task, such a failure is late. */
  lemma {:induction false} PassesLimitIff(s: Sup, op: Op, newId: string -> string, c: Config)
    ensures s.evo.failures <= LIMIT && Step(s, op, newId, c).evo.failures > LIMIT
       <==> Fails(op, c) && s.evo.failures == LIMIT
    ensures Guarded(s, LIMIT) && Step(s, op, newId, c).evo.failures > LIMIT ==> Late(s, op, c)
  {
    hide Step, TaskDone;
    Weight();
    CounterStep(s, op, newId, c);
    AccountsNonNegative(s, IsEvolution);
    if Fails(op, c) {
      FailStep(s, op, newId, c);
      AccountsNonNegative(Step(s, op, newId, c), IsEvolution);
    }
  }

  predicate AllFail(ops: seq<Op>, c: Config, n: nat)
    requires n <= |ops|
  {
    forall i | 0 <= i < n :: Fails(ops[i], c)
  }

  /** No smaller bound would do: from an open breaker, any number of late failures is counted. */
  lemma {:induction false} LateFailuresAddUp(evo: Evo, ops: seq<Op>, newId: string -> string, c: Config, n: nat)
    requires evo.failures == LIMIT && n <= |ops| && AllFail(ops, c, n)
    ensures var s := After(Empty(evo), ops, newId, c, n);
            s.evo.failures == LIMIT + n && s.running == [] && LateBy(Empty(evo), ops, newId, c, n) == n
  {
    hide Step, Late, Popped;
    if n > 0 {
      LateFailuresAddUp(evo, ops, newId, c, n - 1);
      var s := After(Empty(evo), ops, newId, c, n - 1);
      assert Fails(ops[n - 1], c) && Stamped(ops[n - 1], n - 1) == ops[n - 1];
      CounterStep(s, ops[n - 1], newId, c);
      IdleStays(s, ops[n - 1], newId, c);
    }
  }

  lemma {:induction false} IdleStays(s: Sup, op: Op, newId: string -> string, c: Config)
    requires s.running == [] && Fails(op, c)
    ensures Step(s, op, newId, c).running == [] && Late(s, op, c)
  {
  }

  /** Every run from a counter within the limit that sees at most k late failures stays within
      the limit and b more. */
  ghost predicate StaysWithin(k: nat, b: int) {
    forall evo: Evo, ops: seq<Op>, newId: string -> string, c: Config, n: nat |
      && n <= |ops| && AllFromScheduler(ops, n) && evo.failures <= LIMIT
      && LateBy(Empty(evo), ops, newId, c, n) <= k ::
      After(Empty(evo), ops, newId, c, n).evo.failures <= LIMIT + b
  }

  /** A failure reported for no task at all, k times. */
  function Failures(k: nat): (ops: seq<Op>)
    ensures |ops| == k && forall i | 0 <= i < k :: ops[i] == DoneOp("", EVOLUTION, 0.0, 0)
  {
    seq(k, i => DoneOp("", EVOLUTION, 0.0, 0))
  }

  /** Late failures are exactly what the limit rests on: at most k of them cost it at most b if and
      only if k <= b. */
  lemma {:induction false} WithinIff(k: nat, b: int)
    ensures StaysWithin(k, b) <==> k <= b
  {
    hide After, LateBy;
    if k <= b {
      forall evo: Evo, ops: seq<Op>, newId: string -> string, c: Config, n: nat |
        && n <= |ops| && AllFromScheduler(ops, n) && evo.failures <= LIMIT
        && LateBy(Empty(evo), ops, newId, c, n) <= k
        ensures After(Empty(evo), ops, newId, c, n).evo.failures <= LIMIT + b
      {
        BreakerHolds(evo, ops, newId, c, n);
      }
    } else {
      var evo, c, newId := Evo(true, None, LIMIT, 0), Config(0.0, 0.0, 0.0, 0.0), (x: string) => x;
      LateFailuresAddUp(evo, Failures(k), newId, c, k);
      assert After(Empty(evo), Failures(k), newId, c, k).evo.failures > LIMIT + b;
    }
  }

  // ---- A late failure takes the room of the task that runs ----

  function Overshoot(c: Config): seq<Op> {
    var remaining := if c.reserve > 1.0 then c.reserve else 1.0;
    [TickOp(remaining, "e", "", 0, ""), AssignOp(remaining, 1.0),
     DoneOp("x", EVOLUTION, 0.0, 0), DoneOp("e", EVOLUTION, 0.0, 0)]
  }

  lemma {:induction false} Scheduled(remaining: real, c: Config)
    requires remaining >= c.reserve
    ensures var s := EvolutionTick(Empty(Evo(true, Some(1), 2, 0)), remaining, "e", "", 0, "", c);
            && s.queue.pending == [Prepared(EvolutionTask("e", 1, "", 0), 1, false, "")]
            && s.running == [] && s.evo.failures == 2
  {
    hide StableSort, Prepared;
    var x := Prepared(EvolutionTask("e", 1, "", 0), 1, false, "");
    SortOne(x);
    assert [] + [x] == [x];
  }

  lemma {:induction false} Assigned(s: Sup, t: Task, remaining: real, c: Config)
    requires s.queue.pending == [t] && s.running == [] && t.id == "e" && t.kind == EVOLUTION
    requires remaining >= c.reserve && remaining > 0.0
    ensures var s' := Assign(s, remaining, 1.0, c);
            && s'.evo == s.evo && |s'.running| == 1
            && s'.running[0].id == "e" && s'.running[0].meta.task.kind == EVOLUTION
  {
    hide Rows;
    assert !OverBudget(s.queue.pending[0], remaining, c);
    assert FirstAffordable(s.queue.pending, remaining, c) == 0;
  }

  /** With two failures counted an evolution task is scheduled and assigned. */
  lemma {:induction false} TaskStarted(newId: string -> string, c: Config)
    ensures var s0, ops := Empty(Evo(true, Some(1), 2, 0)), Overshoot(c);
            var s := After(s0, ops, newId, c, 2);
            && s.evo.failures == 2 && |s.running| == 1 && LateBy(s0, ops, newId, c, 2) == 0
            && s.running[0].id == "e" && s.running[0].meta.task.kind == EVOLUTION
  {
    hide EvolutionTick, Assign, Prepared, Popped;
    var s0, ops := Empty(Evo(true, Some(1), 2, 0)), Overshoot(c);
    assert After(s0, ops, newId, c, 0) == s0 && LateBy(s0, ops, newId, c, 0) == 0;
    Scheduled(ops[0].remaining, c);
    var s1 := After(s0, ops, newId, c, 1);
    assert s1 == EvolutionTick(s0, ops[0].remaining, "e", "", 0, "", c) && LateBy(s0, ops, newId, c, 1) == 0;
    PreparedSame(EvolutionTask("e", 1, "", 0));
    Assigned(s1, Prepared(EvolutionTask("e", 1, "", 0), 1, false, ""), ops[1].remaining, c);
  }

  lemma {:induction false} PreparedSame(t: Task)
    ensures Prepared(t, 1, false, "").id == t.id && Prepared(t, 1, false, "").kind == t.kind
  {
  }

  lemma {:induction false} SortOne(t: Task)
    ensures StableSort([t]) == [t]
  {
    assert [t][..0] == [] && StableSort([]) == [];
    assert [] + [t] == [t];
  }

  /** A run of four steps from two failures: the third brings a late failure, and then the running
      task's own failure, which is not late, passes the limit. */
  lemma {:induction false} OwnFailurePasses(newId: string -> string, c: Config)
    ensures AllFromScheduler(Overshoot(c), 4)
    ensures var s0 := Empty(Evo(true, Some(1), 2, 0));
            && LateBy(s0, Overshoot(c), newId, c, 4) == 1
            && Arrives(After(s0, Overshoot(c), newId, c, 3), Stamped(Overshoot(c)[3], 3))
            && After(s0, Overshoot(c), newId, c, 3).evo.failures == LIMIT
            && After(s0, Overshoot(c), newId, c, 4).evo.failures == LIMIT + 1
  {
    hide Step, Late;
    var s0, ops := Empty(Evo(true, Some(1), 2, 0)), Overshoot(c);
    TaskStarted(newId, c);
    var s2 := After(s0, ops, newId, c, 2);
    LateAway(s2, newId, c);
    assert After(s0, ops, newId, c, 3) == Step(s2, ops[2], newId, c);
    ArrivingIsNotLate(After(s0, ops, newId, c, 3), ops[3], c);
    CounterStep(After(s0, ops, newId, c, 3), ops[3], newId, c);
    assert LateBy(s0, ops, newId, c, 3) == 1;
  }

  /** A failure of a task that does not run is counted and leaves RUNNING as it was. */
  lemma {:induction false} LateAway(s: Sup, newId: string -> string, c: Config)
    requires |s.running| == 1 && s.running[0].id == "e"
    ensures var op := DoneOp("x", EVOLUTION, 0.0, 0);
            && Late(s, op, c) && Step(s, op, newId, c).running == s.running
            && Step(s, op, newId, c).evo.failures == s.evo.failures + 1
  {
    assert IndexOfId(s.running, "x") == 1;
  }
}
