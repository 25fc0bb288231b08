/** Hard timeouts: what a pass leaves, and why retries come to an end. */
module TimeoutRetries {
  import opened Options
  import opened TaskQueue
  import opened Supervisor
  import opened Tallies
  import opened Accounts
  import M = SupervisorState

  // ---- One pass ----

  lemma {:induction false} SurvivorsFrom(s: seq<Running>, now: real, c: Config)
    ensures forall r | r in Survivors(s, now, c) ::
              exists k | 0 <= k < |s| ::
                    s[k].id == r.id && !TimedOut(s[k].meta, now, c) && r.meta == Noticed(s[k].meta, now, c)
  {
    if s != [] {
      var m := |s| - 1;
      SurvivorsFrom(s[..m], now, c);
      forall r | r in Survivors(s, now, c)
        ensures exists k | 0 <= k < |s| ::
                  s[k].id == r.id && !TimedOut(s[k].meta, now, c) && r.meta == Noticed(s[k].meta, now, c)
      {
        if r in Survivors(s[..m], now, c) {
          var k :| 0 <= k < m && s[..m][k].id == r.id && !TimedOut(s[..m][k].meta, now, c)
              && r.meta == Noticed(s[..m][k].meta, now, c);
          assert s[k] == s[..m][k];
        } else {
          assert s[m].id == r.id && !TimedOut(s[m].meta, now, c);
        }
      }
    }
  }

  /** After a pass no started task is past its hard limit. */
  lemma {:induction false} NobodyPastLimit(s: Sup, now: real, nowTs: string, newId: string -> string, c: Config,
                                           r: Running)
    requires r in Timeouts(s, now, nowTs, newId, c).running && r.meta.started > 0.0
    ensures now - r.meta.started < HardLimit(r.meta, c)
  {
    SurvivorsFrom(s.running, now, c);
  }

  lemma {:induction false} KilledFrom(s: seq<Running>, now: real, c: Config)
    ensures forall r :: r in Killed(s, now, c) <==> r in s && TimedOut(r.meta, now, c)
    ensures DistinctIds(s) ==> DistinctIds(Killed(s, now, c))
  {
    if s != [] {
      var m := |s| - 1;
      KilledFrom(s[..m], now, c);
      assert s == s[..m] + [s[m]];
      if DistinctIds(s) {
        var d := Killed(s[..m], now, c);
        forall i | 0 <= i < |d|
          ensures d[i].id != s[m].id
        {
          assert d[i] in s[..m];
        }
      }
    }
  }

  // ---- What RUNNING holds ----

  /** RUNNING is a dictionary by task id, and its entries repeat the attempt of their task. */
  predicate Sound(running: seq<Running>) {
    && DistinctIds(running)
    && forall r | r in running :: r.id == r.meta.task.id && r.meta.attempt == Int(AttemptOf(r.meta.task))
  }

  lemma {:induction false} PutSound(running: seq<Running>, t: Task, now: real)
    requires Sound(running)
    ensures Sound(Put(running, t.id, Meta(t, now, now, false, Int(AttemptOf(t)))))
  {
    var meta := Meta(t, now, now, false, Int(AttemptOf(t)));
    var k, after := IndexOfId(running, t.id), Put(running, t.id, meta);
    M.PutDistinct(running, t.id, meta);
    forall r | r in after
      ensures r.id == r.meta.task.id && r.meta.attempt == Int(AttemptOf(r.meta.task))
    {
      assert r in running || r == Running(t.id, meta);
    }
  }

  lemma {:induction false} PopSound(running: seq<Running>, id: string)
    requires Sound(running)
    ensures Sound(Pop(running, id))
  {
    var k, after := IndexOfId(running, id), Pop(running, id);
    forall i, j | 0 <= i < j < |after|
      ensures after[i].id != after[j].id
    {
      if k < |running| {
        assert after[i] == running[if i < k then i else i + 1] && after[j] == running[if j < k then j else j + 1];
      }
    }
    assert forall r | r in after :: r in running;
  }

  lemma {:induction false} SurvivorsSound(running: seq<Running>, now: real, c: Config)
    requires Sound(running)
    ensures Sound(Survivors(running, now, c))
  {
    hide TimedOut, AttemptOf, DistinctIds, Survivors;
    M.SurvivorsDistinct(running, now, c);
    SurvivorsFrom(running, now, c);
    forall r | r in Survivors(running, now, c)
      ensures r.id == r.meta.task.id && r.meta.attempt == Int(AttemptOf(r.meta.task))
    {
      var k :| 0 <= k < |running| && running[k].id == r.id && !TimedOut(running[k].meta, now, c)
               && r.meta == Noticed(running[k].meta, now, c);
      assert running[k] in running;
    }
  }

  lemma {:induction false} StepSound(s: Sup, op: Op, newId: string -> string, c: Config)
    requires Sound(s.running)
    ensures Sound(Step(s, op, newId, c).running)
  {
    hide Sound, Put, Pop, Survivors, Enqueue, StableSort, WithoutKind, Restore, RetryAll, Killed, OnlyRestorable;
    match op {
      case AssignOp(remaining, now) =>
        var k := FirstAffordable(s.queue.pending, remaining, c);
        if k < |s.queue.pending| {
          PutSound(s.running, s.queue.pending[k], now);
        }
      case DoneOp(id, _, _, _) => PopSound(s.running, id);
      case CancelRunningOp(id) => PopSound(s.running, id);
      case CrashOp(id, _, _) => PopSound(s.running, id);
      case TimeoutsOp(now, _) => SurvivorsSound(s.running, now, c);
      case RestartOp(_, _, _) => NobodyRuns();
      case KillWorkersOp => NobodyRuns();
      case BootOp(_, _, _) => NobodyRuns();
      case _ =>
    }
  }

  lemma {:induction false} NobodyRuns()
    ensures Sound([])
  {
  }

  lemma {:induction false} SoundAlways(evo: Evo, ops: seq<Op>, newId: string -> string, c: Config, n: nat)
    requires n <= |ops|
    ensures Sound(After(Empty(evo), ops, newId, c, n).running)
  {
    hide Sound, Step;
    NobodyRuns();
    if n > 0 {
      SoundAlways(evo, ops, newId, c, n - 1);
      StepSound(After(Empty(evo), ops, newId, c, n - 1), Stamped(ops[n - 1], n - 1), newId, c);
    }
  }

  // ---- The budget of timeouts ----

  /** The tasks of interest: all, or those that one operation of the run brought in, as what
      they are retried as. */
  predicate Counted(t: Task, who: Option<nat>) {
    who.None? || t.payload.origin == who.value
  }

  /** The hard timeouts a task may still suffer, counting the one that stops it. */
  function Allowance(t: Task): (n: int)
    ensures n >= 1
  {
    if AttemptOf(t) <= QUEUE_MAX_RETRIES then QUEUE_MAX_RETRIES + 2 - AttemptOf(t) else 1
  }

  function Dues(who: Option<nat>): Task -> int {
    (t: Task) => if Counted(t, who) then Allowance(t) else 0
  }

  function Ones(who: Option<nat>): Task -> int {
    (t: Task) => if Counted(t, who) then 1 else 0
  }

  lemma {:induction false} DuesWeigh(who: Option<nat>)
    ensures Weighs(Dues(who)) && Weighs(Ones(who))
  {
  }

  /** A killed task's retry stands at least one step closer to the end, exactly one if its attempt
      number was positive; a task without a retry had one unit left, and takes it along. */
  lemma {:induction false} OneUnit(r: Running, newId: string -> string, who: Option<nat>)
    requires r.meta.attempt == Int(AttemptOf(r.meta.task))
    ensures var rest := if RunAttempt(r.meta) <= QUEUE_MAX_RETRIES then Dues(who)(Retried(r, newId)) else 0;
            && Dues(who)(r.meta.task) - Ones(who)(r.meta.task) >= rest
            && (AttemptOf(r.meta.task) >= 1 ==> Dues(who)(r.meta.task) - Ones(who)(r.meta.task) == rest)
  {
  }

  predicate PositiveAttempts(killed: seq<Running>) {
    forall r | r in killed :: AttemptOf(r.meta.task) >= 1
  }

  lemma {:induction false} RetriesSpend(killed: seq<Running>, newId: string -> string, who: Option<nat>)
    requires forall r | r in killed :: r.meta.attempt == Int(AttemptOf(r.meta.task))
    ensures Total(Retries(killed, newId), Dues(who)) + TotalRunning(killed, Ones(who))
            <= TotalRunning(killed, Dues(who))
    ensures PositiveAttempts(killed) ==>
              Total(Retries(killed, newId), Dues(who)) + TotalRunning(killed, Ones(who))
                  == TotalRunning(killed, Dues(who))
  {
    hide Dues, Ones, Retried, AttemptOf, RunAttempt;
    if killed != [] {
      var m := |killed| - 1;
      assert killed[m] in killed;
      assert forall r | r in killed[..m] :: r in killed;
      RetriesSpend(killed[..m], newId, who);
      OneUnit(killed[m], newId, who);
      var before := Retries(killed[..m], newId);
      TotalAppend(before, [Retried(killed[m], newId)], Dues(who));
      TotalOne(Retried(killed[m], newId), Dues(who));
      assert before + [] == before;
    }
  }

  lemma {:induction false} KilledSound(running: seq<Running>, now: real, c: Config)
    requires Sound(running)
    ensures forall r | r in Killed(running, now, c) :: r.meta.attempt == Int(AttemptOf(r.meta.task))
  {
    KilledFrom(running, now, c);
  }

  /** A pass spends exactly one unit of what is outstanding per task of interest it kills. */
  lemma {:induction false} PassSpendsOnePerKill(s: Sup, now: real, nowTs: string, newId: string -> string, c: Config,
                                                who: Option<nat>)
    requires Sound(s.running) && PositiveAttempts(s.running)
    ensures Live(Timeouts(s, now, nowTs, newId, c), Dues(who)) + TotalRunning(Killed(s.running, now, c), Ones(who))
         == Live(s, Dues(who))
  {
    hide Timeouts, Dues, Ones, Total, TotalRunning, Killed, Retries, AttemptOf;
    DuesWeigh(who);
    KilledSound(s.running, now, c);
    KilledFrom(s.running, now, c);
    RetriesSpend(Killed(s.running, now, c), newId, who);
    PassExchanges(s, now, nowTs, newId, c, Dues(who));
  }

  function Kills(s: Sup, op: Op, c: Config, who: Option<nat>): int {
    TotalRunning(Lost(s, op, c), Ones(who))
  }

  /** No operation creates allowance: what a step kills and what is left never exceed what was
      there and what the step brought in. */
  lemma {:induction false} StepSpends(s: Sup, op: Op, newId: string -> string, c: Config, who: Option<nat>)
    requires Sound(s.running)
    ensures Account(Step(s, op, newId, c), Dues(who)) + Kills(s, op, c, who)
         <= Account(s, Dues(who)) + Enters(s, op, c, Dues(who))
  {
    hide Step, Dues, Ones, Total, TotalRunning, Killed, Retries, Account, Enters;
    DuesWeigh(who);
    if op.TimeoutsOp? {
      KilledSound(s.running, op.now, c);
    }
    RetriesSpend(Lost(s, op, c), newId, who);
    StepBalances(s, op, newId, c, Dues(who));
  }

  // ---- Runs ----

  /** Sums over a run: what its steps brought in, by some weight, and what they killed. */
  function EnteredBy(s: Sup, ops: seq<Op>, newId: string -> string, c: Config, f: Task -> int, n: nat): int
    requires n <= |ops|
  {
    if n == 0 then 0
    else
      EnteredBy(s, ops, newId, c, f, n - 1)
      + Enters(After(s, ops, newId, c, n - 1), Stamped(ops[n - 1], n - 1), c, f)
  }

  function KillsBy(s: Sup, ops: seq<Op>, newId: string -> string, c: Config, who: Option<nat>, n: nat): int
    requires n <= |ops|
  {
    if n == 0 then 0
    else
      KillsBy(s, ops, newId, c, who, n - 1)
      + Kills(After(s, ops, newId, c, n - 1), Stamped(ops[n - 1], n - 1), c, who)
  }

  lemma {:induction false} LedgerOfTimeouts(evo: Evo, ops: seq<Op>, newId: string -> string, c: Config,
                                            who: Option<nat>, n: nat)
    requires n <= |ops|
    ensures KillsBy(Empty(evo), ops, newId, c, who, n) + Account(After(Empty(evo), ops, newId, c, n), Dues(who))
         <= EnteredBy(Empty(evo), ops, newId, c, Dues(who), n)
  {
    hide Step, Account, Kills, Enters, Sound, Dues;
    if n == 0 {
      EmptyAccount(evo, Dues(who));
    } else {
      LedgerOfTimeouts(evo, ops, newId, c, who, n - 1);
      SoundAlways(evo, ops, newId, c, n - 1);
      StepSpends(After(Empty(evo), ops, newId, c, n - 1), Stamped(ops[n - 1], n - 1), newId, c, who);
    }
  }

  lemma {:induction false} EmptyAccount(evo: Evo, f: Task -> int)
    ensures Account(Empty(evo), f) == 0
  {
  }

  /** A task enters with a positive attempt number, or with none. */
  predicate Proper(op: Op) {
    op.EnqueueOp? ==> AttemptOf(op.task) >= 1
  }

  predicate AllProper(ops: seq<Op>, n: nat)
    requires n <= |ops|
  {
    forall i | 0 <= i < n :: Proper(ops[i])
  }

  lemma {:induction false} ArrivesProper(s: Sup, op: Op, i: nat, c: Config, who: Option<nat>)
    requires Proper(op)
    ensures Enters(s, Stamped(op, i), c, Dues(who)) <= (QUEUE_MAX_RETRIES + 1) * Enters(s, Stamped(op, i), c, Ones(who))
    ensures Enters(s, Stamped(op, i), c, Ones(Some(i))) <= 1
    ensures who.Some? && who.value != i ==> Enters(s, Stamped(op, i), c, Ones(who)) == 0
  {
  }

  lemma {:induction false} EnteredProper(evo: Evo, ops: seq<Op>, newId: string -> string, c: Config, who: Option<nat>,
                                         n: nat)
    requires n <= |ops| && AllProper(ops, n)
    ensures EnteredBy(Empty(evo), ops, newId, c, Dues(who), n)
         <= (QUEUE_MAX_RETRIES + 1) * EnteredBy(Empty(evo), ops, newId, c, Ones(who), n)
    ensures who.Some? ==> EnteredBy(Empty(evo), ops, newId, c, Ones(who), n) <= if who.value < n then 1 else 0
  {
    hide Enters, Dues, Ones, After, Stamped;
    if n > 0 {
      EnteredProper(evo, ops, newId, c, who, n - 1);
      ArrivesProper(After(Empty(evo), ops, newId, c, n - 1), ops[n - 1], n - 1, c, who);
    }
  }

  /** Retries end: in every run, through crashes, restarts and restores, the hard timeouts are at
      most the allowance of the tasks that entered, that is QUEUE_MAX_RETRIES + 1 for each one
      with a positive attempt number; and the task that operation i brought in suffers, together
      with everything it is retried as, at most that many. */
  lemma {:induction false} TimeoutsBounded(evo: Evo, ops: seq<Op>, newId: string -> string, c: Config, who: Option<nat>,
                                           n: nat)
    requires n <= |ops|
    ensures KillsBy(Empty(evo), ops, newId, c, who, n) <= EnteredBy(Empty(evo), ops, newId, c, Dues(who), n)
    ensures AllProper(ops, n) ==>
              KillsBy(Empty(evo), ops, newId, c, who, n)
              <= (QUEUE_MAX_RETRIES + 1) * EnteredBy(Empty(evo), ops, newId, c, Ones(who), n)
    ensures AllProper(ops, n) && who.Some? ==> KillsBy(Empty(evo), ops, newId, c, who, n) <= QUEUE_MAX_RETRIES + 1
  {
    hide Account, EnteredBy, KillsBy, After, Dues, Ones;
    LedgerOfTimeouts(evo, ops, newId, c, who, n);
    DuesWeigh(who);
    AccountsNonNegative(After(Empty(evo), ops, newId, c, n), Dues(who));
    if AllProper(ops, n) {
      EnteredProper(evo, ops, newId, c, who, n);
    }
  }
}
