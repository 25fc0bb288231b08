/** Task ids over whole runs: with fresh ids no id is ever pending or running twice, each id is
    killed at most once, and each killed task is retried exactly once or stopped. */
module TaskIdentities {
  import opened Options
  import opened TaskQueue
  import opened Supervisor
  import opened Tallies
  import opened Accounts
  import opened TimeoutRetries

  function IsId(x: string): Task -> int {
    (t: Task) => if t.id == x then 1 else 0
  }

  /** 1 for the retry of the killed task with this id, 0 for every other task. */
  function IsRetryOf(x: string): Task -> int {
    (t: Task) => if t.retryFrom == Some(x) then 1 else 0
  }

  lemma {:induction false} IdsWeigh(x: string)
    ensures Weighs(IsId(x)) && Weighs(IsRetryOf(x))
  {
  }

  // ---- One pass ----

  predicate HasRetry(killed: seq<Running>, id: string) {
    exists r | r in killed :: r.id == id && RunAttempt(r.meta) <= QUEUE_MAX_RETRIES
  }

  lemma {:induction false} HasRetryLast(init: seq<Running>, last: Running, id: string)
    ensures HasRetry(init + [last], id)
            == (HasRetry(init, id) || (last.id == id && RunAttempt(last.meta) <= QUEUE_MAX_RETRIES))
  {
    if HasRetry(init, id) {
      var r :| r in init && r.id == id && RunAttempt(r.meta) <= QUEUE_MAX_RETRIES;
      assert r in init + [last];
    }
    if last.id == id && RunAttempt(last.meta) <= QUEUE_MAX_RETRIES {
      assert last in init + [last];
    }
  }

  lemma {:induction false} RetriesOf(killed: seq<Running>, newId: string -> string, x: string)
    requires DistinctIds(killed)
    ensures Total(Retries(killed, newId), IsRetryOf(x)) == if HasRetry(killed, x) then 1 else 0
  {
    if killed != [] {
      var m := |killed| - 1;
      RetriesOf(killed[..m], newId, x);
      assert killed == killed[..m] + [killed[m]];
      HasRetryLast(killed[..m], killed[m], x);
      var before := Retries(killed[..m], newId);
      TotalAppend(before, [Retried(killed[m], newId)], IsRetryOf(x));
      TotalOne(Retried(killed[m], newId), IsRetryOf(x));
      assert before + [] == before;
      assert killed[m].id == x ==> !HasRetry(killed[..m], x);
    }
  }

  ghost predicate Injective(newId: string -> string) {
    forall x, y :: newId(x) == newId(y) ==> x == y
  }

  /** The retries of tasks with different ids have different ids, each the new id of its task. */
  lemma {:induction false} RetriesNamed(killed: seq<Running>, newId: string -> string, x: string)
    requires DistinctIds(killed) && Injective(newId)
    ensures 0 <= Total(Retries(killed, newId), IsId(x)) <= 1
    ensures Total(Retries(killed, newId), IsId(x)) == 1 ==> exists r | r in killed :: newId(r.id) == x
  {
    if killed != [] {
      var m := |killed| - 1;
      RetriesNamed(killed[..m], newId, x);
      var before := Retries(killed[..m], newId);
      TotalAppend(before, [Retried(killed[m], newId)], IsId(x));
      TotalOne(Retried(killed[m], newId), IsId(x));
      assert before + [] == before;
      assert killed[m] in killed && forall r | r in killed[..m] :: r in killed;
      if Total(before, IsId(x)) == 1 {
        var r :| r in killed[..m] && newId(r.id) == x;
        assert r.id != killed[m].id;
      }
    }
  }

  // ---- Runs with fresh ids ----

  function Ids(rs: seq<Running>): set<string> {
    set r | r in rs :: r.id
  }

  function ArrivingIds(s: Sup, op: Op, c: Config): set<string> {
    var t := Arriving(s, op, c);
    if t.Some? then {t.value.id} else {}
  }

  function EnteredIds(s: Sup, ops: seq<Op>, newId: string -> string, c: Config, n: nat): set<string>
    requires n <= |ops|
  {
    if n == 0 then {}
    else
      EnteredIds(s, ops, newId, c, n - 1)
      + ArrivingIds(After(s, ops, newId, c, n - 1), Stamped(ops[n - 1], n - 1), c)
  }

  function KilledIds(s: Sup, ops: seq<Op>, newId: string -> string, c: Config, n: nat): set<string>
    requires n <= |ops|
  {
    if n == 0 then {}
    else
      KilledIds(s, ops, newId, c, n - 1)
      + Ids(Lost(After(s, ops, newId, c, n - 1), Stamped(ops[n - 1], n - 1), c))
  }

  /** What enters has an id of its own that no retry gets, and is no retry itself. */
  ghost predicate EntersFresh(s: Sup, op: Op, newId: string -> string, c: Config, entered: set<string>) {
    var t := Arriving(s, op, c);
    t.Some? ==> t.value.id !in entered && t.value.retryFrom.None? && forall x :: newId(x) != t.value.id
  }

  /** Every id given out in the first n operations is new. */
  ghost predicate FreshIds(s: Sup, ops: seq<Op>, newId: string -> string, c: Config, n: nat)
    requires n <= |ops|
  {
    && Injective(newId)
    && forall i | 0 <= i < n ::
         EntersFresh(After(s, ops, newId, c, i), Stamped(ops[i], i), newId, c, EnteredIds(s, ops, newId, c, i))
  }

  /** An id that some task has been given. */
  ghost predicate Given(x: string, entered: set<string>, killed: set<string>, newId: string -> string) {
    x in entered || exists y :: y in killed && newId(y) == x
  }

  /** A given id belongs to one task until that task is killed, and a killed one to at most one
      retry; restarts included. */
  ghost predicate Known(s: Sup, entered: set<string>, killed: set<string>, newId: string -> string) {
    && Sound(s.running)
    && (forall x {:trigger IsId(x)} ::
          Account(s, IsId(x)) <= if x !in killed && Given(x, entered, killed, newId) then 1 else 0)
    && (forall x {:trigger IsRetryOf(x)} :: Account(s, IsRetryOf(x)) <= if x in killed then 1 else 0)
    && (forall x :: x in killed ==> Given(x, entered, killed, newId))
    && (forall x, y :: x in entered ==> newId(y) != x)
  }

  lemma {:induction false} RunningIsKnown(s: Sup, entered: set<string>, killed: set<string>, newId: string -> string,
                                          r: Running)
    requires Known(s, entered, killed, newId) && r in s.running
    ensures r.id !in killed && Given(r.id, entered, killed, newId)
    ensures Total(s.queue.pending, IsId(r.id)) == 0 && TotalRunning(s.running, IsId(r.id)) == 1
  {
    hide Given;
    IdsWeigh(r.id);
    AccountsNonNegative(s, IsId(r.id));
    RunningNonNegative(s.running, IsId(r.id));
    assert IsId(r.id)(r.meta.task) == 1;
  }

  /** What an operation kills was running, each id once, and none of them was killed before. */
  lemma {:induction false} LostAreKnown(s: Sup, op: Op, c: Config, entered: set<string>, killed: set<string>,
                                        newId: string -> string)
    requires Known(s, entered, killed, newId)
    ensures var lost := Lost(s, op, c);
            && DistinctIds(lost)
            && forall r | r in lost ::
                  r in s.running && r.id == r.meta.task.id && r.id !in killed && Given(r.id, entered, killed, newId)
  {
    hide Given, Killed, TimedOut;
    if op.TimeoutsOp? {
      KilledFrom(s.running, op.now, c);
      forall r | r in Killed(s.running, op.now, c)
        ensures r in s.running && r.id !in killed && Given(r.id, entered, killed, newId)
      {
        RunningIsKnown(s, entered, killed, newId, r);
      }
    }
  }

  lemma {:induction false} LostWeight(lost: seq<Running>, x: string)
    requires forall r | r in lost :: r.id == r.meta.task.id
    ensures TotalRunning(lost, IsId(x)) >= if x in Ids(lost) then 1 else 0
  {
    IdsWeigh(x);
    RunningNonNegative(lost, IsId(x));
    if x in Ids(lost) {
      var r :| r in lost && r.id == x;
      assert IsId(x)(r.meta.task) == 1;
    }
  }

  /** The id of a retry was given to nobody before. */
  lemma {:induction false} RetryIdIsNew(s: Sup, entered: set<string>, killed: set<string>, newId: string -> string,
                                        r: Running)
    requires Known(s, entered, killed, newId) && Injective(newId) && r.id !in killed
    ensures !Given(newId(r.id), entered, killed, newId) && newId(r.id) !in killed
  {
  }

  lemma {:induction false} IdStep(s: Sup, op: Op, newId: string -> string, c: Config, entered: set<string>,
                                  killed: set<string>, x: string)
    requires Known(s, entered, killed, newId) && Injective(newId) && EntersFresh(s, op, newId, c, entered)
    ensures var entered', killed' := entered + ArrivingIds(s, op, c), killed + Ids(Lost(s, op, c));
            Account(Step(s, op, newId, c), IsId(x))
            <= if x !in killed' && Given(x, entered', killed', newId) then 1 else 0
  {
    hide Step, Account, Total, TotalRunning, Retries, Lost, Killed, Arriving, Sound, DistinctIds;
    IdsWeigh(x);
    var lost := Lost(s, op, c);
    var entered', killed' := entered + ArrivingIds(s, op, c), killed + Ids(lost);
    assert Account(s, IsId(x)) <= if x !in killed && Given(x, entered, killed, newId) then 1 else 0;
    StepBalances(s, op, newId, c, IsId(x));
    LostAreKnown(s, op, c, entered, killed, newId);
    LostWeight(lost, x);
    RetriesNamed(lost, newId, x);
    OnlyOneSource(s, op, c, newId);
    assert forall y :: y in killed ==> y in killed';
    assert x in Ids(lost) ==> Given(x, entered, killed, newId);
    if Total(Retries(lost, newId), IsId(x)) == 1 {
      var r :| r in lost && newId(r.id) == x;
      RetryIdIsNew(s, entered, killed, newId, r);
      assert r.id in killed';
    }
  }

  /** An operation that brings a task in kills nothing. */
  lemma {:induction false} OnlyOneSource(s: Sup, op: Op, c: Config, newId: string -> string)
    ensures Arriving(s, op, c).Some? ==> Lost(s, op, c) == [] && Retries(Lost(s, op, c), newId) == []
  {
  }

  lemma {:induction false} RetryStep(s: Sup, op: Op, newId: string -> string, c: Config, entered: set<string>,
                                     killed: set<string>, x: string)
    requires Known(s, entered, killed, newId) && EntersFresh(s, op, newId, c, entered)
    ensures Account(Step(s, op, newId, c), IsRetryOf(x)) <= if x in killed + Ids(Lost(s, op, c)) then 1 else 0
  {
    hide Step, Account, Total, TotalRunning, Retries, Lost, Killed, Arriving, Sound, Given, DistinctIds;
    IdsWeigh(x);
    var lost := Lost(s, op, c);
    assert Account(s, IsRetryOf(x)) <= if x in killed then 1 else 0;
    StepBalances(s, op, newId, c, IsRetryOf(x));
    LostAreKnown(s, op, c, entered, killed, newId);
    RetriesOf(lost, newId, x);
    RunningNonNegative(lost, IsRetryOf(x));
  }

  lemma {:induction false} GivenGrows(x: string, entered: set<string>, killed: set<string>, newId: string -> string,
                                      more: set<string>, dead: set<string>)
    requires Given(x, entered, killed, newId)
    ensures Given(x, entered + more, killed + dead, newId)
  {
    if x !in entered {
      var y :| y in killed && newId(y) == x;
      assert y in killed + dead;
    }
  }

  lemma {:induction false} KnownStep(s: Sup, op: Op, newId: string -> string, c: Config, entered: set<string>,
                                     killed: set<string>)
    requires Known(s, entered, killed, newId) && Injective(newId) && EntersFresh(s, op, newId, c, entered)
    ensures Known(Step(s, op, newId, c), entered + ArrivingIds(s, op, c), killed + Ids(Lost(s, op, c)), newId)
  {
    hide Step, Account, Lost, Arriving, Sound, Given, IsId, IsRetryOf;
    var entered', killed' := entered + ArrivingIds(s, op, c), killed + Ids(Lost(s, op, c));
    StepSound(s, op, newId, c);
    LostAreKnown(s, op, c, entered, killed, newId);
    forall x
      ensures Account(Step(s, op, newId, c), IsId(x))
           <= if x !in killed' && Given(x, entered', killed', newId) then 1 else 0
      ensures Account(Step(s, op, newId, c), IsRetryOf(x)) <= if x in killed' then 1 else 0
      ensures x in killed' ==> Given(x, entered', killed', newId)
    {
      IdStep(s, op, newId, c, entered, killed, x);
      RetryStep(s, op, newId, c, entered, killed, x);
      if x in killed' {
        assert Given(x, entered, killed, newId);
        GivenGrows(x, entered, killed, newId, ArrivingIds(s, op, c), Ids(Lost(s, op, c)));
      }
    }
  }

  /** In every run with fresh ids, through crashes, restarts and start-ups. */
  lemma {:induction false} KnownAlways(evo: Evo, ops: seq<Op>, newId: string -> string, c: Config, n: nat)
    requires n <= |ops| && FreshIds(Empty(evo), ops, newId, c, n)
    ensures Known(After(Empty(evo), ops, newId, c, n), EnteredIds(Empty(evo), ops, newId, c, n),
                  KilledIds(Empty(evo), ops, newId, c, n), newId)
  {
    hide Step, Known, Arriving, Lost, EntersFresh, Injective, Ids, ArrivingIds;
    if n == 0 {
      EmptyKnown(evo, newId);
    } else {
      KnownAlways(evo, ops, newId, c, n - 1);
      assert EntersFresh(After(Empty(evo), ops, newId, c, n - 1), Stamped(ops[n - 1], n - 1), newId, c,
                         EnteredIds(Empty(evo), ops, newId, c, n - 1));
      KnownStep(After(Empty(evo), ops, newId, c, n - 1), Stamped(ops[n - 1], n - 1), newId, c,
                EnteredIds(Empty(evo), ops, newId, c, n - 1), KilledIds(Empty(evo), ops, newId, c, n - 1));
    }
  }

  lemma {:induction false} EmptyKnown(evo: Evo, newId: string -> string)
    ensures Known(Empty(evo), {}, {}, newId)
  {
    hide IsId, IsRetryOf, Given;
    NobodyRuns();
    forall x
      ensures Account(Empty(evo), IsId(x)) == 0 && Account(Empty(evo), IsRetryOf(x)) == 0
    {
      EmptyAccount(evo, IsId(x));
      EmptyAccount(evo, IsRetryOf(x));
    }
  }

  /** No id is ever pending or running twice, nor would a restart bring one back twice. */
  lemma {:induction false} OneTaskPerId(evo: Evo, ops: seq<Op>, newId: string -> string, c: Config, n: nat, x: string)
    requires n <= |ops| && FreshIds(Empty(evo), ops, newId, c, n)
    ensures var s := After(Empty(evo), ops, newId, c, n);
            && DistinctIds(s.running)
            && Total(s.queue.pending, IsId(x)) + TotalRunning(s.running, IsId(x)) <= 1 && Stored(s, IsId(x)) <= 1
  {
    hide After, FreshIds, EnteredIds, KilledIds, Total, TotalRunning, Given, DistinctIds;
    KnownAlways(evo, ops, newId, c, n);
    var s := After(Empty(evo), ops, newId, c, n);
    assert Account(s, IsId(x)) <= 1;
  }

  /** In every run with fresh ids, a task that a pass kills has never been killed before, has
      exactly one retry among the pending tasks afterwards if it had an attempt left and none if
      it had not, and neither runs nor is pending any more. */
  lemma {:induction false} KilledOnceOrStopped(evo: Evo, ops: seq<Op>, newId: string -> string, c: Config, n: nat,
                                               now: real, nowTs: string, r: Running)
    requires n <= |ops| && FreshIds(Empty(evo), ops, newId, c, n)
    requires r in After(Empty(evo), ops, newId, c, n).running && TimedOut(r.meta, now, c)
    ensures r.id !in KilledIds(Empty(evo), ops, newId, c, n)
    ensures var s' := Timeouts(After(Empty(evo), ops, newId, c, n), now, nowTs, newId, c);
            && Total(s'.queue.pending, IsRetryOf(r.id)) == (if RunAttempt(r.meta) <= QUEUE_MAX_RETRIES then 1 else 0)
            && (forall x | x in s'.running :: x.id != r.id)
            && Live(s', IsId(r.id)) == 0
  {
    hide EnteredIds, KilledIds, After, Given, EntersFresh;
    var s := After(Empty(evo), ops, newId, c, n);
    KnownAlways(evo, ops, newId, c, n);
    KilledNow(s, now, nowTs, newId, c, EnteredIds(Empty(evo), ops, newId, c, n),
              KilledIds(Empty(evo), ops, newId, c, n), r);
    PassEndsId(s, now, nowTs, newId, c, EnteredIds(Empty(evo), ops, newId, c, n),
               KilledIds(Empty(evo), ops, newId, c, n), r);
  }

  lemma {:induction false} KilledNow(s: Sup, now: real, nowTs: string, newId: string -> string, c: Config,
                                     entered: set<string>, killed: set<string>, r: Running)
    requires Known(s, entered, killed, newId) && r in s.running && TimedOut(r.meta, now, c)
    ensures r.id !in killed
    ensures var s' := Timeouts(s, now, nowTs, newId, c);
            && Total(s'.queue.pending, IsRetryOf(r.id)) == (if RunAttempt(r.meta) <= QUEUE_MAX_RETRIES then 1 else 0)
            && (forall x | x in s'.running :: x.id != r.id)
  {
    hide RetryAll, Survivors, Killed, Rows, Given, Total, TotalRunning, Retries;
    var dead := Killed(s.running, now, c);
    RunningIsKnown(s, entered, killed, newId, r);
    IdsWeigh(r.id);
    assert Account(s, IsRetryOf(r.id)) <= 0;
    AccountsNonNegative(s, IsRetryOf(r.id));
    KilledFrom(s.running, now, c);
    RetriesOf(dead, newId, r.id);
    RetryTotal(s.queue, dead, newId, nowTs, IsRetryOf(r.id));
    SurvivorsFrom(s.running, now, c);
    assert forall x | x in dead && x.id == r.id :: x == r;
  }

  lemma {:induction false} PassEndsId(s: Sup, now: real, nowTs: string, newId: string -> string, c: Config,
                                      entered: set<string>, killed: set<string>, r: Running)
    requires Known(s, entered, killed, newId) && Injective(newId) && r in s.running && TimedOut(r.meta, now, c)
    ensures Live(Timeouts(s, now, nowTs, newId, c), IsId(r.id)) == 0
  {
    hide Given, Known, Timeouts, Killed, Total, TotalRunning, TimedOut;
    IdsWeigh(r.id);
    var op := TimeoutsOp(now, nowTs);
    KilledFrom(s.running, now, c);
    assert r in Lost(s, op, c) && r.id in Ids(Lost(s, op, c));
    IdStep(s, op, newId, c, entered, killed, r.id);
    AccountsNonNegative(Timeouts(s, now, nowTs, newId, c), IsId(r.id));
  }

  // ---- Each id is killed at most once ----

  function KillsOf(s: Sup, ops: seq<Op>, newId: string -> string, c: Config, x: string, n: nat): int
    requires n <= |ops|
  {
    if n == 0 then 0
    else
      KillsOf(s, ops, newId, c, x, n - 1)
      + TotalRunning(Lost(After(s, ops, newId, c, n - 1), Stamped(ops[n - 1], n - 1), c), IsId(x))
  }

  lemma {:induction false} LostOnce(s: Sup, op: Op, c: Config, entered: set<string>, killed: set<string>,
                                    newId: string -> string, x: string)
    requires Known(s, entered, killed, newId)
    ensures TotalRunning(Lost(s, op, c), IsId(x)) <= if x in killed || x !in Ids(Lost(s, op, c)) then 0 else 1
  {
    hide Given, Killed, Total;
    IdsWeigh(x);
    LostAreKnown(s, op, c, entered, killed, newId);
    var lost := Lost(s, op, c);
    AccountsNonNegative(s, IsId(x));
    assert Account(s, IsId(x)) <= 1;
    if op.TimeoutsOp? {
      TotalPass(s.running, op.now, c, IsId(x));
      RunningNonNegative(Survivors(s.running, op.now, c), IsId(x));
    }
    if x !in Ids(lost) || x in killed {
      NotAmong(lost, x);
    }
  }

  lemma {:induction false} NotAmong(rs: seq<Running>, x: string)
    requires forall r | r in rs :: r.meta.task.id != x
    ensures TotalRunning(rs, IsId(x)) == 0
  {
    if rs != [] {
      var m := |rs| - 1;
      assert rs[m] in rs && forall r | r in rs[..m] :: r in rs;
      NotAmong(rs[..m], x);
    }
  }

  /** In every run with fresh ids. */
  lemma {:induction false} KilledAtMostOnce(evo: Evo, ops: seq<Op>, newId: string -> string, c: Config, x: string,
                                            n: nat)
    requires n <= |ops| && FreshIds(Empty(evo), ops, newId, c, n)
    ensures KillsOf(Empty(evo), ops, newId, c, x, n) <= if x in KilledIds(Empty(evo), ops, newId, c, n) then 1 else 0
  {
    hide After, Known, EnteredIds, Lost, TotalRunning, IsId, EntersFresh, Injective;
    if n > 0 {
      KilledAtMostOnce(evo, ops, newId, c, x, n - 1);
      KnownAlways(evo, ops, newId, c, n - 1);
      LostOnce(After(Empty(evo), ops, newId, c, n - 1), Stamped(ops[n - 1], n - 1), c,
               EnteredIds(Empty(evo), ops, newId, c, n - 1), KilledIds(Empty(evo), ops, newId, c, n - 1), newId, x);
    }
  }

  // ---- Assigning ----

  lemma {:induction false} MovedToRunning(s: Sup, k: nat, now: real, f: Task -> int)
    requires NonNegative(f) && k < |s.queue.pending| && forall r | r in s.running :: r.id != s.queue.pending[k].id
    ensures var p := s.queue.pending; var meta := Meta(p[k], now, now, false, Int(AttemptOf(p[k])));
            Live(s.(queue := s.queue.(pending := p[..k] + p[k + 1..]), running := Put(s.running, p[k].id, meta)), f)
            == Live(s, f)
  {
    hide Put;
    TotalRemoved(s.queue.pending, k, f);
    var t := s.queue.pending[k];
    TotalPut(s.running, t.id, Meta(t, now, now, false, Int(AttemptOf(t))), f);
  }

  /** In every run with fresh ids, assigning a task moves it from pending to running: no weight is
      lost or added, since its id is not running already and so overwrites nothing. */
  lemma {:induction false} AssignSpendsNothing(evo: Evo, ops: seq<Op>, newId: string -> string, c: Config, n: nat,
                                               remaining: real, now: real, f: Task -> int)
    requires n <= |ops| && FreshIds(Empty(evo), ops, newId, c, n) && Weighs(f)
    ensures var s := After(Empty(evo), ops, newId, c, n);
            FirstAffordable(s.queue.pending, remaining, c) < |s.queue.pending| ==>
              Live(Assign(s, remaining, now, c), f) == Live(s, f)
  {
    hide FreshIds, EnteredIds, KilledIds, After, Total, TotalRunning, Put, Persist, Steady, Shrinking, Known;
    var s := After(Empty(evo), ops, newId, c, n);
    var k := FirstAffordable(s.queue.pending, remaining, c);
    if k < |s.queue.pending| {
      var t := s.queue.pending[k];
      KnownAlways(evo, ops, newId, c, n);
      forall r | r in s.running
        ensures r.id != t.id
      {
        RunningIsKnown(s, EnteredIds(Empty(evo), ops, newId, c, n), KilledIds(Empty(evo), ops, newId, c, n), newId, r);
        IdsWeigh(r.id);
        TotalMember(s.queue.pending, t, IsId(r.id));
      }
      MovedToRunning(s, k, now, f);
      var meta := Meta(t, now, now, false, Int(AttemptOf(t)));
      var p := s.queue.pending;
      Saved(s.(queue := s.queue.(pending := p[..k] + p[k + 1..]), running := Put(s.running, t.id, meta)), f);
    }
  }
}
