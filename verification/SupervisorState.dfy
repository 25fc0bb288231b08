/** The supervisor's mutable state: PENDING, RUNNING, the sequence counter, the snapshot file
    and the scheduling flags. Every method is proved to leave the state that the matching
    function of module Supervisor describes. */
module SupervisorState {
  import opened Options
  import opened TaskQueue
  import S = Supervisor
  import opened Supervisor

  lemma {:induction false} PutDistinct(running: seq<Running>, id: string, meta: Meta)
    requires DistinctIds(running)
    ensures DistinctIds(Put(running, id, meta))
  {
    var k := IndexOfId(running, id);
    if k == |running| {
      assert forall i | 0 <= i < |running| :: running[i].id != id;
    }
  }

  lemma {:induction false} SurvivorsOf(items: seq<Running>, now: real, c: Config)
    ensures forall r | r in Survivors(items, now, c) :: exists x | x in items :: x.id == r.id
  {
    if items != [] {
      var m := |items| - 1;
      SurvivorsOf(items[..m], now, c);
      assert items == items[..m] + [items[m]];
      forall r | r in Survivors(items, now, c)
        ensures exists x | x in items :: x.id == r.id
      {
        if r in Survivors(items[..m], now, c) {
          var x :| x in items[..m] && x.id == r.id;
          assert x in items;
        } else {
          assert items[m] in items;
        }
      }
    }
  }

  /** Halfway through a pass, the entries already looked at and those still to come have
      different ids, so the next one is found right behind the survivors. */
  lemma {:induction false} NextAt(items: seq<Running>, i: nat, now: real, c: Config)
    requires DistinctIds(items) && i < |items|
    ensures var done := Survivors(items[..i], now, c);
            IndexOfId(done + items[i..], items[i].id) == |done|
  {
    var done := Survivors(items[..i], now, c);
    SurvivorsOf(items[..i], now, c);
    var all := done + items[i..];
    assert all[|done|] == items[i];
    forall j | 0 <= j < |done|
      ensures all[j].id != items[i].id
    {
      assert all[j] == done[j] && done[j] in done;
      var x :| x in items[..i] && x.id == done[j].id;
      var m :| 0 <= m < i && items[m] == x;
    }
  }

  lemma {:induction false} SurvivorsDistinct(items: seq<Running>, now: real, c: Config)
    requires DistinctIds(items)
    ensures DistinctIds(Survivors(items, now, c))
  {
    if items != [] {
      var m := |items| - 1;
      SurvivorsDistinct(items[..m], now, c);
      SurvivorsOf(items[..m], now, c);
      var done := Survivors(items[..m], now, c);
      forall j | 0 <= j < |done|
        ensures done[j].id != items[m].id
      {
        assert done[j] in done;
        var x :| x in items[..m] && x.id == done[j].id;
        var k :| 0 <= k < m && items[k] == x;
      }
    }
  }

  /** What a pass does about the entry r, which RUNNING holds at place k. */
  function PassOne(s: Sup, r: Running, k: nat, now: real, nowTs: string, newId: string -> string, c: Config): Sup
    requires k < |s.running|
  {
    if !TimedOut(r.meta, now, c) then
      s.(running := s.running[k := Running(r.id, Noticed(r.meta, now, c))])
    else
      Persist(s.(running := s.running[..k] + s.running[k + 1..],
                 queue := if RunAttempt(r.meta) <= QUEUE_MAX_RETRIES
                     then Enqueue(s.queue, Retried(r, newId), true, nowTs) else s.queue))
  }

  /** The state of a pass over items when the first i of them have been looked at. */
  function Halfway(s: Sup, items: seq<Running>, i: nat, now: real, nowTs: string, newId: string -> string,
                   c: Config): Sup
    requires i <= |items|
  {
    var killed := Killed(items[..i], now, c);
    var q := RetryAll(s.queue, killed, newId, nowTs);
    Sup(q, Survivors(items[..i], now, c) + items[i..], if killed == [] then s.rows else Some(Rows(q.pending)), s.evo)
  }

  lemma {:induction false} HalfwayEnds(s: Sup, now: real, nowTs: string, newId: string -> string, c: Config)
    ensures Halfway(s, s.running, 0, now, nowTs, newId, c) == s
    ensures Halfway(s, s.running, |s.running|, now, nowTs, newId, c) == Timeouts(s, now, nowTs, newId, c)
  {
    var n := |s.running|;
    assert s.running[..0] == [] && s.running[..n] == s.running;
    assert Survivors([], now, c) == [] && Killed([], now, c) == [] && RetryAll(s.queue, [], newId, nowTs) == s.queue;
    assert [] + s.running[0..] == s.running;
    assert Survivors(s.running, now, c) + s.running[n..] == Survivors(s.running, now, c);
  }

  lemma {:induction false} PassStep(items: seq<Running>, i: nat, now: real, c: Config)
    requires i < |items|
    ensures Survivors(items[..i + 1], now, c)
         == Survivors(items[..i], now, c)
            + if TimedOut(items[i].meta, now, c) then [] else [Running(items[i].id, Noticed(items[i].meta, now, c))]
    ensures Killed(items[..i + 1], now, c)
         == if TimedOut(items[i].meta, now, c) then Killed(items[..i], now, c) + [items[i]]
            else Killed(items[..i], now, c)
  {
    assert items[..i + 1][..i] == items[..i];
    assert Killed(items[..i], now, c) + [] == Killed(items[..i], now, c);
  }

  lemma {:induction false} RetryLast(q: Queue, killed: seq<Running>, r: Running, newId: string -> string, now: string)
    ensures RetryAll(q, killed + [r], newId, now)
         == var q1 := RetryAll(q, killed, newId, now);
            if RunAttempt(r.meta) <= QUEUE_MAX_RETRIES then Enqueue(q1, Retried(r, newId), true, now) else q1
  {
    assert (killed + [r])[..|killed|] == killed;
  }

  lemma {:induction false} HalfwayStep(s: Sup, items: seq<Running>, i: nat, now: real, nowTs: string,
                                       newId: string -> string, c: Config)
    requires i < |items|
    ensures PassOne(Halfway(s, items, i, now, nowTs, newId, c), items[i], |Survivors(items[..i], now, c)|,
                    now, nowTs, newId, c)
         == Halfway(s, items, i + 1, now, nowTs, newId, c)
  {
    hide Enqueue, Noticed, TimedOut;
    PassStep(items, i, now, c);
    RetryLast(s.queue, Killed(items[..i], now, c), items[i], newId, nowTs);
    var done := Survivors(items[..i], now, c);
    var kept := Running(items[i].id, Noticed(items[i].meta, now, c));
    var all := done + items[i..];
    assert all[..|done|] == done && all[|done| + 1..] == items[i + 1..];
    assert all[|done| := kept] == done + [kept] + items[i + 1..];
    assert done + [] == done;
  }

  /** Where the loop finds the entry it looks at next. */
  lemma {:induction false} HalfwayAt(s: Sup, items: seq<Running>, i: nat, now: real, nowTs: string,
                                     newId: string -> string, c: Config)
    requires DistinctIds(items) && i < |items|
    ensures var running, k := Halfway(s, items, i, now, nowTs, newId, c).running, |Survivors(items[..i], now, c)|;
            k < |running| && running[k] == items[i] && IndexOfId(running, items[i].id) == k
  {
    hide RetryAll, Killed;
    NextAt(items, i, now, c);
  }

  lemma {:induction false} TimeoutsDistinct(s: Sup, now: real, nowTs: string, newId: string -> string, c: Config)
    requires DistinctIds(s.running)
    ensures DistinctIds(Timeouts(s, now, nowTs, newId, c).running)
  {
    hide RetryAll, Killed;
    SurvivorsDistinct(s.running, now, c);
  }

  /** The dictionary part of enqueue_task: a copy with its defaults filled in. */
  method Prepare(task: Task, number: int, front: bool, nowTs: string) returns (t: Task)
    ensures t == Prepared(task, number, front, nowTs)
    ensures !t.priority.Missing? && !t.attempt.Missing? && t.seqNo == Int(if front then -number else number)
  {
    t := task;
    if t.priority.Missing? {
      t := t.(priority := Int(TaskPriority(t.kind)));
    }
    if t.attempt.Missing? {
      t := t.(attempt := Int(1));
    }
    t := t.(seqNo := Int(if front then -number else number), queuedAt := nowTs);
  }

  lemma {:induction false} NothingToRestore(q: Queue, rows: seq<Task>, now: string)
    requires OnlyRestorable(rows) == []
    ensures Restore(q, rows, now) == q
  {
    if rows != [] {
      NothingToRestore(q, rows[..|rows| - 1], now);
    }
  }

  lemma {:induction false} PlaceKept(before: seq<Running>, k: nat, now: seq<Running>)
    requires k < |before| == |now| && IndexOfId(before, before[k].id) == k
    requires forall i | 0 <= i < |before| :: now[i].id == before[i].id
    ensures IndexOfId(now, before[k].id) == k
  {
    var i := IndexOfId(now, before[k].id);
    assert now[k].id == before[k].id;
    assert i <= k && now[i].id == before[i].id;
  }

  lemma {:induction false} FirstIs(pending: seq<Task>, remaining: real, c: Config, k: nat)
    requires k <= |pending| && (k < |pending| ==> !OverBudget(pending[k], remaining, c))
    requires forall i | 0 <= i < k :: OverBudget(pending[i], remaining, c)
    ensures FirstAffordable(pending, remaining, c) == k
  {
  }

  lemma {:induction false} NoBudget(s: Sup, remaining: real, times: seq<real>, c: Config)
    requires remaining <= 0.0
    ensures AssignAll(s, remaining, times, c) == s
  {
    if times != [] {
      NoBudget(s, remaining, times[..|times| - 1], c);
    }
  }

  class TaskSupervisor {
    var pending: seq<Task>
    var counter: int
    var running: seq<Running>
    var rows: Option<seq<Task>>
    var evo: Evo

    function State(): Sup
      reads this
    {
      Sup(Queue(pending, counter), running, rows, evo)
    }

    /** RUNNING is a dictionary. */
    predicate Valid()
      reads this
    {
      DistinctIds(running)
    }

    constructor (evo: Evo)
      ensures Valid() && State() == Empty(evo)
    {
      pending, counter, running, rows := [], 0, [], None;
      this.evo := evo;
    }

    /** list.sort on PENDING: stable, and there is only one stable sort. */
    method SortPending()
      modifies this`pending
      ensures StablySorted(old(pending), pending)
      ensures pending == StableSort(old(pending))
    {
      SortsStably(pending);
      pending := StableSort(pending);
    }

    method EnqueueTask(task: Task, front: bool, nowTs: string)
      modifies this`pending, this`counter
      ensures Queue(pending, counter) == Enqueue(Queue(old(pending), old(counter)), task, front, nowTs)
    {
      counter := counter + 1;
      var t := Prepare(task, counter, front, nowTs);
      pending := pending + [t];
      SortPending();
    }

    method PersistSnapshot()
      modifies this`rows
      ensures State() == Persist(old(State()))
    {
      var out := [];
      for i := 0 to |pending|
        invariant |out| == i && forall j | 0 <= j < i :: out[j] == Kept(pending[j])
      {
        out := out + [Kept(pending[i])];
      }
      assert out == Rows(pending);
      rows := Some(out);
    }

    /** restore_pending_from_snapshot: the number of tasks re-enqueued. */
    method RestorePending(age: Option<real>, maxAge: real, nowTs: string) returns (restored: nat)
      modifies this`pending, this`counter, this`rows
      ensures State() == RestoreSnapshot(old(State()), age, maxAge, nowTs)
      ensures restored == |pending| - |old(pending)|
    {
      restored := 0;
      if pending != [] || rows.None? || age.None? || age.value > maxAge {
        return;
      }
      var snap := rows.value;
      ghost var q := Queue(pending, counter);
      for i := 0 to |snap|
        invariant Queue(pending, counter) == Restore(q, snap[..i], nowTs)
        invariant restored == |OnlyRestorable(snap[..i])| == |pending|
        invariant rows == old(rows)
      {
        assert snap[..i + 1][..i] == snap[..i];
        if Restorable(snap[i]) {
          EnqueueTask(snap[i], false, nowTs);
          restored := restored + 1;
        }
      }
      assert snap[..|snap|] == snap;
      if restored > 0 {
        PersistSnapshot();
      } else {
        NothingToRestore(q, snap, nowTs);
      }
    }

    /** cancel_task_by_id, given the ids the workers are busy with. A pending task with the id
        goes first, then a running one. */
    method CancelTaskById(id: string, busy: seq<string>) returns (found: bool)
      requires Valid()
      modifies this`pending, this`running, this`rows
      ensures Valid()
      ensures forall k | 0 <= k < |old(pending)| && old(pending)[k].id == id
              && (forall j | 0 <= j < k :: old(pending)[j].id != id) ::
                found && State() == CancelPending(old(State()), k)
      ensures (forall t | t in old(pending) :: t.id != id) ==>
                found == (id in busy)
                && State()
                   == if id in busy then Persist(old(State()).(running := Pop(old(running), id))) else old(State())
    {
      for i := 0 to |pending|
        invariant State() == old(State())
        invariant forall j | 0 <= j < i :: pending[j].id != id
      {
        if pending[i].id == id {
          assert old(pending)[i] in old(pending);
          pending := pending[..i] + pending[i + 1..];
          PersistSnapshot();
          return true;
        }
      }
      for w := 0 to |busy|
        invariant State() == old(State())
        invariant forall j | 0 <= j < w :: busy[j] != id
      {
        if busy[w] == id {
          running := Pop(running, id);
          PersistSnapshot();
          return true;
        }
      }
      found := false;
    }

    /** enforce_task_timeouts: goes over a copy of RUNNING, updating and popping entries of the
        live one. */
    method EnforceTaskTimeouts(now: real, nowTs: string, newId: string -> string, c: Config)
      requires Valid()
      modifies this`pending, this`counter, this`running, this`rows
      ensures Valid() && State() == Timeouts(old(State()), now, nowTs, newId, c)
    {
      hide Timeouts, Survivors, Killed, RetryAll, Halfway, PassOne;
      var items := running;
      ghost var s := State();
      HalfwayEnds(s, now, nowTs, newId, c);
      for i := 0 to |items|
        invariant State() == Halfway(s, items, i, now, nowTs, newId, c)
      {
        HalfwayAt(s, items, i, now, nowTs, newId, c);
        HalfwayStep(s, items, i, now, nowTs, newId, c);
        EnforceOne(items[i], now, nowTs, newId, c);
      }
      TimeoutsDistinct(s, now, nowTs, newId, c);
    }

    /** The body of that loop. */
    method EnforceOne(r: Running, now: real, nowTs: string, newId: string -> string, c: Config)
      requires IndexOfId(running, r.id) < |running| && running[IndexOfId(running, r.id)] == r
      modifies this`pending, this`counter, this`running, this`rows
      ensures State() == PassOne(old(State()), r, IndexOfId(old(running), r.id), now, nowTs, newId, c)
    {
      ghost var k := IndexOfId(running, r.id);
      assert running == running[k := r];
      if r.meta.started <= 0.0 {
        return;
      }
      if Runtime(r.meta, now) >= SoftLimit(r.meta, c) && !r.meta.softSent {
        running := Put(running, r.id, r.meta.(softSent := true));
        PlaceKept(old(running), k, running);
      }
      if Runtime(r.meta, now) < HardLimit(r.meta, c) {
        return;
      }
      running := Pop(running, r.id);
      if RunAttempt(r.meta) <= QUEUE_MAX_RETRIES {
        EnqueueTask(Retried(r, newId), true, nowTs);
      }
      PersistSnapshot();
    }

    /** assign_tasks with one entry of times for each idle worker. */
    method AssignTasks(remaining: real, times: seq<real>, c: Config)
      requires Valid()
      modifies this`pending, this`running, this`rows
      ensures Valid() && State() == AssignAll(old(State()), remaining, times, c)
    {
      if remaining <= 0.0 {
        NoBudget(State(), remaining, times, c);
        return;
      }
      for w := 0 to |times|
        invariant Valid() && State() == AssignAll(old(State()), remaining, times[..w], c)
      {
        assert times[..w + 1][..w] == times[..w];
        if pending != [] {
          AssignOne(remaining, times[w], c);
        }
      }
      assert times[..|times|] == times;
    }

    method AssignOne(remaining: real, now: real, c: Config)
      requires Valid() && remaining > 0.0 && pending != []
      modifies this`pending, this`running, this`rows
      ensures Valid() && State() == S.Assign(old(State()), remaining, now, c)
    {
      var k := 0;
      while k < |pending| && OverBudget(pending[k], remaining, c)
        invariant k <= |pending|
        invariant forall i | 0 <= i < k :: OverBudget(pending[i], remaining, c)
      {
        k := k + 1;
      }
      FirstIs(pending, remaining, c, k);
      if k == |pending| {
        pending := WithoutKind(pending, EVOLUTION);
      } else {
        var t := pending[k];
        pending := pending[..k] + pending[k + 1..];
        PutDistinct(running, t.id, Meta(t, now, now, false, Int(AttemptOf(t))));
        running := Put(running, t.id, Meta(t, now, now, false, Int(AttemptOf(t))));
      }
      PersistSnapshot();
    }

    method HandleTaskDone(id: string, kind: string, cost: real, rounds: int, c: Config)
      requires Valid()
      modifies this`running, this`rows, this`evo
      ensures Valid() && State() == TaskDone(old(State()), id, kind, cost, rounds, c)
    {
      if kind == EVOLUTION {
        if cost > c.evoCost && rounds >= 1 {
          evo := evo.(failures := 0);
        } else {
          evo := evo.(failures := evo.failures + 1);
        }
      }
      if id != "" {
        running := Pop(running, id);
      }
      PersistSnapshot();
    }

    method HandleToggleEvolution(on: bool)
      modifies this`pending, this`rows, this`evo
      ensures State() == ToggleByTool(old(State()), on)
    {
      evo := evo.(enabled := on);
      if !on {
        pending := WithoutKind(pending, EVOLUTION);
        SortPending();
        PersistSnapshot();
      }
    }

    method EnqueueEvolutionTaskIfNeeded(remaining: real, id: string, text: string, origin: nat, nowTs: string,
                                        c: Config)
      modifies this`pending, this`counter, this`evo
      ensures State() == EvolutionTick(old(State()), remaining, id, text, origin, nowTs, c)
    {
      hide Enqueue;
      if pending != [] || running != [] {
        return;
      }
      if !evo.enabled || evo.owner.None? || evo.owner.value == 0 {
        return;
      }
      if evo.failures >= 3 || remaining < c.reserve {
        evo := evo.(enabled := false);
        return;
      }
      var cycle := evo.cycle + 1;
      EnqueueTask(EvolutionTask(id, evo.owner.value, text, origin), false, nowTs);
      evo := evo.(cycle := cycle);
    }

    /** kill_workers: drain_all_pending, RUNNING.clear, snapshot. */
    method KillWorkers()
      modifies this`pending, this`running, this`rows
      ensures Valid() && State() == S.KillWorkers(old(State()))
    {
      pending := [];
      PersistSnapshot();
      running := [];
      PersistSnapshot();
    }
  }
}
