/** The lock file that serialises updates of the review ledger between processes, as a
    state machine over the steps each process takes between two system calls. */
module ReviewLock {
  import opened Options
  import opened ReviewLedger

  const TIMEOUT_SEC := 4.0
  const STALE_SEC := 90.0

  /** update_state runs a mutator (None: it raised); save_state writes a state it was given. */
  datatype Job =
    | Update(mutator: Ledger -> Option<Ledger>, now: string)
    | Save(state: Ledger, now: string)

  /** Where a process stands. From Holding on it is inside the lock. */
  datatype Pc =
    | Idle
    | Trying(job: Job, started: real)
    | Inspecting(job: Job, started: real, clockRead: real)
    | Observed(job: Job, started: real, age: real)
    | Holding(job: Job)
    | Loaded(job: Job, mem: Ledger)
    | ToWrite(job: Job, mem: Ledger)
    | TmpReady(job: Job, tmp: Ledger)
    | Releasing
    | Unlinking

  predicate Inside(pc: Pc) {
    pc.Holding? || pc.Loaded? || pc.ToWrite? || pc.TmpReady? || pc.Releasing? || pc.Unlinking?
  }

  /** The lock file: who created it and when. */
  datatype LockFile = LockFile(owner: nat, mtime: real)

  datatype Outcome = Running | Wrote | Aborted

  /** One acquisition of the lock. */
  datatype Entry = Entry(pid: nat, job: Job, outcome: Outcome)

  /** seen: what the unlocked reads of load_state have returned so far. */
  datatype World =
    World(clock: real, lock: Option<LockFile>, file: Ledger, procs: seq<Pc>, log: seq<Entry>, seen: seq<Ledger>)

  datatype Action =
    | Tick(d: real)
    | Peek
    | Begin(p: nat, newJob: Job)
    | Create(p: nat)
    | Busy(p: nat)
    | Stat(p: nat)
    | Decide(p: nat)
    | GiveUp(p: nat)
    | LoadFile(p: nat)
    | Mutate(p: nat)
    | WriteTmp(p: nat)
    | WriteFails(p: nat)
    | Replace(p: nat)
    | CheckExists(p: nat)
    | Unlink(p: nat)

  predicate Enabled(w: World, a: Action) {
    if a.Tick? then a.d >= 0.0
    else if a.Peek? then true
    else
      && a.p < |w.procs|
      && var pc := w.procs[a.p];
         match a
         case Begin(_, _) => pc.Idle?
         case Create(_) => pc.Trying? && w.clock - pc.started < TIMEOUT_SEC && w.lock.None?
         case Busy(_) => pc.Trying? && w.clock - pc.started < TIMEOUT_SEC && w.lock.Some?
         case GiveUp(_) => pc.Trying? && w.clock - pc.started >= TIMEOUT_SEC
         case Stat(_) => pc.Inspecting?
         case Decide(_) => pc.Observed?
         case LoadFile(_) => pc.Holding?
         case Mutate(_) => pc.Loaded?
         case WriteTmp(_) => pc.ToWrite?
         case WriteFails(_) => pc.ToWrite?
         case Replace(_) => pc.TmpReady?
         case CheckExists(_) => pc.Releasing?
         case Unlink(_) => pc.Unlinking?
         case _ => true
  }

  function Goto(w: World, p: nat, pc: Pc): World
    requires p < |w.procs|
  {
    w.(procs := w.procs[p := pc])
  }

  /** The newest acquisition gets its outcome. */
  function Finish(log: seq<Entry>, outcome: Outcome): seq<Entry> {
    if log == [] then [] else log[|log| - 1 := log[|log| - 1].(outcome := outcome)]
  }

  function Apply(w: World, a: Action): World
    requires Enabled(w, a)
  {
    if a.Tick? then w.(clock := w.clock + a.d)
    else if a.Peek? then w.(seen := w.seen + [Load(w.file)])
    else
      var pc := w.procs[a.p];
      match a
      case Begin(p, job) => Goto(w, p, Trying(job, w.clock))
      case Create(p) =>
        Goto(w, p, Holding(pc.job)).(lock := Some(LockFile(p, w.clock)), log := w.log + [Entry(p, pc.job, Running)])
      case Busy(p) => Goto(w, p, Inspecting(pc.job, pc.started, w.clock))
      case Stat(p) =>
        if w.lock.Some? then Goto(w, p, Observed(pc.job, pc.started, pc.clockRead - w.lock.value.mtime))
        else Goto(w, p, Trying(pc.job, pc.started))
      case Decide(p) =>
        var w1 := Goto(w, p, Trying(pc.job, pc.started));
        if pc.age > STALE_SEC then w1.(lock := None) else w1
      case GiveUp(p) => Goto(w, p, Idle)
      case LoadFile(p) =>
        if pc.job.Update? then Goto(w, p, Loaded(pc.job, Load(w.file))) else Goto(w, p, ToWrite(pc.job, pc.job.state))
      case Mutate(p) =>
        var r := if pc.job.Update? then pc.job.mutator(pc.mem) else None;
        if r.Some? then Goto(w, p, ToWrite(pc.job, r.value))
        else Goto(w, p, Releasing).(log := Finish(w.log, Aborted))
      case WriteTmp(p) => Goto(w, p, TmpReady(pc.job, Sync(pc.mem, pc.job.now)))
      case WriteFails(p) => Goto(w, p, Releasing).(log := Finish(w.log, Aborted))
      case Replace(p) => Goto(w, p, Releasing).(file := pc.tmp, log := Finish(w.log, Wrote))
      case CheckExists(p) => Goto(w, p, if w.lock.Some? then Unlinking else Idle)
      case Unlink(p) => Goto(w, p, Idle).(lock := None)
      case _ => w
  }

  // ---- What the file should hold ----

  /** The state a job turns a file into, read, mutated and written without interruption. */
  function Effect(job: Job, file: Ledger): Ledger {
    match job
    case Save(state, now) => Sync(state, now)
    case Update(mutator, now) =>
      var r := mutator(Load(file));
      if r.Some? then Sync(r.value, now) else file
  }

  /** The jobs that wrote, one after the other in the order they got the lock. */
  function Replay(init: Ledger, log: seq<Entry>): Ledger {
    if log == [] then init
    else
      var before := Replay(init, log[..|log| - 1]);
      var e := log[|log| - 1];
      if e.outcome == Wrote then Effect(e.job, before) else before
  }

  /** No lock file is older than this. */
  predicate NotOlder(w: World, limit: real) {
    w.lock.Some? ==> w.clock - w.lock.value.mtime <= limit
  }

  /** No lock file has outlived the limit at which others may break it. */
  predicate NotStale(w: World) {
    NotOlder(w, STALE_SEC)
  }

  /** What the process inside the lock has in hand agrees with the file it will replace. */
  ghost predicate InHand(pc: Pc, file: Ledger) {
    match pc
    case Loaded(job, mem) => job.Update? && mem == Load(file)
    case ToWrite(job, mem) => Sync(mem, job.now) == Effect(job, file)
    case TmpReady(job, tmp) => tmp == Effect(job, file)
    case _ => true
  }

  predicate Working(pc: Pc) {
    pc.Holding? || pc.Loaded? || pc.ToWrite? || pc.TmpReady?
  }

  ghost predicate Inv(w: World, init: Ledger) {
    && (forall p | 0 <= p < |w.procs| && Inside(w.procs[p]) :: w.lock.Some? && w.lock.value.owner == p)
    && (w.lock.Some? ==> w.lock.value.owner < |w.procs| && Inside(w.procs[w.lock.value.owner]))
    && (forall p | 0 <= p < |w.procs| && w.procs[p].Inspecting? :: w.procs[p].clockRead <= w.clock)
    && (forall p | 0 <= p < |w.procs| && w.procs[p].Observed? :: w.procs[p].age <= STALE_SEC)
    && w.file == Replay(init, w.log)
    && (forall p | 0 <= p < |w.procs| :: InHand(w.procs[p], w.file))
    && (forall p | 0 <= p < |w.procs| && Working(w.procs[p]) ::
          w.log != [] && w.log[|w.log| - 1] == Entry(p, w.procs[p].job, Running))
  }

  lemma {:induction false} ReplayAppend(init: Ledger, log: seq<Entry>, e: Entry)
    ensures Replay(init, log + [e])
         == if e.outcome == Wrote then Effect(e.job, Replay(init, log)) else Replay(init, log)
  {
    assert (log + [e])[..|log|] == log;
  }

  lemma {:induction false} ReplayFinish(init: Ledger, log: seq<Entry>, outcome: Outcome)
    requires log != [] && log[|log| - 1].outcome == Running
    ensures var r := Replay(init, log);
            Replay(init, Finish(log, outcome)) == if outcome == Wrote then Effect(log[|log| - 1].job, r) else r
  {
    assert Finish(log, outcome)[..|log| - 1] == log[..|log| - 1];
  }

  /** A step of one process that neither takes, frees nor uses up the lock. */
  lemma {:induction false} GotoKeeps(w: World, init: Ledger, p: nat, pc: Pc)
    requires Inv(w, init) && p < |w.procs|
    requires Inside(pc) == Inside(w.procs[p]) && InHand(pc, w.file)
    requires Working(pc) ==> Working(w.procs[p]) && pc.job == w.procs[p].job
    requires pc.Inspecting? ==> pc.clockRead <= w.clock
    requires pc.Observed? ==> pc.age <= STALE_SEC
    ensures Inv(Goto(w, p, pc), init)
  {
  }

  lemma {:induction false} CreateKeeps(w: World, init: Ledger, p: nat)
    requires Inv(w, init) && Enabled(w, Create(p))
    ensures Inv(Apply(w, Create(p)), init)
  {
    ReplayAppend(init, w.log, Entry(p, w.procs[p].job, Running));
  }

  /** The process inside ends its acquisition; nobody else is working. */
  lemma {:induction false} FinishKeeps(w: World, init: Ledger, p: nat, outcome: Outcome, file: Ledger)
    requires Inv(w, init) && p < |w.procs| && Working(w.procs[p])
    requires file == if outcome == Wrote then Effect(w.procs[p].job, w.file) else w.file
    ensures Inv(Goto(w, p, Releasing).(file := file, log := Finish(w.log, outcome)), init)
  {
    ReplayFinish(init, w.log, outcome);
    var w' := Goto(w, p, Releasing).(file := file, log := Finish(w.log, outcome));
    forall q | 0 <= q < |w'.procs|
      ensures !Working(w'.procs[q])
    {
      assert w.lock.value.owner == p;
      if q != p && Inside(w.procs[q]) {
        assert false;
      }
    }
  }

  lemma {:induction false} UnlinkKeeps(w: World, init: Ledger, p: nat)
    requires Inv(w, init) && Enabled(w, Unlink(p))
    ensures Inv(Apply(w, Unlink(p)), init)
  {
    forall q | 0 <= q < |w.procs| && q != p
      ensures !Inside(w.procs[q])
    {
      assert w.lock.value.owner == p;
    }
  }

  /** Steps of a process that waits for the lock. */
  lemma {:induction false} WaitingKeeps(w: World, a: Action, init: Ledger)
    requires Inv(w, init) && Enabled(w, a) && NotStale(w)
    requires a.Begin? || a.Create? || a.Busy? || a.Stat? || a.Decide? || a.GiveUp?
    ensures Inv(Apply(w, a), init)
  {
    hide Load, Sync, Replay, Effect;
    var pc := w.procs[a.p];
    match a {
      case Begin(p, job) => GotoKeeps(w, init, p, Trying(job, w.clock));
      case Create(p) => CreateKeeps(w, init, p);
      case Busy(p) => GotoKeeps(w, init, p, Inspecting(pc.job, pc.started, w.clock));
      case Stat(p) =>
        if w.lock.Some? {
          GotoKeeps(w, init, p, Observed(pc.job, pc.started, pc.clockRead - w.lock.value.mtime));
        } else {
          GotoKeeps(w, init, p, Trying(pc.job, pc.started));
        }
      case Decide(p) => GotoKeeps(w, init, p, Trying(pc.job, pc.started));
      case GiveUp(p) => GotoKeeps(w, init, p, Idle);
    }
  }

  /** Steps of the process inside it. */
  lemma {:induction false} InsideKeeps(w: World, a: Action, init: Ledger)
    requires Inv(w, init) && Enabled(w, a)
    requires a.LoadFile? || a.Mutate? || a.WriteTmp? || a.WriteFails? || a.Replace? || a.CheckExists? || a.Unlink?
    ensures Inv(Apply(w, a), init)
  {
    hide Load, Sync, Replay;
    var pc := w.procs[a.p];
    match a {
      case LoadFile(p) =>
        GotoKeeps(w, init, p, if pc.job.Update? then Loaded(pc.job, Load(w.file)) else ToWrite(pc.job, pc.job.state));
      case Mutate(p) =>
        var r := pc.job.mutator(pc.mem);
        if r.Some? {
          GotoKeeps(w, init, p, ToWrite(pc.job, r.value));
        } else {
          FinishKeeps(w, init, p, Aborted, w.file);
        }
      case WriteTmp(p) => GotoKeeps(w, init, p, TmpReady(pc.job, Sync(pc.mem, pc.job.now)));
      case WriteFails(p) => FinishKeeps(w, init, p, Aborted, w.file);
      case Replace(p) => FinishKeeps(w, init, p, Wrote, pc.tmp);
      case CheckExists(p) => GotoKeeps(w, init, p, Unlinking);
      case Unlink(p) => UnlinkKeeps(w, init, p);
    }
  }

  lemma {:induction false} StepKeeps(w: World, a: Action, init: Ledger)
    requires Inv(w, init) && Enabled(w, a) && NotStale(w)
    ensures Inv(Apply(w, a), init)
  {
    if a.Begin? || a.Create? || a.Busy? || a.Stat? || a.Decide? || a.GiveUp? {
      hide Inv, NotStale, Apply;
      WaitingKeeps(w, a, init);
    } else if !a.Tick? && !a.Peek? {
      hide Inv, NotStale, Apply;
      InsideKeeps(w, a, init);
    }
  }

  // ---- Runs ----

  function After(w: World, actions: seq<Action>, n: nat): World
    requires n <= |actions| && Runs(w, actions, n)
    decreases n, 1
  {
    if n == 0 then w else Apply(After(w, actions, n - 1), actions[n - 1])
  }

  /** The first n actions can happen one after the other. */
  predicate Runs(w: World, actions: seq<Action>, n: nat)
    requires n <= |actions|
    decreases n, 0
  {
    n == 0 || (Runs(w, actions, n - 1) && Enabled(After(w, actions, n - 1), actions[n - 1]))
  }

  /** Before each action no lock file had grown stale. */
  predicate NeverStale(w: World, actions: seq<Action>, n: nat)
    requires n <= |actions| && Runs(w, actions, n)
  {
    n == 0 || (NeverStale(w, actions, n - 1) && NotStale(After(w, actions, n - 1)))
  }

  /** Any number of processes, none of them started, and no lock file. */
  function Initial(count: nat, file: Ledger, clock: real): World {
    World(clock, None, file, seq(count, i => Idle), [], [])
  }

  lemma {:induction false} InvAlways(count: nat, file: Ledger, clock: real, actions: seq<Action>, n: nat)
    requires n <= |actions| && Runs(Initial(count, file, clock), actions, n)
    requires NeverStale(Initial(count, file, clock), actions, n)
    ensures Inv(After(Initial(count, file, clock), actions, n), file)
  {
    if n > 0 {
      InvAlways(count, file, clock, actions, n - 1);
      StepKeeps(After(Initial(count, file, clock), actions, n - 1), actions[n - 1], file);
    }
  }

  lemma {:induction false} OneInside(w: World, init: Ledger, p: nat, q: nat)
    requires Inv(w, init) && p < |w.procs| && q < |w.procs|
    ensures (Inside(w.procs[p]) && Inside(w.procs[q]) ==> p == q) && w.file == Replay(init, w.log)
  {
    hide InHand, Working, Replay;
  }

  // ---- Readers ----

  /** How many acquisitions are over. */
  function Over(log: seq<Entry>): (k: nat)
    ensures k <= |log|
  {
    if log != [] && log[|log| - 1].outcome == Running then |log| - 1 else |log|
  }

  /** The j-th read returned what the file held after the first at[j] acquisitions. */
  ghost predicate ReadAt(seen: seq<Ledger>, init: Ledger, log: seq<Entry>, at: seq<nat>) {
    && |at| == |seen|
    && (forall j | 0 <= j < |at| :: at[j] <= Over(log) && seen[j] == Load(Replay(init, log[..at[j]])))
    && (forall i, j | 0 <= i < j < |at| :: at[i] <= at[j])
  }

  /** Every read returned a state some save completed, and none an older one than a read before. */
  ghost predicate ReadInOrder(seen: seq<Ledger>, init: Ledger, log: seq<Entry>) {
    exists at: seq<nat> :: ReadAt(seen, init, log, at)
  }

  /** What is over stays as it is when the log goes on. */
  lemma {:induction false} LaterLog(seen: seq<Ledger>, init: Ledger, log: seq<Entry>, log': seq<Entry>)
    requires ReadInOrder(seen, init, log)
    requires Over(log) <= Over(log') && log[..Over(log)] == log'[..Over(log)]
    ensures ReadInOrder(seen, init, log')
  {
    hide Replay, Load;
    var at: seq<nat> :| ReadAt(seen, init, log, at);
    forall j | 0 <= j < |at|
      ensures at[j] <= Over(log') && seen[j] == Load(Replay(init, log'[..at[j]]))
    {
      var n := Over(log);
      assert log[..at[j]] == log[..n][..at[j]] == log'[..n][..at[j]] == log'[..at[j]];
    }
    assert ReadAt(seen, init, log', at);
  }

  lemma {:induction false} ReplayOver(init: Ledger, log: seq<Entry>)
    ensures Replay(init, log[..Over(log)]) == Replay(init, log)
  {
    assert log[..|log|] == log;
  }

  lemma {:induction false} OneMoreRead(seen: seq<Ledger>, init: Ledger, log: seq<Entry>)
    requires ReadInOrder(seen, init, log)
    ensures ReadInOrder(seen + [Load(Replay(init, log))], init, log)
  {
    hide Replay, Load, Over;
    var at: seq<nat> :| ReadAt(seen, init, log, at);
    ReplayOver(init, log);
    assert ReadAt(seen + [Load(Replay(init, log))], init, log, at + [Over(log)]);
  }

  /** What an action does to the log and the reads. */
  lemma {:induction false} LogStep(w: World, a: Action, init: Ledger)
    requires Inv(w, init) && Enabled(w, a)
    ensures var w' := Apply(w, a);
            && w'.seen == (if a.Peek? then w.seen + [Load(w.file)] else w.seen)
            && Over(w.log) <= Over(w'.log) && w.log[..Over(w.log)] == w'.log[..Over(w.log)]
            && (a.Peek? ==> w'.log == w.log)
  {
    hide Load, Sync, Replay, Effect;
    if !a.Tick? && !a.Peek? {
      var pc := w.procs[a.p];
      if Working(pc) {
        assert w.log != [] && w.log[|w.log| - 1] == Entry(a.p, pc.job, Running);
      }
    }
  }

  lemma {:induction false} ReadAlways(count: nat, file: Ledger, clock: real, actions: seq<Action>, n: nat)
    requires n <= |actions| && Runs(Initial(count, file, clock), actions, n)
    requires NeverStale(Initial(count, file, clock), actions, n)
    ensures var w := After(Initial(count, file, clock), actions, n); ReadInOrder(w.seen, file, w.log)
  {
    hide ReadInOrder, Inv, Apply, Enabled, Over, NotStale;
    if n == 0 {
      NothingRead(file);
    } else {
      ReadAlways(count, file, clock, actions, n - 1);
      InvAlways(count, file, clock, actions, n - 1);
      var w := After(Initial(count, file, clock), actions, n - 1);
      LogStep(w, actions[n - 1], file);
      if actions[n - 1].Peek? {
        FileIsReplay(w, file);
        OneMoreRead(w.seen, file, w.log);
      } else {
        LaterLog(w.seen, file, w.log, Apply(w, actions[n - 1]).log);
      }
    }
  }

  lemma {:induction false} FileIsReplay(w: World, init: Ledger)
    requires Inv(w, init)
    ensures w.file == Replay(init, w.log)
  {
    hide Replay, InHand;
  }

  lemma {:induction false} NothingRead(init: Ledger)
    ensures ReadInOrder([], init, [])
  {
    assert ReadAt([], init, [], []);
  }

  /** In every interleaving in which no lock file outlives the limit: at most one process is
      inside the lock, and the file is the serial composition, in the order the lock was
      acquired, of exactly the jobs that completed their write; and unlocked readers see only
      states that some save completed (or the one at the start), in that order. */
  lemma {:induction false} SerialAndExclusive(count: nat, file: Ledger, clock: real, actions: seq<Action>, n: nat,
                                              p: nat, q: nat)
    requires n <= |actions| && Runs(Initial(count, file, clock), actions, n)
    requires NeverStale(Initial(count, file, clock), actions, n)
    requires p < count && q < count
    ensures var w := After(Initial(count, file, clock), actions, n);
            && |w.procs| == count
            && (Inside(w.procs[p]) && Inside(w.procs[q]) ==> p == q)
            && w.file == Replay(file, w.log)
            && ReadInOrder(w.seen, file, w.log)
  {
    hide After, Inv, NeverStale, ReadInOrder;
    InvAlways(count, file, clock, actions, n);
    SameCount(count, file, clock, actions, n);
    ReadAlways(count, file, clock, actions, n);
    OneInside(After(Initial(count, file, clock), actions, n), file, p, q);
  }

  lemma {:induction false} SameCount(count: nat, file: Ledger, clock: real, actions: seq<Action>, n: nat)
    requires n <= |actions| && Runs(Initial(count, file, clock), actions, n)
    ensures |After(Initial(count, file, clock), actions, n).procs| == count
  {
    if n > 0 {
      SameCount(count, file, clock, actions, n - 1);
    }
  }

  /** Entry k of the log wrote, and none after it did. */
  predicate LastWrite(log: seq<Entry>, k: nat) {
    k < |log| && log[k].outcome == Wrote && forall i | k < i < |log| :: log[i].outcome != Wrote
  }

  lemma {:induction false} ReplayFromWrite(init: Ledger, log: seq<Entry>, k: nat)
    requires LastWrite(log, k)
    ensures Replay(init, log) == Effect(log[k].job, Replay(init, log[..k]))
  {
    hide Effect;
    if k < |log| - 1 {
      ReplayFromWrite(init, log[..|log| - 1], k);
      assert log[..|log| - 1][..k] == log[..k];
    }
  }

  /** save_state composes too, but what it writes does not depend on the file: in every such
      interleaving, once a save is the last to have written, the file is the state it was given,
      and an update that got the lock between that state's load and its save leaves no trace. */
  lemma {:induction false} SaveForgets(count: nat, file: Ledger, clock: real, actions: seq<Action>, n: nat, k: nat)
    requires n <= |actions| && Runs(Initial(count, file, clock), actions, n)
    requires NeverStale(Initial(count, file, clock), actions, n)
    requires var log := After(Initial(count, file, clock), actions, n).log; LastWrite(log, k) && log[k].job.Save?
    ensures var w := After(Initial(count, file, clock), actions, n);
            w.file == Sync(w.log[k].job.state, w.log[k].job.now)
  {
    hide After, Inv, NeverStale, LastWrite, Replay;
    var w := After(Initial(count, file, clock), actions, n);
    InvAlways(count, file, clock, actions, n);
    FileIsReplay(w, file);
    ReplayFromWrite(file, w.log, k);
  }

  // ---- How long the lock may be held ----

  predicate NeverOlder(w: World, actions: seq<Action>, limit: real, n: nat)
    requires n <= |actions| && Runs(w, actions, n)
  {
    n == 0 || (NeverOlder(w, actions, limit, n - 1) && NotOlder(After(w, actions, n - 1), limit))
  }

  /** Wherever no lock file gets older than limit, at most one process is inside. */
  ghost predicate ExclusiveUpTo(limit: real) {
    forall count: nat, file: Ledger, clock: real, actions: seq<Action>, n: nat, p: nat, q: nat |
      && n <= |actions| && Runs(Initial(count, file, clock), actions, n)
      && NeverOlder(Initial(count, file, clock), actions, limit, n)
      && p < count && q < count && |After(Initial(count, file, clock), actions, n).procs| == count
      && Inside(After(Initial(count, file, clock), actions, n).procs[p])
      && Inside(After(Initial(count, file, clock), actions, n).procs[q]) ::
      p == q
  }

  lemma {:induction false} YoungIsNotStale(w: World, actions: seq<Action>, limit: real, n: nat)
    requires n <= |actions| && Runs(w, actions, n) && limit <= STALE_SEC && NeverOlder(w, actions, limit, n)
    ensures NeverStale(w, actions, n)
  {
    hide Apply, Enabled;
    if n > 0 {
      YoungIsNotStale(w, actions, limit, n - 1);
    }
  }

  function Overtaking(job: Job, held: real): seq<Action> {
    [Begin(0, job), Create(0), Tick(held), Begin(1, job), Busy(1), Stat(1), Decide(1), Create(1)]
  }

  /** One process took the lock and kept it for this long. */
  lemma {:induction false} LongHold(file: Ledger, job: Job, held: real)
    requires held >= 0.0
    ensures var w := Initial(2, file, 0.0); var actions := Overtaking(job, held);
            && Runs(w, actions, 3) && NeverOlder(w, actions, held, 3)
            && After(w, actions, 3)
               == World(held, Some(LockFile(0, 0.0)), file, [Holding(job), Idle], [Entry(0, job, Running)], [])
  {
    hide Load, Sync;
    var w, actions := Initial(2, file, 0.0), Overtaking(job, held);
    assert Runs(w, actions, 0) && After(w, actions, 0) == w;
    assert NeverOlder(w, actions, held, 0);
    assert Runs(w, actions, 1) && After(w, actions, 1).procs == [Trying(job, 0.0), Idle];
    assert NeverOlder(w, actions, held, 1) && After(w, actions, 1).lock == None;
    assert Runs(w, actions, 2) && After(w, actions, 2).procs == [Holding(job), Idle];
    assert NeverOlder(w, actions, held, 2) && After(w, actions, 2).lock == Some(LockFile(0, 0.0));
  }

  /** Once a holder outlives the age limit, a second process may break the lock and be inside
      together with the first. */
  lemma {:induction false} StaleLockAdmitsTwo(file: Ledger, job: Job, held: real) returns (actions: seq<Action>)
    requires held > STALE_SEC
    ensures Runs(Initial(2, file, 0.0), actions, |actions|)
    ensures NeverOlder(Initial(2, file, 0.0), actions, held, |actions|)
    ensures var w := After(Initial(2, file, 0.0), actions, |actions|);
            |w.procs| == 2 && Inside(w.procs[0]) && Inside(w.procs[1])
  {
    hide Load, Sync;
    LongHold(file, job, held);
    actions := Overtaking(job, held);
    var w := Initial(2, file, 0.0);
    assert Runs(w, actions, 4) && After(w, actions, 4).procs == [Holding(job), Trying(job, held)];
    assert Runs(w, actions, 5) && After(w, actions, 5).procs == [Holding(job), Inspecting(job, held, held)];
    assert Runs(w, actions, 6) && After(w, actions, 6).procs == [Holding(job), Observed(job, held, held)];
    assert NeverOlder(w, actions, held, 4) && NeverOlder(w, actions, held, 5) && NeverOlder(w, actions, held, 6);
    assert Runs(w, actions, 7) && After(w, actions, 7).procs == [Holding(job), Trying(job, held)];
    assert NeverOlder(w, actions, held, 7);
    assert Runs(w, actions, 8) && After(w, actions, 8).procs == [Holding(job), Holding(job)];
  }

  /** The age limit is exactly what exclusion rests on: it holds in every run whose lock files get
      no older than a given age if and only if that age is at most stale_sec. */
  lemma {:induction false} ExclusiveIff(limit: real)
    ensures ExclusiveUpTo(limit) <==> limit <= STALE_SEC
  {
    hide Runs, After, NeverOlder, NeverStale, ReadInOrder, Inside;
    if limit <= STALE_SEC {
      forall count: nat, file: Ledger, clock: real, actions: seq<Action>, n: nat, p: nat, q: nat |
        && n <= |actions| && Runs(Initial(count, file, clock), actions, n)
        && NeverOlder(Initial(count, file, clock), actions, limit, n)
        && p < count && q < count && |After(Initial(count, file, clock), actions, n).procs| == count
        && Inside(After(Initial(count, file, clock), actions, n).procs[p])
        && Inside(After(Initial(count, file, clock), actions, n).procs[q])
        ensures p == q
      {
        YoungIsNotStale(Initial(count, file, clock), actions, limit, n);
        SerialAndExclusive(count, file, clock, actions, n, p, q);
      }
    } else if ExclusiveUpTo(limit) {
      var actions := StaleLockAdmitsTwo(EMPTY_LEDGER, Save(EMPTY_LEDGER, ""), limit);
      assert false;
    }
  }
}
