/** The supervisor's pending queue (supervisor/queue.py): priorities, front insertion by
    negative sequence numbers, and the snapshot that carries it over a restart. */
module TaskQueue {
  import opened Options
  import Q = Sequences
  import opened Text

  /** An integer entry of a task dictionary: absent, present as None, or a number. */
  datatype Field = Missing | Null | Int(n: int)

  /** The entries of a task that only travel along and that a snapshot keeps. The last one is not
      the program's: it says which operation of a run brought the task in, so that a task can be
      followed through retries, crashes and restarts; nothing ever looks at it. */
  datatype Payload = Payload(text: Option<string>, depth: Option<int>, description: Option<string>,
                             context: Option<string>, parent: Option<string>, reviewReason: Option<string>,
                             reviewSource: Option<string>, origin: nat)

  /** id "" and chat None or 0 stand for what Python counts as absent. */
  datatype Task = Task(id: string, kind: string, chat: Option<int>, priority: Field, attempt: Field, payload: Payload,
                       seqNo: Field, queuedAt: string, retryFrom: Option<string>, other: map<string, string>)

  datatype Queue = Queue(pending: seq<Task>, counter: int)

  function Lower(s: string): string {
    seq(|s|, i requires 0 <= i < |s| => if 'A' <= s[i] <= 'Z' then s[i] - 'A' + 'a' else s[i])
  }

  /** _task_priority */
  function TaskPriority(kind: string): int {
    var t := Lower(Strip(kind));
    if t == "task" || t == "review" || t == "deep_self_review" then 0
    else if t == "evolution" then 1
    else 2
  }

  function Pr(t: Task): int {
    if t.priority.Int? then t.priority.n else TaskPriority(t.kind)
  }

  function Seq(t: Task): int {
    if t.seqNo.Int? then t.seqNo.n else 0
  }

  /** The order of _queue_sort_key. */
  predicate KeyLe(a: Task, b: Task) {
    Pr(a) < Pr(b) || (Pr(a) == Pr(b) && Seq(a) <= Seq(b))
  }

  // ---- sort_pending ----

  /** Places x behind everything that does not sort after it. */
  function Insert(s: seq<Task>, x: Task): (r: seq<Task>)
    ensures |r| == |s| + 1
  {
    if s == [] || KeyLe(s[|s| - 1], x) then s + [x]
    else Insert(s[..|s| - 1], x) + [s[|s| - 1]]
  }

  /** A stable sort, as Python's list.sort. */
  function StableSort(s: seq<Task>): (r: seq<Task>)
    ensures |r| == |s|
  {
    if s == [] then [] else Insert(StableSort(s[..|s| - 1]), s[|s| - 1])
  }

  predicate Sorted(s: seq<Task>) {
    forall i, j | 0 <= i < j < |s| :: KeyLe(s[i], s[j])
  }

  /** The elements with one sort key, in order. */
  function WithKey(s: seq<Task>, pr: int, n: int): seq<Task> {
    if s == [] then []
    else WithKey(s[..|s| - 1], pr, n) + if Pr(s[|s| - 1]) == pr && Seq(s[|s| - 1]) == n then [s[|s| - 1]] else []
  }

  lemma {:induction false} InsertKeeps(s: seq<Task>, x: Task)
    ensures multiset(Insert(s, x)) == multiset(s) + multiset{x}
  {
    if s != [] && !KeyLe(s[|s| - 1], x) {
      InsertKeeps(s[..|s| - 1], x);
      assert s == s[..|s| - 1] + [s[|s| - 1]];
    }
  }

  lemma {:induction false} InsertSorted(s: seq<Task>, x: Task)
    requires Sorted(s)
    ensures Sorted(Insert(s, x))
  {
    if s != [] && !KeyLe(s[|s| - 1], x) {
      var m := |s| - 1;
      var r := Insert(s[..m], x);
      InsertSorted(s[..m], x);
      InsertKeeps(s[..m], x);
      forall i | 0 <= i < |r|
        ensures KeyLe(r[i], s[m])
      {
        assert r[i] in multiset(r);
      }
    }
  }

  lemma {:induction false} WithKeyAppend(s: seq<Task>, x: Task, pr: int, n: int)
    ensures WithKey(s + [x], pr, n) == WithKey(s, pr, n) + if Pr(x) == pr && Seq(x) == n then [x] else []
  {
    assert (s + [x])[..|s|] == s;
  }

  lemma {:induction false} InsertStable(s: seq<Task>, x: Task, pr: int, n: int)
    ensures WithKey(Insert(s, x), pr, n) == WithKey(s + [x], pr, n)
  {
    if s != [] && !KeyLe(s[|s| - 1], x) {
      var init, last := s[..|s| - 1], s[|s| - 1];
      InsertStable(init, x, pr, n);
      WithKeyAppend(Insert(init, x), last, pr, n);
      WithKeyAppend(init, x, pr, n);
      WithKeyAppend(s, x, pr, n);
    }
  }

  /** sort_pending sorts, keeps every task, and keeps the order of tasks with equal keys. */
  lemma {:induction false} StableSortFacts(s: seq<Task>, pr: int, n: int)
    ensures Sorted(StableSort(s)) && multiset(StableSort(s)) == multiset(s)
    ensures WithKey(StableSort(s), pr, n) == WithKey(s, pr, n)
  {
    hide Insert, Sorted;
    if s == [] {
      EmptySorted();
    } else {
      var m := |s| - 1;
      var r := StableSort(s[..m]);
      StableSortFacts(s[..m], pr, n);
      InsertKeeps(r, s[m]);
      InsertSorted(r, s[m]);
      InsertStable(r, s[m], pr, n);
      WithKeyAppend(r, s[m], pr, n);
      assert s == s[..m] + [s[m]];
    }
  }

  /** What sort_pending promises: sorted, the same tasks, and equal keys in the order they had. */
  ghost predicate StablySorted(before: seq<Task>, after: seq<Task>) {
    && Sorted(after) && multiset(after) == multiset(before)
    && forall pr: int, n: int :: WithKey(after, pr, n) == WithKey(before, pr, n)
  }

  lemma {:induction false} SortsStably(s: seq<Task>)
    ensures StablySorted(s, StableSort(s))
  {
    hide Sorted, WithKey;
    StableSortFacts(s, 0, 0);
    forall pr: int, n: int
      ensures WithKey(StableSort(s), pr, n) == WithKey(s, pr, n)
    {
      StableSortFacts(s, pr, n);
    }
  }

  lemma {:induction false} WithKeyMember(s: seq<Task>, t: Task)
    ensures WithKey(s, Pr(t), Seq(t)) != [] <==> exists x | x in s :: Pr(x) == Pr(t) && Seq(x) == Seq(t)
  {
    if s != [] {
      var m := |s| - 1;
      WithKeyMember(s[..m], t);
      assert s[m] in s;
      assert forall x | x in s :: x in s[..m] || x == s[m];
      assert forall x | x in s[..m] :: x in s;
    }
  }

  lemma {:induction false} NotAbove(a: seq<Task>, b: seq<Task>)
    requires a != [] && b != [] && Sorted(a)
    requires forall pr: int, n: int :: WithKey(a, pr, n) == WithKey(b, pr, n)
    ensures KeyLe(b[|b| - 1], a[|a| - 1])
  {
    var y := b[|b| - 1];
    WithKeyMember(a, y);
    WithKeyMember(b, y);
    assert y in b;
    var x :| x in a && Pr(x) == Pr(y) && Seq(x) == Seq(y);
    var i :| 0 <= i < |a| && a[i] == x;
    assert i < |a| - 1 ==> KeyLe(a[i], a[|a| - 1]);
  }

  /** Nothing else keeps that promise. */
  lemma {:induction false} StableSortIsUnique(s: seq<Task>, a: seq<Task>, b: seq<Task>)
    requires StablySorted(s, a) && StablySorted(s, b)
    ensures a == b
  {
    hide WithKey, Sorted;
    assert |a| == |multiset(a)| == |multiset(b)| == |b|;
    SameByKeys(a, b);
  }

  lemma {:induction false} SameByKeys(a: seq<Task>, b: seq<Task>)
    requires Sorted(a) && Sorted(b) && |a| == |b|
    requires forall pr: int, n: int :: WithKey(a, pr, n) == WithKey(b, pr, n)
    ensures a == b
  {
    if a != [] {
      var m := |a| - 1;
      var x, y := a[m], b[m];
      NotAbove(a, b);
      NotAbove(b, a);
      Q.SplitLast(a);
      Q.SplitLast(b);
      WithKeyAppend(a[..m], x, Pr(x), Seq(x));
      WithKeyAppend(b[..m], y, Pr(x), Seq(x));
      LastOfEqual(WithKey(a[..m], Pr(x), Seq(x)), x, WithKey(b[..m], Pr(x), Seq(x)), y);
      forall pr: int, n: int
        ensures WithKey(a[..m], pr, n) == WithKey(b[..m], pr, n)
      {
        WithKeyAppend(a[..m], x, pr, n);
        WithKeyAppend(b[..m], y, pr, n);
        if Pr(x) == pr && Seq(x) == n {
          LastOfEqual(WithKey(a[..m], pr, n), x, WithKey(b[..m], pr, n), y);
        } else {
          Q.Nothing(WithKey(a[..m], pr, n));
          Q.Nothing(WithKey(b[..m], pr, n));
        }
      }
      SortedInit(a);
      SortedInit(b);
      SameByKeys(a[..m], b[..m]);
    }
  }

  lemma {:induction false} SortedInit(s: seq<Task>)
    requires Sorted(s) && s != []
    ensures Sorted(s[..|s| - 1])
  {
  }

  lemma {:induction false} LastOfEqual(u: seq<Task>, x: Task, v: seq<Task>, y: Task)
    requires u + [x] == v + [y]
    ensures u == v && x == y
  {
    assert (u + [x])[|u|] == x && (v + [y])[|v|] == y;
    Q.TakeOfAppend(u, [x], |u|);
    Q.TakeOfAppend(v, [y], |v|);
  }

  lemma {:induction false} EmptySorted()
    ensures Sorted([])
  {
  }

  lemma {:induction false} SortedIsFixed(s: seq<Task>)
    requires Sorted(s)
    ensures StableSort(s) == s
  {
    if s != [] {
      SortedIsFixed(s[..|s| - 1]);
    }
  }

  // ---- enqueue_task ----

  /** The task as it enters the queue. */
  function Prepared(t: Task, number: int, front: bool, now: string): Task {
    t.(priority := if t.priority.Missing? then Int(TaskPriority(t.kind)) else t.priority,
       attempt := if t.attempt.Missing? then Int(1) else t.attempt,
       seqNo := Int(if front then -number else number),
       queuedAt := now)
  }

  function Enqueue(q: Queue, t: Task, front: bool, now: string): Queue {
    Queue(StableSort(q.pending + [Prepared(t, q.counter + 1, front, now)]), q.counter + 1)
  }

  /** a comes strictly before b. */
  predicate Ahead(a: Task, b: Task) {
    Pr(a) < Pr(b) || (Pr(a) == Pr(b) && Seq(a) < Seq(b))
  }

  predicate InLine(pending: seq<Task>) {
    forall i, j | 0 <= i < j < |pending| :: Ahead(pending[i], pending[j])
  }

  /** The fields every enqueued task has, with a number the counter has reached. */
  predicate Numbered(t: Task, counter: int) {
    t.seqNo.Int? && -counter <= t.seqNo.n <= counter && !t.priority.Missing? && !t.attempt.Missing?
  }

  /** Reachable queues: strictly ordered, and no sequence number beyond the counter. */
  predicate Orderly(q: Queue) {
    && q.counter >= 0
    && (forall i | 0 <= i < |q.pending| :: Numbered(q.pending[i], q.counter))
    && InLine(q.pending)
  }

  /** Where a task of priority pr goes in a queue: a normal one behind its equals, a front
      one before them. Only priorities matter. */
  function Slot(pending: seq<Task>, pr: int, front: bool): (k: nat)
    ensures k <= |pending|
  {
    if pending == [] then 0
    else
      var p := Pr(pending[|pending| - 1]);
      if p < pr || (p == pr && !front) then |pending| else Slot(pending[..|pending| - 1], pr, front)
  }

  function Splice(s: seq<Task>, k: nat, x: Task): seq<Task>
    requires k <= |s|
  {
    s[..k] + [x] + s[k..]
  }

  lemma {:induction false} SpliceInit(s: seq<Task>, k: nat, x: Task)
    requires s != [] && k < |s|
    ensures Splice(s[..|s| - 1], k, x) + [s[|s| - 1]] == Splice(s, k, x)
  {
    var m := |s| - 1;
    assert s[..m][..k] == s[..k];
    assert s[..m][k..] + [s[m]] == s[k..];
    Q.Associate(s[..k] + [x], s[..m][k..], [s[m]]);
  }

  lemma {:induction false} InsertIsSplice(s: seq<Task>, x: Task, front: bool, bound: int)
    requires forall i | 0 <= i < |s| :: -bound <= Seq(s[i]) <= bound
    requires Seq(x) == if front then -bound - 1 else bound + 1
    requires bound >= 0
    ensures Insert(s, x) == Splice(s, Slot(s, Pr(x), front), x)
  {
    hide Pr, Seq;
    if s == [] {
      Q.Nothing([x]);
    } else {
      var m := |s| - 1;
      if KeyLe(s[m], x) {
        Q.TakeAll(s);
        Q.Nothing(s + [x]);
      } else {
        InsertIsSplice(s[..m], x, front, bound);
        SpliceInit(s, Slot(s[..m], Pr(x), front), x);
      }
    }
  }

  lemma {:induction false} SlotSeparates(s: seq<Task>, pr: int, front: bool)
    requires forall i, j | 0 <= i < j < |s| :: Pr(s[i]) <= Pr(s[j])
    ensures var k := Slot(s, pr, front);
            && (forall i | 0 <= i < k :: Pr(s[i]) < pr || (Pr(s[i]) == pr && !front))
            && (forall i | k <= i < |s| :: Pr(s[i]) > pr || (Pr(s[i]) == pr && front))
  {
    hide Pr;
    if s != [] {
      SlotSeparates(s[..|s| - 1], pr, front);
    }
  }

  lemma {:induction false} SpliceInLine(s: seq<Task>, k: nat, x: Task)
    requires InLine(s) && k <= |s|
    requires forall i | 0 <= i < k :: Ahead(s[i], x)
    requires forall i | k <= i < |s| :: Ahead(x, s[i])
    ensures InLine(Splice(s, k, x))
  {
    var r := Splice(s, k, x);
    forall i, j | 0 <= i < j < |r|
      ensures Ahead(r[i], r[j])
    {
      assert r[i] == if i < k then s[i] else if i == k then x else s[i - 1];
      assert r[j] == if j < k then s[j] else if j == k then x else s[j - 1];
    }
  }

  /** Enqueueing into a reachable queue: the new task goes to its slot, nothing else moves,
      and the queue stays orderly. */
  lemma {:induction false} EnqueueAtSlot(q: Queue, t: Task, front: bool, now: string)
    requires Orderly(q)
    ensures var x := Prepared(t, q.counter + 1, front, now);
            Enqueue(q, t, front, now) == Queue(Splice(q.pending, Slot(q.pending, Pr(t), front), x), q.counter + 1)
    ensures Orderly(Enqueue(q, t, front, now))
  {
    var x := Prepared(t, q.counter + 1, front, now);
    assert Pr(x) == Pr(t);
    SortOfAppend(q, x, front);
    NewTaskInLine(q, x, front);
  }

  lemma {:induction false} SortOfAppend(q: Queue, x: Task, front: bool)
    requires Orderly(q) && x.seqNo == Int(if front then -q.counter - 1 else q.counter + 1)
    ensures StableSort(q.pending + [x]) == Splice(q.pending, Slot(q.pending, Pr(x), front), x)
  {
    hide Insert, Slot;
    assert (q.pending + [x])[..|q.pending|] == q.pending;
    assert forall i | 0 <= i < |q.pending| :: Numbered(q.pending[i], q.counter) ==>
             -q.counter <= Seq(q.pending[i]) <= q.counter;
    LineIsSorted(q.pending);
    SortedIsFixed(q.pending);
    InsertIsSplice(q.pending, x, front, q.counter);
  }

  lemma {:induction false} LineIsSorted(s: seq<Task>)
    requires InLine(s)
    ensures Sorted(s)
  {
    forall i, j | 0 <= i < j < |s|
      ensures KeyLe(s[i], s[j])
    {
      assert Ahead(s[i], s[j]);
    }
  }

  lemma {:induction false} NewTaskInLine(q: Queue, x: Task, front: bool)
    requires Orderly(q) && x.seqNo == Int(if front then -q.counter - 1 else q.counter + 1)
    requires !x.priority.Missing? && !x.attempt.Missing?
    ensures Orderly(Queue(Splice(q.pending, Slot(q.pending, Pr(x), front), x), q.counter + 1))
  {
    var s := q.pending;
    var k := Slot(s, Pr(x), front);
    forall i, j | 0 <= i < j < |s|
      ensures Pr(s[i]) <= Pr(s[j])
    {
      assert Ahead(s[i], s[j]);
    }
    SlotSeparates(s, Pr(x), front);
    forall i | 0 <= i < |s|
      ensures if i < k then Ahead(s[i], x) else Ahead(x, s[i])
      ensures Numbered(s[i], q.counter + 1)
    {
      assert Numbered(s[i], q.counter);
    }
    SpliceInLine(s, k, x);
    var r := Splice(s, k, x);
    forall i | 0 <= i < |r|
      ensures Numbered(r[i], q.counter + 1)
    {
      assert r[i] == if i < k then s[i] else if i == k then x else s[i - 1];
    }
  }

  // ---- Snapshot and restore ----

  function NoMissing(f: Field): Field {
    if f.Missing? then Null else f
  }

  /** What the snapshot keeps of a task. */
  function Kept(t: Task): Task {
    Task(t.id, t.kind, t.chat, NoMissing(t.priority), NoMissing(t.attempt), t.payload, Missing, "", None, map[])
  }

  function Rows(pending: seq<Task>): (rows: seq<Task>)
    ensures |rows| == |pending| && forall i | 0 <= i < |pending| :: rows[i] == Kept(pending[i])
  {
    seq(|pending|, i requires 0 <= i < |pending| => Kept(pending[i]))
  }

  /** Rows without an id or a chat are skipped. */
  predicate Restorable(t: Task) {
    t.id != "" && t.chat.Some? && t.chat.value != 0
  }

  predicate AllRestorable(pending: seq<Task>) {
    forall i | 0 <= i < |pending| :: Restorable(pending[i])
  }

  function OnlyRestorable(rows: seq<Task>): seq<Task> {
    if rows == [] then []
    else OnlyRestorable(rows[..|rows| - 1]) + if Restorable(rows[|rows| - 1]) then [rows[|rows| - 1]] else []
  }

  /** The queue after re-enqueueing the rows one by one. */
  function Restore(q: Queue, rows: seq<Task>, now: string): Queue {
    if rows == [] then q
    else
      var q1 := Restore(q, rows[..|rows| - 1], now);
      if Restorable(rows[|rows| - 1]) then Enqueue(q1, rows[|rows| - 1], false, now) else q1
  }

  /** Two queues hold the same tasks in the same order, as far as a snapshot can tell. */
  predicate SameLine(a: seq<Task>, b: seq<Task>) {
    |a| == |b| && forall i | 0 <= i < |a| :: Kept(a[i]) == Kept(b[i])
  }

  lemma {:induction false} OnlyRestorableFrom(rows: seq<Task>)
    ensures forall t | t in OnlyRestorable(rows) :: t in rows
  {
    if rows != [] {
      OnlyRestorableFrom(rows[..|rows| - 1]);
      assert rows == rows[..|rows| - 1] + [rows[|rows| - 1]];
    }
  }

  lemma {:induction false} SlotAtEnd(s: seq<Task>, pr: int)
    requires forall i | 0 <= i < |s| :: Pr(s[i]) <= pr
    ensures Slot(s, pr, false) == |s|
  {
  }

  lemma {:induction false} PrOfKept(t: Task)
    ensures Pr(Kept(t)) == Pr(t)
  {
  }

  /** The rows of a sorted queue: already in snapshot form, priorities not decreasing. */
  predicate RowsInOrder(rows: seq<Task>) {
    && (forall i | 0 <= i < |rows| :: Kept(rows[i]) == rows[i])
    && (forall i, j | 0 <= i < j < |rows| :: Pr(rows[i]) <= Pr(rows[j]))
  }

  lemma {:induction false} LineBelow(pending: seq<Task>, rows: seq<Task>, last: Task)
    requires RowsInOrder(rows + [last]) && SameLine(pending, OnlyRestorable(rows))
    ensures forall i | 0 <= i < |pending| :: Pr(pending[i]) <= Pr(last)
  {
    var all := rows + [last];
    forall i | 0 <= i < |pending|
      ensures Pr(pending[i]) <= Pr(last)
    {
      OnlyRestorableFrom(rows);
      var r := OnlyRestorable(rows)[i];
      assert r in rows && Kept(pending[i]) == Kept(r);
      PrOfKept(pending[i]);
      PrOfKept(r);
      var j :| 0 <= j < |rows| && rows[j] == r;
      assert all[j] == r && all[|rows|] == last;
    }
  }

  lemma {:induction false} AppendToLine(a: seq<Task>, b: seq<Task>, x: Task, y: Task)
    requires SameLine(a, b) && Kept(x) == Kept(y)
    ensures SameLine(a + [x], b + [y])
  {
  }

  /** Restoring into an empty queue rebuilds the line of the restorable rows. */
  lemma {:induction false} RestoreRebuilds(counter: nat, rows: seq<Task>, now: string)
    requires RowsInOrder(rows)
    ensures var q := Restore(Queue([], counter), rows, now);
            Orderly(q) && SameLine(q.pending, OnlyRestorable(rows))
  {
    if rows != [] {
      var m := |rows| - 1;
      var last := rows[m];
      assert rows == rows[..m] + [last];
      RestoreRebuilds(counter, rows[..m], now);
      var q1 := Restore(Queue([], counter), rows[..m], now);
      if Restorable(last) {
        EnqueueAtSlot(q1, last, false, now);
        LineBelow(q1.pending, rows[..m], last);
        SlotAtEnd(q1.pending, Pr(last));
        var x := Prepared(last, q1.counter + 1, false, now);
        assert Splice(q1.pending, |q1.pending|, x) == q1.pending + [x];
        AppendToLine(q1.pending, OnlyRestorable(rows[..m]), x, last);
      }
    }
  }

  lemma {:induction false} NoneSkipped(rows: seq<Task>)
    requires AllRestorable(rows)
    ensures OnlyRestorable(rows) == rows
  {
    if rows != [] {
      NoneSkipped(rows[..|rows| - 1]);
      Q.SplitLast(rows);
    }
  }

  /** A snapshot taken from a reachable queue restores, in a new process, to the same line of
      tasks less those without id or chat; with none of those, to exactly the same line. */
  lemma {:induction false} RestoreFromSnapshot(q: Queue, counter: nat, now: string)
    requires Orderly(q)
    ensures var q' := Restore(Queue([], counter), Rows(q.pending), now);
            && Orderly(q') && SameLine(q'.pending, OnlyRestorable(Rows(q.pending)))
            && (AllRestorable(q.pending) ==> SameLine(q'.pending, q.pending))
  {
    var rows := Rows(q.pending);
    forall i, j | 0 <= i < j < |rows|
      ensures Pr(rows[i]) <= Pr(rows[j])
    {
      PrOfKept(q.pending[i]);
      PrOfKept(q.pending[j]);
      assert Ahead(q.pending[i], q.pending[j]);
    }
    RestoreRebuilds(counter, rows, now);
    if AllRestorable(q.pending) {
      NoneSkipped(rows);
    }
  }

  // ---- Whatever happens next ----

  /** What later happens to a pending queue: tasks come in, one leaves (assigned or
      cancelled), or all of one type are dropped. */
  datatype QueueOp = Enter(task: Task, front: bool, now: string) | Leave(at: nat) | DropKind(kind: string)

  function WithoutKind(s: seq<Task>, kind: string): (r: seq<Task>)
    ensures forall t :: t in r <==> t in s && t.kind != kind
  {
    if s == [] then []
    else WithoutKind(s[..|s| - 1], kind) + if s[|s| - 1].kind == kind then [] else [s[|s| - 1]]
  }

  function Do(q: Queue, op: QueueOp): Queue {
    match op
    case Enter(t, front, now) => Enqueue(q, t, front, now)
    case Leave(at) => if at < |q.pending| then q.(pending := q.pending[..at] + q.pending[at + 1..]) else q
    case DropKind(kind) => q.(pending := WithoutKind(q.pending, kind))
  }

  function DoAll(q: Queue, ops: seq<QueueOp>): Queue {
    if ops == [] then q else Do(DoAll(q, ops[..|ops| - 1]), ops[|ops| - 1])
  }

  lemma {:induction false} SlotByLine(a: seq<Task>, b: seq<Task>, pr: int, front: bool)
    requires SameLine(a, b)
    ensures Slot(a, pr, front) == Slot(b, pr, front)
  {
    if a != [] {
      var m := |a| - 1;
      PrOfKept(a[m]);
      PrOfKept(b[m]);
      SlotByLine(a[..m], b[..m], pr, front);
    }
  }

  lemma {:induction false} DropByLine(a: seq<Task>, b: seq<Task>, kind: string)
    requires SameLine(a, b)
    ensures SameLine(WithoutKind(a, kind), WithoutKind(b, kind))
  {
    if a != [] {
      var m := |a| - 1;
      DropByLine(a[..m], b[..m], kind);
      assert a[m].kind == Kept(a[m]).kind == Kept(b[m]).kind == b[m].kind;
      Q.Nothing(WithoutKind(a[..m], kind));
      Q.Nothing(WithoutKind(b[..m], kind));
      AppendToLine(WithoutKind(a[..m], kind), WithoutKind(b[..m], kind), a[m], b[m]);
    }
  }

  lemma {:induction false} SpliceByLine(a: seq<Task>, b: seq<Task>, k: nat, x: Task, y: Task)
    requires SameLine(a, b) && k <= |a| && Kept(x) == Kept(y)
    ensures SameLine(Splice(a, k, x), Splice(b, k, y))
  {
  }

  /** Removing tasks leaves a subsequence, and order is inherited. */
  lemma {:induction false} DropOrderly(pending: seq<Task>, counter: int, kind: string)
    requires Orderly(Queue(pending, counter))
    ensures Orderly(Queue(WithoutKind(pending, kind), counter))
  {
    if pending != [] {
      var m := |pending| - 1;
      DropOrderly(pending[..m], counter, kind);
      var r := WithoutKind(pending[..m], kind);
      forall i | 0 <= i < |r|
        ensures exists j | 0 <= j < m :: pending[j] == r[i]
      {
        assert r[i] in pending[..m];
      }
      if pending[m].kind != kind {
        AppendOrderly(pending[..m], r, pending[m], counter);
      }
    }
  }

  lemma {:induction false} AppendOrderly(init: seq<Task>, r: seq<Task>, last: Task, counter: int)
    requires Orderly(Queue(init + [last], counter)) && Orderly(Queue(r, counter))
    requires forall i | 0 <= i < |r| :: r[i] in init
    ensures Orderly(Queue(r + [last], counter))
  {
    var all := init + [last];
    assert all[|init|] == last;
    forall i | 0 <= i < |r|
      ensures Ahead(r[i], last)
    {
      var j :| 0 <= j < |init| && init[j] == r[i];
      assert all[j] == r[i];
    }
  }

  lemma {:induction false} LeaveOrderly(q: Queue, at: nat)
    requires Orderly(q)
    ensures Orderly(Do(q, Leave(at)))
  {
    var r := Do(q, Leave(at)).pending;
    if at < |q.pending| {
      forall i, j | 0 <= i < j < |r|
        ensures Ahead(r[i], r[j])
      {
        assert r[i] == q.pending[if i < at then i else i + 1] && r[j] == q.pending[if j < at then j else j + 1];
      }
    }
  }

  lemma {:induction false} LeaveKeepsLine(a: Queue, b: Queue, at: nat)
    requires Orderly(a) && Orderly(b) && SameLine(a.pending, b.pending)
    ensures Orderly(Do(a, Leave(at))) && Orderly(Do(b, Leave(at)))
            && SameLine(Do(a, Leave(at)).pending, Do(b, Leave(at)).pending)
  {
    LeaveOrderly(a, at);
    LeaveOrderly(b, at);
  }

  lemma {:induction false} DoKeepsLine(a: Queue, b: Queue, op: QueueOp)
    requires Orderly(a) && Orderly(b) && SameLine(a.pending, b.pending)
    ensures Orderly(Do(a, op)) && Orderly(Do(b, op)) && SameLine(Do(a, op).pending, Do(b, op).pending)
  {
    hide Enqueue, Slot, InLine, Numbered, Orderly;
    match op {
      case Enter(t, front, now) =>
        EnqueueAtSlot(a, t, front, now);
        EnqueueAtSlot(b, t, front, now);
        SlotByLine(a.pending, b.pending, Pr(t), front);
        SpliceByLine(a.pending, b.pending, Slot(a.pending, Pr(t), front),
                     Prepared(t, a.counter + 1, front, now), Prepared(t, b.counter + 1, front, now));
      case Leave(at) => LeaveKeepsLine(a, b, at);
      case DropKind(kind) =>
        DropOrderly(a.pending, a.counter, kind);
        DropOrderly(b.pending, b.counter, kind);
        DropByLine(a.pending, b.pending, kind);
    }
  }

  lemma {:induction false} DoAllKeepsLine(a: Queue, b: Queue, ops: seq<QueueOp>)
    requires Orderly(a) && Orderly(b) && SameLine(a.pending, b.pending)
    ensures Orderly(DoAll(a, ops)) && Orderly(DoAll(b, ops)) && SameLine(DoAll(a, ops).pending, DoAll(b, ops).pending)
  {
    if ops != [] {
      DoAllKeepsLine(a, b, ops[..|ops| - 1]);
      DoKeepsLine(DoAll(a, ops[..|ops| - 1]), DoAll(b, ops[..|ops| - 1]), ops[|ops| - 1]);
    }
  }
}
