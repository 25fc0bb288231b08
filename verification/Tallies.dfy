/** Adding up a weight over pending and running tasks: what each queue operation does to it. */
module Tallies {
  import opened TaskQueue
  import opened Supervisor

  function Total(s: seq<Task>, f: Task -> int): int {
    if s == [] then 0 else Total(s[..|s| - 1], f) + f(s[|s| - 1])
  }

  /** The weight of running tasks is that of the task a retry or a crash would bring back. */
  function TotalRunning(s: seq<Running>, f: Task -> int): int {
    if s == [] then 0 else TotalRunning(s[..|s| - 1], f) + f(s[|s| - 1].meta.task)
  }

  /** The weight ignores what the queue itself fills in. */
  ghost predicate Steady(f: Task -> int) {
    forall t: Task, number: int, front: bool, now: string {:trigger Prepared(t, number, front, now)} ::
          f(Prepared(t, number, front, now)) == f(t)
  }

  ghost predicate NonNegative(f: Task -> int) {
    forall t: Task {:trigger f(t)} :: f(t) >= 0
  }

  lemma {:induction false} TotalAppend(a: seq<Task>, b: seq<Task>, f: Task -> int)
    ensures Total(a + b, f) == Total(a, f) + Total(b, f)
  {
    if b == [] {
      assert a + b == a;
    } else {
      assert (a + b)[..|a + b| - 1] == a + b[..|b| - 1];
      TotalAppend(a, b[..|b| - 1], f);
    }
  }

  lemma {:induction false} TotalOne(t: Task, f: Task -> int)
    ensures Total([t], f) == f(t)
  {
    assert [t][..0] == [];
    assert Total([], f) == 0;
  }

  lemma {:induction false} TotalRemoved(s: seq<Task>, k: nat, f: Task -> int)
    requires k < |s|
    ensures Total(s[..k] + s[k + 1..], f) == Total(s, f) - f(s[k])
  {
    assert s == s[..k] + [s[k]] + s[k + 1..];
    TotalAppend(s[..k] + [s[k]], s[k + 1..], f);
    TotalAppend(s[..k], [s[k]], f);
    TotalOne(s[k], f);
    TotalAppend(s[..k], s[k + 1..], f);
  }

  lemma {:induction false} TotalInsert(s: seq<Task>, x: Task, f: Task -> int)
    ensures Total(Insert(s, x), f) == Total(s, f) + f(x)
  {
    if s != [] && !KeyLe(s[|s| - 1], x) {
      var m := |s| - 1;
      TotalInsert(s[..m], x, f);
      assert (Insert(s[..m], x) + [s[m]])[..m + 1] == Insert(s[..m], x);
    } else {
      assert (s + [x])[..|s|] == s;
    }
  }

  lemma {:induction false} TotalSort(s: seq<Task>, f: Task -> int)
    ensures Total(StableSort(s), f) == Total(s, f)
  {
    if s != [] {
      TotalSort(s[..|s| - 1], f);
      TotalInsert(StableSort(s[..|s| - 1]), s[|s| - 1], f);
    }
  }

  lemma {:induction false} TotalEnqueue(q: Queue, t: Task, front: bool, now: string, f: Task -> int)
    requires Steady(f)
    ensures Total(Enqueue(q, t, front, now).pending, f) == Total(q.pending, f) + f(t)
  {
    var x := Prepared(t, q.counter + 1, front, now);
    TotalSort(q.pending + [x], f);
    TotalAppend(q.pending, [x], f);
    TotalOne(x, f);
  }

  lemma {:induction false} TotalWithout(s: seq<Task>, kind: string, f: Task -> int)
    requires NonNegative(f)
    ensures 0 <= Total(WithoutKind(s, kind), f) <= Total(s, f)
  {
    if s != [] {
      var m := |s| - 1;
      TotalWithout(s[..m], kind, f);
      var r := WithoutKind(s[..m], kind);
      assert f(s[m]) >= 0;
      TotalAppend(r, [s[m]], f);
      TotalOne(s[m], f);
      assert r + [] == r;
    }
  }

  lemma {:induction false} TotalMember(s: seq<Task>, t: Task, f: Task -> int)
    requires NonNegative(f)
    ensures Total(s, f) >= 0
    ensures t in s ==> Total(s, f) >= f(t)
  {
    if s != [] {
      TotalMember(s[..|s| - 1], t, f);
      assert f(s[|s| - 1]) >= 0 && f(t) >= 0;
    }
  }

  lemma {:induction false} RunningAppend(a: seq<Running>, b: seq<Running>, f: Task -> int)
    ensures TotalRunning(a + b, f) == TotalRunning(a, f) + TotalRunning(b, f)
  {
    if b == [] {
      assert a + b == a;
    } else {
      assert (a + b)[..|a + b| - 1] == a + b[..|b| - 1];
      RunningAppend(a, b[..|b| - 1], f);
    }
  }

  lemma {:induction false} RunningOne(r: Running, f: Task -> int)
    ensures TotalRunning([r], f) == f(r.meta.task)
  {
    assert [r][..0] == [];
    assert TotalRunning([], f) == 0;
  }

  lemma {:induction false} RunningSplit(s: seq<Running>, k: nat, r: Running, f: Task -> int)
    requires k < |s|
    ensures TotalRunning(s[k := r], f) == TotalRunning(s, f) - f(s[k].meta.task) + f(r.meta.task)
    ensures TotalRunning(s[..k] + s[k + 1..], f) == TotalRunning(s, f) - f(s[k].meta.task)
  {
    assert s == s[..k] + [s[k]] + s[k + 1..];
    assert s[k := r] == s[..k] + [r] + s[k + 1..];
    RunningAppend(s[..k] + [s[k]], s[k + 1..], f);
    RunningAppend(s[..k] + [r], s[k + 1..], f);
    RunningAppend(s[..k], [s[k]], f);
    RunningAppend(s[..k], [r], f);
    RunningAppend(s[..k], s[k + 1..], f);
    RunningOne(s[k], f);
    RunningOne(r, f);
  }

  lemma {:induction false} RunningNonNegative(s: seq<Running>, f: Task -> int)
    requires NonNegative(f)
    ensures TotalRunning(s, f) >= 0
    ensures forall r | r in s :: TotalRunning(s, f) >= f(r.meta.task)
  {
    if s != [] {
      var m := |s| - 1;
      RunningNonNegative(s[..m], f);
      assert f(s[m].meta.task) >= 0;
      forall r | r in s
        ensures TotalRunning(s, f) >= f(r.meta.task)
      {
        assert r in s[..m] || r == s[m];
      }
    }
  }

  lemma {:induction false} TotalPut(s: seq<Running>, id: string, meta: Meta, f: Task -> int)
    requires NonNegative(f)
    ensures TotalRunning(Put(s, id, meta), f) <= TotalRunning(s, f) + f(meta.task)
    ensures (forall r | r in s :: r.id != id) ==> TotalRunning(Put(s, id, meta), f) == TotalRunning(s, f) + f(meta.task)
  {
    var k := IndexOfId(s, id);
    var r := Running(id, meta);
    if k < |s| {
      RunningSplit(s, k, r, f);
      assert f(s[k].meta.task) >= 0;
    } else {
      RunningAppend(s, [r], f);
      RunningOne(r, f);
    }
  }

  lemma {:induction false} TotalPop(s: seq<Running>, id: string, f: Task -> int)
    requires NonNegative(f)
    ensures var k := IndexOfId(s, id);
            TotalRunning(Pop(s, id), f) == TotalRunning(s, f) - (if k < |s| then f(s[k].meta.task) else 0)
    ensures TotalRunning(Pop(s, id), f) <= TotalRunning(s, f)
  {
    var k := IndexOfId(s, id);
    if k < |s| {
      RunningSplit(s, k, s[k], f);
      assert f(s[k].meta.task) >= 0;
    }
  }

  lemma {:induction false} TotalPass(s: seq<Running>, now: real, c: Config, f: Task -> int)
    ensures TotalRunning(Survivors(s, now, c), f) + TotalRunning(Killed(s, now, c), f) == TotalRunning(s, f)
  {
    if s != [] {
      var m := |s| - 1;
      TotalPass(s[..m], now, c, f);
      var r := s[m];
      var kept := Running(r.id, Noticed(r.meta, now, c));
      RunningAppend(Survivors(s[..m], now, c), [kept], f);
      RunningAppend(Killed(s[..m], now, c), [r], f);
      RunningOne(kept, f);
      RunningOne(r, f);
      assert Survivors(s[..m], now, c) + [] == Survivors(s[..m], now, c);
      assert Killed(s[..m], now, c) + [] == Killed(s[..m], now, c);
    }
  }

  lemma {:induction false} TotalRestore(q: Queue, rows: seq<Task>, now: string, f: Task -> int)
    requires Steady(f) && NonNegative(f)
    ensures Total(Restore(q, rows, now).pending, f) <= Total(q.pending, f) + Total(rows, f)
  {
    if rows != [] {
      var m := |rows| - 1;
      TotalRestore(q, rows[..m], now, f);
      assert f(rows[m]) >= 0;
      TotalEnqueue(Restore(q, rows[..m], now), rows[m], false, now, f);
    }
  }
}
