/** Small facts about sequences, each proved once where nothing else is in the way, and list
    comprehensions with a condition. */
module Sequences {
  lemma {:induction false} Associate<T>(a: seq<T>, b: seq<T>, c: seq<T>)
    ensures a + b + c == a + (b + c)
  {
  }

  lemma {:induction false} Nothing<T>(a: seq<T>)
    ensures a + [] == a && [] + a == a
  {
  }

  lemma {:induction false} Cons<T>(x: T, a: seq<T>)
    ensures ([x] + a)[1..] == a && ([x] + a)[0] == x
  {
  }

  /** The last element of a concatenation, and what is before it. */
  lemma {:induction false} AppendLast<T>(a: seq<T>, b: seq<T>)
    requires b != []
    ensures (a + b)[|a + b| - 1] == b[|b| - 1] && (a + b)[..|a + b| - 1] == a + b[..|b| - 1]
  {
  }

  lemma {:induction false} AppendFirst<T>(a: seq<T>, b: seq<T>)
    requires a != []
    ensures (a + b)[0] == a[0] && (a + b)[1..] == a[1..] + b
  {
  }

  lemma {:induction false} FirstIn<T>(s: seq<T>)
    ensures s != [] ==> s[0] in s
  {
  }

  lemma {:induction false} SplitLast<T>(s: seq<T>)
    requires s != []
    ensures s == s[..|s| - 1] + [s[|s| - 1]]
  {
  }

  lemma {:induction false} SplitFirst<T>(s: seq<T>)
    requires s != []
    ensures s == [s[0]] + s[1..]
  {
  }

  lemma {:induction false} TakeStep<T>(s: seq<T>, i: nat)
    requires i < |s|
    ensures s[..i + 1] == s[..i] + [s[i]] && s[..i + 1][..i] == s[..i]
  {
  }

  lemma {:induction false} TakeAll<T>(s: seq<T>)
    ensures s[..|s|] == s && s[0..] == s
  {
  }

  lemma {:induction false} DropStep<T>(s: seq<T>, i: nat)
    requires i < |s|
    ensures s[i..][0] == s[i] && s[i..][1..] == s[i + 1..]
  {
  }

  lemma {:induction false} SliceStep<T>(s: seq<T>, i: nat, j: nat)
    requires i < j <= |s|
    ensures [s[i]] + s[i + 1..j] == s[i..j]
  {
  }

  lemma {:induction false} TakeOfAppend<T>(a: seq<T>, b: seq<T>, i: nat)
    requires i <= |a|
    ensures (a + b)[..i] == a[..i]
  {
  }

  // ---- Selections, as a list comprehension with a condition makes them ----

  /** kept holds exactly the elements of all that keep selects, in their order: kept[j] stood at at[j]. */
  ghost predicate PlacedAt<T>(all: seq<T>, kept: seq<T>, keep: T -> bool, at: seq<nat>) {
    && |at| == |kept|
    && (forall j | 0 <= j < |at| :: at[j] < |all| && kept[j] == all[at[j]] && keep(all[at[j]]))
    && (forall j, k | 0 <= j < k < |at| :: at[j] < at[k])
    && (forall i: nat {:trigger i in at} | i < |all| && keep(all[i]) :: i in at)
  }

  ghost predicate Selects<T>(all: seq<T>, kept: seq<T>, keep: T -> bool) {
    exists at: seq<nat> :: PlacedAt(all, kept, keep, at)
  }

  lemma {:induction false} SelectsNone<T>(keep: T -> bool)
    ensures Selects([], [], keep)
  {
    assert PlacedAt([], [], keep, []);
  }

  lemma {:induction false} PlacedMore<T>(all: seq<T>, kept: seq<T>, keep: T -> bool, at: seq<nat>, x: T)
    requires PlacedAt(all, kept, keep, at) && keep(x)
    ensures PlacedAt(all + [x], kept + [x], keep, at + [|all|])
  {
    var more, at' := all + [x], at + [|all|];
    assert at'[|at|] == |all|;
    forall i: nat | i < |more| && keep(more[i])
      ensures i in at'
    {
      if i < |all| {
        assert i in at;
        var j :| 0 <= j < |at| && at[j] == i;
        assert at'[j] == i;
      }
    }
  }

  lemma {:induction false} PlacedSame<T>(all: seq<T>, kept: seq<T>, keep: T -> bool, at: seq<nat>, x: T)
    requires PlacedAt(all, kept, keep, at) && !keep(x)
    ensures PlacedAt(all + [x], kept, keep, at)
  {
    var more := all + [x];
    forall i: nat | i < |more| && keep(more[i])
      ensures i in at
    {
      if i < |all| {
        assert all[i] == more[i];
      }
    }
  }

  lemma {:induction false} SelectsStep<T>(all: seq<T>, kept: seq<T>, keep: T -> bool, x: T)
    requires Selects(all, kept, keep)
    ensures Selects(all + [x], kept + if keep(x) then [x] else [], keep)
  {
    hide PlacedAt;
    var at: seq<nat> :| PlacedAt(all, kept, keep, at);
    if keep(x) {
      PlacedMore(all, kept, keep, at, x);
    } else {
      PlacedSame(all, kept, keep, at, x);
      Nothing(kept);
    }
  }

  /** Increasing places with the same members are the same places. */
  lemma {:induction false} SamePlaces(a: seq<nat>, b: seq<nat>)
    requires forall j, k | 0 <= j < k < |a| :: a[j] < a[k]
    requires forall j, k | 0 <= j < k < |b| :: b[j] < b[k]
    requires forall i: nat {:trigger i in a} {:trigger i in b} :: i in a <==> i in b
    ensures a == b
  {
    assert b != [] ==> b[0] in b;
    if a != [] {
      assert a[0] in b;
      var m, n := |a| - 1, |b| - 1;
      assert a[m] in b && b[n] in a;
      assert a[m] == b[n];
      forall i: nat
        ensures i in a[..m] <==> i in b[..n]
      {
        assert i in a <==> i in a[..m] || i == a[m] by { SplitLast(a); }
        assert i in b <==> i in b[..n] || i == b[n] by { SplitLast(b); }
      }
      SamePlaces(a[..m], b[..n]);
      SplitLast(a);
      SplitLast(b);
    }
  }

  /** A list and a condition have one selection. */
  lemma {:induction false} SelectionIsUnique<T>(all: seq<T>, a: seq<T>, b: seq<T>, keep: T -> bool)
    requires Selects(all, a, keep) && Selects(all, b, keep)
    ensures a == b
  {
    var x: seq<nat> :| PlacedAt(all, a, keep, x);
    var y: seq<nat> :| PlacedAt(all, b, keep, y);
    forall i: nat
      ensures i in x <==> i in y
    {
    }
    SamePlaces(x, y);
  }

  function Filter<T>(all: seq<T>, keep: T -> bool): seq<T> {
    if all == [] then [] else (if keep(all[0]) then [all[0]] else []) + Filter(all[1..], keep)
  }

  lemma {:induction false} FilterContinues<T>(done: seq<T>, kept: seq<T>, rest: seq<T>, keep: T -> bool)
    requires Selects(done, kept, keep)
    ensures Selects(done + rest, kept + Filter(rest, keep), keep)
    decreases |rest|
  {
    hide Selects;
    if rest == [] {
      Nothing(done);
      Nothing(kept);
    } else {
      var one := if keep(rest[0]) then [rest[0]] else [];
      SelectsStep(done, kept, keep, rest[0]);
      FilterContinues(done + [rest[0]], kept + one, rest[1..], keep);
      SplitFirst(rest);
      Associate(done, [rest[0]], rest[1..]);
      Associate(kept, one, Filter(rest[1..], keep));
    }
  }

  lemma {:induction false} FilterSelects<T>(all: seq<T>, keep: T -> bool)
    ensures Selects(all, Filter(all, keep), keep)
  {
    SelectsNone(keep);
    FilterContinues([], [], all, keep);
    Nothing(all);
    Nothing(Filter(all, keep));
  }

  /** A list comprehension with a condition. */
  method Select<T>(all: seq<T>, keep: T -> bool) returns (kept: seq<T>)
    ensures Selects(all, kept, keep) && kept == Filter(all, keep)
  {
    hide Selects, PlacedAt;
    kept := [];
    SelectsNone(keep);
    for i := 0 to |all|
      invariant Selects(all[..i], kept, keep)
    {
      TakeStep(all, i);
      SelectsStep(all[..i], kept, keep, all[i]);
      if keep(all[i]) {
        kept := kept + [all[i]];
      } else {
        Nothing(kept);
      }
    }
    TakeAll(all);
    FilterSelects(all, keep);
    SelectionIsUnique(all, kept, Filter(all, keep), keep);
  }
}
