/** When the commit gate sees a fresh advisory run. */
module ReviewFreshness {
  import opened Options
  import opened ReviewLedger
  import opened ReviewRuns

  /** A run found by hash is in the list, has the hash and is in scope; none is found
      exactly when no run of the list qualifies. */
  lemma {:induction false} FoundRun(runs: seq<Run>, hash: string, scope: Option<RepoKey>, exact: bool)
    ensures var r := FindLastRun(runs, hash, scope, exact);
            && (r.Some? ==> r.value in runs && r.value.hash == hash && ScopeMatches(r.value.repo, scope, exact))
            && (r.None? ==> forall x | x in runs :: !(x.hash == hash && ScopeMatches(x.repo, scope, exact)))
  {
    if runs != [] {
      var n := |runs| - 1;
      FoundRun(runs[..n], hash, scope, exact);
      assert runs == runs[..n] + [runs[n]];
    }
  }

  /** The newest run wins: a run that is in scope decides freshness for its hash when
      every later run of the hash is out of scope. */
  lemma {:induction false} NewestRunDecides(runs: seq<Run>, i: nat, scope: Option<RepoKey>, exact: bool)
    requires i < |runs| && ScopeMatches(runs[i].repo, scope, exact)
    requires forall j | i < j < |runs| :: !(runs[j].hash == runs[i].hash && ScopeMatches(runs[j].repo, scope, exact))
    ensures FindLastRun(runs, runs[i].hash, scope, exact) == Some(runs[i])
  {
    var n := |runs| - 1;
    if i < n {
      NewestRunDecides(runs[..n], i, scope, exact);
    }
  }

  ghost predicate GateClosed(s: Ledger, repo: RepoKey) {
    && (forall hash :: !IsFresh(s.runs, hash, Some(repo)))
    && (forall hash :: !CommitReady(s, hash, repo))
  }

  /** After mark_repo_stale(repo) no snapshot is fresh for the repository and none may be
      committed, whatever mixture of named, empty and legacy keys the history holds. */
  lemma {:induction false} StaleClosesGate(s: Ledger, repo: RepoKey, ts: string, reason: string, staleRepo: RepoKey,
                                           now: string)
    ensures GateClosed(MarkRepoStale(s, repo, ts, reason, staleRepo, now), repo)
  {
    var s' := MarkRepoStale(s, repo, ts, reason, staleRepo, now);
    forall hash, scope | scope == Some(repo) || (repo == NoKey && scope == None)
      ensures !IsFresh(s'.runs, hash, scope)
    {
      var exact := KeyIn(RunKeys(s'.runs), scope);
      FoundRun(s'.runs, hash, scope, exact);
      if AnyFresh(s.runs) {
        forall i | 0 <= i < |s'.runs| && ScopeMatches(s'.runs[i].repo, scope, exact)
          ensures !FreshLike(s'.runs[i].status)
        {
          if repo != NoKey && AnyFreshOf(s.runs, repo) {
            var k :| 0 <= k < |s.runs| && FreshLike(s.runs[k].status) && s.runs[k].repo == repo;
            assert RunKeys(s'.runs)[k] == repo;
          }
        }
      } else {
        assert forall i | 0 <= i < |s'.runs| :: !FreshLike(s'.runs[i].status);
      }
    }
  }

  // ---- Long runs ----

  predicate NoFreshOf(s: Ledger, repo: RepoKey) {
    forall i | 0 <= i < |s.runs| :: s.runs[i].repo == repo ==> !FreshLike(s.runs[i].status)
  }

  /** The one operation that makes a run of the repository fresh. */
  predicate Reopens(op: Op, repo: RepoKey) {
    op.AddRunOp? && op.run.repo == repo && FreshLike(op.run.status)
  }

  /** The same runs, of which some may have become stale. */
  predicate Quieter(new_: seq<Run>, old_: seq<Run>) {
    && |new_| == |old_|
    && forall i | 0 <= i < |old_| ::
         new_[i].repo == old_[i].repo && new_[i].hash == old_[i].hash
             && (FreshLike(new_[i].status) ==> FreshLike(old_[i].status))
  }

  /** Only three operations touch the runs. */
  lemma {:induction false} OthersKeepRuns(s: Ledger, op: Op, env: Env)
    requires !op.AddRunOp? && !op.MarkHashStaleOp? && !op.MarkRepoStaleOp?
    ensures Step(s, op, env).runs == s.runs
  {
  }

  lemma {:induction false} StaleOnlyQuiet(s: Ledger, repo: RepoKey, ts: string, reason: string, staleRepo: RepoKey,
                                          now: string, hash: string)
    ensures Quieter(MarkRepoStale(s, repo, ts, reason, staleRepo, now).runs, s.runs)
    ensures Quieter(MarkHashStale(s.runs, hash, now), s.runs)
  {
  }

  lemma {:induction false} OthersOnlyQuiet(s: Ledger, op: Op, env: Env)
    requires !op.AddRunOp?
    ensures Quieter(Step(s, op, env).runs, s.runs)
  {
    if op.MarkHashStaleOp? {
      StaleOnlyQuiet(s, NoKey, "", "", NoKey, op.now, op.hash);
    } else if op.MarkRepoStaleOp? {
      StaleOnlyQuiet(s, op.repo, op.ts, op.reason, op.staleRepo, op.now, "");
    } else {
      OthersKeepRuns(s, op, env);
    }
  }

  /** add_run: the surviving runs are the last ones of the quieted history, then the new one. */
  lemma {:induction false} AddRunShape(s: Ledger, run: Run, now: string) returns (kept: seq<Run>, off: nat)
    ensures kept == MarkAllStaleExcept(s.runs, run.hash, run.repo, now) && Quieter(kept, s.runs)
    ensures var r := AddRun(s, run, now).runs;
            && 0 < |r| <= MAX_RUN_HISTORY && |r| + off == |kept| + 1
            && (forall i | 0 <= i < |r| - 1 :: r[i] == kept[i + off])
            && r[|r| - 1].(created := "", updated := "") == run.(created := "", updated := "")
            && (|kept| < MAX_RUN_HISTORY ==> off == 0) && (|kept| == MAX_RUN_HISTORY ==> off == 1)
  {
    kept := MarkAllStaleExcept(s.runs, run.hash, run.repo, now);
    off := |kept| + 1 - |AddRun(s, run, now).runs|;
  }

  lemma {:induction false} NoFreshAdd(s: Ledger, run: Run, now: string, repo: RepoKey)
    requires NoFreshOf(s, repo) && !(run.repo == repo && FreshLike(run.status))
    ensures NoFreshOf(AddRun(s, run, now), repo)
  {
    var kept, off := AddRunShape(s, run, now);
    var r := AddRun(s, run, now).runs;
    forall i | 0 <= i < |r| && r[i].repo == repo
      ensures !FreshLike(r[i].status)
    {
      if i < |r| - 1 {
        assert r[i] == kept[i + off] && s.runs[i + off].repo == repo;
      }
    }
  }

  lemma {:induction false} NoFreshQuiet(s: Ledger, s': Ledger, repo: RepoKey)
    requires NoFreshOf(s, repo) && Quieter(s'.runs, s.runs)
    ensures NoFreshOf(s', repo)
  {
  }

  lemma {:induction false} NoFreshStep(s: Ledger, op: Op, env: Env, repo: RepoKey)
    requires NoFreshOf(s, repo) && !Reopens(op, repo)
    ensures NoFreshOf(Step(s, op, env), repo)
  {
    if op.AddRunOp? {
      NoFreshAdd(s, op.run, op.now, repo);
    } else {
      OthersOnlyQuiet(s, op, env);
      NoFreshQuiet(s, Step(s, op, env), repo);
    }
  }

  lemma {:induction false} NoFreshRun(s: Ledger, ops: seq<Op>, env: Env, repo: RepoKey, n: nat)
    requires NoFreshOf(s, repo) && n <= |ops| && forall i | 0 <= i < n :: !Reopens(ops[i], repo)
    ensures NoFreshOf(After(s, ops, env, n), repo)
  {
    if n > 0 {
      NoFreshRun(s, ops, env, repo, n - 1);
      NoFreshStep(After(s, ops, env, n - 1), ops[n - 1], env, repo);
    }
  }

  /** A fresh run without a named key that no later such run of its hash hides. */
  predicate UnscopedFresh(runs: seq<Run>, i: int) {
    && 0 <= i < |runs| && !runs[i].repo.Named? && FreshLike(runs[i].status)
    && forall j | i < j < |runs| :: !(runs[j].hash == runs[i].hash && !runs[j].repo.Named?)
  }

  /** With no fresh run of its own, a named repository passes the gate exactly when none of
      its runs is left in the history and an unscoped fresh run is. */
  lemma {:induction false} BorrowedFreshnessIff(s: Ledger, repo: RepoKey)
    requires repo.Named? && NoFreshOf(s, repo)
    ensures (exists hash :: IsFresh(s.runs, hash, Some(repo)))
       <==> repo !in RunKeys(s.runs) && exists i :: UnscopedFresh(s.runs, i)
  {
    var exact := repo in RunKeys(s.runs);
    if hash :| IsFresh(s.runs, hash, Some(repo)) {
      FoundRun(s.runs, hash, Some(repo), exact);
      var i := FoundAt(s.runs, hash, Some(repo), exact);
      assert RunKeys(s.runs)[i] == s.runs[i].repo;
      assert forall j | 0 <= j < |s.runs| :: RunKeys(s.runs)[j] != repo || exact;
      assert UnscopedFresh(s.runs, i);
    }
    if i :| !exact && UnscopedFresh(s.runs, i) {
      forall j | i < j < |s.runs|
        ensures !(s.runs[j].hash == s.runs[i].hash && ScopeMatches(s.runs[j].repo, Some(repo), false))
      {
        assert RunKeys(s.runs)[j] == s.runs[j].repo;
      }
      NewestRunDecides(s.runs, i, Some(repo), false);
      assert IsFresh(s.runs, s.runs[i].hash, Some(repo));
    }
  }

  /** The position of the run that find_by_hash returns. */
  lemma {:induction false} FoundAt(runs: seq<Run>, hash: string, scope: Option<RepoKey>, exact: bool) returns (i: nat)
    requires FindLastRun(runs, hash, scope, exact).Some?
    ensures i < |runs| && FindLastRun(runs, hash, scope, exact) == Some(runs[i])
    ensures runs[i].hash == hash && ScopeMatches(runs[i].repo, scope, exact)
    ensures forall j | i < j < |runs| :: !(runs[j].hash == hash && ScopeMatches(runs[j].repo, scope, exact))
  {
    var n := |runs| - 1;
    if runs[n].hash == hash && ScopeMatches(runs[n].repo, scope, exact) {
      i := n;
    } else {
      i := FoundAt(runs[..n], hash, scope, exact);
    }
  }

  /** mark_repo_stale(repo), then any operations at all except a fresh run of that very
      repository: from then on the repository passes the gate only on borrowed freshness. */
  lemma {:induction false} GateAfterStale(s: Ledger, repo: RepoKey, ts: string, reason: string, staleRepo: RepoKey,
                                          now: string, ops: seq<Op>, env: Env, n: nat)
    requires repo.Named? && n <= |ops| && forall i | 0 <= i < n :: !Reopens(ops[i], repo)
    ensures var later := After(MarkRepoStale(s, repo, ts, reason, staleRepo, now), ops, env, n);
            ((exists hash :: IsFresh(later.runs, hash, Some(repo)))
             <==> repo !in RunKeys(later.runs) && exists i :: UnscopedFresh(later.runs, i))
  {
    var s' := MarkRepoStale(s, repo, ts, reason, staleRepo, now);
    NoFreshRun(s', ops, env, repo, n);
    BorrowedFreshnessIff(After(s', ops, env, n), repo);
  }

  predicate RunsNamed(s: Ledger) {
    forall i | 0 <= i < |s.runs| :: s.runs[i].repo.Named?
  }

  lemma {:induction false} NamedAdd(s: Ledger, run: Run, now: string)
    requires RunsNamed(s) && run.repo.Named?
    ensures RunsNamed(AddRun(s, run, now))
  {
    var kept, off := AddRunShape(s, run, now);
    var r := AddRun(s, run, now).runs;
    forall i | 0 <= i < |r|
      ensures r[i].repo.Named?
    {
      if i < |r| - 1 {
        assert r[i] == kept[i + off] && s.runs[i + off].repo.Named?;
      }
    }
  }

  lemma {:induction false} NamedStep(s: Ledger, op: Op, env: Env)
    requires RunsNamed(s) && OpNamed(op)
    ensures RunsNamed(Step(s, op, env))
  {
    if op.AddRunOp? {
      NamedAdd(s, op.run, op.now);
    } else {
      OthersOnlyQuiet(s, op, env);
    }
  }

  lemma {:induction false} RunsStayNamed(s: Ledger, ops: seq<Op>, env: Env, n: nat)
    requires RunsNamed(s) && n <= |ops| && forall i | 0 <= i < n :: OpNamed(ops[i])
    ensures RunsNamed(After(s, ops, env, n))
  {
    if n > 0 {
      RunsStayNamed(s, ops, env, n - 1);
      NamedStep(After(s, ops, env, n - 1), ops[n - 1], env);
    }
  }

  /** When every key names a repository nothing can be borrowed: the gate stays closed,
      for every snapshot, until a fresh run of the repository itself is added. */
  lemma {:induction false} NamedGateStaysClosed(s: Ledger, repo: RepoKey, ts: string, reason: string,
                                                staleRepo: RepoKey, now: string, ops: seq<Op>, env: Env, n: nat)
    requires repo.Named? && RunsNamed(s)
    requires n <= |ops| && forall i | 0 <= i < n :: OpNamed(ops[i]) && !Reopens(ops[i], repo)
    ensures GateClosed(After(MarkRepoStale(s, repo, ts, reason, staleRepo, now), ops, env, n), repo)
  {
    var s' := MarkRepoStale(s, repo, ts, reason, staleRepo, now);
    GateAfterStale(s, repo, ts, reason, staleRepo, now, ops, env, n);
    RunsStayNamed(s', ops, env, n);
  }

  const OTHER_RUN := Run("q", ParseFailure, "t", Named("q"), "t", "t")

  /** The hypothesis on keys is needed: a repository's stale run is pushed out of the history
      by nine runs of another repository, and a fresh run left by a legacy writer then passes
      the gate for it, though no run of the repository was added. */
  lemma {:induction false} LegacyFreshnessReturns(env: Env) returns (s: Ledger, ops: seq<Op>, repo: RepoKey)
    ensures repo.Named? && forall i | 0 <= i < |ops| :: OpNamed(ops[i]) && !Reopens(ops[i], repo)
    ensures IsFresh(After(MarkRepoStale(s, repo, "t", "", NoKey, "t"), ops, env, |ops|).runs, "old", Some(repo))
  {
    repo := Named("r");
    var mine := Run("mine", Fresh, "t", repo, "t", "t");
    var legacy := Run("old", Fresh, "t", LegacyKey, "t", "t");
    s := EMPTY_LEDGER.(runs := [mine, legacy]);
    ops := seq(9, i => AddRunOp(OTHER_RUN, "t"));
    var s1 := MarkRepoStale(s, repo, "t", "", NoKey, "t");
    assert s.runs[0].repo == repo && s1.runs[1] == legacy;
    AddOthers(s1, ops, env, 8);
    LastAddEvicts(After(s1, ops, env, 8), repo, legacy);
  }

  lemma {:induction false} LastAddEvicts(s: Ledger, repo: RepoKey, legacy: Run)
    requires |s.runs| == 10 && s.runs[1] == legacy && forall j | 2 <= j < 10 :: s.runs[j] == OTHER_RUN
    requires legacy.repo == LegacyKey && legacy.status == Fresh && repo == Named("r") && legacy.hash == "old"
    ensures IsFresh(AddRun(s, OTHER_RUN, "t").runs, "old", Some(repo))
  {
    var kept, off := AddRunShape(s, OTHER_RUN, "t");
    var r := AddRun(s, OTHER_RUN, "t").runs;
    assert r[0] == legacy;
    forall j | 1 <= j < 10
      ensures r[j].repo == Named("q")
    {
    }
    forall j | 0 <= j < 10
      ensures RunKeys(r)[j] != repo
    {
    }
    NewestRunDecides(r, 0, Some(repo), false);
  }

  lemma {:induction false} AddOthers(s1: Ledger, ops: seq<Op>, env: Env, n: nat)
    requires |s1.runs| == 2 && n <= 8 < |ops| && s1.runs[1].repo != Named("q")
    requires forall i | 0 <= i < |ops| :: ops[i] == AddRunOp(OTHER_RUN, "t")
    ensures var r := After(s1, ops, env, n).runs;
            |r| == n + 2 && r[1] == s1.runs[1] && forall j | 2 <= j < n + 2 :: r[j] == OTHER_RUN
  {
    hide AddRun;
    if n > 0 {
      AddOthers(s1, ops, env, n - 1);
      AddOther(After(s1, ops, env, n - 1), n - 1);
      assert After(s1, ops, env, n) == AddRun(After(s1, ops, env, n - 1), OTHER_RUN, "t");
    }
  }

  lemma {:induction false} AddOther(s: Ledger, n: nat)
    requires |s.runs| == n + 2 && n < 8 && s.runs[1].repo != Named("q") && forall j | 2 <= j < n + 2 ::
               s.runs[j] == OTHER_RUN
    ensures var r := AddRun(s, OTHER_RUN, "t").runs;
            |r| == n + 3 && r[1] == s.runs[1] && forall j | 2 <= j < n + 3 :: r[j] == OTHER_RUN
  {
    var kept, off := AddRunShape(s, OTHER_RUN, "t");
  }

  // ---- One fresh snapshot per repository ----

  /** All fresh, bypassed and skipped runs of one key share one snapshot. */
  predicate SingleSnapshot(s: Ledger) {
    forall i, j | 0 <= i < |s.runs| && 0 <= j < |s.runs| ::
      FreshLike(s.runs[i].status) && FreshLike(s.runs[j].status) && s.runs[i].repo == s.runs[j].repo
      ==> s.runs[i].hash == s.runs[j].hash
  }

  /** A run that is still fresh after add_run is the new one, or an old one that was fresh
      and is of another repository or has the new run's snapshot. */
  lemma {:induction false} Survivor(s: Ledger, run: Run, now: string, i: nat) returns (p: nat)
    requires i < |AddRun(s, run, now).runs| && FreshLike(AddRun(s, run, now).runs[i].status)
    ensures var r := AddRun(s, run, now).runs;
            if i == |r| - 1 then r[i].repo == run.repo && r[i].hash == run.hash
            else p < |s.runs| && s.runs[p] == r[i] && (r[i].repo == run.repo ==> r[i].hash == run.hash)
  {
    var kept, off := AddRunShape(s, run, now);
    p := i + off;
  }

  lemma {:induction false} SingleSnapshotAdd(s: Ledger, run: Run, now: string)
    requires SingleSnapshot(s)
    ensures SingleSnapshot(AddRun(s, run, now))
  {
    var r := AddRun(s, run, now).runs;
    forall i, j | 0 <= i < |r| && 0 <= j < |r| && FreshLike(r[i].status) && FreshLike(r[j].status)
        && r[i].repo == r[j].repo
      ensures r[i].hash == r[j].hash
    {
      var p := Survivor(s, run, now, i);
      var q := Survivor(s, run, now, j);
    }
  }

  lemma {:induction false} SingleSnapshotStep(s: Ledger, op: Op, env: Env)
    requires SingleSnapshot(s) && |s.runs| <= MAX_RUN_HISTORY
    ensures SingleSnapshot(Step(s, op, env)) && |Step(s, op, env).runs| <= MAX_RUN_HISTORY
  {
    if op.AddRunOp? {
      SingleSnapshotAdd(s, op.run, op.now);
      var _, _ := AddRunShape(s, op.run, op.now);
    } else {
      OthersOnlyQuiet(s, op, env);
    }
  }

  /** From the empty ledger, for every mixture of keys and every sequence of operations. */
  lemma {:induction false} SingleSnapshotAlways(ops: seq<Op>, env: Env, n: nat)
    requires n <= |ops|
    ensures SingleSnapshot(After(EMPTY_LEDGER, ops, env, n))
    ensures |After(EMPTY_LEDGER, ops, env, n).runs| <= MAX_RUN_HISTORY
  {
    hide Step;
    if n > 0 {
      SingleSnapshotAlways(ops, env, n - 1);
      SingleSnapshotStep(After(EMPTY_LEDGER, ops, env, n - 1), ops[n - 1], env);
    }
  }

  /** Hence the gate accepts at most one snapshot of a repository that has a record of its own. */
  lemma {:induction false} FreshSnapshotUnique(ops: seq<Op>, env: Env, n: nat, repo: RepoKey, hash1: string,
                                               hash2: string)
    requires n <= |ops|
    requires var s := After(EMPTY_LEDGER, ops, env, n);
             repo in RunKeys(s.runs) && IsFresh(s.runs, hash1, Some(repo)) && IsFresh(s.runs, hash2, Some(repo))
    ensures hash1 == hash2
  {
    var s := After(EMPTY_LEDGER, ops, env, n);
    SingleSnapshotAlways(ops, env, n);
    var i := FoundAt(s.runs, hash1, Some(repo), true);
    var j := FoundAt(s.runs, hash2, Some(repo), true);
  }
}
