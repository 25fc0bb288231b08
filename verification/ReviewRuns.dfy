/** Runs of the review ledger: every operation as a step, and sequences of steps. */
module ReviewRuns {
  import opened Options
  import opened ReviewLedger

  datatype Op =
    | AddRunOp(run: Run, now: string)
    | MarkHashStaleOp(hash: string, now: string)
    | MarkRepoStaleOp(repo: RepoKey, ts: string, reason: string, staleRepo: RepoKey, now: string)
    | RecordOp(attempt: Attempt, now: string)
    | ResolveOp(ids: seq<string>, who: string, scope: Option<RepoKey>)
    | ClearResolvedOp
    | SuccessOp(scope: Option<RepoKey>)
    | ExpireOp(nowTs: string, limit: real, details: string)
    | SaveOp(now: string)
    | LoadOp

  /** What the environment fixes: the hash behind obligation ids and the reading of timestamps. */
  datatype Env = Env(digest: string -> string, epoch: string -> Option<real>)

  function Step(s: Ledger, op: Op, env: Env): Ledger {
    match op
    case AddRunOp(run, now) => AddRun(s, run, now)
    case MarkHashStaleOp(hash, now) => s.(runs := MarkHashStale(s.runs, hash, now))
    case MarkRepoStaleOp(repo, ts, reason, staleRepo, now) => MarkRepoStale(s, repo, ts, reason, staleRepo, now)
    case RecordOp(a, now) => Record(s, a, now, env.digest).0
    case ResolveOp(ids, who, scope) => s.(obligations := ResolveObligations(s.obligations, ids, who, scope))
    case ClearResolvedOp => s.(obligations := KeepOpen(s.obligations))
    case SuccessOp(scope) => OnSuccess(s, scope)
    case ExpireOp(nowTs, limit, details) => ExpireStale(s, nowTs, env.epoch, limit, details)
    case SaveOp(now) => Sync(s, now)
    case LoadOp => Load(s)
  }

  /** The state after the first n steps. */
  function After(s: Ledger, ops: seq<Op>, env: Env, n: nat): Ledger
    requires n <= |ops|
  {
    if n == 0 then s else Step(After(s, ops, env, n - 1), ops[n - 1], env)
  }

  /** Every repository key the operation brings in names a repository. */
  predicate OpNamed(op: Op) {
    match op
    case AddRunOp(run, _) => run.repo.Named?
    case RecordOp(a, _) => a.repo.Named?
    case _ => true
  }
}
