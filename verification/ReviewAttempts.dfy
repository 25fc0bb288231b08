/** The attempt ledger and its compatibility views stay in step. */
module ReviewAttempts {
  import opened Options
  import opened ReviewLedger
  import opened ReviewRuns

  /** What record_attempt makes of every record it stores. */
  predicate Normal(a: Attempt) {
    && a.repo != NoKey && a.tool != "" && a.started != "" && a.ts != "" && a.updated != ""
    && (a.status == Blocked ==> a.blocked)
  }

  predicate AllNormal(attempts: seq<Attempt>) {
    forall i | 0 <= i < |attempts| :: Normal(attempts[i])
  }

  predicate DistinctIds(attempts: seq<Attempt>) {
    forall i, j | 0 <= i < j < |attempts| :: IdentityOf(attempts[i]) != IdentityOf(attempts[j])
  }

  /** The ledger is well kept: identities are unique, the caps hold, and the last attempt
      is one of the ledger's records, as a value. */
  predicate WellKept(s: Ledger) {
    InStep(s.attempts, s.last, s.blocking)
  }

  predicate InStep(attempts: seq<Attempt>, last: Option<Attempt>, blocking: seq<Attempt>) {
    && AllNormal(attempts) && DistinctIds(attempts) && |attempts| <= MAX_ATTEMPT_HISTORY
    && AllNormal(blocking) && DistinctIds(blocking) && |blocking| <= MAX_BLOCKING_HISTORY
    && (last.Some? ==> last.value in attempts)
    && (last.None? ==> attempts == [] && blocking == [])
  }

  // ---- Merging ----

  /** Merging a stored record with itself, or with the blocked form record_attempt makes of
      it, gives the incoming record: writing it back changes nothing else. */
  lemma {:induction false} MergeAbsorbs(m: Attempt, m1: Attempt, now: string)
    requires m.started != "" && m.updated != "" && (m1.status == Blocked ==> m1.blocked)
    requires m1 == m.(blocked := m1.blocked, obligationIds := m1.obligationIds)
    ensures Merge(m, m1, now) == m1
  {
  }

  lemma {:induction false} MergeKeepsIdentity(existing: Attempt, a: Attempt, now: string)
    requires existing.repo != NoKey && existing.tool != "" && existing.started != ""
    requires Normal(a) && IdentityOf(a) == IdentityOf(existing)
    ensures var m := Merge(existing, a, now);
            && IdentityOf(m) == IdentityOf(existing)
            && Normal(m.(blocked := m.blocked || m.status == Blocked))
  {
  }

  lemma {:induction false} NormalizeIsNormal(a: Attempt, now: string)
    requires now != ""
    ensures Normal(Normalize(a, now))
  {
  }

  // ---- Upserting ----

  lemma {:induction false} IndexIsUnique(attempts: seq<Attempt>, k: nat)
    requires DistinctIds(attempts) && k < |attempts|
    ensures IndexOf(attempts, IdentityOf(attempts[k])) == k
  {
    var j := IndexOf(attempts, IdentityOf(attempts[k]));
    assert j < |attempts|;
  }

  /** Where the returned record is, and that all other records of the new ledger are old ones. */
  lemma {:induction false} UpsertPlaces(attempts: seq<Attempt>, a: Attempt, now: string) returns (k: nat)
    requires AllNormal(attempts) && DistinctIds(attempts) && |attempts| <= MAX_ATTEMPT_HISTORY && Normal(a)
    ensures var (r, m) := Upsert(attempts, a, now);
            && k < |r| <= MAX_ATTEMPT_HISTORY && r[k] == m && DistinctIds(r)
            && (forall i | 0 <= i < |r| && i != k :: r[i] in attempts)
            && IdentityOf(m) == IdentityOf(a)
            && m.started != "" && m.updated != "" && Normal(m.(blocked := m.blocked || m.status == Blocked))
  {
    hide Merge;
    var j := IndexOf(attempts, IdentityOf(a));
    var (r, m) := Upsert(attempts, a, now);
    if j < |attempts| {
      MergeKeepsIdentity(attempts[j], a, now);
      k := j;
    } else {
      k := |r| - 1;
      var off := |attempts| + 1 - |r|;
      assert forall i | 0 <= i < |r| - 1 :: r[i] == attempts[i + off];
    }
  }

  lemma {:induction false} ReplaceAt(attempts: seq<Attempt>, k: nat, m1: Attempt, now: string)
    requires DistinctIds(attempts) && k < |attempts|
    requires attempts[k].started != "" && attempts[k].updated != "" && (m1.status == Blocked ==> m1.blocked)
    requires m1 == attempts[k].(blocked := m1.blocked, obligationIds := m1.obligationIds)
    ensures Upsert(attempts, m1, now) == (attempts[k := m1], m1)
  {
    assert IdentityOf(m1) == IdentityOf(attempts[k]);
    IndexIsUnique(attempts, k);
    MergeAbsorbs(attempts[k], m1, now);
  }

  /** Writing a stored record back into the ledger changes nothing. */
  lemma {:induction false} UpsertStored(attempts: seq<Attempt>, a: Attempt, now: string)
    requires AllNormal(attempts) && DistinctIds(attempts) && a in attempts
    ensures Upsert(attempts, a, now) == (attempts, a)
  {
    var k :| 0 <= k < |attempts| && attempts[k] == a;
    ReplaceAt(attempts, k, a, now);
    assert attempts[k := a] == attempts;
  }

  lemma {:induction false} SuffixKept(all: seq<Attempt>, n: nat)
    requires AllNormal(all) && DistinctIds(all)
    ensures AllNormal(LastN(all, n)) && DistinctIds(LastN(all, n))
  {
    hide Normal, IdentityOf;
    var r := LastN(all, n);
    var off := |all| - |r|;
    forall i | 0 <= i < |r|
      ensures Normal(r[i])
    {
      assert r[i] == all[i + off];
    }
    forall i, j | 0 <= i < j < |r|
      ensures IdentityOf(r[i]) != IdentityOf(r[j])
    {
      assert r[i] == all[i + off] && r[j] == all[j + off];
    }
  }

  lemma {:induction false} BlockingKept(history: seq<Attempt>, a: Attempt)
    requires AllNormal(history) && DistinctIds(history) && Normal(a)
    ensures var r := UpsertBlocking(history, a);
            AllNormal(r) && DistinctIds(r) && |r| <= MAX_BLOCKING_HISTORY
  {
    var k := IndexOf(history, IdentityOf(a));
    SuffixKept(if k < |history| then history[k := a] else history + [a], MAX_BLOCKING_HISTORY);
  }

  lemma {:induction false} DropKept(history: seq<Attempt>, scope: Option<RepoKey>, exact: bool)
    requires AllNormal(history) && DistinctIds(history)
    ensures AllNormal(DropAttempts(history, scope, exact)) && DistinctIds(DropAttempts(history, scope, exact))
  {
    if history != [] {
      DropKept(history[1..], scope, exact);
      var d := DropAttempts(history[1..], scope, exact);
      forall j | 0 <= j < |d|
        ensures IdentityOf(d[j]) != IdentityOf(history[0])
      {
        assert d[j] in history[1..];
      }
    }
  }

  // ---- Steps ----

  /** The parts of the state record_attempt leaves, by the merged record. */
  lemma {:induction false} RecordShape(s: Ledger, a: Attempt, now: string, digest: string -> string)
    ensures var (attempts, m) := Upsert(s.attempts, Normalize(a, now), now);
            var (r, m1) := Record(s, a, now, digest);
            && r.last == Some(m1)
            && if m.status == Blocked || m.blocked then
                 && m1 == m.(blocked := true, obligationIds := m1.obligationIds)
                 && r.attempts == Upsert(attempts, m1, now).0 && r.blocking == UpsertBlocking(s.blocking, m1)
               else
                 && m1 == m && r.attempts == attempts
                 && (r.blocking == s.blocking
                     || r.blocking == DropAttempts(s.blocking, Some(m.repo),
                                                   KeyIn(AttemptKeys(s.blocking), Some(m.repo))))
  {
  }

  lemma {:induction false} RecordKeeps(s: Ledger, a: Attempt, now: string, digest: string -> string)
    requires WellKept(s) && now != ""
    ensures WellKept(Record(s, a, now, digest).0)
  {
    RecordShape(s, a, now, digest);
    NormalizeIsNormal(a, now);
    var (r, m1) := Record(s, a, now, digest);
    RecordPartsKeep(s, Normalize(a, now), now, r.attempts, m1, r.blocking);
  }

  lemma {:induction false} RecordPartsKeep(s: Ledger, a: Attempt, now: string, attempts': seq<Attempt>, m1: Attempt,
                                           blocking': seq<Attempt>)
    requires WellKept(s) && Normal(a)
    requires var (attempts, m) := Upsert(s.attempts, a, now);
             if m.status == Blocked || m.blocked then
               && m1 == m.(blocked := true, obligationIds := m1.obligationIds)
               && attempts' == Upsert(attempts, m1, now).0 && blocking' == UpsertBlocking(s.blocking, m1)
             else
               && m1 == m && attempts' == attempts
               && (blocking' == s.blocking
                   || blocking' == DropAttempts(s.blocking, Some(m.repo), KeyIn(AttemptKeys(s.blocking), Some(m.repo))))
    ensures InStep(attempts', Some(m1), blocking')
  {
    hide Upsert, UpsertBlocking, DropAttempts;
    var k := UpsertPlaces(s.attempts, a, now);
    var (attempts, m) := Upsert(s.attempts, a, now);
    if m.status == Blocked || m.blocked {
      ReplaceAt(attempts, k, m1, now);
      BlockingKept(s.blocking, m1);
      assert attempts' == attempts[k := m1] && attempts'[k] == m1;
    } else {
      DropKept(s.blocking, Some(m.repo), KeyIn(AttemptKeys(s.blocking), Some(m.repo)));
      assert attempts'[k] == m1;
    }
  }

  lemma {:induction false} LatestForIn(attempts: seq<Attempt>, like: Attempt, exact: bool)
    ensures var r := LatestFor(attempts, like, exact);
            && (r.Some? ==> r.value in attempts)
            && (r.None? ==> forall a | a in attempts ::
                  !(a.repo == like.repo && a.tool == like.tool && a.task == like.task && a.number == like.number))
  {
    if attempts != [] {
      LatestForIn(attempts[..|attempts| - 1], like, exact);
      assert attempts == attempts[..|attempts| - 1] + [attempts[|attempts| - 1]];
    }
  }

  lemma {:induction false} ExpireOneKeeps(a: Attempt, nowTs: string, now: real, epoch: string -> Option<real>,
                                          limit: real, details: string)
    requires Normal(a) && nowTs != ""
    ensures var e := ExpireOne(a, nowTs, now, epoch, limit, details);
            && Normal(e) && IdentityOf(e) == IdentityOf(a) && e.repo == a.repo && e.tool == a.tool
                && e.task == a.task && e.number == a.number
            && (e == a || Expires(a, now, epoch, limit))
  {
  }

  lemma {:induction false} ExpireAllKeeps(attempts: seq<Attempt>, nowTs: string, now: real,
                                          epoch: string -> Option<real>, limit: real, details: string)
    requires AllNormal(attempts) && DistinctIds(attempts) && nowTs != ""
    ensures var r := ExpireAll(attempts, nowTs, now, epoch, limit, details);
            && AllNormal(r) && DistinctIds(r)
            && forall i | 0 <= i < |attempts| :: IdentityOf(r[i]) == IdentityOf(attempts[i])
  {
    var r := ExpireAll(attempts, nowTs, now, epoch, limit, details);
    forall i | 0 <= i < |attempts|
      ensures Normal(r[i]) && IdentityOf(r[i]) == IdentityOf(attempts[i])
    {
      ExpireOneKeeps(attempts[i], nowTs, now, epoch, limit, details);
    }
  }

  /** Whichever way the last attempt is chosen after an expiry, it is in the new ledger. */
  lemma {:induction false} LastAfterExpiry(attempts: seq<Attempt>, last: Attempt, nowTs: string, now: real,
                                           epoch: string -> Option<real>, limit: real, details: string)
    requires AllNormal(attempts) && last in attempts && nowTs != ""
    ensures var r := ExpireAll(attempts, nowTs, now, epoch, limit, details);
            if SomeExpired(attempts, IdentityOf(last), now, epoch, limit)
            then var x := LatestFor(r, last, KeyIn(AttemptKeys(r), Some(last.repo))); x.Some? && x.value in r
            else last in r
  {
    var r := ExpireAll(attempts, nowTs, now, epoch, limit, details);
    var k :| 0 <= k < |attempts| && attempts[k] == last;
    ExpireOneKeeps(last, nowTs, now, epoch, limit, details);
    assert r[k] in r;
    LatestForIn(r, last, KeyIn(AttemptKeys(r), Some(last.repo)));
  }

  lemma {:induction false} ExpireKeeps(s: Ledger, nowTs: string, epoch: string -> Option<real>, limit: real,
                                       details: string)
    requires WellKept(s) && epoch("").None?
    ensures WellKept(ExpireStale(s, nowTs, epoch, limit, details))
  {
    if epoch(nowTs).Some? {
      var now := epoch(nowTs).value;
      ExpireAllKeeps(s.attempts, nowTs, now, epoch, limit, details);
      if s.last.Some? {
        LastAfterExpiry(s.attempts, s.last.value, nowTs, now, epoch, limit, details);
      }
    }
  }

  /** Saving runs _sync_compat_views and loading repairs what it finds: on a well-kept
      ledger both leave everything as it is. */
  lemma {:induction false} SaveAndLoadChangeNothing(s: Ledger, now: string)
    requires WellKept(s)
    ensures Sync(s, now) == s && Load(s) == s
  {
    if s.last.Some? {
      UpsertStored(s.attempts, s.last.value, now);
    }
  }

  /** The clock gives a non-empty text, and the empty text is not a time. */
  predicate Timed(op: Op, env: Env) {
    env.epoch("").None? && (op.RecordOp? ==> op.now != "")
  }

  lemma {:induction false} OthersKeepAttempts(s: Ledger, op: Op, env: Env)
    requires !op.RecordOp? && !op.ExpireOp? && !op.SaveOp? && !op.LoadOp?
    ensures var s' := Step(s, op, env);
            && s'.attempts == s.attempts && s'.last == s.last
            && (s'.blocking == s.blocking || s'.blocking == []
                || (op.SuccessOp? && s'.blocking
                    == DropAttempts(s.blocking, op.scope, KeyIn(AttemptKeys(s.blocking), op.scope))))
  {
  }

  lemma {:induction false} StepKeeps(s: Ledger, op: Op, env: Env)
    requires WellKept(s) && Timed(op, env)
    ensures WellKept(Step(s, op, env))
  {
    hide Record, ExpireStale, Sync, Load;
    match op {
      case RecordOp(a, now) => RecordKeeps(s, a, now, env.digest);
      case ExpireOp(nowTs, limit, details) => ExpireKeeps(s, nowTs, env.epoch, limit, details);
      case SaveOp(now) => SaveAndLoadChangeNothing(s, now);
      case LoadOp => SaveAndLoadChangeNothing(s, "");
      case SuccessOp(scope) =>
        OthersKeepAttempts(s, op, env);
        DropKept(s.blocking, scope, KeyIn(AttemptKeys(s.blocking), scope));
      case _ => OthersKeepAttempts(s, op, env);
    }
  }

  /** In every reachable state, whatever keys are mixed: identities are unique, the caps hold
      and the last attempt is its ledger entry; so a save or a load at that point is neutral. */
  lemma {:induction false} WellKeptAlways(ops: seq<Op>, env: Env, n: nat, now: string)
    requires n <= |ops| && forall i | 0 <= i < n :: Timed(ops[i], env)
    ensures var s := After(EMPTY_LEDGER, ops, env, n);
            WellKept(s) && Sync(s, now) == s && Load(s) == s
  {
    hide Step, Sync, Load;
    if n > 0 {
      WellKeptAlways(ops, env, n - 1, now);
      StepKeeps(After(EMPTY_LEDGER, ops, env, n - 1), ops[n - 1], env);
    }
    SaveAndLoadChangeNothing(After(EMPTY_LEDGER, ops, env, n), now);
  }

  // ---- An expired attempt stays expired ----

  /** No record with the identity counts as active (get_active_attempts). */
  predicate Inactive(attempts: seq<Attempt>, id: Identity) {
    forall i | 0 <= i < |attempts| && IdentityOf(attempts[i]) == id ::
          attempts[i].status != Reviewing && !attempts[i].late
  }

  lemma {:induction false} InactiveStep(s: Ledger, op: Op, env: Env, id: Identity)
    requires WellKept(s) && Timed(op, env) && Inactive(s.attempts, id)
    requires op.RecordOp? ==> IdentityOf(Normalize(op.attempt, op.now)) != id
    ensures Inactive(Step(s, op, env).attempts, id)
  {
    hide Record, ExpireStale, Sync, Load, WellKept;
    match op {
      case RecordOp(a, now) => InactiveRecord(s, a, now, env.digest, id);
      case SaveOp(now) => SaveAndLoadChangeNothing(s, now);
      case LoadOp => SaveAndLoadChangeNothing(s, "");
      case ExpireOp(nowTs, limit, details) => InactiveExpire(s, nowTs, env.epoch, limit, details, id);
      case _ => OthersKeepAttempts(s, op, env);
    }
  }

  lemma {:induction false} InactiveExpire(s: Ledger, nowTs: string, epoch: string -> Option<real>, limit: real,
                                          details: string, id: Identity)
    requires WellKept(s) && epoch("").None? && Inactive(s.attempts, id)
    ensures Inactive(ExpireStale(s, nowTs, epoch, limit, details).attempts, id)
  {
    if epoch(nowTs).Some? {
      ExpireAllKeeps(s.attempts, nowTs, epoch(nowTs).value, epoch, limit, details);
    }
  }

  lemma {:induction false} InactiveRecord(s: Ledger, a: Attempt, now: string, digest: string -> string, id: Identity)
    requires WellKept(s) && now != "" && Inactive(s.attempts, id) && IdentityOf(Normalize(a, now)) != id
    ensures Inactive(Record(s, a, now, digest).0.attempts, id)
  {
    hide Record, Upsert, UpsertBlocking, DropAttempts;
    RecordShape(s, a, now, digest);
    NormalizeIsNormal(a, now);
    var k := UpsertPlaces(s.attempts, Normalize(a, now), now);
    var (attempts, m) := Upsert(s.attempts, Normalize(a, now), now);
    if m.status == Blocked || m.blocked {
      ReplaceAt(attempts, k, Record(s, a, now, digest).1, now);
    }
  }

  lemma {:induction false} ExpiredIsInactive(a: Attempt, nowTs: string, now: real, epoch: string -> Option<real>,
                                             limit: real, details: string)
    requires Expires(a, now, epoch, limit)
    ensures var e := ExpireOne(a, nowTs, now, epoch, limit, details);
            e.status == Failed && !e.late
  {
  }

  lemma {:induction false} ExpiryInactivates(attempts: seq<Attempt>, nowTs: string, now: real,
                                             epoch: string -> Option<real>, limit: real, details: string, k: nat)
    requires AllNormal(attempts) && DistinctIds(attempts) && nowTs != ""
    requires k < |attempts| && Expires(attempts[k], now, epoch, limit)
    ensures Inactive(ExpireAll(attempts, nowTs, now, epoch, limit, details), IdentityOf(attempts[k]))
  {
    ExpireAllKeeps(attempts, nowTs, now, epoch, limit, details);
    ExpiredIsInactive(attempts[k], nowTs, now, epoch, limit, details);
    OnlyOne(attempts, ExpireAll(attempts, nowTs, now, epoch, limit, details), k);
  }

  lemma {:induction false} OnlyOne(attempts: seq<Attempt>, r: seq<Attempt>, k: nat)
    requires DistinctIds(attempts) && |r| == |attempts| && k < |r|
    requires forall i | 0 <= i < |r| :: IdentityOf(r[i]) == IdentityOf(attempts[i])
    requires r[k].status != Reviewing && !r[k].late
    ensures Inactive(r, IdentityOf(attempts[k]))
  {
    forall i | 0 <= i < |r| && IdentityOf(r[i]) == IdentityOf(attempts[k])
      ensures i == k
    {
      assert IdentityOf(attempts[i]) == IdentityOf(attempts[k]);
    }
  }

  /** Everything a run may do except record the attempt itself. */
  predicate NotRecorded(ops: seq<Op>, env: Env, id: Identity, n: nat)
    requires n <= |ops|
  {
    forall i | 0 <= i < n ::
      Timed(ops[i], env) && (ops[i].RecordOp? ==> IdentityOf(Normalize(ops[i].attempt, ops[i].now)) != id)
  }

  lemma {:induction false} InactiveRun(s: Ledger, ops: seq<Op>, env: Env, id: Identity, n: nat)
    requires WellKept(s) && Inactive(s.attempts, id) && n <= |ops| && NotRecorded(ops, env, id, n)
    ensures WellKept(After(s, ops, env, n)) && Inactive(After(s, ops, env, n).attempts, id)
  {
    hide Step, WellKept;
    if n > 0 {
      InactiveRun(s, ops, env, id, n - 1);
      StepKeeps(After(s, ops, env, n - 1), ops[n - 1], env);
      InactiveStep(After(s, ops, env, n - 1), ops[n - 1], env, id);
    }
  }

  /** An attempt expired in a reachable state is never active again through saves, loads,
      further expiries or records of other attempts, until it is itself recorded anew. */
  lemma {:induction false} ExpiredStaysExpired(s: Ledger, nowTs: string, limit: real, details: string, a: Attempt,
                                               ops: seq<Op>, env: Env, n: nat)
    requires WellKept(s) && env.epoch("").None? && env.epoch(nowTs).Some?
    requires a in s.attempts && Expires(a, env.epoch(nowTs).value, env.epoch, limit)
    requires n <= |ops| && NotRecorded(ops, env, IdentityOf(a), n)
    ensures Inactive(After(ExpireStale(s, nowTs, env.epoch, limit, details), ops, env, n).attempts, IdentityOf(a))
  {
    ExpireKeeps(s, nowTs, env.epoch, limit, details);
    var k :| 0 <= k < |s.attempts| && s.attempts[k] == a;
    ExpiryInactivates(s.attempts, nowTs, env.epoch(nowTs).value, env.epoch, limit, details, k);
    InactiveRun(ExpireStale(s, nowTs, env.epoch, limit, details), ops, env, IdentityOf(a), n);
  }
}
