/** AdvisoryReviewState: the ledger as an object whose methods update its fields in place.
    Every method is proved to leave the state that ReviewLedger's function describes. */
module ReviewState {
  import opened Options
  import L = ReviewLedger
  import Q = Sequences
  import opened ReviewLedger

  /** How many runs a test selects. */
  function CountRuns(runs: seq<Run>, hit: Run -> bool): nat {
    if runs == [] then 0
    else CountRuns(runs[..|runs| - 1], hit) + if hit(runs[|runs| - 1]) then 1 else 0
  }

  function CountResolved(obs: seq<Obligation>, ids: seq<string>, scope: Option<RepoKey>, exact: bool): nat {
    if obs == [] then 0
    else
      var o := obs[|obs| - 1];
      CountResolved(obs[..|obs| - 1], ids, scope, exact)
      + if o.id in ids && o.status == StillOpen && ScopeMatches(o.repo, scope, exact) then 1 else 0
  }

  lemma {:induction false} CountResolvedStart(ids: seq<string>, scope: Option<RepoKey>, exact: bool)
    ensures CountResolved([], ids, scope, exact) == 0
  {
  }

  lemma {:induction false} CountResolvedStep(obs: seq<Obligation>, i: nat, ids: seq<string>, scope: Option<RepoKey>,
                                             exact: bool)
    requires i < |obs|
    ensures CountResolved(obs[..i + 1], ids, scope, exact) == CountResolved(obs[..i], ids, scope, exact)
          + if obs[i].id in ids && obs[i].status == StillOpen && ScopeMatches(obs[i].repo, scope, exact) then 1 else 0
  {
    assert obs[..i + 1][..i] == obs[..i];
  }

  function ExpiredOf(attempts: seq<Attempt>, nowTs: string, now: real, epoch: string -> Option<real>, limit: real,
                     details: string): seq<Attempt>
  {
    if attempts == [] then []
    else
      var a := attempts[|attempts| - 1];
      ExpiredOf(attempts[..|attempts| - 1], nowTs, now, epoch, limit, details)
      + if Expires(a, now, epoch, limit) then [ExpireOne(a, nowTs, now, epoch, limit, details)] else []
  }

  lemma {:induction false} SomeExpiredInit(attempts: seq<Attempt>, id: Identity, now: real,
                                           epoch: string -> Option<real>, limit: real)
    requires attempts != []
    ensures var n := |attempts| - 1;
            SomeExpired(attempts, id, now, epoch, limit)
            == (SomeExpired(attempts[..n], id, now, epoch, limit)
                || (Expires(attempts[n], now, epoch, limit) && IdentityOf(attempts[n]) == id))
  {
    var n := |attempts| - 1;
    if SomeExpired(attempts, id, now, epoch, limit) {
      var i :| 0 <= i < |attempts| && Expires(attempts[i], now, epoch, limit) && IdentityOf(attempts[i]) == id;
      assert i < n ==> attempts[..n][i] == attempts[i];
    }
    if SomeExpired(attempts[..n], id, now, epoch, limit) {
      var i :| 0 <= i < n && Expires(attempts[..n][i], now, epoch, limit) && IdentityOf(attempts[..n][i]) == id;
      assert attempts[i] == attempts[..n][i];
    }
  }

  lemma {:induction false} ExpiredOfNone(attempts: seq<Attempt>, nowTs: string, now: real,
                                         epoch: string -> Option<real>, limit: real, details: string, id: Identity)
    ensures (exists e | e in ExpiredOf(attempts, nowTs, now, epoch, limit, details) :: IdentityOf(e) == id)
       <==> SomeExpired(attempts, id, now, epoch, limit)
  {
    if attempts != [] {
      var n := |attempts| - 1;
      SomeExpiredInit(attempts, id, now, epoch, limit);
      ExpiredOfNone(attempts[..n], nowTs, now, epoch, limit, details, id);
      AppendedId(ExpiredOf(attempts[..n], nowTs, now, epoch, limit, details),
                 ExpireOne(attempts[n], nowTs, now, epoch, limit, details), id);
    }
  }

  lemma {:induction false} ExpireOneIdle(a: Attempt, nowTs: string, now: real, epoch: string -> Option<real>,
                                         limit: real, details: string)
    ensures !Expires(a, now, epoch, limit) ==> ExpireOne(a, nowTs, now, epoch, limit, details) == a
  {
  }

  lemma {:induction false} AppendedId(all: seq<Attempt>, e: Attempt, id: Identity)
    ensures (exists x | x in all + [e] :: IdentityOf(x) == id)
            <==> IdentityOf(e) == id || exists x | x in all :: IdentityOf(x) == id
  {
    assert e in all + [e];
  }

  class AdvisoryReviewState {
    var runs: seq<Run>
    var attempts: seq<Attempt>
    var last: Option<Attempt>
    var blocking: seq<Attempt>
    var obligations: seq<Obligation>
    var staleTs: string
    var staleReason: string
    var staleRepo: RepoKey

    function State(): Ledger
      reads this
    {
      Ledger(runs, attempts, last, blocking, obligations, staleTs, staleReason, staleRepo)
    }

    constructor ()
      ensures State() == EMPTY_LEDGER
    {
      runs, attempts, last, blocking, obligations := [], [], None, [], [];
      staleTs, staleReason, staleRepo := "", "", NoKey;
    }

    // ---- Advisory runs ----

    method FindByHash(hash: string, scope: Option<RepoKey>) returns (r: Option<Run>)
      ensures r == L.FindByHash(runs, hash, scope)
    {
      var exact := KeyIn(RunKeys(runs), scope);
      var i := |runs|;
      assert runs[..i] == runs;
      while i > 0
        invariant 0 <= i <= |runs|
        invariant FindLastRun(runs[..i], hash, scope, exact) == FindLastRun(runs, hash, scope, exact)
      {
        i := i - 1;
        assert runs[..i + 1][..i] == runs[..i];
        if runs[i].hash == hash && ScopeMatches(runs[i].repo, scope, exact) {
          return Some(runs[i]);
        }
      }
      r := None;
    }

    method IsFresh(hash: string, scope: Option<RepoKey>) returns (ok: bool)
      ensures ok == L.IsFresh(runs, hash, scope)
    {
      var run := FindByHash(hash, scope);
      ok := run.Some? && FreshLike(run.value.status);
    }

    method MarkAllStaleExcept(hash: string, repo: RepoKey, now: string)
      modifies this`runs
      ensures runs == L.MarkAllStaleExcept(old(runs), hash, repo, now)
    {
      ghost var before, target := runs, L.MarkAllStaleExcept(runs, hash, repo, now);
      for i := 0 to |runs|
        invariant |runs| == |before| == |target|
        invariant forall j | 0 <= j < i :: runs[j] == target[j]
        invariant forall j | i <= j < |before| :: runs[j] == before[j]
      {
        if (repo == NoKey || runs[i].repo == repo) && runs[i].hash != hash && FreshLike(runs[i].status) {
          runs := runs[i := MarkStale(runs[i], now)];
        }
      }
      assert runs == target;
    }

    method MarkHashStale(hash: string, now: string)
      modifies this`runs
      ensures runs == L.MarkHashStale(old(runs), hash, now)
    {
      ghost var before, target := runs, L.MarkHashStale(runs, hash, now);
      for i := 0 to |runs|
        invariant |runs| == |before| == |target|
        invariant forall j | 0 <= j < i :: runs[j] == target[j]
        invariant forall j | i <= j < |before| :: runs[j] == before[j]
      {
        if runs[i].hash == hash {
          runs := runs[i := MarkStale(runs[i], now)];
        }
      }
      assert runs == target;
    }

    method StampRun(run: Run, now: string) returns (r: Run)
      ensures var created := Or(run.created, Or(run.ts, now));
              r == run.(created := created, updated := Or(run.updated, created))
    {
      r := run;
      if r.created == "" {
        r := r.(created := Or(r.ts, now));
      }
      if r.updated == "" {
        r := r.(updated := r.created);
      }
    }

    method AddRun(run: Run, now: string)
      modifies this
      ensures State() == L.AddRun(old(State()), run, now)
    {
      var r := StampRun(run, now);
      MarkAllStaleExcept(r.hash, r.repo, now);
      runs := runs + [r];
      if |runs| > MAX_RUN_HISTORY {
        runs := runs[|runs| - MAX_RUN_HISTORY..];
      }
      assert runs == LastN(L.MarkAllStaleExcept(old(runs), r.hash, r.repo, now) + [r], MAX_RUN_HISTORY);
      if r.status in {Fresh, Bypassed, Skipped, ParseFailure} {
        staleTs, staleReason, staleRepo := "", "", NoKey;
      }
    }

    /** What mark_repo_stale looks for before it decides which runs to stale. */
    method Survey(repo: RepoKey) returns (any: bool, exact: bool, legacy: bool)
      ensures any == AnyFresh(runs) && exact == AnyFreshOf(runs, repo)
      ensures legacy == exists j | 0 <= j < |runs| :: FreshLike(runs[j].status) && !runs[j].repo.Named?
    {
      any, exact, legacy := false, false, false;
      for i := 0 to |runs|
        invariant any == exists j | 0 <= j < i :: FreshLike(runs[j].status)
        invariant exact == exists j | 0 <= j < i :: FreshLike(runs[j].status) && runs[j].repo == repo
        invariant legacy == exists j | 0 <= j < i :: FreshLike(runs[j].status) && !runs[j].repo.Named?
      {
        if FreshLike(runs[i].status) {
          any := true;
          exact := exact || runs[i].repo == repo;
          legacy := legacy || !runs[i].repo.Named?;
        }
      }
    }

    method StaleTargets(repo: RepoKey, onlyExact: bool, ts: string) returns (count: nat)
      requires onlyExact == (repo != NoKey && AnyFreshOf(runs, repo))
      modifies this`runs
      ensures runs == StaleWhere(old(runs), r => StaleTarget(old(runs), repo, r), ts)
      ensures count == CountRuns(old(runs), r => StaleTarget(old(runs), repo, r))
    {
      ghost var before := runs;
      ghost var hit := r => StaleTarget(before, repo, r);
      ghost var target := StaleWhere(before, hit, ts);
      count := 0;
      for i := 0 to |runs|
        invariant |runs| == |before| == |target|
        invariant forall j | 0 <= j < i :: runs[j] == target[j]
        invariant forall j | i <= j < |before| :: runs[j] == before[j]
        invariant count == CountRuns(before[..i], hit)
      {
        assert before[..i + 1][..i] == before[..i];
        if FreshLike(runs[i].status) && (!onlyExact || runs[i].repo == repo) {
          runs := runs[i := MarkStale(runs[i], ts)];
          count := count + 1;
        }
      }
      assert before[..|before|] == before;
      assert runs == target;
    }

    lemma {:induction false} NoTargets(all: seq<Run>, runs: seq<Run>, repo: RepoKey)
      requires !AnyFresh(runs)
      ensures CountRuns(runs, r => StaleTarget(all, repo, r)) == 0
    {
      if runs != [] {
        var n := |runs| - 1;
        assert !FreshLike(runs[n].status);
        NoTargets(all, runs[..n], repo);
      }
    }

    /** Returns how many runs were staled. */
    method MarkRepoStale(repo: RepoKey, ts: string, reason: string, staleKey: RepoKey, now: string) returns (count: nat)
      modifies this
      ensures State() == L.MarkRepoStale(old(State()), repo, ts, reason, staleKey, now)
      ensures count == CountRuns(old(runs), r => StaleTarget(old(runs), repo, r))
    {
      var any, exact, legacy := Survey(repo);
      if !any {
        NoTargets(runs, runs, repo);
        return 0;
      }
      var onlyExact := if repo == NoKey then false else if legacy && !exact then false else exact;
      count := StaleTargets(repo, onlyExact, Or(ts, now));
      staleTs, staleReason := Or(ts, now), reason;
      staleRepo := if staleKey != NoKey then staleKey else repo;
    }

    // ---- Attempts ----

    method UpsertAttempt(a: Attempt, now: string) returns (merged: Attempt)
      modifies this`attempts
      ensures (attempts, merged) == Upsert(old(attempts), a, now)
    {
      hide L.Merge;
      var key := IdentityOf(a);
      for i := 0 to |attempts|
        invariant attempts == old(attempts)
        invariant forall j | 0 <= j < i :: IdentityOf(attempts[j]) != key
      {
        if IdentityOf(attempts[i]) == key {
          merged := Merge(attempts[i], a, now);
          attempts := attempts[i := merged];
          return;
        }
      }
      attempts := attempts + [a];
      if |attempts| > MAX_ATTEMPT_HISTORY {
        attempts := attempts[|attempts| - MAX_ATTEMPT_HISTORY..];
      }
      merged := a;
    }

    method UpsertBlockingHistory(a: Attempt)
      modifies this`blocking
      ensures blocking == UpsertBlocking(old(blocking), a)
    {
      var key := IdentityOf(a);
      var found := false;
      for i := 0 to |blocking|
        invariant blocking == old(blocking)
        invariant !found && forall j | 0 <= j < i :: IdentityOf(blocking[j]) != key
      {
        if IdentityOf(blocking[i]) == key {
          blocking := blocking[i := a];
          found := true;
          break;
        }
      }
      if !found {
        blocking := blocking + [a];
      }
      if |blocking| > MAX_BLOCKING_HISTORY {
        blocking := blocking[|blocking| - MAX_BLOCKING_HISTORY..];
      }
    }

    /** The index an id has in the `existing` map: the last qualifying record. */
    method FindExisting(id: string, repo: RepoKey, exact: bool, before: nat) returns (k: int)
      ensures k == ExistingIndex(obligations, id, Some(repo), exact, before)
    {
      k := |obligations| - 1;
      assert obligations[..k + 1] == obligations;
      while k >= 0
        invariant -1 <= k < |obligations|
        invariant ExistingIndex(obligations[..k + 1], id, Some(repo), exact, before)
               == ExistingIndex(obligations, id, Some(repo), exact, before)
      {
        assert obligations[..k + 1][..k] == obligations[..k];
        var o := obligations[k];
        if o.id == id && (k >= before || (o.status == StillOpen && ScopeMatches(o.repo, Some(repo), exact))) {
          return;
        }
        k := k - 1;
      }
    }

    method MergeFinding(f: Finding, a: Attempt, exact: bool, before: nat, digest: string -> string)
      requires f.Finding?
      modifies this`obligations
      ensures obligations == ApplyFinding(old(obligations), f, a, exact, before, digest)
    {
      var id := IdFor(f, digest);
      var k := FindExisting(id, a.repo, exact, before);
      if k >= 0 {
        var o := obligations[k];
        o := o.(reason := MergeReason(o.reason, f.reason), sourceTs := a.ts, sourceMessage := a.message);
        obligations := obligations[k := o];
      } else {
        var o := Obligation(id, ItemOf(f), f.severity, f.reason, a.ts, a.message, StillOpen, "", a.repo);
        obligations := obligations + [o];
      }
    }

    method UpdateObligationsFromAttempt(a: Attempt, digest: string -> string) returns (touched: seq<string>)
      modifies this`obligations
      ensures (obligations, touched) == UpdateObligations(old(obligations), a, digest)
    {
      var exact := KeyIn(ObligationKeys(obligations), Some(a.repo));
      var before := |obligations|;
      touched := [];
      for i := 0 to |a.critical|
        invariant (obligations, touched) == ApplyFindings(old(obligations), a.critical[..i], a, exact, before, digest)
      {
        assert a.critical[..i + 1][..i] == a.critical[..i];
        if CriticalFail(a.critical[i]) {
          MergeFinding(a.critical[i], a, exact, before, digest);
          touched := touched + [IdFor(a.critical[i], digest)];
        }
      }
      assert a.critical[..|a.critical|] == a.critical;
    }

    method ResolveObligations(ids: seq<string>, who: string, scope: Option<RepoKey>) returns (count: nat)
      modifies this`obligations
      ensures obligations == L.ResolveObligations(old(obligations), ids, who, scope)
      ensures count == CountResolved(old(obligations), ids, scope, KeyIn(ObligationKeys(old(obligations)), scope))
    {
      hide L.ScopeMatches, L.KeyIn, CountResolved;
      ghost var before := obligations;
      var exact := KeyIn(ObligationKeys(obligations), scope);
      ghost var target := L.ResolveObligations(before, ids, who, scope);
      count := 0;
      CountResolvedStart(ids, scope, exact);
      for i := 0 to |obligations|
        invariant |obligations| == |before| == |target|
        invariant forall j | 0 <= j < i :: obligations[j] == target[j]
        invariant forall j | i <= j < |before| :: obligations[j] == before[j]
        invariant count == CountResolved(before[..i], ids, scope, exact)
      {
        CountResolvedStep(before, i, ids, scope, exact);
        var o := obligations[i];
        if o.id in ids && o.status == StillOpen && ScopeMatches(o.repo, scope, exact) {
          obligations := obligations[i := o.(status := Resolved, resolvedBy := who)];
          count := count + 1;
        }
      }
      assert before[..|before|] == before;
      assert obligations == target;
    }

    /** Exactly the open obligations stay, in their order. */
    method ClearResolvedObligations()
      modifies this`obligations
      ensures Q.Selects(old(obligations), obligations, IsOpen())
      ensures obligations == KeepOpen(old(obligations))
    {
      ObligationFilters(obligations, None, false);
      obligations := Q.Select(obligations, IsOpen());
    }

    method GetOpenObligations(scope: Option<RepoKey>) returns (open: seq<Obligation>)
      ensures Q.Selects(obligations, open, OpenIn(scope, KeyIn(ObligationKeys(obligations), scope)))
      ensures open == GetOpen(obligations, scope)
    {
      var exact := KeyIn(ObligationKeys(obligations), scope);
      ObligationFilters(obligations, scope, exact);
      open := Q.Select(obligations, OpenIn(scope, exact));
    }

    /** Exactly what is outside the scope stays, in its order, in both lists; the stale marker
        goes if it is the scope's or nobody's; nothing else changes. */
    method OnSuccessfulCommit(scope: Option<RepoKey>)
      modifies this`obligations, this`blocking, this`staleTs, this`staleReason, this`staleRepo
      ensures scope.None? ==> obligations == [] && blocking == []
      ensures scope.Some? ==>
                && Q.Selects(old(obligations), obligations,
                             ObligationOutside(scope, KeyIn(ObligationKeys(old(obligations)), scope)))
                && Q.Selects(old(blocking), blocking, AttemptOutside(scope, KeyIn(AttemptKeys(old(blocking)), scope)))
      ensures (staleTs, staleReason, staleRepo)
           == if scope.None? || old(staleRepo) == NoKey || scope.value == old(staleRepo) then ("", "", NoKey)
              else (old(staleTs), old(staleReason), old(staleRepo))
      ensures State() == OnSuccess(old(State()), scope)
    {
      if scope == None {
        obligations, blocking := [], [];
        staleTs, staleReason, staleRepo := "", "", NoKey;
        return;
      }
      var exact := KeyIn(ObligationKeys(obligations), scope);
      ObligationFilters(obligations, scope, exact);
      obligations := Q.Select(obligations, ObligationOutside(scope, exact));
      var exactHistory := KeyIn(AttemptKeys(blocking), scope);
      AttemptFilter(blocking, scope, exactHistory);
      blocking := Q.Select(blocking, AttemptOutside(scope, exactHistory));
      if staleRepo == NoKey || staleRepo == scope.value {
        staleTs, staleReason, staleRepo := "", "", NoKey;
      }
    }

    method NormalizeAttempt(attempt: Attempt, now: string) returns (a: Attempt)
      ensures a == Normalize(attempt, now)
    {
      a := attempt.(tool := Or(attempt.tool, DEFAULT_TOOL),
                    repo := if attempt.repo != NoKey then attempt.repo else LegacyKey,
                    blocked := attempt.blocked || attempt.status == Blocked);
      if a.started == "" {
        a := a.(started := Or(a.ts, now));
      }
      if a.ts == "" {
        a := a.(ts := a.started);
      }
      a := a.(updated := now);
      if a.status in {Blocked, Failed, Succeeded} && a.finished == "" {
        a := a.(finished := now);
      }
    }

    /** The rest of record_attempt for a blocked record. */
    method FileBlocked(m: Attempt, now: string, digest: string -> string) returns (m1: Attempt)
      modifies this
      ensures var (obs, ids) := UpdateObligations(old(obligations), m, digest);
              && m1 == m.(blocked := true, obligationIds := ids)
              && State() == old(State()).(obligations := obs, attempts := Upsert(old(attempts), m1, now).0,
                                          last := Some(m1), blocking := UpsertBlocking(old(blocking), m1))
    {
      hide L.UpdateObligations, L.Upsert, L.UpsertBlocking;
      m1 := m.(blocked := true);
      SameFindings(obligations, m, m1, digest);
      var ids := UpdateObligationsFromAttempt(m1, digest);
      m1 := m1.(obligationIds := ids);
      last := Some(m1);
      var _ := UpsertAttempt(m1, now);
      UpsertBlockingHistory(m1);
    }

    method RecordAttempt(attempt: Attempt, now: string, digest: string -> string) returns (merged: Attempt)
      modifies this
      ensures (State(), merged) == Record(old(State()), attempt, now, digest)
    {
      hide L.UpdateObligations, L.Upsert, L.UpsertBlocking, L.OnSuccess, L.Normalize;
      var a := NormalizeAttempt(attempt, now);
      merged := UpsertAttempt(a, now);
      last := Some(merged);
      if merged.status == Blocked || merged.blocked {
        merged := FileBlocked(merged, now, digest);
      } else if merged.status == Succeeded {
        OnSuccessfulCommit(Some(merged.repo));
      }
    }

    method ExpireRecords(nowTs: string, now: real, epoch: string -> Option<real>, limit: real, details: string)
      returns (expired: seq<Attempt>)
      modifies this`attempts
      ensures attempts == ExpireAll(old(attempts), nowTs, now, epoch, limit, details)
      ensures expired == ExpiredOf(old(attempts), nowTs, now, epoch, limit, details)
    {
      hide L.ExpireOne, L.Expires;
      ghost var before := attempts;
      ghost var target := ExpireAll(before, nowTs, now, epoch, limit, details);
      expired := [];
      for i := 0 to |attempts|
        invariant |attempts| == |before| == |target|
        invariant forall j | 0 <= j < i :: attempts[j] == target[j]
        invariant forall j | i <= j < |before| :: attempts[j] == before[j]
        invariant expired == ExpiredOf(before[..i], nowTs, now, epoch, limit, details)
      {
        assert before[..i + 1][..i] == before[..i];
        ExpireOneIdle(attempts[i], nowTs, now, epoch, limit, details);
        if Expires(attempts[i], now, epoch, limit) {
          attempts := attempts[i := ExpireOne(attempts[i], nowTs, now, epoch, limit, details)];
          expired := expired + [attempts[i]];
        }
      }
      assert before[..|before|] == before;
      assert attempts == target;
    }

    /** If the last attempt is among the expired ones, the newest record like it takes its place. */
    method ReplaceExpiredLast(expired: seq<Attempt>)
      requires last.Some?
      modifies this`last
      ensures var l := old(last).value; var r := LatestFor(attempts, l, KeyIn(AttemptKeys(attempts), Some(l.repo)));
              last == if (exists e | e in expired :: IdentityOf(e) == IdentityOf(l)) && r.Some? then r else old(last)
    {
      hide L.LatestFor, L.KeyIn;
      if expired != [] && exists e | e in expired :: IdentityOf(e) == IdentityOf(last.value) {
        var replacement := LatestFor(attempts, last.value, KeyIn(AttemptKeys(attempts), Some(last.value.repo)));
        if replacement.Some? {
          last := replacement;
        }
      }
    }

    /** Expires hung attempts; an unreadable time expires nothing. */
    method ExpireStaleAttempts(nowTs: string, epoch: string -> Option<real>, limit: real, details: string)
      returns (expired: seq<Attempt>)
      modifies this
      ensures State() == ExpireStale(old(State()), nowTs, epoch, limit, details)
      ensures expired == if epoch(nowTs).Some?
                         then ExpiredOf(old(attempts), nowTs, epoch(nowTs).value, epoch, limit, details) else []
    {
      hide L.ExpireAll, L.LatestFor, L.SomeExpired, L.KeyIn, L.IdentityOf, ExpiredOf;
      if epoch(nowTs).None? {
        return [];
      }
      ghost var before := attempts;
      expired := ExpireRecords(nowTs, epoch(nowTs).value, epoch, limit, details);
      if last.Some? {
        ExpiredOfNone(before, nowTs, epoch(nowTs).value, epoch, limit, details, IdentityOf(last.value));
        ReplaceExpiredLast(expired);
      }
    }

    method SyncCompatViews(now: string)
      modifies this
      ensures State() == Sync(old(State()), now)
    {
      if last.Some? {
        var _ := UpsertAttempt(last.value, now);
      } else if attempts != [] {
        last := Some(attempts[|attempts| - 1]);
      }
    }
  }

  /** The obligations depend on the attempt's findings, key and texts, not on its blocked flag. */
  lemma {:induction false} SameFindings(obs: seq<Obligation>, a: Attempt, b: Attempt, digest: string -> string)
    requires b == a.(blocked := b.blocked)
    ensures UpdateObligations(obs, a, digest) == UpdateObligations(obs, b, digest)
  {
    SameFindingsFrom(obs, a.critical, a, b, KeyIn(ObligationKeys(obs), Some(a.repo)), |obs|, digest);
  }

  lemma {:induction false} SameFindingsFrom(obs: seq<Obligation>, fs: seq<Finding>, a: Attempt, b: Attempt, exact: bool,
                                            before: nat, digest: string -> string)
    requires b == a.(blocked := b.blocked)
    ensures ApplyFindings(obs, fs, a, exact, before, digest) == ApplyFindings(obs, fs, b, exact, before, digest)
  {
    if fs != [] {
      SameFindingsFrom(obs, fs[..|fs| - 1], a, b, exact, before, digest);
    }
  }
}
