/** The durable review ledger (ouroboros/review_state.py) as values: its records, and for
    each operation the function that says what state it leaves. The class in ReviewState.dfy
    carries the operations out on its fields and is proved against these functions. */
module ReviewLedger {
  import opened Text
  import opened Options
  import Q = Sequences

  const MAX_RUN_HISTORY := 10
  const MAX_ATTEMPT_HISTORY := 50
  const MAX_BLOCKING_HISTORY := 10
  const DEFAULT_TOOL := "repo_commit"

  // ---- Repository keys and the "exact match, else legacy" scope ----

  /** "" , the legacy constant, or the path of a repository root. */
  datatype RepoKey = NoKey | LegacyKey | Named(path: string)

  /** _repo_scope_matches; no key (None) selects everything. */
  predicate ScopeMatches(record: RepoKey, scope: Option<RepoKey>, exact: bool) {
    match scope
    case None => true
    case Some(k) => record == k || (!exact && !record.Named?)
  }

  predicate KeyIn(keys: seq<RepoKey>, scope: Option<RepoKey>) {
    scope.Some? && scope.value in keys
  }

  // ---- Records ----

  datatype RunStatus = Fresh | Bypassed | Skipped | ParseFailure | Stale

  predicate FreshLike(s: RunStatus) {
    s in {Fresh, Bypassed, Skipped}
  }

  datatype Run = Run(hash: string, status: RunStatus, ts: string, repo: RepoKey, created: string, updated: string)

  datatype AttemptStatus = NoStatus | Reviewing | Blocked | Failed | Succeeded | OtherStatus(name: string)

  /** An entry of a findings list; entries that are not dictionaries are skipped. */
  datatype Finding = NotADict | Finding(verdict: string, severity: string, item: Option<string>, reason: string)

  datatype Attempt = Attempt(
    ts: string, message: string, status: AttemptStatus, hash: string, blockReason: string, blockDetails: string,
    duration: real, task: string, critical: seq<Finding>, repo: RepoKey, tool: string, number: int, phase: string,
    blocked: bool, advisory: seq<Finding>, obligationIds: seq<string>, warnings: seq<string>, late: bool,
    preFingerprint: string, postFingerprint: string, fingerprintStatus: string, degraded: seq<string>,
    started: string, updated: string, finished: string)

  datatype ObligationStatus = StillOpen | Resolved

  datatype Obligation = Obligation(id: string, item: string, severity: string, reason: string,
                                   sourceTs: string, sourceMessage: string, status: ObligationStatus,
                                   resolvedBy: string, repo: RepoKey)

  datatype Ledger = Ledger(runs: seq<Run>, attempts: seq<Attempt>, last: Option<Attempt>, blocking: seq<Attempt>,
                           obligations: seq<Obligation>, staleTs: string, staleReason: string, staleRepo: RepoKey)

  const EMPTY_LEDGER := Ledger([], [], None, [], [], "", "", NoKey)

  /** The last n elements: Python's list[-n:] for a list longer than n. */
  function LastN<T>(s: seq<T>, n: nat): (r: seq<T>)
    ensures |r| <= n && |r| <= |s| && r == s[|s| - |r|..]
  {
    if |s| > n then s[|s| - n..] else s
  }

  /** Python's `a or b` on strings. */
  function Or(a: string, b: string): string {
    if a != "" then a else b
  }

  // ---- Advisory runs ----

  function RunKeys(runs: seq<Run>): (keys: seq<RepoKey>)
    ensures |keys| == |runs| && forall i | 0 <= i < |runs| :: keys[i] == runs[i].repo
  {
    seq(|runs|, i requires 0 <= i < |runs| => runs[i].repo)
  }

  function FindLastRun(runs: seq<Run>, hash: string, scope: Option<RepoKey>, exact: bool): Option<Run> {
    if runs == [] then None
    else
      var r := runs[|runs| - 1];
      if r.hash == hash && ScopeMatches(r.repo, scope, exact) then Some(r)
      else FindLastRun(runs[..|runs| - 1], hash, scope, exact)
  }

  /** find_by_hash */
  function FindByHash(runs: seq<Run>, hash: string, scope: Option<RepoKey>): Option<Run> {
    FindLastRun(runs, hash, scope, KeyIn(RunKeys(runs), scope))
  }

  /** is_fresh */
  predicate IsFresh(runs: seq<Run>, hash: string, scope: Option<RepoKey>) {
    var r := FindByHash(runs, hash, scope);
    r.Some? && FreshLike(r.value.status)
  }

  function MarkStale(r: Run, ts: string): Run {
    r.(status := Stale, updated := ts)
  }

  /** Stale every run of the list that a test selects. */
  function StaleWhere(runs: seq<Run>, hit: Run -> bool, ts: string): (r: seq<Run>)
    ensures |r| == |runs|
    ensures forall i | 0 <= i < |runs| :: r[i] == if hit(runs[i]) then MarkStale(runs[i], ts) else runs[i]
  {
    seq(|runs|, i requires 0 <= i < |runs| => if hit(runs[i]) then MarkStale(runs[i], ts) else runs[i])
  }

  /** Which runs mark_all_stale_except(hash, repo) stales: an empty key means every repository. */
  predicate OtherFresh(r: Run, hash: string, repo: RepoKey) {
    (repo == NoKey || r.repo == repo) && r.hash != hash && FreshLike(r.status)
  }

  function MarkAllStaleExcept(runs: seq<Run>, hash: string, repo: RepoKey, now: string): seq<Run> {
    StaleWhere(runs, r => OtherFresh(r, hash, repo), now)
  }

  function MarkHashStale(runs: seq<Run>, hash: string, now: string): seq<Run> {
    StaleWhere(runs, (r: Run) => r.hash == hash, now)
  }

  function AddRun(s: Ledger, run: Run, now: string): Ledger {
    var created := Or(run.created, Or(run.ts, now));
    var r := run.(created := created, updated := Or(run.updated, created));
    var runs := LastN(MarkAllStaleExcept(s.runs, r.hash, r.repo, now) + [r], MAX_RUN_HISTORY);
    if r.status == Stale then s.(runs := runs)
    else s.(runs := runs, staleTs := "", staleReason := "", staleRepo := NoKey)
  }

  predicate AnyFresh(runs: seq<Run>) {
    exists i | 0 <= i < |runs| :: FreshLike(runs[i].status)
  }

  predicate AnyFreshOf(runs: seq<Run>, repo: RepoKey) {
    exists i | 0 <= i < |runs| :: FreshLike(runs[i].status) && runs[i].repo == repo
  }

  /** The fresh runs mark_repo_stale(repo) targets: those of the repository if there are
      any, and otherwise (the two branches of the code agree) all of them. */
  predicate StaleTarget(runs: seq<Run>, repo: RepoKey, r: Run) {
    FreshLike(r.status) && (r.repo == repo || repo == NoKey || !AnyFreshOf(runs, repo))
  }

  function MarkRepoStale(s: Ledger, repo: RepoKey, ts: string, reason: string, staleRepo: RepoKey,
                         now: string): Ledger {
    if !AnyFresh(s.runs) then s
    else
      s.(runs := StaleWhere(s.runs, r => StaleTarget(s.runs, repo, r), Or(ts, now)),
         staleTs := Or(ts, now), staleReason := reason,
         staleRepo := if staleRepo != NoKey then staleRepo else repo)
  }

  // ---- Attempts ----

  datatype Token = ByNumber(n: int) | ByTime(ts: string)
  datatype Identity = Identity(repo: RepoKey, tool: string, task: string, token: Token)

  /** _attempt_identity_tuple */
  function IdentityOf(a: Attempt): Identity {
    Identity(if a.repo == NoKey then LegacyKey else a.repo, Or(a.tool, DEFAULT_TOOL), a.task,
             if a.number > 0 then ByNumber(a.number) else ByTime(Or(a.started, a.ts)))
  }

  /** _merge_attempt; `now` is used only when neither record has an update time. */
  function Merge(existing: Attempt, incoming: Attempt, now: string): Attempt {
    Attempt(
      Or(incoming.ts, existing.ts),
      Or(incoming.message, existing.message),
      if incoming.status != NoStatus then incoming.status else existing.status,
      Or(incoming.hash, existing.hash),
      Or(incoming.blockReason, existing.blockReason),
      Or(incoming.blockDetails, existing.blockDetails),
      if incoming.duration != 0.0 then incoming.duration else existing.duration,
      Or(incoming.task, existing.task),
      incoming.critical,
      if incoming.repo != NoKey then incoming.repo else existing.repo,
      Or(incoming.tool, existing.tool),
      if incoming.number != 0 then incoming.number else existing.number,
      Or(incoming.phase, existing.phase),
      incoming.blocked || incoming.status == Blocked,
      incoming.advisory,
      incoming.obligationIds,
      incoming.warnings,
      incoming.late,
      Or(incoming.preFingerprint, existing.preFingerprint),
      Or(incoming.postFingerprint, existing.postFingerprint),
      Or(incoming.fingerprintStatus, existing.fingerprintStatus),
      if incoming.degraded != [] then incoming.degraded else existing.degraded,
      Or(existing.started, Or(incoming.started, existing.ts)),
      Or(incoming.updated, Or(existing.updated, now)),
      Or(incoming.finished, existing.finished))
  }

  /** Index of the first record with the identity, or the length. */
  function IndexOf(attempts: seq<Attempt>, id: Identity): (k: nat)
    ensures k <= |attempts|
    ensures k < |attempts| ==> IdentityOf(attempts[k]) == id
    ensures forall i | 0 <= i < k :: IdentityOf(attempts[i]) != id
  {
    if attempts == [] then 0
    else if IdentityOf(attempts[0]) == id then 0
    else 1 + IndexOf(attempts[1..], id)
  }

  /** _upsert_attempt: the new list and the record it returns. */
  function Upsert(attempts: seq<Attempt>, a: Attempt, now: string): (seq<Attempt>, Attempt) {
    var k := IndexOf(attempts, IdentityOf(a));
    if k < |attempts| then
      var m := Merge(attempts[k], a, now);
      (attempts[k := m], m)
    else (LastN(attempts + [a], MAX_ATTEMPT_HISTORY), a)
  }

  /** _upsert_blocking_history: replaces instead of merging. */
  function UpsertBlocking(history: seq<Attempt>, a: Attempt): seq<Attempt> {
    var k := IndexOf(history, IdentityOf(a));
    LastN(if k < |history| then history[k := a] else history + [a], MAX_BLOCKING_HISTORY)
  }

  /** What record_attempt fills in before it touches the ledger. */
  function Normalize(a: Attempt, now: string): Attempt {
    var started := Or(a.started, Or(a.ts, now));
    a.(tool := Or(a.tool, DEFAULT_TOOL),
       repo := if a.repo == NoKey then LegacyKey else a.repo,
       blocked := a.blocked || a.status == Blocked,
       started := started,
       ts := Or(a.ts, started),
       updated := now,
       finished := if a.status in {Blocked, Failed, Succeeded} && a.finished == "" then now else a.finished)
  }

  // ---- Obligations ----

  /** ASCII str.upper() */
  function Upper(s: string): string {
    seq(|s|, i requires 0 <= i < |s| => if 'a' <= s[i] <= 'z' then s[i] - 'a' + 'A' else s[i])
  }

  predicate CriticalFail(f: Finding) {
    f.Finding? && Upper(f.verdict) == "FAIL" && Upper(f.severity) == "CRITICAL"
  }

  function ItemOf(f: Finding): string
    requires f.Finding?
  {
    if f.item.Some? then f.item.value else "unknown"
  }

  /** The fingerprint hashes item and reason joined with a colon; `digest` stands for the hash. */
  function IdFor(f: Finding, digest: string -> string): string
    requires f.Finding?
  {
    digest(ItemOf(f) + ":" + f.reason)
  }

  function NonEmptyStripped(parts: seq<string>): seq<string> {
    if parts == [] then []
    else (if Strip(parts[0]) != "" then [Strip(parts[0])] else []) + NonEmptyStripped(parts[1..])
  }

  /** The reason text after a finding with the same fingerprint reappears. */
  function MergeReason(old_: string, reason: string): string {
    var prev := NonEmptyStripped(SplitAll(old_, " | "));
    if Strip(reason) in prev then old_
    else if prev == [] then reason
    else Join(prev + [Strip(reason)], " | ")
  }

  function ObligationKeys(obs: seq<Obligation>): (keys: seq<RepoKey>)
    ensures |keys| == |obs| && forall i | 0 <= i < |obs| :: keys[i] == obs[i].repo
  {
    seq(|obs|, i requires 0 <= i < |obs| => obs[i].repo)
  }

  function FilterOpen(obs: seq<Obligation>, scope: Option<RepoKey>, exact: bool): (r: seq<Obligation>)
    ensures forall o :: o in r <==> o in obs && o.status == StillOpen && ScopeMatches(o.repo, scope, exact)
  {
    if obs == [] then []
    else
      (if obs[0].status == StillOpen && ScopeMatches(obs[0].repo, scope, exact) then [obs[0]] else [])
      + FilterOpen(obs[1..], scope, exact)
  }

  /** get_open_obligations */
  function GetOpen(obs: seq<Obligation>, scope: Option<RepoKey>): seq<Obligation> {
    FilterOpen(obs, scope, KeyIn(ObligationKeys(obs), scope))
  }

  /** The records `existing` holds in _update_obligations_from_attempt: the scope is decided
      once, on entry; the last record with an id wins, and records added on the way join. */
  function ExistingIndex(obs: seq<Obligation>, id: string, scope: Option<RepoKey>, exact: bool, before: nat): (k: int)
    ensures k < |obs|
    ensures k >= 0 ==> obs[k].id == id
                       && (k >= before || (obs[k].status == StillOpen && ScopeMatches(obs[k].repo, scope, exact)))
    ensures k < 0 ==> forall i | 0 <= i < |obs| :: obs[i].id == id ==>
              i < before && !(obs[i].status == StillOpen && ScopeMatches(obs[i].repo, scope, exact))
  {
    if obs == [] then -1
    else
      var n := |obs| - 1;
      if obs[n].id == id && (n >= before || (obs[n].status == StillOpen && ScopeMatches(obs[n].repo, scope, exact)))
      then n
      else ExistingIndex(obs[..n], id, scope, exact, before)
  }

  /** One critical finding of a blocked attempt is merged into the open obligations. */
  function ApplyFinding(obs: seq<Obligation>, f: Finding, a: Attempt, exact: bool, before: nat,
                        digest: string -> string): seq<Obligation>
    requires f.Finding?
  {
    var id := IdFor(f, digest);
    var k := ExistingIndex(obs, id, Some(a.repo), exact, before);
    if k >= 0 then
      obs[k := obs[k].(reason := MergeReason(obs[k].reason, f.reason), sourceTs := a.ts, sourceMessage := a.message)]
    else
      obs + [Obligation(id, ItemOf(f), f.severity, f.reason, a.ts, a.message, StillOpen, "", a.repo)]
  }

  function ApplyFindings(obs: seq<Obligation>, fs: seq<Finding>, a: Attempt, exact: bool, before: nat,
                         digest: string -> string): (seq<Obligation>, seq<string>)
  {
    if fs == [] then (obs, [])
    else
      var n := |fs| - 1;
      var (o, ids) := ApplyFindings(obs, fs[..n], a, exact, before, digest);
      if CriticalFail(fs[n]) then (ApplyFinding(o, fs[n], a, exact, before, digest), ids + [IdFor(fs[n], digest)])
      else (o, ids)
  }

  /** _update_obligations_from_attempt */
  function UpdateObligations(obs: seq<Obligation>, a: Attempt, digest: string -> string)
    : (seq<Obligation>, seq<string>)
  {
    ApplyFindings(obs, a.critical, a, KeyIn(ObligationKeys(obs), Some(a.repo)), |obs|, digest)
  }

  function ResolveOne(o: Obligation, ids: seq<string>, who: string, scope: Option<RepoKey>, exact: bool): Obligation {
    if o.id in ids && o.status == StillOpen && ScopeMatches(o.repo, scope, exact)
    then o.(status := Resolved, resolvedBy := who) else o
  }

  /** resolve_obligations */
  function ResolveObligations(obs: seq<Obligation>, ids: seq<string>, who: string,
                              scope: Option<RepoKey>): (r: seq<Obligation>)
    ensures |r| == |obs|
    ensures forall i | 0 <= i < |obs| :: r[i] == ResolveOne(obs[i], ids, who, scope, KeyIn(ObligationKeys(obs), scope))
  {
    seq(|obs|, i requires 0 <= i < |obs| => ResolveOne(obs[i], ids, who, scope, KeyIn(ObligationKeys(obs), scope)))
  }

  function KeepOpen(obs: seq<Obligation>): (r: seq<Obligation>)
    ensures forall o :: o in r <==> o in obs && o.status == StillOpen
  {
    if obs == [] then []
    else (if obs[0].status == StillOpen then [obs[0]] else []) + KeepOpen(obs[1..])
  }

  function DropScope(obs: seq<Obligation>, scope: Option<RepoKey>, exact: bool): (r: seq<Obligation>)
    ensures forall o :: o in r <==> o in obs && !ScopeMatches(o.repo, scope, exact)
  {
    if obs == [] then []
    else (if ScopeMatches(obs[0].repo, scope, exact) then [] else [obs[0]]) + DropScope(obs[1..], scope, exact)
  }

  function DropAttempts(history: seq<Attempt>, scope: Option<RepoKey>, exact: bool): (r: seq<Attempt>)
    ensures forall a :: a in r <==> a in history && !ScopeMatches(a.repo, scope, exact)
    ensures |r| <= |history|
  {
    if history == [] then []
    else
      (if ScopeMatches(history[0].repo, scope, exact) then [] else [history[0]])
      + DropAttempts(history[1..], scope, exact)
  }

  // ---- What these lists select ----

  function OpenIn(scope: Option<RepoKey>, exact: bool): Obligation -> bool {
    (o: Obligation) => o.status == StillOpen && ScopeMatches(o.repo, scope, exact)
  }

  function IsOpen(): Obligation -> bool {
    (o: Obligation) => o.status == StillOpen
  }

  function ObligationOutside(scope: Option<RepoKey>, exact: bool): Obligation -> bool {
    (o: Obligation) => !ScopeMatches(o.repo, scope, exact)
  }

  function AttemptOutside(scope: Option<RepoKey>, exact: bool): Attempt -> bool {
    (a: Attempt) => !ScopeMatches(a.repo, scope, exact)
  }

  lemma {:induction false} ObligationFilters(obs: seq<Obligation>, scope: Option<RepoKey>, exact: bool)
    ensures FilterOpen(obs, scope, exact) == Q.Filter(obs, OpenIn(scope, exact))
    ensures KeepOpen(obs) == Q.Filter(obs, IsOpen())
    ensures DropScope(obs, scope, exact) == Q.Filter(obs, ObligationOutside(scope, exact))
  {
    if obs != [] {
      ObligationFilters(obs[1..], scope, exact);
    }
  }

  lemma {:induction false} AttemptFilter(history: seq<Attempt>, scope: Option<RepoKey>, exact: bool)
    ensures DropAttempts(history, scope, exact) == Q.Filter(history, AttemptOutside(scope, exact))
  {
    if history != [] {
      AttemptFilter(history[1..], scope, exact);
    }
  }

  function AttemptKeys(attempts: seq<Attempt>): (keys: seq<RepoKey>)
    ensures |keys| == |attempts| && forall i | 0 <= i < |attempts| :: keys[i] == attempts[i].repo
  {
    seq(|attempts|, i requires 0 <= i < |attempts| => attempts[i].repo)
  }

  /** on_successful_commit */
  function OnSuccess(s: Ledger, scope: Option<RepoKey>): Ledger {
    if scope == None then
      s.(obligations := [], blocking := [], staleTs := "", staleReason := "", staleRepo := NoKey)
    else
      var s1 := s.(obligations := DropScope(s.obligations, scope, KeyIn(ObligationKeys(s.obligations), scope)),
                   blocking := DropAttempts(s.blocking, scope, KeyIn(AttemptKeys(s.blocking), scope)));
      if s.staleRepo == NoKey || s.staleRepo == scope.value
      then s1.(staleTs := "", staleReason := "", staleRepo := NoKey) else s1
  }

  // ---- Recording and expiry ----

  /** record_attempt: the new state and the merged record. */
  function Record(s: Ledger, a: Attempt, now: string, digest: string -> string): (Ledger, Attempt) {
    var (attempts, m) := Upsert(s.attempts, Normalize(a, now), now);
    var s1 := s.(attempts := attempts, last := Some(m));
    if m.status == Blocked || m.blocked then
      var (obs, ids) := UpdateObligations(s.obligations, m, digest);
      var m1 := m.(blocked := true, obligationIds := ids);
      (s1.(obligations := obs, attempts := Upsert(attempts, m1, now).0, last := Some(m1),
           blocking := UpsertBlocking(s.blocking, m1)), m1)
    else if m.status == Succeeded then (OnSuccess(s1, Some(m.repo)), m)
    else (s1, m)
  }

  const EXPIRED_WARNING := "Previous reviewed attempt auto-expired after exceeding TTL+grace."

  function Max(a: real, b: real): real {
    if a >= b then a else b
  }

  /** _dedupe_strings */
  function Dedupe(items: seq<string>): (r: seq<string>)
    ensures forall i, j | 0 <= i < j < |r| :: r[i] != r[j]
  {
    if items == [] then []
    else
      var n := |items| - 1;
      var r := Dedupe(items[..n]);
      var t := Strip(items[n]);
      if t == "" || t in r then r else r + [t]
  }

  /** Whether expire_stale_attempts expires a record, at a time it can parse. */
  predicate Expires(a: Attempt, now: real, epoch: string -> Option<real>, limit: real) {
    && (a.status == Reviewing || a.late)
    && epoch(Or(a.started, a.ts)).Some?
    && Max(0.0, now - epoch(Or(a.started, a.ts)).value) >= limit
  }

  /** round(x, 1): the nearest tenth, and of two equally near ones the even one. */
  function Round1(x: real): (r: real)
    ensures -0.05 <= r - x <= 0.05
  {
    var k := (10.0 * x).Floor;
    var over := 10.0 * x - k as real;
    (if over < 0.5 || (over == 0.5 && k % 2 == 0) then k else k + 1) as real / 10.0
  }

  function ExpireOne(a: Attempt, nowTs: string, now: real, epoch: string -> Option<real>, limit: real,
                     details: string): Attempt {
    if !Expires(a, now, epoch, limit) then a
    else
      a.(status := Failed, phase := "expired", blocked := false, blockReason := "infra_failure",
         blockDetails := details,
         duration := Max(a.duration, Round1(Max(0.0, now - epoch(Or(a.started, a.ts)).value))),
         finished := nowTs, updated := nowTs, late := false,
         warnings := Dedupe(a.warnings + [EXPIRED_WARNING]))
  }

  function ExpireAll(attempts: seq<Attempt>, nowTs: string, now: real, epoch: string -> Option<real>, limit: real,
                     details: string): (r: seq<Attempt>)
    ensures |r| == |attempts|
    ensures forall i | 0 <= i < |attempts| :: r[i] == ExpireOne(attempts[i], nowTs, now, epoch, limit, details)
  {
    seq(|attempts|, i requires 0 <= i < |attempts| => ExpireOne(attempts[i], nowTs, now, epoch, limit, details))
  }

  /** latest_attempt_for with all four filters given: the last record that matches. */
  function LatestFor(attempts: seq<Attempt>, like: Attempt, exact: bool): Option<Attempt> {
    if attempts == [] then None
    else
      var a := attempts[|attempts| - 1];
      if ScopeMatches(a.repo, Some(like.repo), exact) && a.tool == like.tool && a.task == like.task
          && a.number == like.number
      then Some(a)
      else LatestFor(attempts[..|attempts| - 1], like, exact)
  }

  predicate SomeExpired(attempts: seq<Attempt>, id: Identity, now: real, epoch: string -> Option<real>, limit: real) {
    exists i | 0 <= i < |attempts| :: Expires(attempts[i], now, epoch, limit) && IdentityOf(attempts[i]) == id
  }

  /** expire_stale_attempts */
  function ExpireStale(s: Ledger, nowTs: string, epoch: string -> Option<real>, limit: real, details: string): Ledger {
    if epoch(nowTs).None? then s
    else
      var now := epoch(nowTs).value;
      var attempts := ExpireAll(s.attempts, nowTs, now, epoch, limit, details);
      var s1 := s.(attempts := attempts);
      if s.last.Some? && SomeExpired(s.attempts, IdentityOf(s.last.value), now, epoch, limit) then
        var r := LatestFor(attempts, s.last.value, KeyIn(AttemptKeys(attempts), Some(s.last.value.repo)));
        if r.Some? then s1.(last := r) else s1
      else s1
  }

  // ---- Saving and loading ----

  /** _sync_compat_views, run before every save. */
  function Sync(s: Ledger, now: string): Ledger {
    if s.last.Some? then s.(attempts := Upsert(s.attempts, s.last.value, now).0)
    else if s.attempts != [] then s.(last := Some(s.attempts[|s.attempts| - 1]))
    else s
  }

  /** Records of `history` whose identity is not yet in `recovered` are added in order. */
  function Recover(recovered: seq<Attempt>, history: seq<Attempt>): seq<Attempt>
    decreases |history|
  {
    if history == [] then recovered
    else if exists i | 0 <= i < |recovered| :: IdentityOf(recovered[i]) == IdentityOf(history[0])
    then Recover(recovered, history[1..])
    else Recover(recovered + [history[0]], history[1..])
  }

  /** What _load_state_unlocked repairs after reading the fields back. */
  function Load(s: Ledger): Ledger {
    var s1 :=
      if s.attempts == [] then s.(attempts := Recover(if s.last.Some? then [s.last.value] else [], s.blocking)) else s;
    if s1.attempts != [] && s1.last == None then s1.(last := Some(s1.attempts[|s1.attempts| - 1])) else s1
  }

  // ---- The commit gate ----

  /** repo_commit_ready in collect_review_evidence: an empty key means no scope, and
      without a snapshot hash there is no current run. */
  predicate CommitReady(s: Ledger, hash: string, repo: RepoKey) {
    var scope := if repo == NoKey then None else Some(repo);
    hash != "" && IsFresh(s.runs, hash, scope) && GetOpen(s.obligations, scope) == []
  }
}
