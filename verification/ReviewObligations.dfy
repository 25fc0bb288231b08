/** What keeps a repository from committing: obligations left by blocked attempts. */
module ReviewObligations {
  import opened Text
  import opened Options
  import opened ReviewLedger
  import opened ReviewRuns
  import Q = Sequences

  // ---- One blocked attempt, any mixture of keys ----

  predicate SameBut(new_: Obligation, old_: Obligation) {
    new_ == old_.(reason := new_.reason, sourceTs := new_.sourceTs, sourceMessage := new_.sourceMessage)
  }

  /** Recording keeps every obligation's place, identity and status, and adds open ones
      of the attempt's repository only. */
  predicate Extends(new_: seq<Obligation>, old_: seq<Obligation>, repo: RepoKey) {
    && |new_| >= |old_|
    && (forall i | 0 <= i < |old_| :: SameBut(new_[i], old_[i]))
    && (forall i | |old_| <= i < |new_| :: new_[i].repo == repo && new_[i].status == StillOpen)
  }

  lemma {:induction false} FindingsExtend(obs: seq<Obligation>, fs: seq<Finding>, a: Attempt, exact: bool,
                                          digest: string -> string)
    ensures Extends(ApplyFindings(obs, fs, a, exact, |obs|, digest).0, obs, a.repo)
  {
    if fs != [] {
      var n := |fs| - 1;
      FindingsExtend(obs, fs[..n], a, exact, digest);
    }
  }

  /** An obligation with the finding's id that the attempt's `existing` map can hold. */
  predicate Holds(obs: seq<Obligation>, id: string, repo: RepoKey, exact: bool, before: nat, i: int) {
    && 0 <= i < |obs| && obs[i].id == id && obs[i].status == StillOpen
    && (i >= before || ScopeMatches(obs[i].repo, Some(repo), exact))
  }

  lemma {:induction false} FindingsHeld(obs: seq<Obligation>, fs: seq<Finding>, a: Attempt, exact: bool,
                                        digest: string -> string, f: Finding)
    requires f in fs && CriticalFail(f)
    ensures exists i :: Holds(ApplyFindings(obs, fs, a, exact, |obs|, digest).0, IdFor(f, digest),
                              a.repo, exact, |obs|, i)
  {
    hide IdFor, MergeReason;
    var n := |fs| - 1;
    var o := ApplyFindings(obs, fs[..n], a, exact, |obs|, digest).0;
    var o' := ApplyFindings(obs, fs, a, exact, |obs|, digest).0;
    FindingsExtend(obs, fs[..n], a, exact, digest);
    FindingsExtend(obs, fs, a, exact, digest);
    if f == fs[n] {
      var k := ExistingIndex(o, IdFor(f, digest), Some(a.repo), exact, |obs|);
      assert Holds(o', IdFor(f, digest), a.repo, exact, |obs|, if k >= 0 then k else |o|);
    } else {
      assert fs == fs[..n] + [fs[n]];
      FindingsHeld(obs, fs[..n], a, exact, digest, f);
      var i :| Holds(o, IdFor(f, digest), a.repo, exact, |obs|, i);
      assert Holds(o', IdFor(f, digest), a.repo, exact, |obs|, i);
    }
  }

  /** Every new obligation is some finding's, and that finding's id was not held on entry. */
  lemma {:induction false} AddedHaveReason(obs: seq<Obligation>, fs: seq<Finding>, a: Attempt, exact: bool,
                                           digest: string -> string, i: int)
    requires |obs| <= i < |ApplyFindings(obs, fs, a, exact, |obs|, digest).0|
    ensures exists f | f in fs ::
              CriticalFail(f) && ApplyFindings(obs, fs, a, exact, |obs|, digest).0[i].id == IdFor(f, digest)
    ensures !exists k :: k < |obs|
                         && Holds(obs, ApplyFindings(obs, fs, a, exact, |obs|, digest).0[i].id, a.repo, exact, |obs|, k)
  {
    hide MergeReason;
    var n := |fs| - 1;
    var o := ApplyFindings(obs, fs[..n], a, exact, |obs|, digest).0;
    var o' := ApplyFindings(obs, fs, a, exact, |obs|, digest).0;
    FindingsExtend(obs, fs[..n], a, exact, digest);
    assert fs == fs[..n] + [fs[n]];
    if i < |o| {
      AddedHaveReason(obs, fs[..n], a, exact, digest, i);
      assert o'[i].id == o[i].id;
      var f :| f in fs[..n] && CriticalFail(f) && o[i].id == IdFor(f, digest);
      assert f in fs;
    } else {
      assert CriticalFail(fs[n]) && o'[i].id == IdFor(fs[n], digest);
      forall k | k < |obs|
        ensures !Holds(obs, o'[i].id, a.repo, exact, |obs|, k)
      {
        if 0 <= k {
          assert SameBut(o[k], obs[k]);
        }
      }
    }
  }

  /** Visible to the gate: among what get_open_obligations returns for the repository. */
  ghost predicate Visible(obs: seq<Obligation>, id: string, repo: RepoKey) {
    exists o :: o in GetOpen(obs, Some(repo)) && o.id == id
  }

  /** An open obligation without a named key carries the id, and the repository has no
      obligation of its own: the record a finding of the repository is merged into. */
  predicate BorrowedId(obs: seq<Obligation>, id: string, repo: RepoKey) {
    repo !in ObligationKeys(obs) && exists i | 0 <= i < |obs| ::
          obs[i].id == id && obs[i].status == StillOpen && !obs[i].repo.Named?
  }

  lemma {:induction false} BorrowedHeld(obs: seq<Obligation>, id: string, repo: RepoKey)
    ensures BorrowedId(obs, id, repo) ==> exists k :: k < |obs| && Holds(obs, id, repo, false, |obs|, k)
  {
    if BorrowedId(obs, id, repo) {
      var i :| 0 <= i < |obs| && obs[i].id == id && obs[i].status == StillOpen && !obs[i].repo.Named?;
      assert Holds(obs, id, repo, false, |obs|, i);
    }
  }

  ghost predicate AllVisible(obs: seq<Obligation>, a: Attempt, digest: string -> string) {
    forall f | f in a.critical && CriticalFail(f) :: Visible(obs, IdFor(f, digest), a.repo)
  }

  /** For any mixture of keys, a blocked attempt leaves every one of its critical findings
      visible to its repository's gate exactly when the findings do not straddle: either all
      of them or none of them is merged into an obligation without a named key. */
  lemma {:induction false} FindingsVisibleIff(obs: seq<Obligation>, a: Attempt, digest: string -> string)
    ensures AllVisible(UpdateObligations(obs, a, digest).0, a, digest)
       <==> || (forall f | f in a.critical && CriticalFail(f) :: BorrowedId(obs, IdFor(f, digest), a.repo))
            || (forall f | f in a.critical && CriticalFail(f) :: !BorrowedId(obs, IdFor(f, digest), a.repo))
  {
    var exact := KeyIn(ObligationKeys(obs), Some(a.repo));
    var obs' := UpdateObligations(obs, a, digest).0;
    FindingsExtend(obs, a.critical, a, exact, digest);
    var exact' := KeyIn(ObligationKeys(obs'), Some(a.repo));
    assert exact' <==> exact || |obs'| > |obs| by {
      KeysAfter(obs, obs', a.repo);
    }
    forall f | f in a.critical && CriticalFail(f)
      ensures Visible(obs', IdFor(f, digest), a.repo) <==> !(exact' && BorrowedId(obs, IdFor(f, digest), a.repo))
    {
      VisibleOne(obs, a, digest, f);
    }
    if |obs'| > |obs| {
      AddedHaveReason(obs, a.critical, a, exact, digest, |obs|);
      var f :| f in a.critical && CriticalFail(f) && obs'[|obs|].id == IdFor(f, digest);
      BorrowedHeld(obs, IdFor(f, digest), a.repo);
    }
    if !exact' {
      forall f | f in a.critical && CriticalFail(f)
        ensures BorrowedId(obs, IdFor(f, digest), a.repo)
      {
        FindingsHeld(obs, a.critical, a, exact, digest, f);
        var i :| Holds(obs', IdFor(f, digest), a.repo, exact, |obs|, i);
        assert SameBut(obs'[i], obs[i]);
        assert ObligationKeys(obs)[i] == obs[i].repo;
      }
    }
  }

  lemma {:induction false} KeysAfter(obs: seq<Obligation>, obs': seq<Obligation>, repo: RepoKey)
    requires Extends(obs', obs, repo)
    ensures repo in ObligationKeys(obs') <==> repo in ObligationKeys(obs) || |obs'| > |obs|
  {
    var k, k' := ObligationKeys(obs), ObligationKeys(obs');
    assert k'[..|obs|] == k by {
      assert forall i | 0 <= i < |obs| :: SameBut(obs'[i], obs[i]);
    }
    if |obs'| > |obs| {
      assert k'[|obs|] == repo;
    }
  }

  lemma {:induction false} VisibleOne(obs: seq<Obligation>, a: Attempt, digest: string -> string, f: Finding)
    requires f in a.critical && CriticalFail(f)
    ensures var obs' := UpdateObligations(obs, a, digest).0;
            (Visible(obs', IdFor(f, digest), a.repo)
             <==> !(a.repo in ObligationKeys(obs') && BorrowedId(obs, IdFor(f, digest), a.repo)))
  {
    hide IdFor, ApplyFindings, FilterOpen;
    var exact := KeyIn(ObligationKeys(obs), Some(a.repo));
    var obs' := UpdateObligations(obs, a, digest).0;
    var id := IdFor(f, digest);
    FindingsExtend(obs, a.critical, a, exact, digest);
    KeysAfter(obs, obs', a.repo);
    FindingsHeld(obs, a.critical, a, exact, digest, f);
    var i :| Holds(obs', id, a.repo, exact, |obs|, i);
    assert ObligationKeys(obs')[i] == obs'[i].repo;
    if i < |obs| {
      assert SameBut(obs'[i], obs[i]);
      assert ObligationKeys(obs)[i] == obs[i].repo;
    }
    if !(a.repo in ObligationKeys(obs') && BorrowedId(obs, id, a.repo)) {
      assert obs'[i] in GetOpen(obs', Some(a.repo));
    } else if Visible(obs', id, a.repo) {
      var o :| o in GetOpen(obs', Some(a.repo)) && o.id == id;
      var j :| 0 <= j < |obs'| && obs'[j] == o;
      assert o.repo == a.repo;
      BorrowedStays(obs, a, digest, id, j);
    }
  }

  /** An id borrowed on entry never gets an obligation of the repository's own. */
  lemma {:induction false} BorrowedStays(obs: seq<Obligation>, a: Attempt, digest: string -> string, id: string, j: int)
    requires BorrowedId(obs, id, a.repo)
    requires 0 <= j < |UpdateObligations(obs, a, digest).0|
    requires UpdateObligations(obs, a, digest).0[j].id == id
    ensures UpdateObligations(obs, a, digest).0[j].repo != a.repo
  {
    var exact := KeyIn(ObligationKeys(obs), Some(a.repo));
    FindingsExtend(obs, a.critical, a, exact, digest);
    if j < |obs| {
      assert ObligationKeys(obs)[j] == obs[j].repo;
      assert SameBut(UpdateObligations(obs, a, digest).0[j], obs[j]);
    } else {
      AddedHaveReason(obs, a.critical, a, exact, digest, j);
      var i :| 0 <= i < |obs| && obs[i].id == id && obs[i].status == StillOpen && !obs[i].repo.Named?;
      assert Holds(obs, id, a.repo, exact, |obs|, i);
    }
  }

  /** The attempt opens an obligation of its own for some finding. */
  ghost predicate OpensOne(obs: seq<Obligation>, a: Attempt, digest: string -> string) {
    exists f | f in a.critical :: CriticalFail(f) && !BorrowedId(obs, IdFor(f, digest), a.repo)
  }

  /** For a repository without obligations: the list grows exactly if some finding is not merged. */
  lemma {:induction false} GrowsIff(obs: seq<Obligation>, a: Attempt, digest: string -> string)
    requires a.repo !in ObligationKeys(obs)
    ensures |UpdateObligations(obs, a, digest).0| > |obs| <==> OpensOne(obs, a, digest)
  {
    hide IdFor, ApplyFindings;
    var exact := KeyIn(ObligationKeys(obs), Some(a.repo));
    var obs' := UpdateObligations(obs, a, digest).0;
    FindingsExtend(obs, a.critical, a, exact, digest);
    assert forall i | 0 <= i < |obs| :: SameBut(obs'[i], obs[i]) && ObligationKeys(obs)[i] == obs[i].repo;
    if |obs'| > |obs| {
      AddedHaveReason(obs, a.critical, a, exact, digest, |obs|);
      var f :| f in a.critical && CriticalFail(f) && obs'[|obs|].id == IdFor(f, digest);
      BorrowedHeld(obs, IdFor(f, digest), a.repo);
    }
    if OpensOne(obs, a, digest) {
      var f :| f in a.critical && CriticalFail(f) && !BorrowedId(obs, IdFor(f, digest), a.repo);
      FindingsHeld(obs, a.critical, a, exact, digest, f);
      var i :| Holds(obs', IdFor(f, digest), a.repo, exact, |obs|, i);
      assert i < |obs'|;
    }
  }

  /** What a repository's gate sees stays visible through a further blocked attempt, of any
      repository and for any mixture of keys, unless the repository had no obligation of its own and
      the attempt opens its first one. */
  lemma {:induction false} StaysVisibleIff(obs: seq<Obligation>, a: Attempt, digest: string -> string, repo: RepoKey,
                                           id: string)
    requires Visible(obs, id, repo)
    ensures Visible(UpdateObligations(obs, a, digest).0, id, repo)
       <==> !(a.repo == repo && repo !in ObligationKeys(obs) && OpensOne(obs, a, digest))
  {
    hide IdFor, ApplyFindings, Visible, OpensOne, UpdateObligations, KeyIn;
    var obs' := UpdateObligations(obs, a, digest).0;
    UpdateExtends(obs, a, digest);
    KeysOfOthers(obs, obs', a.repo, repo);
    if a.repo == repo && repo !in ObligationKeys(obs) {
      GrowsIff(obs, a, digest);
      if |obs'| > |obs| {
        HiddenByOwn(obs, a, digest, id);
      } else {
        SeenAsBefore(obs, obs', a.repo, repo, id);
      }
    } else {
      SeenAsBefore(obs, obs', a.repo, repo, id);
    }
  }

  lemma {:induction false} SeenAsBefore(obs: seq<Obligation>, obs': seq<Obligation>, mine: RepoKey, repo: RepoKey,
                                        id: string)
    requires Extends(obs', obs, mine) && Visible(obs, id, repo)
    requires repo in ObligationKeys(obs') <==> repo in ObligationKeys(obs)
    ensures Visible(obs', id, repo)
  {
    var o :| o in GetOpen(obs, Some(repo)) && o.id == id;
    var i :| 0 <= i < |obs| && obs[i] == o;
    assert SameBut(obs'[i], obs[i]);
    assert obs'[i] in GetOpen(obs', Some(repo));
  }

  /** The repository's first obligation hides what it saw before. */
  lemma {:induction false} HiddenByOwn(obs: seq<Obligation>, a: Attempt, digest: string -> string, id: string)
    requires a.repo !in ObligationKeys(obs) && Visible(obs, id, a.repo)
    requires |UpdateObligations(obs, a, digest).0| > |obs|
    ensures !Visible(UpdateObligations(obs, a, digest).0, id, a.repo)
  {
    hide IdFor, ApplyFindings;
    var obs' := UpdateObligations(obs, a, digest).0;
    UpdateExtends(obs, a, digest);
    KeysOfOthers(obs, obs', a.repo, a.repo);
    BorrowedFirst(obs, a.repo, id);
    forall o | o in GetOpen(obs', Some(a.repo))
      ensures o.id != id
    {
      var j :| 0 <= j < |obs'| && obs'[j] == o;
      if o.id == id {
        BorrowedStays(obs, a, digest, id, j);
      }
    }
  }

  lemma {:induction false} BorrowedFirst(obs: seq<Obligation>, repo: RepoKey, id: string)
    requires repo !in ObligationKeys(obs) && Visible(obs, id, repo)
    ensures BorrowedId(obs, id, repo)
  {
    var o :| o in GetOpen(obs, Some(repo)) && o.id == id;
    var i :| 0 <= i < |obs| && obs[i] == o;
    assert ObligationKeys(obs)[i] == o.repo;
  }

  /** An attempt adds the key of its own repository only. */
  lemma {:induction false} KeysOfOthers(obs: seq<Obligation>, obs': seq<Obligation>, mine: RepoKey, repo: RepoKey)
    requires Extends(obs', obs, mine)
    ensures repo in ObligationKeys(obs') <==> repo in ObligationKeys(obs) || (repo == mine && |obs'| > |obs|)
  {
    var k, k' := ObligationKeys(obs), ObligationKeys(obs');
    assert forall i | 0 <= i < |obs| :: SameBut(obs'[i], obs[i]) && k'[i] == k[i];
    assert |obs'| > |obs| ==> k'[|obs|] == mine;
  }

  // ---- Long runs with named keys ----

  predicate ObligationsNamed(s: Ledger) {
    forall i | 0 <= i < |s.obligations| :: s.obligations[i].repo.Named?
  }

  predicate HasOpen(s: Ledger, repo: RepoKey, id: string) {
    exists i | 0 <= i < |s.obligations| ::
      s.obligations[i].repo == repo && s.obligations[i].id == id && s.obligations[i].status == StillOpen
  }

  /** The record that record_attempt keeps, and whether it counts as a successful commit. */
  function Merged(s: Ledger, a: Attempt, now: string): Attempt {
    Upsert(s.attempts, Normalize(a, now), now).1
  }

  predicate RecordsSuccess(s: Ledger, a: Attempt, now: string) {
    var m := Merged(s, a, now);
    m.status == Succeeded && !m.blocked
  }

  predicate RecordsBlock(s: Ledger, a: Attempt, now: string) {
    var m := Merged(s, a, now);
    m.status == Blocked || m.blocked
  }

  /** The steps that may lift an obligation: resolving its id within a scope that covers the
      repository, or a successful commit of the repository or of everything. */
  predicate Lifts(s: Ledger, op: Op, repo: RepoKey, id: string) {
    match op
    case ResolveOp(ids, _, scope) => id in ids && (scope == None || scope == Some(repo))
    case SuccessOp(scope) => scope == None || scope == Some(repo)
    case RecordOp(a, now) => a.repo == repo && RecordsSuccess(s, a, now)
    case _ => false
  }

  /** What record_attempt does to the obligations, in terms of the merged record. */
  lemma {:induction false} RecordObligations(s: Ledger, a: Attempt, now: string, digest: string -> string)
    requires a.repo != NoKey
    ensures Merged(s, a, now).repo == a.repo && Merged(s, a, now).critical == a.critical
    ensures Record(s, a, now, digest).0.obligations ==
            if RecordsBlock(s, a, now) then UpdateObligations(s.obligations, Merged(s, a, now), digest).0
            else if RecordsSuccess(s, a, now)
              then DropScope(s.obligations, Some(a.repo), KeyIn(ObligationKeys(s.obligations), Some(a.repo)))
              else s.obligations
  {
  }

  lemma {:induction false} OthersKeepObligations(s: Ledger, op: Op, env: Env)
    requires !op.RecordOp? && !op.ResolveOp? && !op.ClearResolvedOp? && !op.SuccessOp?
    ensures Step(s, op, env).obligations == s.obligations
  {
  }

  lemma {:induction false} NamedStep(s: Ledger, op: Op, env: Env)
    requires ObligationsNamed(s) && OpNamed(op)
    ensures ObligationsNamed(Step(s, op, env))
  {
    if op.RecordOp? {
      var a, now := op.attempt, op.now;
      RecordObligations(s, a, now, env.digest);
      FindingsExtend(s.obligations, a.critical, Merged(s, a, now), KeyIn(ObligationKeys(s.obligations), Some(a.repo)),
                     env.digest);
    } else if !op.ResolveOp? && !op.ClearResolvedOp? && !op.SuccessOp? {
      OthersKeepObligations(s, op, env);
    }
  }

  lemma {:induction false} UpdateExtends(obs: seq<Obligation>, a: Attempt, digest: string -> string)
    ensures Extends(UpdateObligations(obs, a, digest).0, obs, a.repo)
  {
    FindingsExtend(obs, a.critical, a, KeyIn(ObligationKeys(obs), Some(a.repo)), digest);
  }

  /** The three things record_attempt may do to the obligations all keep another repository's. */
  lemma {:induction false} StillThere(obs: seq<Obligation>, obs': seq<Obligation>, m: Attempt, digest: string -> string,
                                      i: nat)
    requires i < |obs| && obs[i].repo.Named? && m.repo.Named?
    requires || obs' == obs
             || obs' == UpdateObligations(obs, m, digest).0
             || (obs[i].repo != m.repo
                 && obs' == DropScope(obs, Some(m.repo), KeyIn(ObligationKeys(obs), Some(m.repo))))
    ensures exists o | o in obs' :: SameBut(o, obs[i])
  {
    UpdateExtends(obs, m, digest);
    if obs' == UpdateObligations(obs, m, digest).0 {
      assert SameBut(obs'[i], obs[i]);
    } else {
      assert obs[i] in obs';
    }
  }

  lemma {:induction false} KeptByRecord(s: Ledger, a: Attempt, now: string, digest: string -> string, repo: RepoKey,
                                        i: nat)
    requires a.repo.Named? && repo.Named? && i < |s.obligations| && s.obligations[i].repo == repo
    requires !(a.repo == repo && RecordsSuccess(s, a, now))
    ensures exists o | o in Record(s, a, now, digest).0.obligations :: SameBut(o, s.obligations[i])
  {
    RecordObligations(s, a, now, digest);
    StillThere(s.obligations, Record(s, a, now, digest).0.obligations, Merged(s, a, now), digest, i);
  }

  lemma {:induction false} KeptByOthers(s: Ledger, op: Op, env: Env, i: nat)
    requires !op.RecordOp? && i < |s.obligations| && s.obligations[i].status == StillOpen
             && s.obligations[i].repo.Named?
    requires !Lifts(s, op, s.obligations[i].repo, s.obligations[i].id)
    ensures s.obligations[i] in Step(s, op, env).obligations
  {
    match op {
      case ResolveOp(ids, who, scope) =>
        assert Step(s, op, env).obligations[i] == s.obligations[i];
      case ClearResolvedOp =>
      case SuccessOp(scope) =>
      case _ =>
        OthersKeepObligations(s, op, env);
    }
  }

  lemma {:induction false} KeptByStep(s: Ledger, op: Op, env: Env, repo: RepoKey, id: string)
    requires ObligationsNamed(s) && OpNamed(op) && repo.Named?
    requires HasOpen(s, repo, id) && !Lifts(s, op, repo, id)
    ensures ObligationsNamed(Step(s, op, env)) && HasOpen(Step(s, op, env), repo, id)
  {
    NamedStep(s, op, env);
    var i :| 0 <= i < |s.obligations| && s.obligations[i].repo == repo && s.obligations[i].id == id
             && s.obligations[i].status == StillOpen;
    var obs := Step(s, op, env).obligations;
    if op.RecordOp? {
      KeptByRecord(s, op.attempt, op.now, env.digest, repo, i);
      var o :| o in obs && SameBut(o, s.obligations[i]);
      var j :| 0 <= j < |obs| && obs[j] == o;
    } else {
      KeptByOthers(s, op, env, i);
      var j :| 0 <= j < |obs| && obs[j] == s.obligations[i];
    }
  }

  /** No step of the run so far may lift the obligation. */
  predicate NeverLifted(s: Ledger, ops: seq<Op>, env: Env, repo: RepoKey, id: string, n: nat)
    requires n <= |ops|
  {
    n == 0 || (&& NeverLifted(s, ops, env, repo, id, n - 1)
               && OpNamed(ops[n - 1]) && !Lifts(After(s, ops, env, n - 1), ops[n - 1], repo, id))
  }

  lemma {:induction false} KeptByRun(s: Ledger, ops: seq<Op>, env: Env, repo: RepoKey, id: string, n: nat)
    requires ObligationsNamed(s) && repo.Named? && HasOpen(s, repo, id)
    requires n <= |ops| && NeverLifted(s, ops, env, repo, id, n)
    ensures ObligationsNamed(After(s, ops, env, n)) && HasOpen(After(s, ops, env, n), repo, id)
  {
    if n > 0 {
      KeptByRun(s, ops, env, repo, id, n - 1);
      KeptByStep(After(s, ops, env, n - 1), ops[n - 1], env, repo, id);
    }
  }

  lemma {:induction false} OpenBlocksCommit(s: Ledger, repo: RepoKey, id: string, hash: string)
    requires repo.Named? && HasOpen(s, repo, id)
    ensures !CommitReady(s, hash, repo)
  {
    var i :| 0 <= i < |s.obligations| && s.obligations[i].repo == repo && s.obligations[i].id == id
             && s.obligations[i].status == StillOpen;
    assert s.obligations[i] in GetOpen(s.obligations, Some(repo));
  }

  /** Each critical finding of a blocked attempt gets an open obligation of its repository. */
  lemma {:induction false} BlockedAttemptOpens(s: Ledger, a: Attempt, now: string, env: Env, f: Finding)
    requires ObligationsNamed(s) && a.repo.Named? && RecordsBlock(s, a, now)
    requires f in a.critical && CriticalFail(f)
    ensures HasOpen(Record(s, a, now, env.digest).0, a.repo, IdFor(f, env.digest))
  {
    var m := Merged(s, a, now);
    RecordObligations(s, a, now, env.digest);
    var exact := KeyIn(ObligationKeys(s.obligations), Some(a.repo));
    FindingsExtend(s.obligations, m.critical, m, exact, env.digest);
    FindingsHeld(s.obligations, m.critical, m, exact, env.digest, f);
    var obs := UpdateObligations(s.obligations, m, env.digest).0;
    var i :| Holds(obs, IdFor(f, env.digest), a.repo, exact, |s.obligations|, i);
    if i < |s.obligations| {
      assert SameBut(obs[i], s.obligations[i]);
    }
  }

  /** The commit gate: once a blocked attempt records a critical finding, no snapshot of the
      repository is ready to commit, after any further operations, until that finding's
      obligation is resolved or a commit succeeds for the repository (or for everything). */
  lemma {:induction false} BlockedUntilLifted(s: Ledger, a: Attempt, now: string, env: Env, f: Finding, ops: seq<Op>,
                                              n: nat, hash: string)
    requires ObligationsNamed(s) && a.repo.Named? && RecordsBlock(s, a, now)
    requires f in a.critical && CriticalFail(f)
    requires n <= |ops| && NeverLifted(Step(s, RecordOp(a, now), env), ops, env, a.repo, IdFor(f, env.digest), n)
    ensures !CommitReady(After(Step(s, RecordOp(a, now), env), ops, env, n), hash, a.repo)
  {
    var s1 := Step(s, RecordOp(a, now), env);
    var id := IdFor(f, env.digest);
    BlockedAttemptOpens(s, a, now, env, f);
    NamedStep(s, RecordOp(a, now), env);
    KeptByRun(s1, ops, env, a.repo, id, n);
    OpenBlocksCommit(After(s1, ops, env, n), a.repo, id, hash);
  }

  // ---- Uniqueness of open obligations ----

  predicate UniqueOpen(obs: seq<Obligation>) {
    forall i, j | 0 <= i < j < |obs| ::
      obs[i].status == StillOpen && obs[j].status == StillOpen && obs[i].repo == obs[j].repo ==> obs[i].id != obs[j].id
  }

  predicate NamedKeys(obs: seq<Obligation>) {
    forall i | 0 <= i < |obs| :: obs[i].repo.Named?
  }

  lemma {:induction false} FindingsKeepUnique(obs: seq<Obligation>, fs: seq<Finding>, a: Attempt, exact: bool,
                                              digest: string -> string)
    requires UniqueOpen(obs) && NamedKeys(obs) && a.repo.Named?
    ensures UniqueOpen(ApplyFindings(obs, fs, a, exact, |obs|, digest).0)
  {
    if fs != [] {
      var n := |fs| - 1;
      FindingsKeepUnique(obs, fs[..n], a, exact, digest);
      FindingsExtend(obs, fs[..n], a, exact, digest);
      var o := ApplyFindings(obs, fs[..n], a, exact, |obs|, digest).0;
      forall i | 0 <= i < |obs|
        ensures o[i].repo.Named?
      {
        assert SameBut(o[i], obs[i]);
      }
    }
  }

  lemma {:induction false} SubsequenceUnique(obs: seq<Obligation>, scope: Option<RepoKey>, exact: bool)
    requires UniqueOpen(obs)
    ensures UniqueOpen(DropScope(obs, scope, exact)) && UniqueOpen(KeepOpen(obs))
  {
    if obs != [] {
      SubsequenceUnique(obs[1..], scope, exact);
      var d, k := DropScope(obs[1..], scope, exact), KeepOpen(obs[1..]);
      forall o | o in d || o in k
        ensures exists i :: 1 <= i < |obs| && obs[i] == o
      {
        assert o in obs[1..];
      }
      HeadUnique(obs, d);
      HeadUnique(obs, k);
    }
  }

  lemma {:induction false} HeadUnique(obs: seq<Obligation>, rest: seq<Obligation>)
    requires obs != [] && UniqueOpen(obs) && UniqueOpen(rest)
    requires forall o | o in rest :: exists i :: 1 <= i < |obs| && obs[i] == o
    ensures UniqueOpen([obs[0]] + rest)
  {
    var all := [obs[0]] + rest;
    forall i, j | 0 <= i < j < |all| && all[i].status == StillOpen && all[j].status == StillOpen
        && all[i].repo == all[j].repo
      ensures all[i].id != all[j].id
    {
      assert all[j] == rest[j - 1];
      if i > 0 {
        assert all[i] == rest[i - 1];
      } else {
        assert rest[j - 1] in rest;
      }
    }
  }

  lemma {:induction false} UniqueStep(s: Ledger, op: Op, env: Env)
    requires ObligationsNamed(s) && OpNamed(op) && UniqueOpen(s.obligations)
    ensures UniqueOpen(Step(s, op, env).obligations)
  {
    match op {
      case RecordOp(a, now) =>
        RecordObligations(s, a, now, env.digest);
        var exact := KeyIn(ObligationKeys(s.obligations), Some(a.repo));
        FindingsKeepUnique(s.obligations, a.critical, Merged(s, a, now), exact, env.digest);
        SubsequenceUnique(s.obligations, Some(a.repo), exact);
      case ResolveOp(_, _, _) =>
      case ClearResolvedOp =>
        SubsequenceUnique(s.obligations, None, false);
      case SuccessOp(scope) =>
        SubsequenceUnique(s.obligations, scope, KeyIn(ObligationKeys(s.obligations), scope));
      case _ =>
        OthersKeepObligations(s, op, env);
    }
  }

  /** A repository never has two open obligations with one id. */
  lemma {:induction false} UniqueAlways(ops: seq<Op>, env: Env, n: nat)
    requires n <= |ops| && forall i | 0 <= i < n :: OpNamed(ops[i])
    ensures ObligationsNamed(After(EMPTY_LEDGER, ops, env, n))
            && UniqueOpen(After(EMPTY_LEDGER, ops, env, n).obligations)
  {
    if n > 0 {
      UniqueAlways(ops, env, n - 1);
      NamedStep(After(EMPTY_LEDGER, ops, env, n - 1), ops[n - 1], env);
      UniqueStep(After(EMPTY_LEDGER, ops, env, n - 1), ops[n - 1], env);
    }
  }

  // ---- Repositories do not interfere ----

  /** A repository's own obligations, in order. */
  function Of(obs: seq<Obligation>, repo: RepoKey): seq<Obligation> {
    if obs == [] then []
    else Of(obs[..|obs| - 1], repo) + if obs[|obs| - 1].repo == repo then [obs[|obs| - 1]] else []
  }

  /** Operations that concern one repository only. */
  predicate ScopedTo(op: Op, repo: RepoKey) {
    match op
    case RecordOp(a, _) => a.repo == repo
    case ResolveOp(_, _, scope) => scope == Some(repo)
    case SuccessOp(scope) => scope == Some(repo)
    case ClearResolvedOp => false
    case _ => true
  }

  lemma {:induction false} OfPointwise(a: seq<Obligation>, b: seq<Obligation>, repo: RepoKey)
    requires |a| == |b|
    requires forall i | 0 <= i < |a| :: a[i] == b[i] || (a[i].repo != repo && b[i].repo != repo)
    ensures Of(a, repo) == Of(b, repo)
  {
    if a != [] {
      OfPointwise(a[..|a| - 1], b[..|a| - 1], repo);
    }
  }

  lemma {:induction false} OfFinding(o: seq<Obligation>, f: Finding, a: Attempt, exact: bool, before: nat,
                                     digest: string -> string, repo: RepoKey)
    requires f.Finding? && a.repo.Named? && repo != a.repo && before <= |o|
    requires forall i | 0 <= i < before :: o[i].repo.Named?
    requires forall i | before <= i < |o| :: o[i].repo == a.repo
    ensures Of(ApplyFinding(o, f, a, exact, before, digest), repo) == Of(o, repo)
  {
    hide IdFor, MergeReason;
    var k := ExistingIndex(o, IdFor(f, digest), Some(a.repo), exact, before);
    var o' := ApplyFinding(o, f, a, exact, before, digest);
    if k >= 0 {
      assert o[k].repo == a.repo;
      OfPointwise(o, o', repo);
    } else {
      assert o'[..|o'| - 1] == o;
    }
  }

  lemma {:induction false} OfFindings(obs: seq<Obligation>, fs: seq<Finding>, a: Attempt, exact: bool,
                                      digest: string -> string, repo: RepoKey)
    requires NamedKeys(obs) && a.repo.Named? && repo != a.repo
    ensures Of(ApplyFindings(obs, fs, a, exact, |obs|, digest).0, repo) == Of(obs, repo)
  {
    if fs != [] {
      var n := |fs| - 1;
      OfFindings(obs, fs[..n], a, exact, digest, repo);
      FindingsExtend(obs, fs[..n], a, exact, digest);
      var o := ApplyFindings(obs, fs[..n], a, exact, |obs|, digest).0;
      if CriticalFail(fs[n]) {
        forall i | 0 <= i < |obs|
          ensures o[i].repo.Named?
        {
          assert SameBut(o[i], obs[i]);
        }
        OfFinding(o, fs[n], a, exact, |obs|, digest, repo);
      }
    }
  }

  lemma {:induction false} OfDrop(obs: seq<Obligation>, repo: RepoKey, other: RepoKey, exact: bool)
    requires NamedKeys(obs) && repo != other && repo.Named?
    ensures Of(DropScope(obs, Some(other), exact), repo) == Of(obs, repo)
  {
    if obs != [] {
      var o, rest := obs[0], obs[1..];
      assert NamedKeys(rest);
      OfDrop(rest, repo, other, exact);
      OfCons(o, rest, repo);
      assert obs == [o] + rest;
      var kept := DropScope(rest, Some(other), exact);
      if ScopeMatches(o.repo, Some(other), exact) {
        assert DropScope(obs, Some(other), exact) == [] + kept == kept;
      } else {
        assert DropScope(obs, Some(other), exact) == [o] + kept;
        OfCons(o, kept, repo);
      }
    }
  }

  lemma {:induction false} OfCons(o: Obligation, rest: seq<Obligation>, repo: RepoKey)
    ensures Of([o] + rest, repo) == (if o.repo == repo then [o] else []) + Of(rest, repo)
  {
    var all := [o] + rest;
    if rest == [] {
      assert all[..|all| - 1] == [];
    } else {
      assert all[..|all| - 1] == [o] + rest[..|rest| - 1];
      OfCons(o, rest[..|rest| - 1], repo);
    }
  }

  lemma {:induction false} OfRecord(s: Ledger, a: Attempt, now: string, env: Env, mine: RepoKey)
    requires ObligationsNamed(s) && a.repo.Named? && mine.Named? && mine != a.repo
    ensures Of(Step(s, RecordOp(a, now), env).obligations, mine) == Of(s.obligations, mine)
  {
    hide Record, Merged, RecordsBlock, RecordsSuccess, Of, ApplyFindings, DropScope;
    RecordObligations(s, a, now, env.digest);
    var exact := KeyIn(ObligationKeys(s.obligations), Some(a.repo));
    OfFindings(s.obligations, a.critical, Merged(s, a, now), exact, env.digest, mine);
    OfDrop(s.obligations, mine, a.repo, exact);
  }

  /** Nothing scoped to one repository changes another repository's obligations. */
  lemma {:induction false} OtherRepositoryUntouched(s: Ledger, op: Op, env: Env, mine: RepoKey, other: RepoKey)
    requires ObligationsNamed(s) && OpNamed(op) && mine.Named? && other.Named? && mine != other
    requires ScopedTo(op, other)
    ensures Of(Step(s, op, env).obligations, mine) == Of(s.obligations, mine)
  {
    hide Record, Of, DropScope;
    match op {
      case RecordOp(a, now) => OfRecord(s, a, now, env, mine);
      case ResolveOp(ids, who, scope) =>
        OfPointwise(Step(s, op, env).obligations, s.obligations, mine);
      case SuccessOp(scope) =>
        OfDrop(s.obligations, mine, other, KeyIn(ObligationKeys(s.obligations), scope));
      case _ =>
        OthersKeepObligations(s, op, env);
    }
  }

  // ---- The reason text of a finding that reappears ----

  lemma {:induction false} PartsHaveFewer(s: string, sep: string, c: char, p: string)
    requires sep != "" && Count(sep, c) >= 1 && p in SplitAll(s, sep)
    ensures Count(p, c) <= Count(s, c)
    ensures Contains(s, sep) ==> Count(p, c) < Count(s, c)
    decreases |s|
  {
    var i := Find(s, sep);
    ContainsIffFind(s, sep);
    if i != -1 {
      var rest := s[i + |sep|..];
      CountSplit(s, i, c);
      CountSplit(s[i..], |sep|, c);
      assert s[i..][..|sep|] == sep && s[i..][|sep|..] == rest;
      if p != s[..i] {
        assert SplitAll(s, sep) == [s[..i]] + SplitAll(rest, sep);
        PartsHaveFewer(rest, sep, c, p);
      }
    }
  }

  lemma {:induction false} StrippedParts(parts: seq<string>, x: string)
    requires x in NonEmptyStripped(parts)
    ensures x != "" && exists p | p in parts :: Strip(p) == x
  {
    if Strip(parts[0]) == x && x != "" {
      assert parts[0] in parts;
    } else {
      StrippedParts(parts[1..], x);
      var p :| p in parts[1..] && Strip(p) == x;
      assert p in parts;
    }
  }

  lemma {:induction false} JoinCount(parts: seq<string>, sep: string, c: char)
    requires parts != []
    ensures Count(Join(parts, sep), c) >= Count(parts[|parts| - 1], c) + (|parts| - 1) * Count(sep, c)
  {
    if |parts| > 1 {
      JoinCount(parts[1..], sep, c);
      CountAppend(parts[0] + sep, Join(parts[1..], sep), c);
      CountAppend(parts[0], sep, c);
      assert (|parts| - 1) * Count(sep, c) == (|parts| - 2) * Count(sep, c) + Count(sep, c);
    }
  }

  lemma {:induction false} BarCounts()
    ensures Count(" | ", '|') == 1
  {
    assert " | "[1..] == "| " && "| "[1..] == " ";
    assert Count(" ", '|') == 0;
    assert Count("| ", '|') == 1;
  }

  lemma {:induction false} NotRecognised(reason: string, sep: string)
    requires sep != "" && Count(sep, '|') == 1 && Contains(reason, sep)
    ensures Strip(reason) !in NonEmptyStripped(SplitAll(reason, sep))
  {
    hide Count, Strip, NonEmptyStripped, SplitAll, Contains;
    var parts := SplitAll(reason, sep);
    forall x | x in NonEmptyStripped(parts)
      ensures x != Strip(reason)
    {
      StrippedParts(parts, x);
      var p :| p in parts && Strip(p) == x;
      PartsHaveFewer(reason, sep, '|', p);
      StripCount(p, '|');
      StripCount(reason, '|');
    }
  }

  lemma {:induction false} JoinGrows(prev: seq<string>, reason: string, sep: string)
    requires Count(sep, '|') == 1 && prev != []
    ensures Count(Join(prev + [Strip(reason)], sep), '|') > Count(reason, '|')
  {
    hide Count, Join;
    JoinCount(prev + [Strip(reason)], sep, '|');
    StripCount(reason, '|');
    assert (prev + [Strip(reason)])[|prev|] == Strip(reason);
  }

  /** Recording one finding twice leaves its reason text as it was exactly when the reason
      does not hold the separator " | ", or holds nothing besides separators and white space;
      otherwise the text gains bars, although the reason is the same. (White space at its ends may
      go away at the same time, so its length need not grow.) */
  lemma {:induction false} RepeatedReasonIff(reason: string)
    ensures MergeReason(reason, reason) == reason
       <==> !Contains(reason, " | ") || NonEmptyStripped(SplitAll(reason, " | ")) == []
    ensures MergeReason(reason, reason) != reason ==> Count(MergeReason(reason, reason), '|') > Count(reason, '|')
  {
    BarCounts();
    var prev := NonEmptyStripped(SplitAll(reason, " | "));
    ContainsIffFind(reason, " | ");
    if Contains(reason, " | ") {
      NotRecognised(reason, " | ");
      if prev != [] {
        JoinGrows(prev, reason, " | ");
      }
    } else {
      OnePart(reason, " | ");
    }
  }

  lemma {:induction false} OnePart(reason: string, sep: string)
    requires sep != "" && !Contains(reason, sep)
    ensures var prev := NonEmptyStripped(SplitAll(reason, sep));
            prev == if Strip(reason) != "" then [Strip(reason)] else []
  {
    ContainsIffFind(reason, sep);
    assert SplitAll(reason, sep) == [reason];
    assert [reason][1..] == [];
  }

  // ---- The same finding any number of times ----

  /** Parts that splitting and stripping leave alone. */
  predicate Clean(parts: seq<string>) {
    forall p | p in parts :: p != "" && Stripped(p) && '|' !in p
  }

  lemma {:induction false} CleanTail(parts: seq<string>)
    requires Clean(parts) && parts != []
    ensures Clean(parts[1..]) && parts[0] != "" && Stripped(parts[0]) && '|' !in parts[0]
  {
    assert parts[0] in parts;
    assert forall p | p in parts[1..] :: p in parts;
  }

  lemma {:induction false} MatchHasBar(s: string, j: int)
    ensures At(s, " | ", j) ==> s[j + 1] == '|'
  {
    if At(s, " | ", j) {
      assert s[j..j + 3][1] == s[j + 1];
    }
  }

  lemma {:induction false} NoBarNoMatch(s: string)
    requires '|' !in s
    ensures Find(s, " | ") == -1
  {
    MatchHasBar(s, Find(s, " | "));
  }

  lemma {:induction false} FirstBar(p: string, rest: string)
    requires '|' !in p
    ensures Find(p + " | " + rest, " | ") == |p|
  {
    var s := p + " | " + rest;
    assert s[|p|..|p| + 3] == " | " && s[|p|] == ' ';
    forall j | 0 <= j < |p|
      ensures !At(s, " | ", j)
    {
      assert j + 1 < |p| ==> s[j + 1] == p[j + 1];
      MatchHasBar(s, j);
    }
    FindIs(s, " | ", |p|);
  }

  lemma {:induction false} SplitOfJoin(parts: seq<string>)
    requires Clean(parts) && parts != []
    ensures SplitAll(Join(parts, " | "), " | ") == parts
  {
    hide FindFrom, Clean, SplitAll;
    CleanTail(parts);
    if |parts| == 1 {
      NoBarNoMatch(parts[0]);
      SplitNone(parts[0]);
    } else {
      var rest := Join(parts[1..], " | ");
      FirstBar(parts[0], rest);
      SplitFirst(parts[0], rest);
      SplitOfJoin(parts[1..]);
      assert parts == [parts[0]] + parts[1..];
    }
  }

  lemma {:induction false} SplitNone(s: string)
    requires Find(s, " | ") == -1
    ensures SplitAll(s, " | ") == [s]
  {
  }

  lemma {:induction false} SplitFirst(p: string, rest: string)
    requires Find(p + " | " + rest, " | ") == |p|
    ensures SplitAll(p + " | " + rest, " | ") == [p] + SplitAll(rest, " | ")
  {
    hide FindFrom;
    var s := p + " | " + rest;
    assert s[..|p|] == p && s[|p| + 3..] == rest;
  }

  lemma {:induction false} CleanParts(parts: seq<string>)
    requires Clean(parts)
    ensures NonEmptyStripped(parts) == parts
  {
    if parts != [] {
      CleanTail(parts);
      StripFixes(parts[0]);
      CleanParts(parts[1..]);
      assert parts == [parts[0]] + parts[1..];
    }
  }

  lemma {:induction false} JoinStripped(parts: seq<string>)
    requires Clean(parts) && parts != []
    ensures Stripped(Join(parts, " | ")) && Join(parts, " | ") != ""
  {
    CleanTail(parts);
    if |parts| > 1 {
      JoinStripped(parts[1..]);
      var s, rest := Join(parts, " | "), Join(parts[1..], " | ");
      assert s[0] == parts[0][0] && s[|s| - 1] == rest[|rest| - 1];
    }
  }

  lemma {:induction false} JoinAppend(a: seq<string>, b: seq<string>)
    requires a != [] && b != []
    ensures Join(a + b, " | ") == Join(a, " | ") + " | " + Join(b, " | ")
    ensures Join(a + [Join(b, " | ")], " | ") == Join(a + b, " | ")
  {
    if |a| == 1 {
      assert (a + b)[1..] == b && (a + [Join(b, " | ")])[1..] == [Join(b, " | ")];
    } else {
      JoinAppend(a[1..], b);
      assert (a + b)[1..] == a[1..] + b;
      assert (a + [Join(b, " | ")])[1..] == a[1..] + [Join(b, " | ")];
      assert Join(a, " | ") == a[0] + " | " + Join(a[1..], " | ");
    }
  }

  /** The finding reappears with a reason of two or more parts: all of them are appended. */
  lemma {:induction false} PartsPileUp(stored: seq<string>, parts: seq<string>)
    requires Clean(stored) && stored != [] && Clean(parts) && |parts| >= 2
    ensures MergeReason(Join(stored, " | "), Join(parts, " | ")) == Join(stored + parts, " | ")
    ensures |Join(stored + parts, " | ")| == |Join(stored, " | ")| + 3 + |Join(parts, " | ")|
  {
    var reason := Join(parts, " | ");
    SplitOfJoin(stored);
    CleanParts(stored);
    JoinStripped(parts);
    StripFixes(reason);
    assert reason[|parts[0]| + 1] == '|';
    assert reason !in stored;
    JoinAppend(stored, parts);
  }

  function Copies(parts: seq<string>, n: nat): seq<string> {
    if n == 0 then [] else Copies(parts, n - 1) + parts
  }

  lemma {:induction false} CopiesClean(parts: seq<string>, n: nat)
    requires Clean(parts) && parts != []
    ensures Clean(Copies(parts, n)) && |Copies(parts, n)| == n * |parts|
  {
    if n > 0 {
      CopiesClean(parts, n - 1);
      assert n * |parts| == (n - 1) * |parts| + |parts|;
    }
  }

  /** A blocked attempt of the repository with this one critical finding. */
  predicate Reports(op: Op, f: Finding, repo: RepoKey) {
    op.RecordOp? && op.attempt.status == Blocked && op.attempt.repo == repo && op.attempt.critical == [f]
  }

  lemma {:induction false} OneFinding(f: Finding, a: Attempt, obs: seq<Obligation>, exact: bool, before: nat,
                                      digest: string -> string)
    requires CriticalFail(f)
    ensures ApplyFindings(obs, [f], a, exact, before, digest).0 == ApplyFinding(obs, f, a, exact, before, digest)
  {
    assert [f][..0] == [];
    assert ApplyFindings(obs, [], a, exact, before, digest) == (obs, []);
  }

  lemma {:induction false} ReportStep(s: Ledger, op: Op, env: Env, f: Finding, repo: RepoKey)
    requires CriticalFail(f) && repo.Named? && Reports(op, f, repo)
    ensures s.obligations == [] ==>
              var obs := Step(s, op, env).obligations;
              |obs| == 1 && obs[0].id == IdFor(f, env.digest) && obs[0].repo == repo && obs[0].status == StillOpen
              && obs[0].reason == f.reason
    ensures |s.obligations| == 1 && s.obligations[0].id == IdFor(f, env.digest) && s.obligations[0].repo == repo
            && s.obligations[0].status == StillOpen ==>
              var obs := Step(s, op, env).obligations;
              |obs| == 1 && SameBut(obs[0], s.obligations[0])
              && obs[0].reason == MergeReason(s.obligations[0].reason, f.reason)
  {
    hide MergeReason, IdFor;
    var obs, m := s.obligations, Merged(s, op.attempt, op.now);
    RecordObligations(s, op.attempt, op.now, env.digest);
    OneFinding(f, m, obs, KeyIn(ObligationKeys(obs), Some(repo)), |obs|, env.digest);
  }

  /** Recording one and the same finding over and over from the empty ledger, with a reason of two
      or more parts: the n-th record makes n copies of the reason, so the text grows without end. */
  lemma {:induction false} RepetitionsPileUp(ops: seq<Op>, env: Env, f: Finding, parts: seq<string>, repo: RepoKey,
                                             n: nat)
    requires 1 <= n <= |ops| && forall i | 0 <= i < n :: Reports(ops[i], f, repo)
    requires CriticalFail(f) && repo.Named? && Clean(parts) && |parts| >= 2 && f.reason == Join(parts, " | ")
    ensures var obs := After(EMPTY_LEDGER, ops, env, n).obligations;
            && |obs| == 1 && obs[0].id == IdFor(f, env.digest) && obs[0].repo == repo && obs[0].status == StillOpen
            && obs[0].reason == Join(Copies(parts, n), " | ")
            && |obs[0].reason| == n * |f.reason| + 3 * (n - 1)
  {
    hide MergeReason, Step, IdFor, Join;
    ReportStep(After(EMPTY_LEDGER, ops, env, n - 1), ops[n - 1], env, f, repo);
    if n == 1 {
      assert Copies(parts, 0) + parts == parts && Copies(parts, 1) == Copies(parts, 0) + parts;
    } else {
      RepetitionsPileUp(ops, env, f, parts, repo, n - 1);
      CopiesClean(parts, n - 1);
      PartsPileUp(Copies(parts, n - 1), parts);
      assert n * |f.reason| == (n - 1) * |f.reason| + |f.reason|;
    }
  }

  lemma {:induction false} TwoParts(p: string, q: string)
    ensures Join([p, q], " | ") == p + " | " + q
  {
    assert [p, q][1..] == [q];
  }

  lemma {:induction false} SmallClean()
    ensures Clean(["a", "b"])
  {
  }

  /** For instance. */
  lemma {:induction false} ReasonWithBar()
    ensures MergeReason("a | b", "a | b") == "a | b | a | b"
  {
    hide MergeReason, Join, Clean;
    TwoParts("a", "b");
    SmallClean();
    PartsPileUp(["a", "b"], ["a", "b"]);
    JoinAppend(["a", "b"], ["a", "b"]);
    assert "a" + " | " + "b" == "a | b" && "a | b" + " | " + "a | b" == "a | b | a | b";
  }

  // ---- Findings that straddle ----

  /** A legacy writer records a finding, and then a repository's attempt reports it together with
      a new one: the gate of that repository sees the new one only; once that is resolved and a
      fresh run is there, the repository may commit, though the first finding is still open. */
  lemma {:induction false} StraddlingIsHidden(env: Env, legacy: Attempt, a: Attempt, f: Finding, g: Finding, run: Run,
                                              now: string)
    returns (ops: seq<Op>)
    requires CriticalFail(f) && CriticalFail(g) && IdFor(f, env.digest) != IdFor(g, env.digest)
    requires legacy.status == Blocked && legacy.repo == LegacyKey && legacy.critical == [f]
    requires a.status == Blocked && a.repo.Named? && a.critical == [f, g]
    requires run.repo == a.repo && run.status == Fresh && run.hash != ""
    ensures ops == [RecordOp(legacy, now), RecordOp(a, now),
                    ResolveOp([IdFor(g, env.digest)], "", Some(a.repo)), AddRunOp(run, now)]
    ensures !AllVisible(After(EMPTY_LEDGER, ops, env, 2).obligations, a, env.digest)
    ensures CommitReady(After(EMPTY_LEDGER, ops, env, 4), run.hash, a.repo)
    ensures exists o :: o in After(EMPTY_LEDGER, ops, env, 4).obligations
                        && o.id == IdFor(f, env.digest) && o.status == StillOpen
  {
    hide MergeReason, IdFor;
    ops := [RecordOp(legacy, now), RecordOp(a, now), ResolveOp([IdFor(g, env.digest)], "", Some(a.repo)),
            AddRunOp(run, now)];
    LegacyFirst(env, legacy, f, now);
    var s1 := Step(EMPTY_LEDGER, ops[0], env);
    assert After(EMPTY_LEDGER, ops, env, 0) == EMPTY_LEDGER && After(EMPTY_LEDGER, ops, env, 1) == s1;
    ThenBoth(env, s1, a, f, g, now);
    var s2 := Step(s1, ops[1], env);
    assert After(EMPTY_LEDGER, ops, env, 2) == s2;
    OnlySecondSeen(s2.obligations, a, f, g, env.digest);
    ThenReady(env, s2, a.repo, IdFor(f, env.digest), IdFor(g, env.digest), run, now);
    assert After(EMPTY_LEDGER, ops, env, 3) == Step(s2, ops[2], env);
    assert After(EMPTY_LEDGER, ops, env, 4) == Step(Step(s2, ops[2], env), ops[3], env);
  }

  /** The obligations after the first record. */
  predicate OneLegacy(s: Ledger, id: string) {
    && s.runs == [] && |s.obligations| == 1
    && s.obligations[0].id == id && s.obligations[0].status == StillOpen && s.obligations[0].repo == LegacyKey
  }

  /** And after the second. */
  predicate OneOfEach(s: Ledger, id: string, id': string, repo: RepoKey) {
    && s.runs == [] && |s.obligations| == 2
    && s.obligations[0].id == id && s.obligations[0].status == StillOpen && s.obligations[0].repo == LegacyKey
    && s.obligations[1].id == id' && s.obligations[1].status == StillOpen && s.obligations[1].repo == repo
  }

  /** What a blocked record does. */
  lemma {:induction false} BlockedStep(s: Ledger, a: Attempt, now: string, env: Env)
    requires a.status == Blocked && a.repo != NoKey
    ensures var s', m := Step(s, RecordOp(a, now), env), Merged(s, a, now);
            && m.repo == a.repo && m.critical == a.critical
            && s'.runs == s.runs && s'.obligations == UpdateObligations(s.obligations, m, env.digest).0
  {
    hide UpdateObligations, UpsertBlocking, OnSuccess;
    RecordObligations(s, a, now, env.digest);
  }

  lemma {:induction false} LegacyFirst(env: Env, legacy: Attempt, f: Finding, now: string)
    requires CriticalFail(f) && legacy.status == Blocked && legacy.repo == LegacyKey && legacy.critical == [f]
    ensures OneLegacy(Step(EMPTY_LEDGER, RecordOp(legacy, now), env), IdFor(f, env.digest))
  {
    hide MergeReason, IdFor, Step, Merged, CriticalFail, ApplyFindings;
    var m := Merged(EMPTY_LEDGER, legacy, now);
    BlockedStep(EMPTY_LEDGER, legacy, now, env);
    OneFinding(f, m, [], KeyIn(ObligationKeys([]), Some(LegacyKey)), 0, env.digest);
  }

  lemma {:induction false} ThenBoth(env: Env, s: Ledger, a: Attempt, f: Finding, g: Finding, now: string)
    requires CriticalFail(f) && CriticalFail(g) && IdFor(f, env.digest) != IdFor(g, env.digest)
    requires OneLegacy(s, IdFor(f, env.digest)) && a.status == Blocked && a.repo.Named? && a.critical == [f, g]
    ensures OneOfEach(Step(s, RecordOp(a, now), env), IdFor(f, env.digest), IdFor(g, env.digest), a.repo)
  {
    hide MergeReason, IdFor, Step, Merged, CriticalFail;
    var m, exact := Merged(s, a, now), KeyIn(ObligationKeys(s.obligations), Some(a.repo));
    BlockedStep(s, a, now, env);
    assert ObligationKeys(s.obligations) == [LegacyKey] && !exact;
    OneFinding(f, m, s.obligations, exact, 1, env.digest);
    assert [f, g][..1] == [f];
  }

  lemma {:induction false} OnlySecondSeen(obs: seq<Obligation>, a: Attempt, f: Finding, g: Finding,
                                          digest: string -> string)
    requires |obs| == 2 && obs[0].repo == LegacyKey && obs[1].repo == a.repo && a.repo.Named?
    requires a.critical == [f, g] && CriticalFail(f) && IdFor(f, digest) != obs[1].id
    ensures !AllVisible(obs, a, digest)
  {
    hide IdFor;
    assert ObligationKeys(obs)[1] == a.repo;
    assert f in a.critical;
  }

  lemma {:induction false} ThenReady(env: Env, s: Ledger, repo: RepoKey, id: string, id': string, run: Run, now: string)
    requires OneOfEach(s, id, id', repo) && repo.Named? && id != id'
    requires run.repo == repo && run.status == Fresh && run.hash != ""
    ensures var s' := Step(Step(s, ResolveOp([id'], "", Some(repo)), env), AddRunOp(run, now), env);
            && CommitReady(s', run.hash, repo)
            && exists o :: o in s'.obligations && o.id == id && o.status == StillOpen
  {
    hide CommitReady;
    var s1 := Step(s, ResolveOp([id'], "", Some(repo)), env);
    var s' := Step(s1, AddRunOp(run, now), env);
    assert ObligationKeys(s.obligations)[1] == repo;
    assert s1.obligations[0] == s.obligations[0]
           && s1.obligations[1] == s.obligations[1].(status := Resolved, resolvedBy := "");
    assert s'.obligations == s1.obligations && s'.obligations[0] in s'.obligations;
    assert s1.runs == [];
    ReadyAgain(s', repo, run.hash);
  }

  lemma {:induction false} ReadyAgain(s: Ledger, repo: RepoKey, hash: string)
    requires |s.obligations| == 2 && s.obligations[0].repo == LegacyKey && repo.Named?
    requires s.obligations[1].repo == repo && s.obligations[1].status == Resolved
    requires |s.runs| == 1 && s.runs[0].hash == hash != "" && s.runs[0].repo == repo && s.runs[0].status == Fresh
    ensures CommitReady(s, hash, repo)
  {
    assert ObligationKeys(s.obligations)[1] == repo && RunKeys(s.runs)[0] == repo;
    Q.FirstIn(GetOpen(s.obligations, Some(repo)));
  }
}
