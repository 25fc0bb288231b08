/** run_llm_loop (ouroboros/loop.py) with its retrying LLM calls (ouroboros/loop_llm_call.py).
    The methods are proved equal to functions of the history; the laws of these functions say that,
    whatever the model, the tools and the summaries do, every transcript sent is well paired, the
    number of calls is bounded, and each part of the cost comes from one reply or one compaction. */
module LlmLoop {
  import opened Options
  import opened Transcript
  import opened ToolCalls
  import C = Compaction
  import S = Sealing
  import T = Text

  const MAX_RETRIES := 3

  /** What one chat attempt comes to. A response reports a cost (0 when it reports none) and can
      be priced by an estimate. */
  datatype Reply = Failure(overflow: bool) | Response(text: string, calls: seq<Call>, cost: real, estimate: real)

  /** The texts the loop writes itself. */
  datatype Note =
    | Reminder | CostNote | BudgetLimit | BudgetInfo | BudgetGone | Overspent
    | RoundLimit | TooManyRounds | NoAnswer

  /** Everything the loop does not decide: replies by number of the attempt, tool outcomes and
      completion orders by round, compaction requests and summaries, messages coming in. */
  datatype Env = Env(
    chat: nat -> Reply,
    run: (nat, nat) -> Outcome,
    order: (nat, nat) -> seq<nat>,
    cut: Cut,
    incoming: nat -> seq<Content>,
    request: nat -> Option<int>,
    summary: (nat, nat) -> Option<C.Batch>,
    shrink: (string, string) -> string,
    local: nat -> bool,
    fallback: nat -> Option<bool>,
    notice: (nat, Note) -> string,
    budget: Option<real>,
    perTask: real
  )

  /** The completion orders are possible ones. */
  ghost predicate Possible(env: Env) {
    forall r: nat, n: nat {:trigger env.order(r, n)} :: CompletionOrder(env.order(r, n), n)
  }

  /** One attempt as it happened, in which round, and whether with a local model. */
  datatype Attempt = Attempt(round: nat, sent: seq<Message>, local: bool, reply: Reply)

  /** The transcript, the attempts made and the costs reported for compactions. */
  datatype History = History(messages: seq<Message>, log: seq<Attempt>, spent: seq<real>)

  /** How a run ends: with a final text, or by an exception out of a tool. */
  datatype End = Finished(text: string) | Escaped

  // ---- Costs ----

  /** What a reply adds to the cost: nothing for a local model, else the reported cost, or the
      estimate where none is reported. */
  function Charge(r: Reply, local: bool): real {
    if r.Failure? || local then 0.0 else if r.cost == 0.0 then r.estimate else r.cost
  }

  function Charges(log: seq<Attempt>): real {
    if log == [] then 0.0 else Charges(log[..|log| - 1]) + Charge(log[|log| - 1].reply, log[|log| - 1].local)
  }

  function Sum(xs: seq<real>): real {
    if xs == [] then 0.0 else Sum(xs[..|xs| - 1]) + xs[|xs| - 1]
  }

  function Cost(h: History): real {
    Charges(h.log) + Sum(h.spent)
  }

  // ---- Calls ----

  predicate Blank(r: Reply)
    requires r.Response?
  {
    r.calls == [] && T.Strip(r.text) == ""
  }

  predicate Usable(r: Reply) {
    r.Response? && !Blank(r)
  }

  /** No further attempt follows such a reply. */
  predicate Stops(r: Reply) {
    Usable(r) || (r.Failure? && r.overflow)
  }

  /** The log after at most n attempts with one transcript. */
  function Tries(log: seq<Attempt>, round: nat, sent: seq<Message>, local: bool, n: nat,
                 env: Env): (after: seq<Attempt>)
    ensures log <= after && |log| + (if n > 0 then 1 else 0) <= |after| <= |log| + n
    decreases n
  {
    if n == 0 then log
    else
      var r := env.chat(|log|);
      var more := log + [Attempt(round, sent, local, r)];
      if Stops(r) then more else Tries(more, round, sent, local, n - 1, env)
  }

  /** What a retried call returns. */
  function Answer(log: seq<Attempt>): (a: Option<Reply>)
    ensures a.Some? ==> a.value.Response? && !Blank(a.value)
  {
    if log != [] && Usable(log[|log| - 1].reply) then Some(log[|log| - 1].reply) else None
  }

  /** The log after the main model and, if that gives nothing, the fallback model. */
  function Asked(log: seq<Attempt>, round: nat, sent: seq<Message>, env: Env): (after: seq<Attempt>)
    ensures log <= after && |log| < |after| <= |log| + 2 * MAX_RETRIES
  {
    var main := Tries(log, round, sent, env.local(round), MAX_RETRIES, env);
    if Answer(main).None? && env.fallback(round).Some?
    then Tries(main, round, sent, env.fallback(round).value, MAX_RETRIES, env)
    else main
  }

  /** One last call, whose text ends the run unless there is none. */
  function LastWords(h: History, round: nat, local: bool, otherwise: string, env: Env): (History, End) {
    var log := Tries(h.log, round, h.messages, local, MAX_RETRIES, env);
    var a := Answer(log);
    (h.(log := log), Finished(if a.Some? && a.value.text != "" then a.value.text else otherwise))
  }

  /** What exactly the attempts of one retried call are: all with this transcript and this model,
      none after a reply that stops them, and all of them made if none does. */
  lemma {:induction false} TriesFacts(log: seq<Attempt>, round: nat, sent: seq<Message>, local: bool, n: nat, env: Env)
    ensures var after := Tries(log, round, sent, local, n, env);
            && (forall i | |log| <= i < |after| :: after[i] == Attempt(round, sent, local, env.chat(i)))
            && (forall i | |log| <= i < |after| - 1 :: !Stops(after[i].reply))
            && (|after| < |log| + n ==> Stops(after[|after| - 1].reply))
    decreases n
  {
    hide Stops;
    if n > 0 && !Stops(env.chat(|log|)) {
      var more := log + [Attempt(round, sent, local, env.chat(|log|))];
      TriesFacts(more, round, sent, local, n - 1, env);
      var after := Tries(log, round, sent, local, n, env);
      assert after[|log|] == more[|log|];
    }
  }

  // ---- One round ----

  function SummaryOf(env: Env, round: nat): nat -> Option<C.Batch> {
    (b: nat) => env.summary(round, b)
  }

  function RunOf(env: Env, round: nat): nat -> Outcome {
    (i: nat) => env.run(round, i)
  }

  /** What a round's compaction makes of the transcript, and the cost it reports: on request, from
      round 13 on, or from round 7 on in a long transcript. */
  ghost function Compacted(ms: seq<Message>, round: nat, env: Env): (seq<Message>, Option<real>) {
    if env.request(round).Some? then C.AfterLlm(ms, env.request(round).value, SummaryOf(env, round), env.shrink)
    else if round > 12 || (round > 6 && |ms| > 80) then C.AfterLlm(ms, 50, SummaryOf(env, round), env.shrink)
    else (ms, None)
  }

  function Users(contents: seq<Content>): seq<Message> {
    if contents == [] then [] else Users(contents[..|contents| - 1]) + [User(contents[|contents| - 1])]
  }

  /** The reminder of every fifteenth round and the messages that came in. */
  function Injected(round: nat, env: Env): seq<Message> {
    (if round > 1 && round % 15 == 0 then [System(Text(env.notice(round, Reminder)))] else [])
    + Users(env.incoming(round))
  }

  /** The cost a round's compaction reports, if it reports one. */
  ghost function Reports(ms: seq<Message>, round: nat, env: Env): seq<real> {
    var usage := Compacted(ms + Injected(round, env), round, env).1;
    if usage.Some? then [usage.value] else []
  }

  /** What a round sends: the transcript with what came in, compacted, then sealed. */
  ghost function ToSend(ms: seq<Message>, round: nat, env: Env): seq<Message> {
    S.Sealed(Compacted(ms + Injected(round, env), round, env).0, S.KEEP_ACTIVE, S.MIN_PREFIX_TOKENS)
  }

  predicate Raises(calls: seq<Call>, run: nat -> Outcome) {
    !CanParallel(calls) && exists i | 0 <= i < |calls| :: run(i).Raised?
  }

  function Said(h: History, m: Message): History {
    h.(messages := h.messages + [m])
  }

  /** The budget check of a round: on with notices, or one last call, or an end at once. */
  function BudgetStep(h: History, round: nat, env: Env): (History, Option<End>) {
    if env.budget.None? then (h, None)
    else if env.budget.value <= 0.0 then (h, Some(Finished(env.notice(round, BudgetGone))))
    else
      var pct := Cost(h) / env.budget.value;
      var tenth := round % 10 == 0;
      var noted := if Cost(h) >= env.perTask && tenth then Said(h, User(Text(env.notice(round, CostNote)))) else h;
      if pct > 0.5 then
        var last := LastWords(Said(noted, User(Text(env.notice(round, BudgetLimit)))), round, env.local(round),
                              env.notice(round, Overspent), env);
        (last.0, Some(last.1))
      else if pct > 0.3 && tenth then (Said(noted, User(Text(env.notice(round, BudgetInfo)))), None)
      else (noted, None)
  }

  /** The history after a round's call of the model. */
  ghost function AskStep(h: History, round: nat, env: Env): (after: History)
    ensures h.log < after.log
  {
    var sent := ToSend(h.messages, round, env);
    History(sent, Asked(h.log, round, sent, env), h.spent + Reports(h.messages, round, env))
  }

  /** The history after the tools of a round that did not raise. */
  ghost function ToolStep(h: History, r: Reply, round: nat, env: Env): History
    requires r.Response?
  {
    h.(messages := h.messages + [Assistant(Text(r.text), r.calls)] + Results(r.calls, RunOf(env, round), env.cut))
  }

  /** One iteration below the round limit, and how it ends the run, if it does. */
  ghost function RoundStep(h: History, round: nat, env: Env): (History, Option<End>) {
    var asked := AskStep(h, round, env);
    var a := Answer(asked.log);
    if a.None? then (asked, Some(Finished(env.notice(round, NoAnswer))))
    else if a.value.calls == [] then (asked, Some(Finished(a.value.text)))
    else if Raises(a.value.calls, RunOf(env, round)) then
      (Said(asked, Assistant(Text(a.value.text), a.value.calls)), Some(Escaped))
    else BudgetStep(ToolStep(asked, a.value, round, env), round, env)
  }

  /** Past the round limit: one last call, with the model of the round before. */
  function LimitStep(h: History, round: nat, env: Env): (History, End)
    requires round > 0
  {
    LastWords(Said(h, System(Text(env.notice(round, RoundLimit)))), round, env.local(round - 1),
              env.notice(round, TooManyRounds), env)
  }

  // ---- Runs ----

  /** The history after n rounds none of which ends the run. */
  ghost function After(task: seq<Message>, n: nat, env: Env): History {
    if n == 0 then History(task, [], []) else RoundStep(After(task, n - 1, env), n, env).0
  }

  ghost predicate GoesOn(task: seq<Message>, round: nat, env: Env)
    requires round > 0
  {
    RoundStep(After(task, round - 1, env), round, env).1.None?
  }

  /** A whole run: rounds that go on, and then one that ends it or the call past the limit. */
  ghost predicate Ran(task: seq<Message>, maxRounds: nat, env: Env, h: History, end: End, rounds: nat) {
    && 1 <= rounds <= maxRounds + 1
    && (forall r | 1 <= r < rounds :: GoesOn(task, r, env))
    && if rounds <= maxRounds
       then RoundStep(After(task, rounds - 1, env), rounds, env) == (h, Some(end))
       else LimitStep(After(task, maxRounds, env), rounds, env) == (h, end)
  }

  /** A task, a limit and an environment have one run. */
  lemma {:induction false} RunIsDetermined(task: seq<Message>, maxRounds: nat, env: Env,
                                           h: History, end: End, rounds: nat, h': History, end': End, rounds': nat)
    requires Ran(task, maxRounds, env, h, end, rounds) && Ran(task, maxRounds, env, h', end', rounds')
    ensures h == h' && end == end' && rounds == rounds'
  {
    hide RoundStep, LimitStep;
    assert rounds < rounds' ==> GoesOn(task, rounds, env);
    assert rounds' < rounds ==> GoesOn(task, rounds', env);
  }

  /** What the compactions of the first n rounds report, in order. */
  ghost function Reported(task: seq<Message>, n: nat, env: Env): seq<real> {
    if n == 0 then [] else Reported(task, n - 1, env) + Reports(After(task, n - 1, env).messages, n, env)
  }

  predicate IsSealed(m: Message) {
    m.Tool? && m.content.Blocks?
  }

  predicate OneSealed(ms: seq<Message>) {
    forall i, j | 0 <= i < j < |ms| :: !(IsSealed(ms[i]) && IsSealed(ms[j]))
  }

  /** What may be sent: well paired, and at most one sealed tool result. */
  predicate Sendable(ms: seq<Message>) {
    Paired(ms) && OneSealed(ms)
  }

  /** The i-th attempt of a run of at most maxRounds rounds: it sends what its round has to send,
      perhaps with what was said since, to the model that is its turn. */
  ghost predicate Told(a: Attempt, i: nat, task: seq<Message>, maxRounds: nat, env: Env) {
    && Sendable(a.sent) && a.reply == env.chat(i)
    && 1 <= a.round <= maxRounds + 1
    && if a.round <= maxRounds
       then ToSend(After(task, a.round - 1, env).messages, a.round, env) <= a.sent
            && (a.local == env.local(a.round) || env.fallback(a.round) == Some(a.local))
       else a.sent == After(task, maxRounds, env).messages + [System(Text(env.notice(a.round, RoundLimit)))]
            && a.local == env.local(maxRounds)
  }

  /** A log all of whose attempts are so, in the order of their rounds. */
  ghost predicate Lawful(log: seq<Attempt>, task: seq<Message>, maxRounds: nat, env: Env) {
    && (forall i | 0 <= i < |log| :: Told(log[i], i, task, maxRounds, env))
    && (forall i, j | 0 <= i < j < |log| :: log[i].round <= log[j].round)
  }

  // ---- What each step keeps ----

  lemma {:induction false} OneMore(ms: seq<Message>, m: Message)
    requires Paired(ms) && (m.System? || m.User?)
    ensures Paired(ms + [m]) && (OneSealed(ms) ==> OneSealed(ms + [m]))
  {
    assert [m][1..] == [];
    PairedAppend(ms, [m]);
  }

  lemma {:induction false} UsersPaired(ms: seq<Message>, contents: seq<Content>)
    requires Paired(ms)
    ensures Paired(ms + Users(contents))
  {
    hide Paired;
    if contents == [] {
      assert ms + [] == ms;
    } else {
      var k := |contents| - 1;
      UsersPaired(ms, contents[..k]);
      OneMore(ms + Users(contents[..k]), User(contents[k]));
      assert ms + Users(contents) == ms + Users(contents[..k]) + [User(contents[k])];
    }
  }

  lemma {:induction false} InjectedPaired(ms: seq<Message>, round: nat, env: Env)
    requires Paired(ms)
    ensures Paired(ms + Injected(round, env))
  {
    hide Paired, Users;
    var users := Users(env.incoming(round));
    if round > 1 && round % 15 == 0 {
      var m := System(Text(env.notice(round, Reminder)));
      OneMore(ms, m);
      UsersPaired(ms + [m], env.incoming(round));
      assert ms + [m] + users == ms + ([m] + users);
    } else {
      UsersPaired(ms, env.incoming(round));
      assert [] + users == users;
    }
  }

  lemma {:induction false} RoundAddsNoSeal(ms: seq<Message>, text: string, calls: seq<Call>, run: nat -> Outcome,
                                           cut: Cut)
    requires OneSealed(ms)
    ensures OneSealed(ms + [Assistant(Text(text), calls)] + Results(calls, run, cut))
  {
    var r := Results(calls, run, cut);
    var all := ms + [Assistant(Text(text), calls)] + r;
    forall i | |ms| <= i < |all|
      ensures !IsSealed(all[i])
    {
      if i > |ms| {
        assert all[i] == r[i - |ms| - 1];
      }
    }
  }

  lemma {:induction false} SealKeepsPairing(ms: seq<Message>)
    requires Paired(ms)
    ensures Sendable(S.Sealed(ms, S.KEEP_ACTIVE, S.MIN_PREFIX_TOKENS))
  {
    var r := S.Sealed(ms, S.KEEP_ACTIVE, S.MIN_PREFIX_TOKENS);
    forall i | 0 <= i < |ms|
      ensures SameSkeleton(ms[i], r[i])
    {
      S.SealKeepsText(ms, S.KEEP_ACTIVE, S.MIN_PREFIX_TOKENS, i);
    }
    PairedBySkeleton(ms, r);
    forall i, j | 0 <= i < j < |r|
      ensures !(IsSealed(r[i]) && IsSealed(r[j]))
    {
      if IsSealed(r[i]) && IsSealed(r[j]) {
        S.OneSeal(ms, S.KEEP_ACTIVE, S.MIN_PREFIX_TOKENS, i, j);
      }
    }
  }

  /** What a round sends may be sent. */
  lemma {:induction false} ToSendSendable(ms: seq<Message>, round: nat, env: Env)
    requires Paired(ms)
    ensures Sendable(ToSend(ms, round, env))
  {
    hide Paired, C.AfterLlm, S.Sealed, Sendable, Injected;
    InjectedPaired(ms, round, env);
    var all := ms + Injected(round, env);
    if env.request(round).Some? {
      C.CompactionKeepsPairing(all, env.request(round).value, SummaryOf(env, round), env.shrink);
    } else {
      C.CompactionKeepsPairing(all, 50, SummaryOf(env, round), env.shrink);
    }
    SealKeepsPairing(Compacted(all, round, env).0);
  }

  /** The new attempts of a step: in this round, with at least this transcript. */
  predicate Fresh(log: seq<Attempt>, after: seq<Attempt>, round: nat, sent: seq<Message>, env: Env) {
    && log <= after
    && forall i | |log| <= i < |after| ::
         && after[i].round == round && after[i].reply == env.chat(i)
         && sent <= after[i].sent && Sendable(after[i].sent)
         && (after[i].local == env.local(round) || env.fallback(round) == Some(after[i].local))
  }

  lemma {:induction false} TriesFresh(log: seq<Attempt>, round: nat, sent: seq<Message>, local: bool,
                                      least: seq<Message>, env: Env)
    requires Sendable(sent) && least <= sent
    requires local == env.local(round) || env.fallback(round) == Some(local)
    ensures Fresh(log, Tries(log, round, sent, local, MAX_RETRIES, env), round, least, env)
  {
    hide Sendable, Tries;
    TriesFacts(log, round, sent, local, MAX_RETRIES, env);
  }

  lemma {:induction false} FreshMore(a: seq<Attempt>, b: seq<Attempt>, c: seq<Attempt>, round: nat, sent: seq<Message>,
                                     env: Env)
    requires Fresh(a, b, round, sent, env) && Fresh(b, c, round, sent, env)
    ensures Fresh(a, c, round, sent, env)
  {
    hide Sendable;
    forall i | |a| <= i < |c|
      ensures && c[i].round == round && c[i].reply == env.chat(i)
              && sent <= c[i].sent && Sendable(c[i].sent)
              && (c[i].local == env.local(round) || env.fallback(round) == Some(c[i].local))
    {
      if i < |b| {
        assert c[i] == b[i];
      }
    }
  }

  /** Main model and fallback: every attempt sends exactly this transcript. */
  lemma {:induction false} AskedFacts(log: seq<Attempt>, round: nat, sent: seq<Message>, env: Env)
    requires Sendable(sent)
    ensures Fresh(log, Asked(log, round, sent, env), round, sent, env)
    ensures Asked(log, round, sent, env)[|log|].sent == sent
  {
    hide Sendable, Tries, Answer;
    var main := Tries(log, round, sent, env.local(round), MAX_RETRIES, env);
    TriesFresh(log, round, sent, env.local(round), sent, env);
    TriesFacts(log, round, sent, env.local(round), MAX_RETRIES, env);
    if Answer(main).None? && env.fallback(round).Some? {
      TriesFresh(main, round, sent, env.fallback(round).value, sent, env);
      FreshMore(log, main, Asked(log, round, sent, env), round, sent, env);
      assert Asked(log, round, sent, env)[|log|] == main[|log|];
    }
  }

  /** The budget check: it ends the run exactly when the budget is gone or more than half spent. */
  lemma {:induction false} BudgetFacts(h: History, round: nat, env: Env)
    requires Sendable(h.messages)
    ensures var (after, end) := BudgetStep(h, round, env);
            && (end.Some? <==> env.budget.Some? && (env.budget.value <= 0.0 || Cost(h) / env.budget.value > 0.5))
            && (end.None? ==> after.log == h.log)
            && |after.log| <= |h.log| + MAX_RETRIES
            && Fresh(h.log, after.log, round, h.messages, env)
            && h.messages <= after.messages && Sendable(after.messages) && after.spent == h.spent
  {
    hide Paired, OneSealed, Tries, Cost, Answer;
    if env.budget.Some? && env.budget.value > 0.0 {
      var note := Said(h, User(Text(env.notice(round, CostNote))));
      OneMore(h.messages, User(Text(env.notice(round, CostNote))));
      var noted := if Cost(h) >= env.perTask && round % 10 == 0 then note else h;
      var limit, info := User(Text(env.notice(round, BudgetLimit))), User(Text(env.notice(round, BudgetInfo)));
      OneMore(noted.messages, limit);
      OneMore(noted.messages, info);
      TriesFresh(h.log, round, noted.messages + [limit], env.local(round), h.messages, env);
    }
  }

  /** One round: what it sends, what it books, and that its transcript may be sent on. */
  lemma {:induction false} RoundFacts(h: History, round: nat, env: Env)
    requires Paired(h.messages)
    ensures var (after, end) := RoundStep(h, round, env);
            var sent := ToSend(h.messages, round, env);
            && Fresh(h.log, after.log, round, sent, env) && h.log < after.log && after.log[|h.log|].sent == sent
            && |after.log| <= |h.log| + 2 * MAX_RETRIES + (if end.Some? then MAX_RETRIES else 0)
            && after.spent == h.spent + Reports(h.messages, round, env)
            && (end.None? ==> sent < after.messages && Sendable(after.messages))
  {
    hide Paired, OneSealed, ToSend, Asked, Reports, Results, BudgetStep, Answer, Raises;
    var sent := ToSend(h.messages, round, env);
    ToSendSendable(h.messages, round, env);
    AskedFacts(h.log, round, sent, env);
    var asked := AskStep(h, round, env);
    var a := Answer(asked.log);
    if a.Some? && a.value.Response? && a.value.calls != [] && !Raises(a.value.calls, RunOf(env, round)) {
      var next := ToolStep(asked, a.value, round, env);
      RoundKeepsPairing(sent, a.value.text, a.value.calls, RunOf(env, round), env.cut);
      RoundAddsNoSeal(sent, a.value.text, a.value.calls, RunOf(env, round), env.cut);
      assert sent < next.messages;
      BudgetFacts(next, round, env);
      FreshWeaker(next.log, BudgetStep(next, round, env).0.log, round, next.messages, sent, env);
      FreshMore(h.log, asked.log, BudgetStep(next, round, env).0.log, round, sent, env);
    }
  }

  lemma {:induction false} FreshWeaker(log: seq<Attempt>, after: seq<Attempt>, round: nat,
                                       sent: seq<Message>, least: seq<Message>, env: Env)
    requires Fresh(log, after, round, sent, env) && least <= sent
    ensures Fresh(log, after, round, least, env)
  {
    hide Sendable;
  }

  /** New attempts of the next round keep a log lawful. */
  lemma {:induction false} LawfulMore(log: seq<Attempt>, after: seq<Attempt>, round: nat,
                                      task: seq<Message>, maxRounds: nat, env: Env)
    requires 1 <= round <= maxRounds && Lawful(log, task, maxRounds, env)
    requires forall i | 0 <= i < |log| :: log[i].round < round
    requires Fresh(log, after, round, ToSend(After(task, round - 1, env).messages, round, env), env)
    ensures Lawful(after, task, maxRounds, env) && forall i | 0 <= i < |after| :: after[i].round <= round
  {
    hide Sendable, ToSend, After;
    forall i | 0 <= i < |after|
      ensures Told(after[i], i, task, maxRounds, env) && after[i].round <= round
      ensures i < |log| ==> after[i] == log[i]
    {
      if i < |log| {
        assert after[i] == log[i];
      }
    }
  }

  /** After any number of rounds that go on: every attempt is lawful, every reported cost is that
      of one round's compaction, and the transcript is well paired. */
  lemma {:induction false} AfterLaws(task: seq<Message>, n: nat, maxRounds: nat, env: Env)
    requires Paired(task) && n <= maxRounds && forall r | 1 <= r <= n :: GoesOn(task, r, env)
    ensures var h := After(task, n, env);
            && Paired(h.messages) && (n > 0 ==> Sendable(h.messages))
            && Lawful(h.log, task, maxRounds, env) && n <= |h.log| <= 2 * MAX_RETRIES * n
            && (forall i | 0 <= i < |h.log| :: h.log[i].round <= n)
            && h.spent == Reported(task, n, env)
  {
    hide RoundStep, Paired, OneSealed, Fresh, Told, Reports, ToSend;
    if n > 0 {
      AfterLaws(task, n - 1, maxRounds, env);
      var h := After(task, n - 1, env);
      assert GoesOn(task, n, env);
      RoundFacts(h, n, env);
      LawfulMore(h.log, After(task, n, env).log, n, task, maxRounds, env);
    }
  }

  /** The laws of a whole run. */
  lemma {:induction false} RunLaws(task: seq<Message>, maxRounds: nat, env: Env, h: History, end: End, rounds: nat)
    requires Paired(task) && maxRounds >= 1 && Ran(task, maxRounds, env, h, end, rounds)
    ensures Lawful(h.log, task, maxRounds, env)
    ensures rounds <= |h.log| <= 2 * MAX_RETRIES * maxRounds + MAX_RETRIES
    ensures h.spent == Reported(task, if rounds <= maxRounds then rounds else maxRounds, env)
  {
    hide RoundStep, LimitStep, Paired, OneSealed, Fresh, Lawful, Reports, ToSend, After;
    AfterLaws(task, rounds - 1, maxRounds, env);
    var before := After(task, rounds - 1, env);
    if rounds <= maxRounds {
      RoundFacts(before, rounds, env);
      LawfulMore(before.log, h.log, rounds, task, maxRounds, env);
    } else {
      LimitLaws(task, maxRounds, env, before);
    }
  }

  lemma {:induction false} LawfulLimit(log: seq<Attempt>, after: seq<Attempt>, sent: seq<Message>,
                                       task: seq<Message>, maxRounds: nat, env: Env)
    requires Lawful(log, task, maxRounds, env) && forall i | 0 <= i < |log| :: log[i].round <= maxRounds
    requires log <= after && Sendable(sent)
    requires sent == After(task, maxRounds, env).messages + [System(Text(env.notice(maxRounds + 1, RoundLimit)))]
    requires forall i | |log| <= i < |after| ::
               after[i] == Attempt(maxRounds + 1, sent, env.local(maxRounds), env.chat(i))
    ensures Lawful(after, task, maxRounds, env)
  {
    hide Sendable, After, ToSend;
    forall i | 0 <= i < |after|
      ensures Told(after[i], i, task, maxRounds, env)
      ensures i < |log| ==> after[i] == log[i]
    {
      if i < |log| {
        assert after[i] == log[i];
      }
    }
  }

  lemma {:induction false} LimitLaws(task: seq<Message>, maxRounds: nat, env: Env, h: History)
    requires maxRounds >= 1 && h == After(task, maxRounds, env)
    requires Sendable(h.messages) && Lawful(h.log, task, maxRounds, env)
    requires forall i | 0 <= i < |h.log| :: h.log[i].round <= maxRounds
    ensures var last := LimitStep(h, maxRounds + 1, env).0;
            && Lawful(last.log, task, maxRounds, env) && last.spent == h.spent
            && |h.log| < |last.log| <= |h.log| + MAX_RETRIES
  {
    hide Paired, OneSealed, After, Tries, Lawful, Stops;
    var m := System(Text(env.notice(maxRounds + 1, RoundLimit)));
    OneMore(h.messages, m);
    TriesFacts(h.log, maxRounds + 1, h.messages + [m], env.local(maxRounds), MAX_RETRIES, env);
    LawfulLimit(h.log, LimitStep(h, maxRounds + 1, env).0.log, h.messages + [m], task, maxRounds, env);
  }

  lemma {:induction false} ChargesStep(log: seq<Attempt>, a: Attempt)
    ensures Charges(log + [a]) == Charges(log) + Charge(a.reply, a.local)
  {
    assert (log + [a])[..|log|] == log;
  }

  lemma {:induction false} SumStep(xs: seq<real>, x: real)
    ensures Sum(xs + [x]) == Sum(xs) + x
  {
    assert (xs + [x])[..|xs|] == xs;
  }

  class AgentTask {
    var messages: seq<Message>
    var cost: real
    var chats: nat
    ghost var log: seq<Attempt>
    ghost var spent: seq<real>

    ghost function Seen(): History
      reads this
    {
      History(messages, log, spent)
    }

    /** The accumulated cost is the sum over every response returned, blank ones and ones of
        failed rounds included, and over the costs reported for compactions. */
    ghost predicate Accounted()
      reads this
    {
      chats == |log| && cost == Cost(Seen())
    }

    constructor (task: seq<Message>)
      ensures Accounted() && Seen() == History(task, [], [])
    {
      messages, cost, chats, log, spent := task, 0.0, 0, [], [];
    }

    /** One attempt: the chat, and its cost added up. */
    method ChatOnce(round: nat, local: bool, env: Env) returns (r: Reply)
      requires Accounted()
      modifies this`cost, this`chats, this`log
      ensures Accounted() && r == env.chat(old(chats)) && log == old(log) + [Attempt(round, messages, local, r)]
    {
      r := env.chat(chats);
      ChargesStep(log, Attempt(round, messages, local, r));
      if r.Response? {
        cost := cost + if local then 0.0 else if r.cost == 0.0 then r.estimate else r.cost;
      }
      chats, log := chats + 1, log + [Attempt(round, messages, local, r)];
    }

    /** call_llm_with_retry: attempts with the same transcript, until one that is neither an error
        nor blank; a context overflow ends them early. */
    method CallWithRetry(round: nat, local: bool, env: Env) returns (reply: Option<Reply>)
      requires Accounted()
      modifies this`cost, this`chats, this`log
      ensures Accounted() && log == Tries(old(log), round, messages, local, MAX_RETRIES, env)
      ensures reply == Answer(log)
    {
      hide Charges, Sum;
      for attempt := 0 to MAX_RETRIES
        invariant Accounted() && (attempt > 0 ==> Answer(log).None?)
        invariant Tries(log, round, messages, local, MAX_RETRIES - attempt, env)
               == Tries(old(log), round, messages, local, MAX_RETRIES, env)
      {
        var r := ChatOnce(round, local, env);
        if r.Failure? {
          if r.overflow {
            return None;
          }
        } else if !Blank(r) {
          return Some(r);
        }
      }
      reply := None;
    }

    /** _check_budget_limits: a text ends the task. */
    method CheckBudget(round: nat, env: Env) returns (stop: Option<string>)
      requires Accounted()
      modifies this`messages, this`cost, this`chats, this`log
      ensures Accounted()
      ensures (Seen(), if stop.Some? then Some(Finished(stop.value)) else None) == BudgetStep(old(Seen()), round, env)
    {
      hide Charges, Sum, Tries, Answer;
      if env.budget.None? {
        return None;
      }
      var remaining := env.budget.value;
      var taskCost := cost;
      if remaining <= 0.0 {
        return Some(env.notice(round, BudgetGone));
      }
      var pct := taskCost / remaining;
      if taskCost >= env.perTask && round % 10 == 0 {
        messages := messages + [User(Text(env.notice(round, CostNote)))];
      }
      if pct > 0.5 {
        messages := messages + [User(Text(env.notice(round, BudgetLimit)))];
        var final := CallWithRetry(round, env.local(round), env);
        var text := if final.Some? then final.value.text else "";
        stop := Some(if text != "" then text else env.notice(round, Overspent));
      } else {
        if pct > 0.3 && round % 10 == 0 {
          messages := messages + [User(Text(env.notice(round, BudgetInfo)))];
        }
        stop := None;
      }
    }

    /** The self-check reminder and the owner's messages. */
    method Inject(round: nat, env: Env)
      modifies this`messages
      ensures messages == old(messages) + Injected(round, env)
    {
      if round > 1 && round % 15 == 0 {
        messages := messages + [System(Text(env.notice(round, Reminder)))];
      }
      ghost var start := messages;
      var incoming := env.incoming(round);
      for i := 0 to |incoming|
        invariant messages == start + Users(incoming[..i])
      {
        assert incoming[..i + 1][..i] == incoming[..i];
        messages := messages + [User(incoming[i])];
      }
      assert incoming[..|incoming|] == incoming;
    }

    /** The compaction step of a round. */
    method CompactIfDue(round: nat, env: Env)
      requires Accounted()
      modifies this`messages, this`cost, this`spent
      ensures Accounted() && messages == Compacted(old(messages), round, env).0
      ensures var usage := Compacted(old(messages), round, env).1;
              spent == old(spent) + if usage.Some? then [usage.value] else []
    {
      hide C.AfterLlm, Charges, Sum;
      var keep: int := 50;
      if env.request(round).Some? {
        keep := env.request(round).value;
      } else if !(round > 12 || (round > 6 && |messages| > 80)) {
        return;
      }
      var reply := SummaryOf(env, round);
      var compacted, usage := C.CompactToolHistoryLlm(messages, keep, reply, env.shrink);
      messages := compacted;
      if usage.Some? {
        SumStep(spent, usage.value);
        spent := spent + [usage.value];
        cost := cost + usage.value;
      }
    }

    method Seal()
      modifies this`messages
      ensures messages == S.Sealed(old(messages), S.KEEP_ACTIVE, S.MIN_PREFIX_TOKENS)
    {
      var current := messages;
      var list := new Message[|current|](i requires 0 <= i < |current| => current[i]);
      assert list[..] == current;
      S.SealTaskTranscript(list, S.KEEP_ACTIVE, S.MIN_PREFIX_TOKENS);
      messages := list[..];
    }

    /** The main model and then, if there is one, the fallback model. */
    method Ask(round: nat, env: Env) returns (reply: Option<Reply>)
      requires Accounted()
      modifies this`cost, this`chats, this`log
      ensures Accounted() && log == Asked(old(log), round, messages, env) && reply == Answer(log)
    {
      hide Tries, Answer, Charges, Sum;
      reply := CallWithRetry(round, env.local(round), env);
      if reply.None? && env.fallback(round).Some? {
        reply := CallWithRetry(round, env.fallback(round).value, env);
      }
    }

    /** The assistant message of a round and its results, unless a tool raises. */
    method RunTools(round: nat, text: string, calls: seq<Call>, env: Env) returns (raised: bool)
      requires Possible(env)
      modifies this`messages
      ensures raised == Raises(calls, RunOf(env, round))
      ensures raised ==> messages == old(messages) + [Assistant(Text(text), calls)]
      ensures !raised ==>
                messages == old(messages) + [Assistant(Text(text), calls)] + Results(calls, RunOf(env, round), env.cut)
    {
      var run := RunOf(env, round);
      messages := messages + [Assistant(Text(text), calls)];
      var escaped, extended, errors := HandleToolCalls(calls, run, env.order(round, |calls|), messages, env.cut);
      raised := escaped;
      messages := extended;
    }

    /** One iteration below the round limit; it either goes on or ends the run. */
    method Round(round: nat, env: Env) returns (end: Option<End>)
      requires Accounted() && Possible(env)
      modifies this
      ensures Accounted() && (Seen(), end) == RoundStep(old(Seen()), round, env)
    {
      hide Compacted, Injected, S.Sealed, Results, Charges, Sum, Asked, BudgetStep, Raises;
      Inject(round, env);
      CompactIfDue(round, env);
      Seal();
      var reply := Ask(round, env);
      if reply.None? {
        return Some(Finished(env.notice(round, NoAnswer)));
      }
      if reply.value.calls == [] {
        return Some(Finished(reply.value.text));
      }
      var raised := RunTools(round, reply.value.text, reply.value.calls, env);
      if raised {
        return Some(Escaped);
      }
      var stop := CheckBudget(round, env);
      end := if stop.Some? then Some(Finished(stop.value)) else None;
    }

    /** Past the round limit: one last call. */
    method FinishAtLimit(round: nat, env: Env) returns (end: End)
      requires Accounted() && round > 0
      modifies this`messages, this`cost, this`chats, this`log
      ensures Accounted() && (Seen(), end) == LimitStep(old(Seen()), round, env)
    {
      hide Tries, Answer, Charges, Sum;
      messages := messages + [System(Text(env.notice(round, RoundLimit)))];
      var final := CallWithRetry(round, env.local(round - 1), env);
      var text := if final.Some? then final.value.text else "";
      end := Finished(if text != "" then text else env.notice(round, TooManyRounds));
    }

    /** run_llm_loop for a task of at most maxRounds >= 1 rounds: the one run there is, and its laws. */
    method RunLoop(maxRounds: nat, env: Env) returns (end: End, rounds: nat)
      requires Accounted() && log == [] && spent == [] && Possible(env) && maxRounds >= 1
      modifies this
      ensures Ran(old(messages), maxRounds, env, Seen(), end, rounds)
      ensures cost == Charges(log) + Sum(spent) && chats == |log|
      ensures Paired(old(messages)) ==> Lawful(log, old(messages), maxRounds, env)
      ensures Paired(old(messages)) ==> rounds <= |log| <= 2 * MAX_RETRIES * maxRounds + MAX_RETRIES
      ensures Paired(old(messages)) ==>
                spent == Reported(old(messages), if rounds <= maxRounds then rounds else maxRounds, env)
    {
      hide RoundStep, LimitStep, Charges, Sum, Paired, Lawful, Reported;
      ghost var task := messages;
      var round := 0;
      while true
        invariant Accounted() && round <= maxRounds && Seen() == After(task, round, env)
        invariant forall r | 1 <= r <= round :: GoesOn(task, r, env)
        decreases maxRounds - round
      {
        round := round + 1;
        if round > maxRounds {
          end := FinishAtLimit(round, env);
          rounds := round;
          break;
        }
        var stop := Round(round, env);
        if stop.Some? {
          end, rounds := stop.value, round;
          break;
        }
      }
      if Paired(task) {
        RunLaws(task, maxRounds, env, Seen(), end, rounds);
      }
    }
  }
}
