/** One round of tool calls (ouroboros/loop_tool_execution.py): results come back in any order
    and are put in their places. */
module ToolCalls {
  import opened Options
  import opened Transcript

  const READ_ONLY_PARALLEL_TOOLS: set<string> :=
    {"repo_read", "repo_list", "data_read", "data_list", "code_search", "web_search", "codebase_digest", "chat_history"}

  /** What running one call comes to; whole: its arguments could be read and it did not time out,
      so that they are kept with the result. */
  datatype Outcome = Done(text: string, isError: bool, whole: bool) | Raised(error: string)

  datatype Execution = Execution(id: string, tool: string, args: string, text: string, isError: bool)

  const TOOL_ERROR := "\U{26A0}\U{FE0F} TOOL_ERROR: Unexpected error: "

  function ResultOf(call: Call, o: Outcome): (x: Execution)
    ensures x.id == call.id && x.tool == call.name
  {
    match o
    case Done(text, isError, whole) => Execution(call.id, call.name, if whole then call.args else "", text, isError)
    case Raised(error) => Execution(call.id, call.name, "", TOOL_ERROR + error, true)
  }

  predicate CanParallel(calls: seq<Call>) {
    |calls| > 1 && forall i | 0 <= i < |calls| :: calls[i].name in READ_ONLY_PARALLEL_TOOLS
  }

  /** order is an order in which the calls may finish. */
  predicate CompletionOrder(order: seq<nat>, n: nat) {
    |order| == n && (forall i | 0 <= i < n :: order[i] < n) && forall i, j | 0 <= i < j < n :: order[i] != order[j]
  }

  /** How a text is truncated for a tool and its arguments. */
  type Cut = (string, string, string) -> string

  /** The message for one result. */
  function ResultMessage(x: Execution, cut: Cut): Message {
    Tool(x.id, Text(cut(x.tool, x.args, x.text)))
  }

  /** What a round of calls appends to the transcript: one message per call, in call order. */
  function Results(calls: seq<Call>, run: nat -> Outcome, cut: Cut): (ms: seq<Message>)
    ensures |ms| == |calls| && forall i | 0 <= i < |calls| :: ms[i] == ResultMessage(ResultOf(calls[i], run(i)), cut)
  {
    seq(|calls|, i requires 0 <= i < |calls| => ResultMessage(ResultOf(calls[i], run(i)), cut))
  }

  function Errors(xs: seq<Execution>): nat {
    if xs == [] then 0 else Errors(xs[..|xs| - 1]) + if xs[|xs| - 1].isError then 1 else 0
  }

  function Executions(calls: seq<Call>, run: nat -> Outcome): (xs: seq<Execution>)
    ensures |xs| == |calls|
  {
    seq(|calls|, i requires 0 <= i < |calls| => ResultOf(calls[i], run(i)))
  }

  function Below(n: nat): (s: set<nat>)
    ensures |s| == n && forall k: nat :: k in s <==> k < n
  {
    if n == 0 then {} else Below(n - 1) + {n - 1}
  }

  /** n different numbers below n are all the numbers below n. */
  lemma {:induction false} OrderCovers(order: seq<nat>, n: nat, x: nat)
    requires CompletionOrder(order, n) && x < n
    ensures exists i | 0 <= i < n :: order[i] == x
  {
    if !(exists i | 0 <= i < n :: order[i] == x) {
      Pigeons(order, Below(n) - {x});
    }
  }

  lemma {:induction false} Pigeons(order: seq<nat>, range: set<nat>)
    requires forall i | 0 <= i < |order| :: order[i] in range
    requires forall i, j | 0 <= i < j < |order| :: order[i] != order[j]
    ensures |order| <= |range|
  {
    if order != [] {
      var m := |order| - 1;
      Pigeons(order[..m], range - {order[m]});
    }
  }

  /** Runs the calls, in a thread pool if all are read-only, and stores each result at its
      call's index whenever it finishes. None: a call of the sequential path raised. */
  method Execute(calls: seq<Call>, run: nat -> Outcome, order: seq<nat>) returns (results: Option<seq<Execution>>)
    requires CompletionOrder(order, |calls|)
    ensures results.None? <==> !CanParallel(calls) && exists i | 0 <= i < |calls| :: run(i).Raised?
    ensures results.Some? ==> results.value == Executions(calls, run)
  {
    if !CanParallel(calls) {
      var out := [];
      for i := 0 to |calls|
        invariant |out| == i && forall j | 0 <= j < i :: out[j] == ResultOf(calls[j], run(j)) && !run(j).Raised?
      {
        if run(i).Raised? {
          return None;
        }
        out := out + [ResultOf(calls[i], run(i))];
      }
      assert out == Executions(calls, run);
      return Some(out);
    }
    var slots := new Option<Execution>[|calls|](i => None);
    for k := 0 to |order|
      invariant forall j | 0 <= j < k :: slots[order[j]] == Some(ResultOf(calls[order[j]], run(order[j])))
    {
      var i := order[k];
      slots[i] := Some(ResultOf(calls[i], run(i)));
    }
    forall i | 0 <= i < |calls|
      ensures slots[i] == Some(ResultOf(calls[i], run(i)))
    {
      OrderCovers(order, |calls|, i);
      var j :| 0 <= j < |order| && order[j] == i;
    }
    var out := [];
    for i := 0 to |calls|
      invariant |out| == i && forall j | 0 <= j < i :: out[j] == ResultOf(calls[j], run(j))
    {
      out := out + [slots[i].value];
    }
    assert out == Executions(calls, run);
    results := Some(out);
  }

  /** process_tool_results */
  method ProcessToolResults(results: seq<Execution>, messages: seq<Message>, cut: Cut)
    returns (extended: seq<Message>, errors: nat)
    ensures |extended| == |messages| + |results| && extended[..|messages|] == messages
    ensures forall i | 0 <= i < |results| :: extended[|messages| + i] == ResultMessage(results[i], cut)
    ensures errors == Errors(results)
  {
    extended, errors := messages, 0;
    for i := 0 to |results|
      invariant |extended| == |messages| + i && extended[..|messages|] == messages
      invariant forall j | 0 <= j < i :: extended[|messages| + j] == ResultMessage(results[j], cut)
      invariant errors == Errors(results[..i])
    {
      assert results[..i + 1][..i] == results[..i];
      if results[i].isError {
        errors := errors + 1;
      }
      extended := extended + [ResultMessage(results[i], cut)];
    }
    assert results[..|results|] == results;
  }

  /** handle_tool_calls: whatever order the calls finish in, exactly their results are
      appended, in call order. */
  method HandleToolCalls(calls: seq<Call>, run: nat -> Outcome, order: seq<nat>, messages: seq<Message>, cut: Cut)
    returns (raised: bool, extended: seq<Message>, errors: nat)
    requires CompletionOrder(order, |calls|)
    ensures raised <==> !CanParallel(calls) && exists i | 0 <= i < |calls| :: run(i).Raised?
    ensures extended == if raised then messages else messages + Results(calls, run, cut)
    ensures errors == if raised then 0 else Errors(Executions(calls, run))
  {
    var results := Execute(calls, run, order);
    if results.None? {
      return true, messages, 0;
    }
    raised := false;
    extended, errors := ProcessToolResults(results.value, messages, cut);
    ghost var tail := extended[|messages|..];
    forall i | 0 <= i < |calls|
      ensures tail[i] == Results(calls, run, cut)[i]
    {
      assert tail[i] == extended[|messages| + i] == ResultMessage(results.value[i], cut);
    }
    assert extended == extended[..|messages|] + tail && tail == Results(calls, run, cut);
  }

  /** A finished round keeps the transcript well paired. */
  lemma {:induction false} RoundKeepsPairing(ms: seq<Message>, text: string, calls: seq<Call>, run: nat -> Outcome,
                                             cut: Cut)
    requires Paired(ms) && calls != []
    ensures Paired(ms + [Assistant(Text(text), calls)] + Results(calls, run, cut))
  {
    var m := Assistant(Text(text), calls);
    assert Answers(Results(calls, run, cut), calls);
    PairedRound(m, Results(calls, run, cut));
    PairedAppend(ms, [m] + Results(calls, run, cut));
    assert ms + [m] + Results(calls, run, cut) == ms + ([m] + Results(calls, run, cut));
  }
}
