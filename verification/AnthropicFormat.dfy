/** Translating a transcript to Anthropic's message form (ouroboros/llm.py). */
module AnthropicFormat {
  import opened Options
  import Q = Sequences
  import opened Transcript
  import T = Text

  datatype Part = TextPart(text: string) | ImagePart(url: string) | ToolUse(id: string, name: string, args: string)
                | ToolResult(id: string, content: Content)

  /** A message has the role "assistant" or "user". */
  datatype Turn = Turn(assistant: bool, parts: seq<Part>)

  /** What one block of a content list becomes: empty texts and images without a URL vanish. */
  function PartOf(b: Block): seq<Part> {
    match b
    case TextBlock(text, _) => if text == "" then [] else [TextPart(text)]
    case ImageBlock(url) => if T.Strip(url) == "" then [] else [ImagePart(T.Strip(url))]
  }

  function PartsOf(blocks: seq<Block>): seq<Part> {
    if blocks == [] then [] else PartsOf(blocks[..|blocks| - 1]) + PartOf(blocks[|blocks| - 1])
  }

  /** _anthropic_blocks_from_content */
  function ContentParts(c: Content): seq<Part> {
    match c
    case Text(s) => if s == "" then [] else [TextPart(s)]
    case Blocks(bs) => PartsOf(bs)
  }

  function UseParts(calls: seq<Call>): (ps: seq<Part>)
    ensures |ps| == |calls| && forall i | 0 <= i < |calls| ::
              ps[i] == ToolUse(calls[i].id, calls[i].name, calls[i].args)
  {
    seq(|calls|, i requires 0 <= i < |calls| => ToolUse(calls[i].id, calls[i].name, calls[i].args))
  }

  /** The parts a message contributes; system messages go elsewhere. */
  function Parts(m: Message): seq<Part> {
    match m
    case System(_) => []
    case User(c) => ContentParts(c)
    case Assistant(c, calls) => ContentParts(c) + UseParts(calls)
    case Tool(id, c) => [ToolResult(id, c)]
  }

  /** _coalesce_anthropic_message */
  function Coalesce(ts: seq<Turn>, assistant: bool, parts: seq<Part>): seq<Turn> {
    if parts == [] then ts
    else if ts != [] && ts[|ts| - 1].assistant == assistant then
      ts[|ts| - 1 := Turn(assistant, ts[|ts| - 1].parts + parts)]
    else ts + [Turn(assistant, parts)]
  }

  function Add(ts: seq<Turn>, m: Message): seq<Turn> {
    Coalesce(ts, m.Assistant?, Parts(m))
  }

  function AddAll(ts: seq<Turn>, ms: seq<Message>): seq<Turn>
    decreases |ms|
  {
    if ms == [] then ts else AddAll(Add(ts, ms[0]), ms[1..])
  }

  function Translate(ms: seq<Message>): seq<Turn> {
    AddAll([], ms)
  }

  // ---- An independent description ----

  /** No message is empty, and the roles alternate. */
  predicate Alternating(ts: seq<Turn>) {
    && (forall i | 0 <= i < |ts| :: ts[i].parts != [])
    && forall i | 0 <= i < |ts| - 1 :: ts[i].assistant != ts[i + 1].assistant
  }

  function Tagged(assistant: bool, parts: seq<Part>): (r: seq<(bool, Part)>)
    ensures |r| == |parts| && forall i | 0 <= i < |parts| :: r[i] == (assistant, parts[i])
  {
    seq(|parts|, i requires 0 <= i < |parts| => (assistant, parts[i]))
  }

  /** All parts in order, each with the role it is under. */
  function Flat(ts: seq<Turn>): seq<(bool, Part)> {
    if ts == [] then [] else Flat(ts[..|ts| - 1]) + Tagged(ts[|ts| - 1].assistant, ts[|ts| - 1].parts)
  }

  function Contributions(ms: seq<Message>): seq<(bool, Part)> {
    if ms == [] then [] else Contributions(ms[..|ms| - 1]) + Tagged(ms[|ms| - 1].Assistant?, Parts(ms[|ms| - 1]))
  }

  lemma {:induction false} FlatStep(ts: seq<Turn>, t: Turn)
    ensures Flat(ts + [t]) == Flat(ts) + Tagged(t.assistant, t.parts)
  {
    assert (ts + [t])[..|ts|] == ts;
  }

  lemma {:induction false} TaggedAppend(assistant: bool, a: seq<Part>, b: seq<Part>)
    ensures Tagged(assistant, a + b) == Tagged(assistant, a) + Tagged(assistant, b)
  {
  }

  lemma {:induction false} JoinFlat(init: seq<Turn>, assistant: bool, a: seq<Part>, b: seq<Part>)
    ensures Flat(init + [Turn(assistant, a + b)]) == Flat(init + [Turn(assistant, a)]) + Tagged(assistant, b)
  {
    FlatStep(init, Turn(assistant, a));
    FlatStep(init, Turn(assistant, a + b));
    TaggedAppend(assistant, a, b);
    Q.Associate(Flat(init), Tagged(assistant, a), Tagged(assistant, b));
  }

  lemma {:induction false} CoalesceAlternates(ts: seq<Turn>, assistant: bool, parts: seq<Part>)
    requires Alternating(ts)
    ensures Alternating(Coalesce(ts, assistant, parts))
  {
  }

  lemma {:induction false} CoalesceFlat(ts: seq<Turn>, assistant: bool, parts: seq<Part>)
    ensures Flat(Coalesce(ts, assistant, parts)) == Flat(ts) + Tagged(assistant, parts)
  {
    var n := |ts|;
    if parts == [] {
      assert Tagged(assistant, parts) == [] && Flat(ts) + [] == Flat(ts);
    } else if n > 0 && ts[n - 1].assistant == assistant {
      var init, last := ts[..n - 1], ts[n - 1].parts;
      JoinFlat(init, assistant, last, parts);
      assert ts == init + [Turn(assistant, last)];
      assert Coalesce(ts, assistant, parts) == init + [Turn(assistant, last + parts)];
    } else {
      FlatStep(ts, Turn(assistant, parts));
    }
  }

  /** Whatever the transcript, the translation has no empty message, alternates roles, and
      keeps every part under its role and in its place. */
  lemma {:induction false} TranslationFaithful(ms: seq<Message>)
    ensures Alternating(Translate(ms)) && Flat(Translate(ms)) == Contributions(ms)
  {
    if ms != [] {
      var n := |ms| - 1;
      TranslationFaithful(ms[..n]);
      TranslateStep(ms, n);
      assert ms[..n + 1] == ms;
      CoalesceFlat(Translate(ms[..n]), ms[n].Assistant?, Parts(ms[n]));
      CoalesceAlternates(Translate(ms[..n]), ms[n].Assistant?, Parts(ms[n]));
    }
  }

  lemma {:induction false} AddAllAppend(ts: seq<Turn>, a: seq<Message>, b: seq<Message>)
    ensures AddAll(ts, a + b) == AddAll(AddAll(ts, a), b)
    decreases |a|
  {
    if a == [] {
      assert a + b == b;
    } else {
      assert (a + b)[1..] == a[1..] + b;
      AddAllAppend(Add(ts, a[0]), a[1..], b);
    }
  }

  lemma {:induction false} FlatAppend(a: seq<Turn>, b: seq<Turn>)
    ensures Flat(a + b) == Flat(a) + Flat(b)
  {
    if b == [] {
      Q.Nothing(a);
      Q.Nothing(Flat(a));
    } else {
      var n := |b| - 1;
      FlatAppend(a, b[..n]);
      Q.AppendLast(a, b);
      Q.Associate(Flat(a), Flat(b[..n]), Tagged(b[n].assistant, b[n].parts));
    }
  }

  lemma {:induction false} FlatHead(ts: seq<Turn>)
    requires ts != []
    ensures Flat(ts) == Tagged(ts[0].assistant, ts[0].parts) + Flat(ts[1..])
  {
    Q.SplitFirst(ts);
    FlatAppend([ts[0]], ts[1..]);
    FlatStep([], ts[0]);
    Q.Nothing([ts[0]]);
    Q.Nothing(Tagged(ts[0].assistant, ts[0].parts));
  }

  /** In an alternating translation the first message takes exactly the leading parts of one role. */
  lemma {:induction false} FirstTurnMaximal(ts: seq<Turn>)
    requires Alternating(ts) && ts != []
    ensures var n := |ts[0].parts|; var f := Flat(ts);
            && 0 < n <= |f| && (forall i | 0 <= i < n :: f[i] == (ts[0].assistant, ts[0].parts[i]))
            && (n < |f| ==> f[n].0 != ts[0].assistant) && f[n..] == Flat(ts[1..])
  {
    FlatHead(ts);
    if |ts| > 1 {
      FlatHead(ts[1..]);
      assert ts[1].parts != [];
    } else {
      assert Flat(ts[1..]) == [];
    }
  }

  /** Those two demands leave no choice: the translation is the only one that meets them. */
  lemma {:induction false} FaithfulIsUnique(ts: seq<Turn>, us: seq<Turn>)
    requires Alternating(ts) && Alternating(us) && Flat(ts) == Flat(us)
    ensures ts == us
  {
    if ts == [] || us == [] {
      if ts != [] {
        FirstTurnMaximal(ts);
      }
      if us != [] {
        FirstTurnMaximal(us);
      }
    } else {
      FirstTurnMaximal(ts);
      FirstTurnMaximal(us);
      var n, k, f := |ts[0].parts|, |us[0].parts|, Flat(ts);
      assert f[0].0 == ts[0].assistant == us[0].assistant;
      assert n == k;
      forall i | 0 <= i < n
        ensures ts[0].parts[i] == us[0].parts[i]
      {
        assert f[i] == (ts[0].assistant, ts[0].parts[i]) == (us[0].assistant, us[0].parts[i]);
      }
      assert ts[0].parts == us[0].parts;
      FaithfulIsUnique(ts[1..], us[1..]);
      assert ts == [ts[0]] + ts[1..] && us == [us[0]] + us[1..];
    }
  }

  // ---- Tool calls and their results ----

  function UseIds(parts: seq<Part>): seq<string> {
    if parts == [] then []
    else UseIds(parts[..|parts| - 1]) + if parts[|parts| - 1].ToolUse? then [parts[|parts| - 1].id] else []
  }

  function ResultIds(parts: seq<Part>): seq<string> {
    if parts == [] then []
    else ResultIds(parts[..|parts| - 1]) + if parts[|parts| - 1].ToolResult? then [parts[|parts| - 1].id] else []
  }

  /** The message starts with tool results for these ids, in order. */
  predicate LeadsWith(parts: seq<Part>, ids: seq<string>) {
    |ids| <= |parts| && forall i | 0 <= i < |ids| :: parts[i].ToolResult? && parts[i].id == ids[i]
  }

  function UsesBefore(ts: seq<Turn>, i: nat): seq<string>
    requires i < |ts|
  {
    if i == 0 then [] else UseIds(ts[i - 1].parts)
  }

  /** What the API asks of message i: an assistant message holds no results; a user message
      holds results for exactly the calls of the message before it, in order, at its start. */
  predicate AnsweredAt(ts: seq<Turn>, i: nat)
    requires i < |ts|
  {
    if ts[i].assistant then ResultIds(ts[i].parts) == []
    else
      && UseIds(ts[i].parts) == []
      && ResultIds(ts[i].parts) == UsesBefore(ts, i)
      && LeadsWith(ts[i].parts, UsesBefore(ts, i))
  }

  predicate AllAnsweredAt(ts: seq<Turn>) {
    forall i | 0 <= i < |ts| :: AnsweredAt(ts, i)
  }

  /** ... and no call is left open at the end. */
  predicate Answered(ts: seq<Turn>) {
    AllAnsweredAt(ts) && (ts != [] ==> UseIds(ts[|ts| - 1].parts) == [])
  }

  lemma {:induction false} IdsAppend(a: seq<Part>, b: seq<Part>)
    ensures UseIds(a + b) == UseIds(a) + UseIds(b) && ResultIds(a + b) == ResultIds(a) + ResultIds(b)
  {
    if b == [] {
      assert a + b == a;
    } else {
      assert (a + b)[..|a + b| - 1] == a + b[..|b| - 1];
      IdsAppend(a, b[..|b| - 1]);
    }
  }

  lemma {:induction false} ContentHasNoIds(c: Content)
    ensures UseIds(ContentParts(c)) == [] && ResultIds(ContentParts(c)) == []
  {
    if c.Blocks? {
      BlocksHaveNoIds(c.blocks);
    }
  }

  lemma {:induction false} BlocksHaveNoIds(bs: seq<Block>)
    ensures UseIds(PartsOf(bs)) == [] && ResultIds(PartsOf(bs)) == []
  {
    if bs != [] {
      BlocksHaveNoIds(bs[..|bs| - 1]);
      IdsAppend(PartsOf(bs[..|bs| - 1]), PartOf(bs[|bs| - 1]));
    }
  }

  function CallIds(calls: seq<Call>): (ids: seq<string>)
    ensures |ids| == |calls| && forall i | 0 <= i < |calls| :: ids[i] == calls[i].id
  {
    seq(|calls|, i requires 0 <= i < |calls| => calls[i].id)
  }

  lemma {:induction false} IdsOfUses(calls: seq<Call>)
    ensures UseIds(UseParts(calls)) == CallIds(calls) && ResultIds(UseParts(calls)) == []
  {
    if calls != [] {
      var n := |calls| - 1;
      IdsOfUses(calls[..n]);
      assert UseParts(calls)[..n] == UseParts(calls[..n]);
      assert CallIds(calls) == CallIds(calls[..n]) + [calls[n].id];
    }
  }

  function ResultParts(results: seq<Message>): (ps: seq<Part>)
    requires forall i | 0 <= i < |results| :: results[i].Tool?
    ensures |ps| == |results| && forall i | 0 <= i < |results| :: ps[i] == ToolResult(results[i].id, results[i].content)
  {
    seq(|results|, i requires 0 <= i < |results| => ToolResult(results[i].id, results[i].content))
  }

  lemma {:induction false} IdsOfResults(results: seq<Message>, calls: seq<Call>)
    requires Answers(results, calls)
    ensures ResultIds(ResultParts(results)) == CallIds(calls) && UseIds(ResultParts(results)) == []
  {
    if calls != [] {
      var n := |calls| - 1;
      IdsOfResults(results[..n], calls[..n]);
      assert ResultParts(results)[..n] == ResultParts(results[..n]);
      assert CallIds(calls) == CallIds(calls[..n]) + [calls[n].id];
    }
  }

  /** A message that is no part of a round leaves everything answered. */
  lemma {:induction false} PlainKeepsAnswered(ts: seq<Turn>, m: Message)
    requires Answered(ts) && !Opens(m) && !m.Tool?
    ensures Answered(Add(ts, m))
  {
    var parts := Parts(m);
    if m.Assistant? {
      assert parts == ContentParts(m.content);
    }
    if !m.System? {
      ContentHasNoIds(m.content);
    }
    if parts != [] {
      AppendAnswered(ts, m.Assistant?, parts);
    }
  }

  predicate Opened(r: seq<Turn>, assistant: bool, ids: seq<string>) {
    AllAnsweredAt(r) && r != [] && r[|r| - 1].assistant == assistant && UseIds(r[|r| - 1].parts) == ids
  }

  lemma {:induction false} NewTurnAnswered(ts: seq<Turn>, assistant: bool, parts: seq<Part>)
    requires Answered(ts) && ResultIds(parts) == [] && (!assistant ==> UseIds(parts) == [])
    ensures Opened(ts + [Turn(assistant, parts)], assistant, UseIds(parts))
  {
    var r := ts + [Turn(assistant, parts)];
    forall i | 0 <= i < |r|
      ensures AnsweredAt(r, i)
    {
      if i < |ts| {
        assert AnsweredAt(ts, i);
        assert UsesBefore(r, i) == UsesBefore(ts, i);
      }
    }
  }

  lemma {:induction false} LongerTurnAnswered(init: seq<Turn>, assistant: bool, last: seq<Part>, parts: seq<Part>)
    requires Answered(init + [Turn(assistant, last)]) && ResultIds(parts) == [] && (!assistant ==> UseIds(parts) == [])
    ensures Opened(init + [Turn(assistant, last + parts)], assistant, UseIds(parts))
  {
    var ts, r := init + [Turn(assistant, last)], init + [Turn(assistant, last + parts)];
    var n := |init|;
    IdsAppend(last, parts);
    assert AnsweredAt(ts, n);
    assert [] + UseIds(parts) == UseIds(parts) && ResultIds(last) + [] == ResultIds(last);
    forall i | 0 <= i < |r|
      ensures AnsweredAt(r, i)
    {
      assert AnsweredAt(ts, i);
      assert UsesBefore(r, i) == UsesBefore(ts, i);
    }
  }

  lemma {:induction false} AppendAnswered(ts: seq<Turn>, assistant: bool, parts: seq<Part>)
    requires Answered(ts) && parts != [] && ResultIds(parts) == [] && (!assistant ==> UseIds(parts) == [])
    ensures Opened(Coalesce(ts, assistant, parts), assistant, UseIds(parts))
  {
    var n := |ts|;
    if n > 0 && ts[n - 1].assistant == assistant {
      var init, last := ts[..n - 1], ts[n - 1].parts;
      assert ts == init + [Turn(assistant, last)];
      LongerTurnAnswered(init, assistant, last, parts);
      assert Coalesce(ts, assistant, parts) == init + [Turn(assistant, last + parts)];
    } else {
      NewTurnAnswered(ts, assistant, parts);
    }
  }

  /** The results of a round make up one new message. */
  lemma {:induction false} ResultsMakeOneTurn(ts: seq<Turn>, results: seq<Message>, n: nat)
    requires ts != [] && ts[|ts| - 1].assistant && 0 < n <= |results|
    requires forall i | 0 <= i < |results| :: results[i].Tool?
    ensures AddAll(ts, results[..n]) == ts + [Turn(false, ResultParts(results[..n]))]
  {
    var last := results[n - 1];
    assert results[..n] == results[..n - 1] + [last];
    AddAllAppend(ts, results[..n - 1], [last]);
    var before := AddAll(ts, results[..n - 1]);
    assert AddAll(before, [last]) == Add(before, last);
    assert ResultParts(results[..n]) == ResultParts(results[..n - 1]) + [ToolResult(last.id, last.content)];
    if n > 1 {
      ResultsMakeOneTurn(ts, results, n - 1);
      var head := Turn(false, ResultParts(results[..n - 1]));
      assert (ts + [head])[|ts| := Turn(false, ResultParts(results[..n]))]
             == ts + [Turn(false, ResultParts(results[..n]))];
    } else {
      assert results[..0] == [] && ResultParts(results[..0]) == [];
      assert before == ts;
      assert ResultParts(results[..n]) == [ToolResult(last.id, last.content)];
      assert Add(ts, last) == ts + [Turn(false, [ToolResult(last.id, last.content)])];
    }
  }

  lemma {:induction false} PartsOfRound(m: Message)
    requires Opens(m)
    ensures Parts(m) != [] && UseIds(Parts(m)) == CallIds(m.calls) && ResultIds(Parts(m)) == []
  {
    var head, uses := ContentParts(m.content), UseParts(m.calls);
    ContentHasNoIds(m.content);
    IdsOfUses(m.calls);
    IdsAppend(head, uses);
    assert Parts(m) == head + uses && |head + uses| >= |uses| > 0;
    assert [] + CallIds(m.calls) == CallIds(m.calls);
  }

  /** The assistant message of a round leaves exactly its own calls open, at the end. */
  lemma {:induction false} RoundOpens(ts: seq<Turn>, m: Message)
    requires Answered(ts) && Opens(m)
    ensures Opened(Add(ts, m), true, CallIds(m.calls))
  {
    PartsOfRound(m);
    AppendAnswered(ts, true, Parts(m));
  }

  lemma {:induction false} ResultsClose(open: seq<Turn>, parts: seq<Part>, ids: seq<string>)
    requires Opened(open, true, ids)
    requires UseIds(parts) == [] && ResultIds(parts) == ids && LeadsWith(parts, ids)
    ensures Answered(open + [Turn(false, parts)])
  {
    var r := open + [Turn(false, parts)];
    forall i | 0 <= i < |r|
      ensures AnsweredAt(r, i)
    {
      if i < |open| {
        assert AnsweredAt(open, i);
        assert UsesBefore(r, i) == UsesBefore(open, i);
      } else {
        assert UsesBefore(r, i) == ids;
      }
    }
  }

  lemma {:induction false} RoundKeepsAnswered(ts: seq<Turn>, m: Message, results: seq<Message>)
    requires Answered(ts) && Opens(m) && Answers(results, m.calls)
    ensures Answered(AddAll(Add(ts, m), results))
  {
    RoundOpens(ts, m);
    ResultsMakeOneTurn(Add(ts, m), results, |results|);
    assert results[..|results|] == results;
    IdsOfResults(results, m.calls);
    ResultsClose(Add(ts, m), ResultParts(results), CallIds(m.calls));
  }

  lemma {:induction false} AddAllCons(ts: seq<Turn>, m: Message, rest: seq<Message>)
    ensures AddAll(ts, [m] + rest) == AddAll(Add(ts, m), rest)
  {
    assert ([m] + rest)[1..] == rest;
  }

  lemma {:induction false} RoundThenRest(ts: seq<Turn>, m: Message, results: seq<Message>, rest: seq<Message>)
    ensures AddAll(ts, [m] + (results + rest)) == AddAll(AddAll(Add(ts, m), results), rest)
  {
    AddAllCons(ts, m, results + rest);
    AddAllAppend(Add(ts, m), results, rest);
  }

  lemma {:induction false} RoundSplit(ms: seq<Message>, n: nat)
    requires 1 + n <= |ms|
    ensures ms == [ms[0]] + (ms[1..1 + n] + ms[1 + n..])
  {
  }

  lemma {:induction false} PairedAnswered(ts: seq<Turn>, ms: seq<Message>)
    requires Answered(ts) && Paired(ms)
    ensures Answered(AddAll(ts, ms))
    decreases |ms|
  {
    if ms == [] {
    } else if Opens(ms[0]) {
      PairedRoundAnswered(ts, ms[0], ms[1..1 + |ms[0].calls|], ms[1 + |ms[0].calls|..]);
      RoundSplit(ms, |ms[0].calls|);
    } else {
      PlainKeepsAnswered(ts, ms[0]);
      PairedAnswered(Add(ts, ms[0]), ms[1..]);
    }
  }

  lemma {:induction false} PairedRoundAnswered(ts: seq<Turn>, m: Message, results: seq<Message>, rest: seq<Message>)
    requires Answered(ts) && Opens(m) && Answers(results, m.calls) && Paired(rest)
    ensures Answered(AddAll(ts, [m] + (results + rest)))
    decreases |rest| + 1
  {
    RoundKeepsAnswered(ts, m, results);
    RoundThenRest(ts, m, results, rest);
    PairedAnswered(AddAll(Add(ts, m), results), rest);
  }

  lemma {:induction false} NextAnswers(ts: seq<Turn>, i: nat)
    requires Answered(ts) && Alternating(ts) && i < |ts| && UseIds(ts[i].parts) != []
    ensures i + 1 < |ts| && !ts[i + 1].assistant
    ensures LeadsWith(ts[i + 1].parts, UseIds(ts[i].parts)) && ResultIds(ts[i + 1].parts) == UseIds(ts[i].parts)
  {
    assert AnsweredAt(ts, i);
    assert ts[i].assistant != ts[i + 1].assistant;
    assert AnsweredAt(ts, i + 1);
  }

  /** Of a well paired transcript, every tool_use in message i is answered by the tool_result
      parts at the start of message i + 1, one each and in order, also where neighbouring
      assistant or user messages were coalesced. */
  lemma {:induction false} EveryCallAnswered(ms: seq<Message>, i: nat)
    requires Paired(ms) && i < |Translate(ms)| && UseIds(Translate(ms)[i].parts) != []
    ensures var ts := Translate(ms);
            && i + 1 < |ts| && !ts[i + 1].assistant
            && LeadsWith(ts[i + 1].parts, UseIds(ts[i].parts)) && ResultIds(ts[i + 1].parts) == UseIds(ts[i].parts)
  {
    PairedAnswered([], ms);
    TranslationFaithful(ms);
    NextAnswers(Translate(ms), i);
  }

  // ---- _build_anthropic_messages ----

  /** A tool message without an id makes the whole translation fail. */
  predicate HasIds(ms: seq<Message>) {
    forall i | 0 <= i < |ms| :: ms[i].Tool? ==> ms[i].id != ""
  }

  function SystemTexts(ms: seq<Message>): seq<string> {
    if ms == [] then []
    else SystemTexts(ms[..|ms| - 1]) + if ms[|ms| - 1].System? then TextsOf(ContentParts(ms[|ms| - 1].content)) else []
  }

  function TextsOf(parts: seq<Part>): seq<string> {
    if parts == [] then []
    else TextsOf(parts[..|parts| - 1]) + if parts[|parts| - 1].TextPart? then [parts[|parts| - 1].text] else []
  }

  lemma {:induction false} AddAllSnoc(ts: seq<Turn>, ms: seq<Message>, m: Message)
    ensures AddAll(ts, ms + [m]) == Add(AddAll(ts, ms), m)
    decreases |ms|
  {
    if ms == [] {
      assert ms + [m] == [m] + [];
      AddAllCons(ts, m, []);
    } else {
      AddAllSnoc(Add(ts, ms[0]), ms[1..], m);
      assert (ms + [m])[1..] == ms[1..] + [m];
    }
  }

  lemma {:induction false} TranslateStep(ms: seq<Message>, k: nat)
    requires k < |ms|
    ensures Translate(ms[..k + 1]) == Add(Translate(ms[..k]), ms[k])
  {
    var init := ms[..k];
    AddAllSnoc([], init, ms[k]);
    assert ms[..k + 1] == init + [ms[k]];
  }

  lemma {:induction false} HasIdsStep(ms: seq<Message>, k: nat)
    requires k < |ms|
    ensures HasIds(ms[..k + 1]) == (HasIds(ms[..k]) && (ms[k].Tool? ==> ms[k].id != ""))
  {
    assert ms[..k + 1] == ms[..k] + [ms[k]];
  }

  lemma {:induction false} SystemTextsStep(ms: seq<Message>, k: nat)
    requires k < |ms|
    ensures SystemTexts(ms[..k + 1])
         == if ms[k].System? then SystemTexts(ms[..k]) + TextsOf(ContentParts(ms[k].content)) else SystemTexts(ms[..k])
  {
    assert ms[..k + 1][..k] == ms[..k];
    assert SystemTexts(ms[..k]) + [] == SystemTexts(ms[..k]);
  }

  /** The turns are those of the only faithful translation; the system prompt collects the
      texts of the system messages in order. */
  method BuildAnthropicMessages(ms: seq<Message>) returns (system: string, turns: Option<seq<Turn>>)
    ensures turns.Some? <==> HasIds(ms)
    ensures turns.Some? ==> Alternating(turns.value) && Flat(turns.value) == Contributions(ms)
    ensures turns.Some? ==> turns.value == Translate(ms)
    ensures turns.Some? ==> system == T.Strip(T.Join(SystemTexts(ms), "\n\n"))
  {
    var texts: seq<string> := [];
    var out: seq<Turn> := [];
    for k := 0 to |ms|
      invariant HasIds(ms[..k])
      invariant texts == SystemTexts(ms[..k])
      invariant out == Translate(ms[..k])
    {
      TranslateStep(ms, k);
      SystemTextsStep(ms, k);
      HasIdsStep(ms, k);
      if ms[k].Tool? && ms[k].id == "" {
        assert !HasIds(ms);
        return "", None;
      }
      texts, out := AddMessage(ms[k], texts, out);
    }
    assert ms[..|ms|] == ms;
    TranslationFaithful(ms);
    return T.Strip(T.Join(texts, "\n\n")), Some(out);
  }

  /** The loop's branches by role. */
  method AddMessage(m: Message, texts: seq<string>, turns: seq<Turn>) returns (texts': seq<string>, turns': seq<Turn>)
    ensures turns' == Add(turns, m)
    ensures texts' == if m.System? then texts + TextsOf(ContentParts(m.content)) else texts
  {
    texts', turns' := texts, turns;
    match m {
      case System(c) => texts' := texts + TextsOf(ContentParts(c));
      case User(c) => turns' := Coalesce(turns, false, ContentParts(c));
      case Assistant(c, calls) => turns' := Coalesce(turns, true, ContentParts(c) + UseParts(calls));
      case Tool(id, c) => turns' := Coalesce(turns, false, [ToolResult(id, c)]);
    }
  }
}
