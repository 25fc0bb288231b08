/** Compacting old tool rounds (ouroboros/context_compaction.py): each old round without
    protected content becomes one summary message; everything else stays as it is. */
module Compaction {
  import opened Options
  import opened Transcript
  import opened Rounds
  import Q = Sequences
  import T = Text

  const PROTECTED_TOOLS: set<string> := {"repo_commit", "repo_write_commit", "knowledge_read", "data_read"}
  const WARNING := "\U{26A0}\U{FE0F}"
  const NOTE_PREFIX := "[Compacted reasoning block]\n"
  const BLOCKS_PER_BATCH := 8

  // ---- Protected content ----

  function NameIn(calls: seq<Call>, id: string): string {
    if calls == [] then "" else if calls[0].id == id then calls[0].name else NameIn(calls[1..], id)
  }

  /** The tool with this call id in the nearest assistant message among the first j messages. */
  function LookBack(ms: seq<Message>, j: nat, id: string): string
    requires j <= |ms|
  {
    if j == 0 then ""
    else if ms[j - 1].Assistant? then NameIn(ms[j - 1].calls, id)
    else LookBack(ms, j - 1, id)
  }

  predicate ProtectedAt(ms: seq<Message>, i: nat)
    requires i < |ms|
  {
    ms[i].Tool?
    && ((ms[i].id != "" && LookBack(ms, i, ms[i].id) in PROTECTED_TOOLS) || T.At(Printed(ms[i].content), WARNING, 0))
  }

  predicate Protected(round: seq<Message>) {
    exists i | 0 <= i < |round| :: ProtectedAt(round, i)
  }

  lemma {:induction false} LookBackWithin(ms: seq<Message>, start: nat, j: nat, id: string, end: nat)
    requires start < j <= end <= |ms| && ms[start].Assistant?
    ensures LookBack(ms, j, id) == LookBack(ms[start..end], j - start, id)
  {
    if !ms[j - 1].Assistant? {
      LookBackWithin(ms, start, j - 1, id, end);
    }
  }

  /** What is protected in a round can be read off the round itself: the look-up by call id
      never leaves it. */
  lemma {:induction false} ProtectedWithin(ms: seq<Message>, start: nat, i: nat, end: nat)
    requires start <= i < end <= |ms| && ms[start].Assistant?
    ensures ProtectedAt(ms, i) == ProtectedAt(ms[start..end], i - start)
  {
    if i > start && ms[i].Tool? {
      LookBackWithin(ms, start, i, ms[i].id, end);
    }
  }

  /** What follows a round cannot take its protection away. */
  lemma {:induction false} ProtectedStays(round: seq<Message>, tail: seq<Message>)
    requires IsRound(round) && Protected(round)
    ensures Protected(round + tail)
  {
    var i :| 0 <= i < |round| && ProtectedAt(round, i);
    ProtectedWithin(round + tail, 0, i, |round|);
    assert (round + tail)[0..|round|] == round;
    assert ProtectedAt(round + tail, i);
  }

  // ---- The span-wise specification ----

  function Note(text: string): Message {
    Assistant(Text(NOTE_PREFIX + text), [])
  }

  /** Python's end of the slice s[:e] for a list of length n. */
  function SliceEnd(n: nat, e: int): (k: nat)
    ensures k <= n
  {
    if e < 0 then (if n + e < 0 then 0 else n + e) else if e > n then n else e
  }

  /** How many of n rounds are old enough: spans[:-keep_recent]. */
  function Cut(n: nat, keep: int): (k: nat)
    ensures k <= n
  {
    SliceEnd(n, -keep)
  }

  /** Each round with a note is replaced by it. */
  function Rebuild(rounds: seq<seq<Message>>, notes: seq<Option<string>>): seq<Message>
    requires |notes| == |rounds|
  {
    if rounds == [] then []
    else (match notes[0] case None => rounds[0] case Some(t) => [Note(t)]) + Rebuild(rounds[1..], notes[1..])
  }

  function Compacted(ms: seq<Message>, notes: seq<Option<string>>): seq<Message>
    requires |notes| == |RoundsOf(ms)|
  {
    HeadOf(ms) + Rebuild(RoundsOf(ms), notes)
  }

  predicate Compactable(rounds: seq<seq<Message>>, keep: int, j: nat)
    requires j < |rounds|
  {
    j < Cut(|rounds|, keep) && !Protected(rounds[j])
  }

  /** The rounds that get notes are the old unprotected ones. */
  predicate NotesFor(rounds: seq<seq<Message>>, keep: int, notes: seq<Option<string>>) {
    |notes| == |rounds| && forall j | 0 <= j < |rounds| :: notes[j].Some? == Compactable(rounds, keep, j)
  }

  /** Nothing left to compact. */
  predicate Settled(ms: seq<Message>, keep: int) {
    |RoundsOf(ms)| <= keep || forall j | 0 <= j < |RoundsOf(ms)| :: !Compactable(RoundsOf(ms), keep, j)
  }

  // ---- Pairing ----

  lemma {:induction false} RebuildPaired(rounds: seq<seq<Message>>, notes: seq<Option<string>>)
    requires |notes| == |rounds| && forall j | 0 <= j < |rounds| :: Paired(rounds[j])
    ensures Paired(Rebuild(rounds, notes))
  {
    if rounds != [] {
      RebuildPaired(rounds[1..], notes[1..]);
      match notes[0] {
        case None => PairedAppend(rounds[0], Rebuild(rounds[1..], notes[1..]));
        case Some(t) =>
          assert [Note(t)][1..] == [];
          PairedAppend([Note(t)], Rebuild(rounds[1..], notes[1..]));
      }
    }
  }

  /** Compaction keeps a transcript well paired, whichever rounds are summarised. */
  lemma {:induction false} CompactedPaired(ms: seq<Message>, notes: seq<Option<string>>)
    requires Paired(ms) && |notes| == |RoundsOf(ms)|
    ensures Paired(Compacted(ms, notes))
  {
    PairedPieces(ms);
    RebuildPaired(RoundsOf(ms), notes);
    PairedAppend(HeadOf(ms), Rebuild(RoundsOf(ms), notes));
  }

  // ---- Idempotence ----

  /** Compacting rounds of which only unprotected ones get notes leaves protected rounds only. */
  lemma {:induction false} OnlyProtectedLeft(rounds: seq<seq<Message>>, notes: seq<Option<string>>)
    requires |notes| == |rounds|
    requires forall j | 0 <= j < |rounds| :: IsRound(rounds[j]) && (notes[j].None? ==> Protected(rounds[j]))
    ensures forall j | 0 <= j < |RoundsOf(Rebuild(rounds, notes))| :: Protected(RoundsOf(Rebuild(rounds, notes))[j])
  {
    if rounds == [] {
      assert RoundsOf([]) == [];
    } else {
      var rest := Rebuild(rounds[1..], notes[1..]);
      OnlyProtectedLeft(rounds[1..], notes[1..]);
      match notes[0] {
        case Some(t) =>
          SkipClosed([Note(t)], rest);
        case None =>
          var r := rounds[0];
          SkipClosed(r[1..], rest);
          var all := r + rest;
          assert Rebuild(rounds, notes) == all;
          assert all[1..] == r[1..] + rest && all[0] == r[0];
          assert RoundsOf(all) == [[r[0]] + (r[1..] + HeadOf(rest))] + RoundsOf(rest);
          assert [r[0]] + (r[1..] + HeadOf(rest)) == r + HeadOf(rest);
          ProtectedStays(r, HeadOf(rest));
      }
    }
  }

  lemma {:induction false} RebuildSplit(rounds: seq<seq<Message>>, notes: seq<Option<string>>, k: nat)
    requires |notes| == |rounds| && k <= |rounds|
    ensures Rebuild(rounds, notes) == Rebuild(rounds[..k], notes[..k]) + Rebuild(rounds[k..], notes[k..])
  {
    if k == 0 {
      Q.Nothing(Rebuild(rounds, notes));
    } else {
      RebuildSplit(rounds[1..], notes[1..], k - 1);
      assert rounds[..k][1..] == rounds[1..][..k - 1] && notes[..k][1..] == notes[1..][..k - 1];
      assert rounds[k..] == rounds[1..][k - 1..] && notes[k..] == notes[1..][k - 1..];
      var first := match notes[0] case None => rounds[0] case Some(t) => [Note(t)];
      Q.Associate(first, Rebuild(rounds[1..][..k - 1], notes[1..][..k - 1]), Rebuild(rounds[k..], notes[k..]));
    }
  }

  lemma {:induction false} RebuildNothing(rounds: seq<seq<Message>>, notes: seq<Option<string>>)
    requires |notes| == |rounds| && forall j | 0 <= j < |rounds| :: notes[j].None?
    ensures Rebuild(rounds, notes) == Flatten(rounds)
  {
    if rounds != [] {
      RebuildNothing(rounds[1..], notes[1..]);
    }
  }

  lemma {:induction false} RoundsSplit(ms: seq<Message>, keep: nat, notes: seq<Option<string>>)
    requires 1 <= keep < |RoundsOf(ms)| && NotesFor(RoundsOf(ms), keep, notes)
    ensures var rounds := RoundsOf(ms); var k := |rounds| - keep;
            RoundsOf(Compacted(ms, notes)) == RoundsOf(Rebuild(rounds[..k], notes[..k])) + rounds[k..]
  {
    var rounds := RoundsOf(ms);
    var k := |rounds| - keep;
    RoundsAreRounds(ms);
    HeadFacts(ms);
    RebuildSplit(rounds, notes, k);
    RecentVerbatim(rounds, keep, notes);
    RoundsOfFlatten(rounds[k..]);
    Concatenate(Rebuild(rounds[..k], notes[..k]), Flatten(rounds[k..]));
    SkipClosed(HeadOf(ms), Rebuild(rounds, notes));
  }

  /** The rounds of a compacted transcript: old ones, all protected, and then the recent ones. */
  lemma {:induction false} RoundsAfter(ms: seq<Message>, keep: nat, notes: seq<Option<string>>)
    requires 1 <= keep < |RoundsOf(ms)| && NotesFor(RoundsOf(ms), keep, notes)
    ensures var after := RoundsOf(Compacted(ms, notes));
            && |after| >= keep && after[|after| - keep..] == RoundsOf(ms)[|RoundsOf(ms)| - keep..]
            && forall j | 0 <= j < |after| - keep :: Protected(after[j])
  {
    hide Compacted, Protected, NotesFor, Rebuild;
    RoundsSplit(ms, keep, notes);
    RoundsAreRounds(ms);
    OldProtected(RoundsOf(ms), keep, notes);
  }

  lemma {:induction false} OldProtected(rounds: seq<seq<Message>>, keep: nat, notes: seq<Option<string>>)
    requires 1 <= keep < |rounds| && NotesFor(rounds, keep, notes)
    requires forall j | 0 <= j < |rounds| :: IsRound(rounds[j])
    ensures var k := |rounds| - keep; var early := RoundsOf(Rebuild(rounds[..k], notes[..k]));
            forall j | 0 <= j < |early| :: Protected(early[j])
  {
    var k := |rounds| - keep;
    forall j | 0 <= j < k
      ensures notes[..k][j].None? ==> Protected(rounds[..k][j])
    {
      assert notes[j].Some? == Compactable(rounds, keep, j);
    }
    OnlyProtectedLeft(rounds[..k], notes[..k]);
  }

  lemma {:induction false} RecentVerbatim(rounds: seq<seq<Message>>, keep: nat, notes: seq<Option<string>>)
    requires 1 <= keep < |rounds| && NotesFor(rounds, keep, notes)
    ensures var k := |rounds| - keep; Rebuild(rounds[k..], notes[k..]) == Flatten(rounds[k..])
  {
    var k := |rounds| - keep;
    forall j | 0 <= j < keep
      ensures notes[k..][j].None?
    {
      assert notes[k + j].Some? == Compactable(rounds, keep, k + j);
    }
    RebuildNothing(rounds[k..], notes[k..]);
  }

  /** Compacting once is enough: whatever the summaries were, a second compaction with the
      same keep_recent >= 1 finds nothing to do, because the rounds that were kept stay
      protected after taking in the summaries that now follow them. */
  lemma {:induction false} CompactionSettles(ms: seq<Message>, keep: nat, notes: seq<Option<string>>)
    requires 1 <= keep < |RoundsOf(ms)| && NotesFor(RoundsOf(ms), keep, notes)
    ensures Settled(Compacted(ms, notes), keep)
  {
    RoundsAfter(ms, keep, notes);
    var after := RoundsOf(Compacted(ms, notes));
    if |after| > keep {
      assert Cut(|after|, keep) == |after| - keep;
    }
  }

  // ---- The imperative code ----

  /** start and end are the first and the last message of a round. */
  datatype Span = Span(start: nat, end: nat)

  method ToolRoundStarts(ms: seq<Message>) returns (st: seq<nat>)
    ensures st == StartsFrom(ms, 0)
  {
    st := [];
    for i := 0 to |ms|
      invariant st + StartsFrom(ms, i) == StartsFrom(ms, 0)
    {
      if Opens(ms[i]) {
        assert st + StartsFrom(ms, i) == st + [i] + StartsFrom(ms, i + 1);
        st := st + [i];
      } else {
        assert StartsFrom(ms, i) == [] + StartsFrom(ms, i + 1) == StartsFrom(ms, i + 1);
      }
    }
    assert st + [] == st;
  }

  predicate IsSpan(ms: seq<Message>, span: Span, round: seq<Message>) {
    span.start <= span.end < |ms| && ms[span.start..span.end + 1] == round
  }

  /** The spans are those of the transcript's rounds, in order. */
  predicate SpansFit(ms: seq<Message>, spans: seq<Span>) {
    && |spans| == |RoundsOf(ms)| == |StartsFrom(ms, 0)|
    && forall j | 0 <= j < |spans| :: IsSpan(ms, spans[j], RoundsOf(ms)[j]) && spans[j].start == StartsFrom(ms, 0)[j]
  }

  method ToolRoundSpans(ms: seq<Message>) returns (spans: seq<Span>)
    ensures SpansFit(ms, spans)
  {
    var st := ToolRoundStarts(ms);
    StartsFit(ms, 0);
    assert ms[0..] == ms;
    spans := [];
    for j := 0 to |st|
      invariant |spans| == j
      invariant forall i | 0 <= i < j :: IsSpan(ms, spans[i], RoundsOf(ms)[i]) && spans[i].start == st[i]
    {
      assert FitsAt(ms, st, RoundsOf(ms), j);
      var end := if j + 1 < |st| then st[j + 1] - 1 else |ms| - 1;
      spans := spans + [Span(st[j], end)];
    }
  }

  /** _find_tool_name_for_result for the message at place i. */
  method FindToolName(ms: seq<Message>, i: nat) returns (name: string)
    requires i < |ms| && ms[i].Tool?
    ensures name == if ms[i].id == "" then "" else LookBack(ms, i, ms[i].id)
  {
    if ms[i].id == "" {
      return "";
    }
    var j := i;
    while j > 0
      invariant 0 <= j <= i && LookBack(ms, j, ms[i].id) == LookBack(ms, i, ms[i].id)
    {
      j := j - 1;
      if ms[j].Assistant? {
        var calls := ms[j].calls;
        for c := 0 to |calls|
          invariant NameIn(calls[c..], ms[i].id) == NameIn(calls, ms[i].id)
        {
          assert calls[c..][1..] == calls[c + 1..];
          if calls[c].id == ms[i].id {
            return calls[c].name;
          }
        }
        return "";
      }
    }
    return "";
  }

  /** The test for one message. */
  method MessageProtected(ms: seq<Message>, i: nat) returns (yes: bool)
    requires i < |ms|
    ensures yes == ProtectedAt(ms, i)
  {
    if !ms[i].Tool? {
      return false;
    }
    var name := FindToolName(ms, i);
    EmptyNameUnprotected(name);
    yes := name in PROTECTED_TOOLS || T.At(Printed(ms[i].content), WARNING, 0);
  }

  method RoundHasProtectedContent(ms: seq<Message>, span: Span) returns (yes: bool)
    requires span.start <= span.end < |ms| && ms[span.start].Assistant?
    ensures yes == Protected(ms[span.start..span.end + 1])
  {
    hide ProtectedAt;
    ghost var round := ms[span.start..span.end + 1];
    for i := span.start to span.end + 1
      invariant forall j | 0 <= j < i - span.start :: !ProtectedAt(round, j)
    {
      ProtectedWithin(ms, span.start, i, span.end + 1);
      var held := MessageProtected(ms, i);
      if held {
        assert ProtectedAt(round, i - span.start);
        return true;
      }
    }
    yes := false;
  }

  lemma {:induction false} EmptyNameUnprotected(name: string)
    ensures name == "" ==> name !in PROTECTED_TOOLS
  {
    assert |"repo_commit"| > 0 && |"repo_write_commit"| > 0 && |"knowledge_read"| > 0 && |"data_read"| > 0;
  }

  // ---- The fallback: only arguments shrink ----

  function Shrink(call: Call, shrink: (string, string) -> string): Call {
    if call.args == "" then call else call.(args := shrink(call.name, call.args))
  }

  function ShrinkCalls(m: Message, shrink: (string, string) -> string): (r: Message)
    requires m.Assistant?
    ensures SameSkeleton(m, r)
  {
    m.(calls := seq(|m.calls|, i requires 0 <= i < |m.calls| => Shrink(m.calls[i], shrink)))
  }

  /** What compact_tool_history leaves: every message, the old rounds' call arguments shortened. */
  function Shrunk(ms: seq<Message>, keep: int, shrink: (string, string) -> string): (r: seq<Message>)
    ensures |r| == |ms|
  {
    var oldStarts := StartsFrom(ms, 0)[..Cut(|StartsFrom(ms, 0)|, keep)];
    seq(|ms|, i requires 0 <= i < |ms| => if i in oldStarts && Opens(ms[i]) then ShrinkCalls(ms[i], shrink) else ms[i])
  }

  /** The fallback changes nothing but arguments of tool calls, so pairing survives it too. */
  lemma {:induction false} ShrunkPaired(ms: seq<Message>, keep: int, shrink: (string, string) -> string)
    ensures var r := Shrunk(ms, keep, shrink);
            forall i | 0 <= i < |ms| ::
                  SameSkeleton(ms[i], r[i]) && r[i].content == ms[i].content && (!Opens(ms[i]) ==> r[i] == ms[i])
    ensures Paired(ms) ==> Paired(Shrunk(ms, keep, shrink))
  {
    if Paired(ms) {
      PairedBySkeleton(ms, Shrunk(ms, keep, shrink));
    }
  }

  method CompactToolHistory(ms: seq<Message>, keep: int, shrink: (string, string) -> string) returns (out: seq<Message>)
    ensures out == Shrunk(ms, keep, shrink)
  {
    var spans := ToolRoundSpans(ms);
    ghost var st := StartsFrom(ms, 0);
    var cut := Cut(|spans|, keep);
    var starts: seq<nat> := [];
    for j := 0 to cut
      invariant |starts| == j && forall i | 0 <= i < j :: starts[i] == st[i]
    {
      starts := starts + [spans[j].start];
    }
    assert starts == st[..cut];
    if |spans| <= keep {
      assert cut == 0;
      assert Shrunk(ms, keep, shrink) == ms;
      return ms;
    }
    out := [];
    for i := 0 to |ms|
      invariant |out| == i && forall j | 0 <= j < i :: out[j] == Shrunk(ms, keep, shrink)[j]
    {
      if i in starts && Opens(ms[i]) {
        var calls := [];
        for c := 0 to |ms[i].calls|
          invariant |calls| == c && forall j | 0 <= j < c :: calls[j] == Shrink(ms[i].calls[j], shrink)
        {
          calls := calls + [Shrink(ms[i].calls[c], shrink)];
        }
        assert calls == ShrinkCalls(ms[i], shrink).calls;
        out := out + [ms[i].(calls := calls)];
      } else {
        out := out + [ms[i]];
      }
    }
  }

  // ---- Asking for summaries, in batches ----

  /** A reply to one batch: texts by round start, and the reported cost. A call that raises gives
      none; an empty response is a reply without texts. */
  datatype Batch = Batch(texts: map<nat, string>, cost: real)

  function Batches(n: nat): nat {
    (n + BLOCKS_PER_BATCH - 1) / BLOCKS_PER_BATCH
  }

  function Part(starts: seq<nat>, b: nat): seq<nat> {
    var lo, hi := b * BLOCKS_PER_BATCH, (b + 1) * BLOCKS_PER_BATCH;
    if lo >= |starts| then [] else starts[lo..if hi > |starts| then |starts| else hi]
  }

  /** The reply to batch b names every round of the batch, with a text. */
  predicate CompleteAt(starts: seq<nat>, reply: nat -> Option<Batch>, b: nat) {
    reply(b).Some? && forall i | 0 <= i < |Part(starts, b)| :: Part(starts, b)[i] in reply(b).value.texts
                                                            && reply(b).value.texts[Part(starts, b)[i]] != ""
  }

  predicate Complete(starts: seq<nat>, reply: nat -> Option<Batch>, n: nat) {
    forall b | 0 <= b < n :: CompleteAt(starts, reply, b)
  }

  /** All texts so far: a later reply wins, also over rounds it was not asked about. */
  function Merged(reply: nat -> Option<Batch>, n: nat): map<nat, string> {
    if n == 0 then map[] else Merged(reply, n - 1) + if reply(n - 1).Some? then reply(n - 1).value.texts else map[]
  }

  function Spent(reply: nat -> Option<Batch>, n: nat): real {
    if n == 0 then 0.0 else Spent(reply, n - 1) + if reply(n - 1).Some? then reply(n - 1).value.cost else 0.0
  }

  method Summarize(starts: seq<nat>, reply: nat -> Option<Batch>) returns (result: Option<Batch>)
    ensures result.Some? <==> Complete(starts, reply, Batches(|starts|))
    ensures result.Some? ==> result.value == Batch(Merged(reply, Batches(|starts|)), Spent(reply, Batches(|starts|)))
  {
    var all, cost := map[], 0.0;
    for b := 0 to Batches(|starts|)
      invariant Complete(starts, reply, b)
      invariant all == Merged(reply, b) && cost == Spent(reply, b)
    {
      var part := Part(starts, b);
      var r := reply(b);
      if r.None? {
        assert !CompleteAt(starts, reply, b);
        return None;
      }
      for i := 0 to |part|
        invariant forall k | 0 <= k < i :: part[k] in r.value.texts && r.value.texts[part[k]] != ""
      {
        if part[i] !in r.value.texts || r.value.texts[part[i]] == "" {
          assert !CompleteAt(starts, reply, b);
          return None;
        }
      }
      assert CompleteAt(starts, reply, b);
      all := all + r.value.texts;
      cost := cost + r.value.cost;
    }
    result := Some(Batch(all, cost));
  }

  // ---- compact_tool_history_llm ----

  function TextFor(texts: map<nat, string>, start: nat): string {
    if start in texts then texts[start] else ""
  }

  /** The notes for the compactable rounds, taken from texts by round start. */
  function NotesOf(ms: seq<Message>, keep: int, texts: map<nat, string>): (notes: seq<Option<string>>)
    requires |StartsFrom(ms, 0)| == |RoundsOf(ms)|
    ensures NotesFor(RoundsOf(ms), keep, notes)
  {
    var rounds, st := RoundsOf(ms), StartsFrom(ms, 0);
    seq(|rounds|, j requires 0 <= j < |rounds| =>
                    if Compactable(rounds, keep, j) then Some(TextFor(texts, st[j])) else None)
  }

  /** The starts of the compactable ones among the first n rounds. */
  function CompactableStarts(ms: seq<Message>, keep: int, n: nat): seq<nat>
    requires |StartsFrom(ms, 0)| == |RoundsOf(ms)| && n <= |RoundsOf(ms)|
  {
    if n == 0 then []
    else
      CompactableStarts(ms, keep, n - 1)
      + if Compactable(RoundsOf(ms), keep, n - 1) then [StartsFrom(ms, 0)[n - 1]] else []
  }

  /** A round to replace: where it ends, and its summary. */
  datatype Replacement = Replacement(end: nat, text: string)

  function NextStart(ms: seq<Message>, s: nat): (n: nat)
    requires s < |ms|
    ensures s < n <= |ms|
  {
    Bound(ms, StartsFrom(ms, s + 1), 0)
  }

  predicate GoodReplacements(ms: seq<Message>, blocks: map<nat, Replacement>) {
    forall s | s in blocks :: s < |ms| && Opens(ms[s]) && blocks[s].end + 1 == NextStart(ms, s)
  }

  /** What the rebuilding loop appends from place i on. */
  function Rest(ms: seq<Message>, i: nat, blocks: map<nat, Replacement>): seq<Message>
    requires i <= |ms| && GoodReplacements(ms, blocks)
    decreases |ms| - i
  {
    if i == |ms| then []
    else if i in blocks then [Note(blocks[i].text)] + Rest(ms, blocks[i].end + 1, blocks)
    else [ms[i]] + Rest(ms, i + 1, blocks)
  }

  function NotesAt(st: seq<nat>, blocks: map<nat, Replacement>): (notes: seq<Option<string>>)
    ensures |notes| == |st| && forall j | 0 <= j < |st| ::
              notes[j] == if st[j] in blocks then Some(blocks[st[j]].text) else None
  {
    seq(|st|, j requires 0 <= j < |st| => if st[j] in blocks then Some(blocks[st[j]].text) else None)
  }

  lemma {:induction false} StartsSkip(ms: seq<Message>, i: nat, e: nat)
    requires i <= e <= |ms| && NoneOpens(ms[i..e])
    ensures StartsFrom(ms, i) == StartsFrom(ms, e)
    decreases e - i
  {
    if i < e {
      assert ms[i] == ms[i..e][0] && ms[i + 1..e] == ms[i..e][1..];
      StartsSkip(ms, i + 1, e);
      assert [] + StartsFrom(ms, i + 1) == StartsFrom(ms, i + 1);
    }
  }

  /** From the message after a start to the next start nothing opens a round. */
  lemma {:induction false} BetweenStarts(ms: seq<Message>, s: nat)
    requires s < |ms|
    ensures var e := NextStart(ms, s);
            && HeadOf(ms[s + 1..]) == ms[s + 1..e] && HeadOf(ms[e..]) == []
            && RoundsOf(ms[s + 1..]) == RoundsOf(ms[e..]) && StartsFrom(ms, s + 1) == StartsFrom(ms, e)
  {
    var e := NextStart(ms, s);
    StartsFit(ms, s + 1);
    HeadFacts(ms[s + 1..]);
    StartsSkip(ms, s + 1, e);
    SkipClosed(ms[s + 1..e], ms[e..]);
    assert ms[s + 1..] == ms[s + 1..e] + ms[e..];
    assert HeadOf(ms[e..]) == [];
  }

  /** The span-wise output for the messages from place i on. */
  ghost function Whole(ms: seq<Message>, i: nat, blocks: map<nat, Replacement>): seq<Message>
    requires i <= |ms|
  {
    StartsFit(ms, i);
    HeadOf(ms[i..]) + Rebuild(RoundsOf(ms[i..]), NotesAt(StartsFrom(ms, i), blocks))
  }

  lemma {:induction false} WholePlain(ms: seq<Message>, i: nat, blocks: map<nat, Replacement>)
    requires i < |ms| && !Opens(ms[i])
    ensures Whole(ms, i, blocks) == [ms[i]] + Whole(ms, i + 1, blocks)
  {
    StartsFit(ms, i + 1);
    Q.DropStep(ms, i);
    Q.Nothing(StartsFrom(ms, i + 1));
    Q.Associate([ms[i]], HeadOf(ms[i + 1..]), Rebuild(RoundsOf(ms[i + 1..]), NotesAt(StartsFrom(ms, i + 1), blocks)));
  }

  /** A round in front: its first message with what follows it, or its note. */
  lemma {:induction false} WholeRound(ms: seq<Message>, i: nat, blocks: map<nat, Replacement>)
    requires i < |ms| && Opens(ms[i])
    ensures |RoundsOf(ms[i + 1..])| == |StartsFrom(ms, i + 1)|
    ensures var rest := Rebuild(RoundsOf(ms[i + 1..]), NotesAt(StartsFrom(ms, i + 1), blocks));
            Whole(ms, i, blocks)
                == (if i in blocks then [Note(blocks[i].text)] else [ms[i]] + HeadOf(ms[i + 1..])) + rest
  {
    StartsFit(ms, i + 1);
    assert ms[i..][1..] == ms[i + 1..];
    var st, notes := StartsFrom(ms, i + 1), NotesAt(StartsFrom(ms, i), blocks);
    assert notes[1..] == NotesAt(st, blocks);
    var rounds := RoundsOf(ms[i..]);
    assert rounds[0] == [ms[i]] + HeadOf(ms[i + 1..]) && rounds[1..] == RoundsOf(ms[i + 1..]);
    assert HeadOf(ms[i..]) == [];
  }

  lemma {:induction false} WholeKept(ms: seq<Message>, i: nat, blocks: map<nat, Replacement>)
    requires i < |ms| && i !in blocks
    ensures Whole(ms, i, blocks) == [ms[i]] + Whole(ms, i + 1, blocks)
  {
    if Opens(ms[i]) {
      WholeRound(ms, i, blocks);
    } else {
      WholePlain(ms, i, blocks);
    }
  }

  lemma {:induction false} WholeReplaced(ms: seq<Message>, i: nat, blocks: map<nat, Replacement>)
    requires i < |ms| && Opens(ms[i]) && i in blocks
    ensures Whole(ms, i, blocks) == [Note(blocks[i].text)] + Whole(ms, NextStart(ms, i), blocks)
  {
    var e := NextStart(ms, i);
    WholeRound(ms, i, blocks);
    BetweenStarts(ms, i);
    var rest := Rebuild(RoundsOf(ms[i + 1..]), NotesAt(StartsFrom(ms, i + 1), blocks));
    assert Whole(ms, e, blocks) == [] + rest;
  }

  /** The loop's output is the span-wise one. */
  lemma {:induction false} RestIsWhole(ms: seq<Message>, i: nat, blocks: map<nat, Replacement>)
    requires i <= |ms| && GoodReplacements(ms, blocks)
    ensures Rest(ms, i, blocks) == Whole(ms, i, blocks)
    decreases |ms| - i
  {
    if i == |ms| {
      assert RoundsOf([]) == [] && HeadOf([]) == [];
    } else if i in blocks {
      WholeReplaced(ms, i, blocks);
      RestIsWhole(ms, NextStart(ms, i), blocks);
    } else {
      WholeKept(ms, i, blocks);
      RestIsWhole(ms, i + 1, blocks);
    }
  }

  /** The while loop over the messages. */
  method ReplaceRounds(ms: seq<Message>, blocks: map<nat, Replacement>) returns (out: seq<Message>)
    requires GoodReplacements(ms, blocks)
    ensures out == Whole(ms, 0, blocks)
  {
    out := [];
    var i := 0;
    while i < |ms|
      invariant i <= |ms| && out + Rest(ms, i, blocks) == Rest(ms, 0, blocks)
    {
      if i in blocks {
        assert out + Rest(ms, i, blocks) == out + [Note(blocks[i].text)] + Rest(ms, blocks[i].end + 1, blocks);
        out := out + [Note(blocks[i].text)];
        i := blocks[i].end + 1;
      } else {
        assert out + Rest(ms, i, blocks) == out + [ms[i]] + Rest(ms, i + 1, blocks);
        out := out + [ms[i]];
        i := i + 1;
      }
    }
    assert out + [] == out;
    RestIsWhole(ms, 0, blocks);
  }

  lemma {:induction false} StartsTail(ms: seq<Message>, i: nat, j: nat)
    requires i <= |ms| && j < |StartsFrom(ms, i)|
    ensures Opens(ms[StartsFrom(ms, i)[j]])
    ensures StartsFrom(ms, StartsFrom(ms, i)[j] + 1) == StartsFrom(ms, i)[j + 1..]
    decreases |ms| - i
  {
    if !Opens(ms[i]) {
      StartsTail(ms, i + 1, j);
    } else if j > 0 {
      StartsTail(ms, i + 1, j - 1);
    }
  }

  lemma {:induction false} StartsDiffer(ms: seq<Message>, j: nat, k: nat)
    requires j < k < |StartsFrom(ms, 0)|
    ensures StartsFrom(ms, 0)[j] < StartsFrom(ms, 0)[k]
  {
    StartsTail(ms, 0, j);
    assert StartsFrom(ms, 0)[k] == StartsFrom(ms, 0)[j + 1..][k - j - 1];
  }

  /** A span's end is right before the next start. */
  lemma {:induction false} SpanEnd(ms: seq<Message>, spans: seq<Span>, j: nat)
    requires SpansFit(ms, spans) && j < |spans|
    ensures Opens(ms[spans[j].start]) && spans[j].end + 1 == NextStart(ms, spans[j].start)
  {
    var st := StartsFrom(ms, 0);
    StartsFit(ms, 0);
    assert ms[0..] == ms;
    assert FitsAt(ms, st, RoundsOf(ms), j);
    assert IsSpan(ms, spans[j], RoundsOf(ms)[j]);
    StartsTail(ms, 0, j);
  }

  /** picked are the compactable ones among the first n spans; at gives their round numbers. */
  predicate Picks(ms: seq<Message>, keep: int, spans: seq<Span>, picked: seq<Span>, at: seq<nat>, n: nat)
    requires |spans| == |RoundsOf(ms)| == |StartsFrom(ms, 0)| && n <= |spans|
  {
    && |at| == |picked| == |CompactableStarts(ms, keep, n)|
    && (forall c | 0 <= c < |at| :: at[c] < n && Compactable(RoundsOf(ms), keep, at[c]) && picked[c] == spans[at[c]])
    && (forall c | 0 <= c < |at| :: picked[c].start == CompactableStarts(ms, keep, n)[c])
    && forall j | 0 <= j < n && Compactable(RoundsOf(ms), keep, j) :: j in at
  }

  lemma {:induction false} PickStep(ms: seq<Message>, keep: int, spans: seq<Span>, picked: seq<Span>, at: seq<nat>,
                                    j: nat)
    requires SpansFit(ms, spans) && j < Cut(|spans|, keep) && Picks(ms, keep, spans, picked, at, j)
    ensures if Compactable(RoundsOf(ms), keep, j) then Picks(ms, keep, spans, picked + [spans[j]], at + [j], j + 1)
            else Picks(ms, keep, spans, picked, at, j + 1)
  {
    assert IsSpan(ms, spans[j], RoundsOf(ms)[j]) && spans[j].start == StartsFrom(ms, 0)[j];
    var before := CompactableStarts(ms, keep, j);
    if Compactable(RoundsOf(ms), keep, j) {
      assert CompactableStarts(ms, keep, j + 1) == before + [spans[j].start];
      forall i | 0 <= i < j + 1 && Compactable(RoundsOf(ms), keep, i)
        ensures i in at + [j]
      {
        if i < j {
          assert i in at;
        }
      }
    } else {
      assert before + [] == before;
    }
  }

  lemma {:induction false} SpansNumber(ms: seq<Message>, spans: seq<Span>)
    requires SpansFit(ms, spans)
    ensures |spans| == |RoundsOf(ms)| == |StartsFrom(ms, 0)|
  {
  }

  method SpanProtected(ms: seq<Message>, spans: seq<Span>, j: nat) returns (held: bool)
    requires SpansFit(ms, spans) && j < |spans|
    ensures held == Protected(RoundsOf(ms)[j])
  {
    SpanEnd(ms, spans, j);
    assert IsSpan(ms, spans[j], RoundsOf(ms)[j]);
    held := RoundHasProtectedContent(ms, spans[j]);
  }

  lemma {:induction false} PickStart(ms: seq<Message>, keep: int, spans: seq<Span>)
    requires SpansFit(ms, spans)
    ensures Picks(ms, keep, spans, [], [], 0)
  {
  }

  method CompactableSpans(ms: seq<Message>, keep: int, spans: seq<Span>) returns (picked: seq<Span>, at: seq<nat>)
    requires SpansFit(ms, spans)
    ensures Picks(ms, keep, spans, picked, at, Cut(|spans|, keep))
  {
    SpansNumber(ms, spans);
    hide Picks, SpansFit, Protected;
    PickStart(ms, keep, spans);
    picked, at := [], [];
    for j := 0 to Cut(|spans|, keep)
      invariant Picks(ms, keep, spans, picked, at, j)
    {
      PickStep(ms, keep, spans, picked, at, j);
      var held := SpanProtected(ms, spans, j);
      if !held {
        picked, at := picked + [spans[j]], at + [j];
      }
    }
  }

  /** compacted_by_start */
  function BlocksOf(picked: seq<Span>, texts: map<nat, string>): map<nat, Replacement> {
    if picked == [] then map[]
    else
      var last := picked[|picked| - 1];
      BlocksOf(picked[..|picked| - 1], texts)[last.start := Replacement(last.end, TextFor(texts, last.start))]
  }

  lemma {:induction false} BlocksOfFacts(picked: seq<Span>, texts: map<nat, string>)
    ensures forall d | 0 <= d < |picked| :: picked[d].start in BlocksOf(picked, texts)
    ensures forall s | s in BlocksOf(picked, texts) ::
              exists d :: 0 <= d < |picked| && s == picked[d].start
                  && BlocksOf(picked, texts)[s] == Replacement(picked[d].end, TextFor(texts, s))
  {
    if picked != [] {
      var n := |picked| - 1;
      BlocksOfFacts(picked[..n], texts);
      var init, all := BlocksOf(picked[..n], texts), BlocksOf(picked, texts);
      forall d | 0 <= d < |picked|
        ensures picked[d].start in all
      {
        if d < n {
          assert picked[..n][d].start in init;
        }
      }
      forall s | s in all
        ensures exists d :: 0 <= d < |picked| && s == picked[d].start
                            && all[s] == Replacement(picked[d].end, TextFor(texts, s))
      {
        if s != picked[n].start {
          var d :| 0 <= d < n && s == picked[..n][d].start
              && init[s] == Replacement(picked[..n][d].end, TextFor(texts, s));
          assert picked[d] == picked[..n][d];
        } else {
          assert all[picked[n].start] == Replacement(picked[n].end, TextFor(texts, picked[n].start));
        }
      }
    }
  }

  lemma {:induction false} BlocksOfGood(ms: seq<Message>, keep: int, spans: seq<Span>, picked: seq<Span>, at: seq<nat>,
                                        texts: map<nat, string>)
    requires SpansFit(ms, spans) && Picks(ms, keep, spans, picked, at, Cut(|spans|, keep))
    ensures GoodReplacements(ms, BlocksOf(picked, texts))
  {
    var blocks := BlocksOf(picked, texts);
    BlocksOfFacts(picked, texts);
    forall s | s in blocks
      ensures s < |ms| && Opens(ms[s]) && blocks[s].end + 1 == NextStart(ms, s)
    {
      var d :| 0 <= d < |picked| && s == picked[d].start && blocks[s] == Replacement(picked[d].end, TextFor(texts, s));
      SpanEnd(ms, spans, at[d]);
    }
  }

  method Replacements(ms: seq<Message>, keep: int, spans: seq<Span>, picked: seq<Span>, at: seq<nat>,
                      texts: map<nat, string>)
    returns (blocks: map<nat, Replacement>)
    requires SpansFit(ms, spans) && Picks(ms, keep, spans, picked, at, Cut(|spans|, keep))
    ensures GoodReplacements(ms, blocks)
    ensures NotesAt(StartsFrom(ms, 0), blocks) == NotesOf(ms, keep, texts)
  {
    blocks := map[];
    for c := 0 to |picked|
      invariant blocks == BlocksOf(picked[..c], texts)
    {
      assert picked[..c + 1][..c] == picked[..c];
      blocks := blocks[picked[c].start := Replacement(picked[c].end, TextFor(texts, picked[c].start))];
    }
    assert picked[..|picked|] == picked;
    BlocksOfGood(ms, keep, spans, picked, at, texts);
    BlocksOfFacts(picked, texts);
    ReplacedIffPicked(ms, keep, spans, picked, at, blocks, texts);
  }

  lemma {:induction false} ReplacedIffPicked(ms: seq<Message>, keep: int, spans: seq<Span>, picked: seq<Span>,
                                             at: seq<nat>, blocks: map<nat, Replacement>, texts: map<nat, string>)
    requires SpansFit(ms, spans) && Picks(ms, keep, spans, picked, at, Cut(|spans|, keep))
    requires blocks == BlocksOf(picked, texts)
    ensures NotesAt(StartsFrom(ms, 0), blocks) == NotesOf(ms, keep, texts)
  {
    var st := StartsFrom(ms, 0);
    BlocksOfFacts(picked, texts);
    forall j | 0 <= j < |st|
      ensures st[j] in blocks <==> Compactable(RoundsOf(ms), keep, j)
    {
      if st[j] in blocks {
        var d :| 0 <= d < |picked| && picked[d].start == st[j];
        SameStart(ms, at[d], j);
      }
      if Compactable(RoundsOf(ms), keep, j) {
        assert j in at;
        var d :| 0 <= d < |at| && at[d] == j;
        assert picked[d].start == st[j];
      }
    }
  }

  lemma {:induction false} SameStart(ms: seq<Message>, j: nat, k: nat)
    requires j < |StartsFrom(ms, 0)| && k < |StartsFrom(ms, 0)| && StartsFrom(ms, 0)[j] == StartsFrom(ms, 0)[k]
    ensures j == k
  {
    if j < k {
      StartsDiffer(ms, j, k);
    } else if k < j {
      StartsDiffer(ms, k, j);
    }
  }

  /** The transcript and the reported cost after compact_tool_history_llm. */
  ghost function AfterLlm(ms: seq<Message>, keep: int, reply: nat -> Option<Batch>, shrink: (string, string) -> string)
    : (seq<Message>, Option<real>)
  {
    StartsFit(ms, 0);
    assert ms[0..] == ms;
    var starts := CompactableStarts(ms, keep, Cut(|RoundsOf(ms)|, keep));
    var n := Batches(|starts|);
    if Settled(ms, keep) then (ms, None)
    else if Complete(starts, reply, n) then (Compacted(ms, NotesOf(ms, keep, Merged(reply, n))), Some(Spent(reply, n)))
    else (Shrunk(ms, keep, shrink), None)
  }

  method CompactToolHistoryLlm(ms: seq<Message>, keep: int, reply: nat -> Option<Batch>,
                               shrink: (string, string) -> string)
    returns (out: seq<Message>, usage: Option<real>)
    ensures (out, usage) == AfterLlm(ms, keep, reply, shrink)
  {
    var spans := ToolRoundSpans(ms);
    if |spans| <= keep {
      return ms, None;
    }
    var picked, at := CompactableSpans(ms, keep, spans);
    if picked == [] {
      return ms, None;
    }
    assert Compactable(RoundsOf(ms), keep, at[0]);
    var starts: seq<nat> := [];
    for c := 0 to |picked|
      invariant |starts| == c && forall d | 0 <= d < c :: starts[d] == picked[d].start
    {
      starts := starts + [picked[c].start];
    }
    assert starts == CompactableStarts(ms, keep, Cut(|spans|, keep));
    var summary := Summarize(starts, reply);
    if summary.None? {
      out := CompactToolHistory(ms, keep, shrink);
      return out, None;
    }
    var blocks := Replacements(ms, keep, spans, picked, at, summary.value.texts);
    out := ReplaceRounds(ms, blocks);
    assert ms[0..] == ms;
    usage := Some(summary.value.cost);
  }

  /** Whichever way a compaction ends, for any keep_recent and any replies, it keeps the
      transcript well paired. */
  lemma {:induction false} CompactionKeepsPairing(ms: seq<Message>, keep: int, reply: nat -> Option<Batch>,
                                                  shrink: (string, string) -> string)
    requires Paired(ms)
    ensures Paired(AfterLlm(ms, keep, reply, shrink).0)
  {
    StartsFit(ms, 0);
    assert ms[0..] == ms;
    var starts := CompactableStarts(ms, keep, Cut(|RoundsOf(ms)|, keep));
    CompactedPaired(ms, NotesOf(ms, keep, Merged(reply, Batches(|starts|))));
    ShrunkPaired(ms, keep, shrink);
  }

  /** After a compaction that found summaries, a second one with the same keep_recent >= 1
      changes nothing, whatever it would be told. */
  lemma {:induction false} CompactionIdempotent(ms: seq<Message>, keep: nat, reply: nat -> Option<Batch>,
                                                again: nat -> Option<Batch>, shrink: (string, string) -> string)
    requires 1 <= keep && AfterLlm(ms, keep, reply, shrink).1.Some?
    ensures var once := AfterLlm(ms, keep, reply, shrink).0;
            AfterLlm(once, keep, again, shrink) == (once, None)
  {
    StartsFit(ms, 0);
    assert ms[0..] == ms;
    var starts := CompactableStarts(ms, keep, Cut(|RoundsOf(ms)|, keep));
    CompactionSettles(ms, keep, NotesOf(ms, keep, Merged(reply, Batches(|starts|))));
  }
}
