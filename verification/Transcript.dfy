/** A task's transcript and what it means for it to be well paired. */
module Transcript {
  /** One block of a multipart content list: text (perhaps marked for caching) or an image. */
  datatype Block = TextBlock(text: string, cached: bool) | ImageBlock(url: string)

  datatype Content = Text(text: string) | Blocks(blocks: seq<Block>)

  datatype Call = Call(id: string, name: string, args: string)

  /** An assistant message without tool calls has an empty list of them. */
  datatype Message =
    | System(content: Content)
    | User(content: Content)
    | Assistant(content: Content, calls: seq<Call>)
    | Tool(id: string, content: Content)

  /** A message that starts a round: an assistant message with tool calls. */
  predicate Opens(m: Message) {
    m.Assistant? && m.calls != []
  }

  /** results answers calls: one tool message per call, in call order, with matching ids. */
  predicate Answers(results: seq<Message>, calls: seq<Call>) {
    |results| == |calls| && forall i | 0 <= i < |calls| :: results[i].Tool? && results[i].id == calls[i].id
  }

  /** Every assistant message with tool calls is followed at once by its answers, and tool
      messages occur nowhere else. */
  predicate Paired(ms: seq<Message>) {
    if ms == [] then true
    else if Opens(ms[0]) then
      var n := |ms[0].calls|;
      1 + n <= |ms| && Answers(ms[1..1 + n], ms[0].calls) && Paired(ms[1 + n..])
    else
      !ms[0].Tool? && Paired(ms[1..])
  }

  lemma {:induction false} PairedAppend(a: seq<Message>, b: seq<Message>)
    requires Paired(a) && Paired(b)
    ensures Paired(a + b)
  {
    if a == [] {
      assert a + b == b;
    } else {
      var n := if Opens(a[0]) then |a[0].calls| else 0;
      PairedAppend(a[1 + n..], b);
      assert (a + b)[1 + n..] == a[1 + n..] + b;
      assert (a + b)[1..1 + n] == a[1..1 + n];
    }
  }

  /** A full round is well paired, and so is any single message that is neither. */
  lemma {:induction false} PairedRound(m: Message, results: seq<Message>)
    requires Opens(m) && Answers(results, m.calls)
    ensures Paired([m] + results)
  {
    var r := [m] + results;
    var n := |m.calls|;
    assert r[1..1 + n] == results && r[1 + n..] == [];
  }

  /** Pairing looks at roles, ids and calls only: contents may be replaced freely. */
  predicate SameSkeleton(a: Message, b: Message) {
    match a
    case System(_) => b.System?
    case User(_) => b.User?
    case Assistant(_, calls) => b.Assistant? && |b.calls| == |calls| && forall i | 0 <= i < |calls| ::
          b.calls[i].id == calls[i].id
    case Tool(id, _) => b.Tool? && b.id == id
  }

  lemma {:induction false} PairedBySkeleton(a: seq<Message>, b: seq<Message>)
    requires |a| == |b| && forall i | 0 <= i < |a| :: SameSkeleton(a[i], b[i])
    requires Paired(a)
    ensures Paired(b)
  {
    if a != [] {
      var n := if Opens(a[0]) then |a[0].calls| else 0;
      assert SameSkeleton(a[0], b[0]);
      if Opens(a[0]) {
        SkeletonAnswers(a[1..1 + n], b[1..1 + n], a[0].calls, b[0].calls);
      }
      PairedBySkeleton(a[1 + n..], b[1 + n..]);
    }
  }

  lemma {:induction false} SkeletonAnswers(a: seq<Message>, b: seq<Message>, calls: seq<Call>, calls': seq<Call>)
    requires |a| == |b| && forall i | 0 <= i < |a| :: SameSkeleton(a[i], b[i])
    requires |calls| == |calls'| && forall i | 0 <= i < |calls| :: calls'[i].id == calls[i].id
    requires Answers(a, calls)
    ensures Answers(b, calls')
  {
    forall i | 0 <= i < |b|
      ensures b[i].Tool? && b[i].id == calls'[i].id
    {
      assert SameSkeleton(a[i], b[i]);
    }
  }

  // ---- Text of a content ----

  function TextOf(blocks: seq<Block>): string {
    if blocks == [] then ""
    else
      var last := blocks[|blocks| - 1];
      TextOf(blocks[..|blocks| - 1]) + if last.TextBlock? then last.text else ""
  }

  /** _extract_plain_text_from_content */
  function PlainText(c: Content): string {
    match c
    case Text(s) => s
    case Blocks(bs) => TextOf(bs)
  }

  /** str(content): the printed form of a list starts with a bracket; only that matters here. */
  function Printed(c: Content): string {
    match c
    case Text(s) => s
    case Blocks(bs) => if bs == [] then "" else "[" + TextOf(bs) + "]"
  }
}
