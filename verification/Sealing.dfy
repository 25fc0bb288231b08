/** Marking one old tool result for the prompt cache (seal_task_transcript in ouroboros/loop.py). */
module Sealing {
  import opened Options
  import Q = Sequences
  import opened Transcript

  const KEEP_ACTIVE := 5
  const MIN_PREFIX_TOKENS := 2048

  /** Step 1: a sealed tool message goes back to plain text. */
  function Plain(m: Message): (r: Message)
    ensures SameSkeleton(m, r) && PlainText(r.content) == PlainText(m.content)
  {
    if m.Tool? && m.content.Blocks? then Tool(m.id, Text(PlainText(m.content))) else m
  }

  function Unsealed(ms: seq<Message>): (r: seq<Message>)
    ensures |r| == |ms| && forall i | 0 <= i < |ms| :: r[i] == Plain(ms[i])
  {
    seq(|ms|, i requires 0 <= i < |ms| => Plain(ms[i]))
  }

  function ToolPlaces(ms: seq<Message>): (places: seq<nat>)
    ensures forall k | 0 <= k < |places| :: places[k] < |ms| && ms[places[k]].Tool?
    ensures forall j, k | 0 <= j < k < |places| :: places[j] < places[k]
  {
    if ms == [] then [] else ToolPlaces(ms[..|ms| - 1]) + if ms[|ms| - 1].Tool? then [|ms| - 1] else []
  }

  function TextLength(ms: seq<Message>): nat {
    if ms == [] then 0 else TextLength(ms[..|ms| - 1]) + |PlainText(ms[|ms| - 1].content)|
  }

  /** The last tool result before the last keep ones. */
  function Candidate(ms: seq<Message>, keep: nat): (c: Option<nat>)
    ensures c.Some? ==> c.value < |ms| && ms[c.value].Tool?
  {
    var places := ToolPlaces(ms);
    if |places| <= keep then None else Some(places[|places| - keep - 1])
  }

  /** The place to seal: that one, if enough text leads up to it. */
  function Boundary(ms: seq<Message>, keep: nat, minTokens: int): (b: Option<nat>)
    ensures b.Some? ==> b.value < |ms| && ms[b.value].Tool?
  {
    var c := Candidate(ms, keep);
    if c.None? || TextLength(ms[..c.value + 1]) / 4 < minTokens then None else c
  }

  function SealOne(m: Message): Message
    requires m.Tool?
  {
    Tool(m.id, Blocks([TextBlock(PlainText(m.content), true)]))
  }

  /** The transcript after seal_task_transcript. */
  function Sealed(ms: seq<Message>, keep: nat, minTokens: int): (r: seq<Message>)
    ensures |r| == |ms|
  {
    var u := Unsealed(ms);
    match Boundary(ms, keep, minTokens)
    case None => u
    case Some(c) => u[c := SealOne(ms[c])]
  }

  lemma {:induction false} SealedAt(ms: seq<Message>, keep: nat, minTokens: int, i: nat)
    requires i < |ms|
    ensures Sealed(ms, keep, minTokens)[i]
         == if Boundary(ms, keep, minTokens) == Some(i) then SealOne(ms[i]) else Plain(ms[i])
  {
  }

  lemma {:induction false} SealOneFacts(m: Message)
    requires m.Tool?
    ensures SameSkeleton(m, SealOne(m)) && PlainText(SealOne(m).content) == PlainText(m.content)
            && Plain(SealOne(m)) == Plain(m)
  {
    OneBlock(PlainText(m.content));
    match m.content {
      case Text(s) =>
      case Blocks(bs) =>
    }
  }

  /** Sealing replaces contents by contents with the same plain text, and nothing else; the
      only sealed tool message is the one at the boundary. */
  lemma {:induction false} SealKeepsText(ms: seq<Message>, keep: nat, minTokens: int, i: nat)
    requires i < |ms|
    ensures var r := Sealed(ms, keep, minTokens)[i];
            && SameSkeleton(ms[i], r) && PlainText(r.content) == PlainText(ms[i].content)
            && (!ms[i].Tool? ==> r == ms[i])
            && (ms[i].Tool? ==> (r.content.Blocks? <==> Boundary(ms, keep, minTokens) == Some(i)))
            && Plain(r) == Plain(ms[i])
  {
    SealedAt(ms, keep, minTokens, i);
    if Boundary(ms, keep, minTokens) == Some(i) {
      SealOneFacts(ms[i]);
    }
  }

  lemma {:induction false} OneBlock(s: string)
    ensures PlainText(Blocks([TextBlock(s, true)])) == s
  {
    var bs := [TextBlock(s, true)];
    assert bs[..0] == [] && TextOf([]) == "";
    assert "" + s == s;
  }

  /** At most one tool message is sealed. */
  lemma {:induction false} OneSeal(ms: seq<Message>, keep: nat, minTokens: int, i: nat, j: nat)
    requires i < |ms| && j < |ms|
    requires var r := Sealed(ms, keep, minTokens);
             r[i].Tool? && r[i].content.Blocks? && r[j].Tool? && r[j].content.Blocks?
    ensures i == j
  {
    SealKeepsText(ms, keep, minTokens, i);
    SealKeepsText(ms, keep, minTokens, j);
  }

  /** Same roles and the same plain texts throughout. */
  predicate SameText(a: seq<Message>, b: seq<Message>) {
    |a| == |b| && forall i | 0 <= i < |a| ::
          a[i].Tool? == b[i].Tool? && PlainText(a[i].content) == PlainText(b[i].content)
  }

  lemma {:induction false} PlacesByText(a: seq<Message>, b: seq<Message>)
    requires SameText(a, b)
    ensures ToolPlaces(a) == ToolPlaces(b)
  {
    if a != [] {
      var n := |a| - 1;
      PlacesByText(a[..n], b[..n]);
      assert a[n].Tool? == b[n].Tool?;
    }
  }

  lemma {:induction false} LengthByText(a: seq<Message>, b: seq<Message>)
    requires SameText(a, b)
    ensures TextLength(a) == TextLength(b)
  {
    if a != [] {
      var n := |a| - 1;
      LengthByText(a[..n], b[..n]);
      assert PlainText(a[n].content) == PlainText(b[n].content);
    }
  }

  lemma {:induction false} PrefixByText(a: seq<Message>, b: seq<Message>, n: nat)
    requires SameText(a, b) && n <= |a|
    ensures TextLength(a[..n]) == TextLength(b[..n])
  {
    LengthByText(a[..n], b[..n]);
  }

  lemma {:induction false} CandidateByText(a: seq<Message>, b: seq<Message>, keep: nat)
    requires SameText(a, b)
    ensures Candidate(a, keep) == Candidate(b, keep)
  {
    PlacesByText(a, b);
  }

  /** The boundary looks at roles and plain texts only. */
  lemma {:induction false} BoundaryByText(a: seq<Message>, b: seq<Message>, keep: nat, minTokens: int)
    requires SameText(a, b)
    ensures Boundary(a, keep, minTokens) == Boundary(b, keep, minTokens)
  {
    CandidateByText(a, b, keep);
    var c := Candidate(a, keep);
    if c.Some? {
      PrefixByText(a, b, c.value + 1);
    }
  }

  /** Sealing again starts from the plain texts: it forgets where seals were before. So it is
      idempotent, and sealing as the transcript grows ends where sealing once would. */
  lemma {:induction false} SealForgets(ms: seq<Message>, more: seq<Message>, keep: nat, minTokens: int)
    ensures Sealed(Sealed(ms, keep, minTokens) + more, keep, minTokens) == Sealed(ms + more, keep, minTokens)
  {
    var a, b := Sealed(ms, keep, minTokens) + more, ms + more;
    forall i | 0 <= i < |b|
      ensures SameSkeleton(b[i], a[i]) && PlainText(a[i].content) == PlainText(b[i].content)
              && Plain(a[i]) == Plain(b[i])
    {
      if i < |ms| {
        SealKeepsText(ms, keep, minTokens, i);
      }
    }
    BoundaryByText(a, b, keep, minTokens);
    forall i | 0 <= i < |b|
      ensures Sealed(a, keep, minTokens)[i] == Sealed(b, keep, minTokens)[i]
    {
      SealedAt(a, keep, minTokens, i);
      SealedAt(b, keep, minTokens, i);
      assert SameSkeleton(b[i], a[i]) && Plain(a[i]) == Plain(b[i]);
    }
  }

  lemma {:induction false} SealIdempotent(ms: seq<Message>, keep: nat, minTokens: int)
    ensures Sealed(Sealed(ms, keep, minTokens), keep, minTokens) == Sealed(ms, keep, minTokens)
  {
    SealForgets(ms, [], keep, minTokens);
    assert Sealed(ms, keep, minTokens) + [] == Sealed(ms, keep, minTokens) && ms + [] == ms;
  }

  lemma {:induction false} PlacesGrow(ms: seq<Message>, more: seq<Message>)
    ensures ToolPlaces(ms) <= ToolPlaces(ms + more)
  {
    if more == [] {
      assert ms + more == ms;
    } else {
      PlacesGrow(ms, more[..|more| - 1]);
      assert (ms + more)[..|ms + more| - 1] == ms + more[..|more| - 1];
    }
  }

  lemma {:induction false} LengthGrows(ms: seq<Message>, i: nat, j: nat)
    requires i <= j <= |ms|
    ensures TextLength(ms[..i]) <= TextLength(ms[..j])
  {
    if i < j {
      LengthGrows(ms, i, j - 1);
      Q.TakeStep(ms, j - 1);
    }
  }

  lemma {:induction false} SealPlaceAdvances(p: seq<nat>, q: seq<nat>, keep: nat)
    requires p <= q && |p| > keep && forall j, k | 0 <= j < k < |q| :: q[j] < q[k]
    ensures |q| > keep && p[|p| - keep - 1] <= q[|q| - keep - 1]
  {
    assert q[|p| - keep - 1] == p[|p| - keep - 1];
  }

  lemma {:induction false} LongerPrefix(ms: seq<Message>, more: seq<Message>, c: nat, d: nat)
    requires c <= d < |ms + more| && c < |ms|
    ensures TextLength(ms[..c + 1]) / 4 <= TextLength((ms + more)[..d + 1]) / 4
  {
    hide TextLength;
    LengthGrows(ms + more, c + 1, d + 1);
    Q.TakeOfAppend(ms, more, c + 1);
  }

  lemma {:induction false} CandidateAdvances(ms: seq<Message>, more: seq<Message>, keep: nat)
    requires Candidate(ms, keep).Some?
    ensures Candidate(ms + more, keep).Some? && Candidate(ms, keep).value <= Candidate(ms + more, keep).value
  {
    PlacesGrow(ms, more);
    SealPlaceAdvances(ToolPlaces(ms), ToolPlaces(ms + more), keep);
  }

  /** As messages are appended the boundary never moves back and never disappears. */
  lemma {:induction false} BoundaryAdvances(ms: seq<Message>, more: seq<Message>, keep: nat, minTokens: int)
    requires Boundary(ms, keep, minTokens).Some?
    ensures Boundary(ms + more, keep, minTokens).Some?
    ensures Boundary(ms + more, keep, minTokens).value >= Boundary(ms, keep, minTokens).value
  {
    hide Candidate, TextLength;
    CandidateAdvances(ms, more, keep);
    LongerPrefix(ms, more, Candidate(ms, keep).value, Candidate(ms + more, keep).value);
  }

  /** Exactly keep tool results follow the boundary. */
  lemma {:induction false} KeepBehind(ms: seq<Message>, keep: nat, minTokens: int)
    requires Boundary(ms, keep, minTokens).Some?
    ensures ToolsFrom(ms, Boundary(ms, keep, minTokens).value + 1) == keep
  {
    var places := ToolPlaces(ms);
    ToolsBehind(ms, |places| - keep - 1);
  }

  /** How many tool messages there are from place i on. */
  function ToolsFrom(ms: seq<Message>, i: nat): nat
    requires i <= |ms|
    decreases |ms| - i
  {
    if i == |ms| then 0 else (if ms[i].Tool? then 1 else 0) + ToolsFrom(ms, i + 1)
  }

  lemma {:induction false} ToolsSplit(ms: seq<Message>, i: nat)
    requires i <= |ms|
    ensures |ToolPlaces(ms[..i])| + ToolsFrom(ms, i) == |ToolPlaces(ms)|
    decreases |ms| - i
  {
    if i == |ms| {
      assert ms[..i] == ms;
    } else {
      ToolsSplit(ms, i + 1);
      assert ms[..i + 1][..i] == ms[..i];
    }
  }

  lemma {:induction false} ToolsBehind(ms: seq<Message>, k: nat)
    requires k < |ToolPlaces(ms)|
    ensures ToolsFrom(ms, ToolPlaces(ms)[k] + 1) == |ToolPlaces(ms)| - k - 1
  {
    var c := ToolPlaces(ms)[k];
    ToolsSplit(ms, c + 1);
    PlacesGrow(ms[..c + 1], ms[c + 1..]);
    assert ms == ms[..c + 1] + ms[c + 1..];
    var p := ToolPlaces(ms[..c + 1]);
    assert ms[..c + 1][c].Tool? && ms[..c + 1][..c] == ms[..c];
    assert p[|p| - 1] == c;
    assert ToolPlaces(ms)[|p| - 1] == c;
  }

  // ---- In place ----

  method RevertSeals(messages: array<Message>)
    modifies messages
    ensures messages[..] == Unsealed(old(messages[..]))
  {
    hide PlainText, SameSkeleton;
    ghost var ms := messages[..];
    for i := 0 to messages.Length
      invariant forall j | 0 <= j < i :: messages[j] == Plain(ms[j])
      invariant forall j | i <= j < messages.Length :: messages[j] == ms[j]
    {
      if messages[i].Tool? && messages[i].content.Blocks? {
        messages[i] := Tool(messages[i].id, Text(PlainText(messages[i].content)));
      }
    }
    assert messages[..] == Unsealed(ms);
  }

  lemma {:induction false} PlainSameText(ms: seq<Message>)
    ensures SameText(Unsealed(ms), ms)
  {
  }

  /** seal_task_transcript, on the message list itself. */
  method SealTaskTranscript(messages: array<Message>, keep: nat, minTokens: int)
    modifies messages
    ensures messages[..] == Sealed(old(messages[..]), keep, minTokens)
  {
    hide TextLength, ToolPlaces, PlainText, SameText, TextOf;
    PlainSameText(messages[..]);
    ghost var ms := messages[..];
    RevertSeals(messages);
    ghost var u := messages[..];
    BoundaryByText(u, ms, keep, minTokens);
    var places := CollectPlaces(messages);
    if |places| <= keep {
      return;
    }
    var c := places[|places| - keep - 1];
    var length := MeasurePrefix(messages, c + 1);
    if length / 4 < minTokens {
      return;
    }
    assert Boundary(u, keep, minTokens) == Some(c);
    assert SealOne(u[c]) == SealOne(ms[c]);
    messages[c] := SealOne(messages[c]);
    assert messages[..] == u[c := SealOne(ms[c])];
  }

  method CollectPlaces(messages: array<Message>) returns (places: seq<nat>)
    ensures places == ToolPlaces(messages[..])
  {
    places := [];
    for i := 0 to messages.Length
      invariant places == ToolPlaces(messages[..i])
    {
      assert messages[..i + 1][..i] == messages[..i];
      if messages[i].Tool? {
        places := places + [i];
      }
    }
    assert messages[..messages.Length] == messages[..];
  }

  method MeasurePrefix(messages: array<Message>, n: nat) returns (length: nat)
    requires n <= messages.Length
    ensures length == TextLength(messages[..][..n])
  {
    length := 0;
    for i := 0 to n
      invariant length == TextLength(messages[..i])
    {
      assert messages[..i + 1][..i] == messages[..i];
      length := length + |PlainText(messages[i].content)|;
    }
    assert messages[..][..n] == messages[..n];
  }
}
