/** What becomes of the summaries of a compaction: later replies override earlier ones, and the
    costs of a compaction that fails are not reported (ouroboros/context_compaction.py). */
module SummaryTexts {
  import opened Options
  import opened Transcript
  import opened Rounds
  import opened Compaction
  import SC = SealedCompaction

  predicate Names(reply: nat -> Option<Batch>, b: nat, s: nat) {
    reply(b).Some? && s in reply(b).value.texts
  }

  /** The last of the first n replies that names the round starting at s, or -1. */
  function LastNaming(reply: nat -> Option<Batch>, n: nat, s: nat): (k: int)
    ensures -1 <= k < n && (k >= 0 ==> Names(reply, k, s))
    ensures forall b: nat | k < b < n :: !Names(reply, b, s)
  {
    if n == 0 then -1 else if Names(reply, n - 1, s) then n - 1 else LastNaming(reply, n - 1, s)
  }

  /** That reply decides the text of the round. */
  lemma {:induction false} LastMention(reply: nat -> Option<Batch>, n: nat, s: nat)
    ensures var k := LastNaming(reply, n, s);
            if k < 0 then s !in Merged(reply, n)
            else s in Merged(reply, n) && Merged(reply, n)[s] == reply(k).value.texts[s]
  {
    if n > 0 {
      LastMention(reply, n - 1, s);
    }
  }

  /** After the reply to its own batch, another one names the round, the last one to do so with a
      text of this kind. */
  ghost predicate Overridden(reply: nat -> Option<Batch>, own: nat, n: nat, s: nat, kind: string -> bool) {
    exists b: nat :: own < b < n && Names(reply, b, s) && kind(reply(b).value.texts[s])
                     && forall c: nat | b < c < n :: !Names(reply, c, s)
  }

  lemma {:induction false} OverriddenIff(reply: nat -> Option<Batch>, own: nat, n: nat, s: nat, kind: string -> bool)
    requires own < n && Names(reply, own, s)
    ensures var k := LastNaming(reply, n, s);
            k >= own && (Overridden(reply, own, n, s, kind) <==> k > own && kind(reply(k).value.texts[s]))
  {
    var k := LastNaming(reply, n, s);
    assert k >= own;
    if Overridden(reply, own, n, s, kind) {
      var b: nat :| own < b < n && Names(reply, b, s) && kind(reply(b).value.texts[s])
                    && forall c: nat | b < c < n :: !Names(reply, c, s);
      assert b <= k;
    }
  }

  function Blank(): string -> bool {
    (t: string) => t == ""
  }

  function OtherThan(own: string): string -> bool {
    (t: string) => t != own
  }

  /** The batch in which the i-th start is asked about. */
  function OwnBatch(i: nat): nat {
    i / BLOCKS_PER_BATCH
  }

  lemma {:induction false} OwnAnswer(starts: seq<nat>, reply: nat -> Option<Batch>, i: nat)
    requires i < |starts| && Complete(starts, reply, Batches(|starts|))
    ensures OwnBatch(i) < Batches(|starts|) && Names(reply, OwnBatch(i), starts[i])
    ensures reply(OwnBatch(i)).value.texts[starts[i]] != ""
  {
    var b := OwnBatch(i);
    var part := Part(starts, b);
    assert CompleteAt(starts, reply, b);
    assert part[i - b * BLOCKS_PER_BATCH] == starts[i];
  }

  /** With complete replies, the text a round ends up with is empty exactly when a later batch's
      reply blanked it and none after that named it again; and it is the one its own batch was
      given exactly when the last later mention, if there is one, does not differ. */
  lemma {:induction false} TextKeptIff(starts: seq<nat>, reply: nat -> Option<Batch>, i: nat)
    requires i < |starts| && Complete(starts, reply, Batches(|starts|))
    ensures Names(reply, OwnBatch(i), starts[i])
    ensures var n, own := Batches(|starts|), OwnBatch(i);
            var given := reply(own).value.texts[starts[i]];
            && (TextFor(Merged(reply, n), starts[i]) == "" <==> Overridden(reply, own, n, starts[i], Blank()))
            && (TextFor(Merged(reply, n), starts[i]) == given
                <==> !Overridden(reply, own, n, starts[i], OtherThan(given)))
  {
    hide LastNaming, Overridden, Complete, Merged, Names;
    var n, own := Batches(|starts|), OwnBatch(i);
    OwnAnswer(starts, reply, i);
    LastMention(reply, n, starts[i]);
    OverriddenIff(reply, own, n, starts[i], Blank());
    OverriddenIff(reply, own, n, starts[i], OtherThan(reply(own).value.texts[starts[i]]));
  }

  lemma {:induction false} StartsAre(ms: seq<Message>, keep: int, n: nat, j: nat)
    requires |StartsFrom(ms, 0)| == |RoundsOf(ms)| && j < n <= |RoundsOf(ms)| && Compactable(RoundsOf(ms), keep, j)
    ensures exists i :: 0 <= i < |CompactableStarts(ms, keep, n)|
                        && CompactableStarts(ms, keep, n)[i] == StartsFrom(ms, 0)[j]
  {
    hide Compactable;
    var before := CompactableStarts(ms, keep, n - 1);
    if j == n - 1 {
      assert CompactableStarts(ms, keep, n)[|before|] == StartsFrom(ms, 0)[j];
    } else {
      StartsAre(ms, keep, n - 1, j);
      var i :| 0 <= i < |before| && before[i] == StartsFrom(ms, 0)[j];
      assert CompactableStarts(ms, keep, n)[i] == before[i];
    }
  }

  lemma {:induction false} StartsFromRounds(ms: seq<Message>, keep: int, n: nat, i: nat)
    requires |StartsFrom(ms, 0)| == |RoundsOf(ms)| && n <= |RoundsOf(ms)| && i < |CompactableStarts(ms, keep, n)|
    ensures exists j :: 0 <= j < n && Compactable(RoundsOf(ms), keep, j)
                        && StartsFrom(ms, 0)[j] == CompactableStarts(ms, keep, n)[i]
  {
    hide Compactable;
    var before := CompactableStarts(ms, keep, n - 1);
    if i < |before| {
      StartsFromRounds(ms, keep, n - 1, i);
      var j :| 0 <= j < n - 1 && Compactable(RoundsOf(ms), keep, j) && StartsFrom(ms, 0)[j] == before[i];
    } else {
      assert Compactable(RoundsOf(ms), keep, n - 1);
    }
  }

  /** Some start was blanked for good. */
  ghost predicate SomeBlanked(starts: seq<nat>, reply: nat -> Option<Batch>) {
    exists i :: 0 <= i < |starts| && Overridden(reply, OwnBatch(i), Batches(|starts|), starts[i], Blank())
  }

  /** A compaction with complete replies gives every compacted round a note with a text exactly when
      no later reply blanked a round of an earlier batch for good. */
  lemma {:induction false} EveryNoteIff(ms: seq<Message>, keep: int, reply: nat -> Option<Batch>)
    ensures |StartsFrom(ms, 0)| == |RoundsOf(ms)|
    ensures var starts := CompactableStarts(ms, keep, Cut(|RoundsOf(ms)|, keep));
            Complete(starts, reply, Batches(|starts|)) ==>
              ((forall note | note in NotesOf(ms, keep, Merged(reply, Batches(|starts|))) :: note != Some(""))
               <==> !SomeBlanked(starts, reply))
  {
    StartsFit(ms, 0);
    assert ms[0..] == ms;
    var starts := CompactableStarts(ms, keep, Cut(|RoundsOf(ms)|, keep));
    if Complete(starts, reply, Batches(|starts|)) {
      EveryNote(ms, keep, reply, starts);
    }
  }

  lemma {:induction false} EveryNote(ms: seq<Message>, keep: int, reply: nat -> Option<Batch>, starts: seq<nat>)
    requires |StartsFrom(ms, 0)| == |RoundsOf(ms)|
    requires starts == CompactableStarts(ms, keep, Cut(|RoundsOf(ms)|, keep))
    requires Complete(starts, reply, Batches(|starts|))
    ensures (forall note | note in NotesOf(ms, keep, Merged(reply, Batches(|starts|))) :: note != Some(""))
            <==> !SomeBlanked(starts, reply)
  {
    hide Overridden, Complete, Merged, CompactableStarts, Protected;
    var cut := Cut(|RoundsOf(ms)|, keep);
    var n := Batches(|starts|);
    var notes := NotesOf(ms, keep, Merged(reply, n));
    if SomeBlanked(starts, reply) {
      var i :| 0 <= i < |starts| && Overridden(reply, OwnBatch(i), n, starts[i], Blank());
      TextKeptIff(starts, reply, i);
      StartsFromRounds(ms, keep, cut, i);
      var j :| 0 <= j < cut && Compactable(RoundsOf(ms), keep, j) && StartsFrom(ms, 0)[j] == starts[i];
      assert notes[j] == Some("");
    }
    if Some("") in notes {
      var j :| 0 <= j < |notes| && notes[j] == Some("");
      assert Compactable(RoundsOf(ms), keep, j) && notes[j] == Some(TextFor(Merged(reply, n), StartsFrom(ms, 0)[j]));
      StartsAre(ms, keep, cut, j);
      var i :| 0 <= i < |starts| && starts[i] == StartsFrom(ms, 0)[j];
      TextKeptIff(starts, reply, i);
      assert Overridden(reply, OwnBatch(i), n, starts[i], Blank());
    }
  }

  /** Replies to nine rounds in two batches, the second of which also names the first round. */
  function Blanking(starts: seq<nat>): nat -> Option<Batch>
    requires |starts| == BLOCKS_PER_BATCH + 1
  {
    (b: nat) =>
      if b == 0 then Some(Batch(map i | 0 <= i < BLOCKS_PER_BATCH :: starts[i] := "x", 0.0))
      else Some(Batch(map[starts[BLOCKS_PER_BATCH] := "x", starts[0] := ""], 0.0))
  }

  lemma {:induction false} BlankingComplete(starts: seq<nat>)
    requires |starts| == BLOCKS_PER_BATCH + 1 && starts[0] != starts[BLOCKS_PER_BATCH]
    ensures Batches(|starts|) == 2 && Complete(starts, Blanking(starts), 2)
  {
    var reply := Blanking(starts);
    assert Part(starts, 0) == starts[..BLOCKS_PER_BATCH];
    assert Part(starts, 1) == [starts[BLOCKS_PER_BATCH]];
    assert forall i | 0 <= i < BLOCKS_PER_BATCH :: starts[i] in reply(0).value.texts;
    assert CompleteAt(starts, reply, 0) && CompleteAt(starts, reply, 1);
  }

  /** For instance. */
  lemma {:induction false} SummaryLost(starts: seq<nat>)
    requires |starts| == BLOCKS_PER_BATCH + 1 && starts[0] != starts[BLOCKS_PER_BATCH]
    ensures var n := Batches(|starts|);
            Complete(starts, Blanking(starts), n) && TextFor(Merged(Blanking(starts), n), starts[0]) == ""
  {
    hide Complete, Merged, TextFor;
    var reply := Blanking(starts);
    BlankingComplete(starts);
    TextKeptIff(starts, reply, 0);
    assert Names(reply, 1, starts[0]) && reply(1).value.texts[starts[0]] == "";
  }

  // ---- What a compaction reports of its costs ----

  /** How many replies are complete before the first that is not. */
  function LeadingComplete(starts: seq<nat>, reply: nat -> Option<Batch>, n: nat): (k: nat)
    ensures k <= n && Complete(starts, reply, k) && (k < n ==> !CompleteAt(starts, reply, k))
  {
    if n == 0 then 0
    else
      var k := LeadingComplete(starts, reply, n - 1);
      if k == n - 1 && CompleteAt(starts, reply, n - 1) then n else k
  }

  /** How many replies are asked for: up to the first that is not complete, or all. */
  function AskedFor(starts: seq<nat>, reply: nat -> Option<Batch>): nat {
    var n := Batches(|starts|);
    var k := LeadingComplete(starts, reply, n);
    if k < n then k + 1 else n
  }

  /** The cost a compaction reports is that of all replies it received exactly when they were all
      complete, or came for nothing. */
  lemma {:induction false} CostReportedIff(ms: seq<Message>, keep: int, reply: nat -> Option<Batch>,
                                           shrink: (string, string) -> string)
    requires !Settled(ms, keep)
    ensures |StartsFrom(ms, 0)| == |RoundsOf(ms)|
    ensures var starts := CompactableStarts(ms, keep, Cut(|RoundsOf(ms)|, keep));
            var reported := AfterLlm(ms, keep, reply, shrink).1;
            var received := Spent(reply, AskedFor(starts, reply));
            (if reported.Some? then reported.value else 0.0) == received
            <==> Complete(starts, reply, Batches(|starts|)) || received == 0.0
  {
    hide Settled, CompactableStarts, Spent, Batches, NotesOf, Compaction.Compacted, Shrunk;
    StartsFit(ms, 0);
    assert ms[0..] == ms;
    var starts := CompactableStarts(ms, keep, Cut(|RoundsOf(ms)|, keep));
    var n := Batches(|starts|);
    if Complete(starts, reply, n) {
      assert LeadingComplete(starts, reply, n) < n ==> CompleteAt(starts, reply, LeadingComplete(starts, reply, n));
    }
  }

  /** A first batch answered in full for a cost of 1, and no answer to the second. */
  function HalfAnswered(starts: seq<nat>): nat -> Option<Batch>
    requires |starts| > BLOCKS_PER_BATCH
  {
    (b: nat) =>
      if b == 0 then Some(Batch(map i | 0 <= i < BLOCKS_PER_BATCH :: starts[i] := "x", 1.0)) else None
  }

  lemma {:induction false} HalfAnsweredCost(starts: seq<nat>)
    requires BLOCKS_PER_BATCH < |starts| <= 2 * BLOCKS_PER_BATCH
    ensures var reply := HalfAnswered(starts);
            && !Complete(starts, reply, Batches(|starts|))
            && AskedFor(starts, reply) == 2 && Spent(reply, 2) == 1.0
  {
    var reply := HalfAnswered(starts);
    assert Batches(|starts|) == 2 && Part(starts, 0) == starts[..BLOCKS_PER_BATCH];
    assert CompleteAt(starts, reply, 0) && !CompleteAt(starts, reply, 1);
    assert Spent(reply, 1) == 1.0;
  }

  lemma {:induction false} ChatterUnprotected(k: nat, j: nat)
    requires j < k
    ensures |RoundsOf(SC.Chatter(k))| == k && RoundsOf(SC.Chatter(k))[j] == SC.Exchange(Text("ok"))
    ensures !Protected(SC.Exchange(Text("ok")))
  {
    var x := SC.Exchange(Text("ok"));
    SC.ExchangeFacts(Text("ok"));
    SC.OtherStart("ok", WARNING);
    SC.ChatterRounds(k - 1);
    SC.ChatterRounds(k);
    Concatenate(x, SC.Chatter(k - 1));
    if j > 0 {
      ChatterUnprotected(k - 1, j - 1);
    }
  }

  lemma {:induction false} AllCompactable(ms: seq<Message>, keep: int, n: nat)
    requires |StartsFrom(ms, 0)| == |RoundsOf(ms)| && n <= |RoundsOf(ms)|
    requires forall j | 0 <= j < n :: Compactable(RoundsOf(ms), keep, j)
    ensures |CompactableStarts(ms, keep, n)| == n
  {
    hide Compactable;
    if n > 0 {
      AllCompactable(ms, keep, n - 1);
    }
  }

  /** For instance: of ten plain exchanges nine are to be summarised, in two batches; the second call
      raises, and the cost of the first is not reported. */
  lemma {:induction false} BatchCostLost(shrink: (string, string) -> string)
    ensures var ms := SC.Chatter(10);
            && |StartsFrom(ms, 0)| == |RoundsOf(ms)| == 10 && Paired(ms) && !Settled(ms, 1)
            && var starts := CompactableStarts(ms, 1, Cut(|RoundsOf(ms)|, 1));
               && |starts| == 9
               && AfterLlm(ms, 1, HalfAnswered(starts), shrink).1 == None
               && Spent(HalfAnswered(starts), AskedFor(starts, HalfAnswered(starts))) == 1.0
  {
    hide CompactableStarts, HalfAnswered, AskedFor, Spent, Complete, Protected, Shrunk, NotesOf;
    hide SC.Chatter, SC.Exchange;
    var ms := SC.Chatter(10);
    SC.ChatterRounds(10);
    StartsFit(ms, 0);
    assert ms[0..] == ms;
    forall j | 0 <= j < 9
      ensures Compactable(RoundsOf(ms), 1, j)
    {
      ChatterUnprotected(10, j);
    }
    AllCompactable(ms, 1, 9);
    HalfAnsweredCost(CompactableStarts(ms, 1, 9));
    assert Compactable(RoundsOf(ms), 1, 0);
  }
}
