/** Consolidating the chat log into summary blocks (ouroboros/consolidator.py): every message
    goes into exactly one block, in order, whichever summaries and era merges fail. */
module Consolidation {
  import opened Options
  import Q = Sequences

  const BLOCK_SIZE := 100
  const MAX_SUMMARY_BLOCKS := 10
  const ERA_COMPRESS_COUNT := 4

  /** A stored block. */
  datatype Block = Block(era: bool, count: nat, text: string)

  /** What an LLM call comes to: its text without surrounding white space, and its cost. A call
      that raises has no text and costs nothing; an empty response may cost something. */
  datatype Reply = Reply(text: string, cost: real)

  predicate Usable(r: Reply) {
    r.text != ""
  }

  /** A line of the chat log. */
  datatype Entry = Entry(line: string)

  // ---- What the blocks stand for ----

  /** A block together with the log entries it stands for. */
  datatype Piece = Piece(block: Block, source: seq<Entry>)

  function Sources(ps: seq<Piece>): seq<Entry> {
    if ps == [] then [] else Sources(ps[..|ps| - 1]) + ps[|ps| - 1].source
  }

  function Counted(bs: seq<Block>): nat {
    if bs == [] then 0 else Counted(bs[..|bs| - 1]) + bs[|bs| - 1].count
  }

  function BlocksOf(ps: seq<Piece>): (bs: seq<Block>)
    ensures |bs| == |ps| && forall i | 0 <= i < |ps| :: bs[i] == ps[i].block
  {
    seq(|ps|, i requires 0 <= i < |ps| => ps[i].block)
  }

  predicate Counts(ps: seq<Piece>) {
    forall i | 0 <= i < |ps| :: ps[i].block.count == |ps[i].source|
  }

  /** The blocks cover the first offset entries of the log, in order and without gaps. */
  predicate Covers(ps: seq<Piece>, log: seq<Entry>, offset: nat) {
    Counts(ps) && offset <= |log| && Sources(ps) == log[..offset]
  }

  lemma {:induction false} SourcesAppend(a: seq<Piece>, b: seq<Piece>)
    ensures Sources(a + b) == Sources(a) + Sources(b)
  {
    if b == [] {
      Q.Nothing(a);
      Q.Nothing(Sources(a));
    } else {
      var n := |b| - 1;
      SourcesAppend(a, b[..n]);
      Q.AppendLast(a, b);
      Q.Associate(Sources(a), Sources(b[..n]), b[n].source);
    }
  }

  lemma {:induction false} CountedIsLength(ps: seq<Piece>)
    requires Counts(ps)
    ensures Counted(BlocksOf(ps)) == |Sources(ps)|
  {
    if ps != [] {
      CountedIsLength(ps[..|ps| - 1]);
      assert BlocksOf(ps)[..|ps| - 1] == BlocksOf(ps[..|ps| - 1]);
    }
  }

  // ---- One run ----

  /** How many chunks are summarised before the first failure. */
  function Leading(ok: nat -> bool, n: nat): (k: nat)
    ensures k <= n && forall i | 0 <= i < k :: ok(i)
    ensures k < n ==> !ok(k)
  {
    if n == 0 then 0
    else
      var k := Leading(ok, n - 1);
      if k == n - 1 && ok(n - 1) then n else k
  }

  function Succeeds(reply: nat -> Reply): nat -> bool {
    (i: nat) => Usable(reply(i))
  }

  /** Entries in k chunks, and whole chunks in n entries. */
  function Entries(k: nat): (n: nat)
    ensures n == 100 * k
  {
    100 * k
  }

  function Chunks(n: nat): (k: nat)
    ensures Entries(k) <= n
  {
    n / 100
  }

  function Chunk(entries: seq<Entry>, i: nat): (c: seq<Entry>)
    requires Entries(i + 1) <= |entries|
    ensures |c| == BLOCK_SIZE
  {
    entries[Entries(i)..Entries(i + 1)]
  }

  function BlockFor(chunk: seq<Entry>, r: Reply): Block {
    Block(false, |chunk|, r.text)
  }

  /** The pieces for the first k chunks of the new entries. */
  function NewPieces(entries: seq<Entry>, reply: nat -> Reply, k: nat): (ps: seq<Piece>)
    requires Entries(k) <= |entries|
    ensures |ps| == k
  {
    if k == 0 then []
    else
      var chunk := Chunk(entries, k - 1);
      NewPieces(entries, reply, k - 1) + [Piece(BlockFor(chunk, reply(k - 1)), chunk)]
  }

  function EraCount(n: nat): nat
    requires n > 0
  {
    if ERA_COMPRESS_COUNT < n - 1 then ERA_COMPRESS_COUNT else n - 1
  }

  /** Beyond MAX_SUMMARY_BLOCKS the oldest ones become one era, if that summary succeeds. */
  function Compress(ps: seq<Piece>, era: Reply): seq<Piece> {
    if |ps| <= MAX_SUMMARY_BLOCKS || !Usable(era) then ps
    else
      var c := EraCount(|ps|);
      [Piece(Block(true, Counted(BlocksOf(ps[..c])), era.text), Sources(ps[..c]))] + ps[c..]
  }

  /** The same on the blocks alone. */
  function CompressedBlocks(bs: seq<Block>, era: Reply): seq<Block> {
    if |bs| <= MAX_SUMMARY_BLOCKS || !Usable(era) then bs
    else
      var c := EraCount(|bs|);
      [Block(true, Counted(bs[..c]), era.text)] + bs[c..]
  }

  lemma {:induction false} BlocksOfCompress(ps: seq<Piece>, era: Reply)
    ensures BlocksOf(Compress(ps, era)) == CompressedBlocks(BlocksOf(ps), era)
  {
    if |ps| > MAX_SUMMARY_BLOCKS && Usable(era) {
      var c := EraCount(|ps|);
      assert BlocksOf(ps)[..c] == BlocksOf(ps[..c]);
      assert BlocksOf(ps)[c..] == BlocksOf(ps[c..]);
    }
  }

  lemma {:induction false} NewPiecesCover(entries: seq<Entry>, reply: nat -> Reply, k: nat)
    requires Entries(k) <= |entries|
    ensures Covers(NewPieces(entries, reply, k), entries, Entries(k))
  {
    if k > 0 {
      NewPiecesCover(entries, reply, k - 1);
      var chunk := Chunk(entries, k - 1);
      CoverMore(NewPieces(entries, reply, k - 1), entries, Entries(k - 1),
                Piece(BlockFor(chunk, reply(k - 1)), chunk), Entries(k));
    }
  }

  lemma {:induction false} CoverMore(ps: seq<Piece>, log: seq<Entry>, offset: nat, p: Piece, end: nat)
    requires Covers(ps, log, offset) && offset <= end <= |log| && p.source == log[offset..end]
             && p.block.count == |p.source|
    ensures Covers(ps + [p], log, end)
  {
    assert (ps + [p])[..|ps|] == ps;
    assert log[..offset] + log[offset..end] == log[..end];
  }

  lemma {:induction false} CompressKeeps(ps: seq<Piece>, era: Reply)
    requires Counts(ps)
    ensures Counts(Compress(ps, era)) && Sources(Compress(ps, era)) == Sources(ps)
    ensures Counted(BlocksOf(Compress(ps, era))) == Counted(BlocksOf(ps))
  {
    if |ps| > MAX_SUMMARY_BLOCKS && Usable(era) {
      var c := EraCount(|ps|);
      var first := Piece(Block(true, Counted(BlocksOf(ps[..c])), era.text), Sources(ps[..c]));
      CountedIsLength(ps[..c]);
      SourcesAppend(ps[..c], ps[c..]);
      SourcesAppend([first], ps[c..]);
      assert ps[..c] + ps[c..] == ps;
      assert [first][..0] == [] && Sources([first]) == first.source;
      assert Counts([first] + ps[c..]);
    }
    CountedIsLength(ps);
    CountedIsLength(Compress(ps, era));
  }

  /** A log rotation: the stored offset is beyond the end of the log. */
  function StartOffset(offset: nat, log: seq<Entry>): (r: nat)
    ensures r <= |log|
  {
    if offset > |log| then 0 else offset
  }

  /** How many blocks are made of the new entries: none without a full chunk. */
  function Made(entries: seq<Entry>, reply: nat -> Reply): (k: nat)
    ensures Entries(k) <= |entries|
  {
    var k := Leading(Succeeds(reply), Chunks(|entries|));
    assert Entries(k) <= Entries(Chunks(|entries|));
    k
  }

  /** The pieces after new entries were looked at. */
  function Extended(ps: seq<Piece>, entries: seq<Entry>, reply: nat -> Reply, era: Reply): seq<Piece> {
    var k := Made(entries, reply);
    if k == 0 then ps else Compress(ps + NewPieces(entries, reply, k), era)
  }

  /** The pieces and the offset after a run. */
  function RunPieces(ps: seq<Piece>, offset: nat, log: seq<Entry>, reply: nat -> Reply, era: Reply): seq<Piece> {
    Extended(ps, log[StartOffset(offset, log)..], reply, era)
  }

  function RunOffset(offset: nat, log: seq<Entry>, reply: nat -> Reply): nat {
    var start := StartOffset(offset, log);
    if |log[start..]| < BLOCK_SIZE then offset else start + Entries(Made(log[start..], reply))
  }

  lemma {:induction false} AppendPieces(a: seq<Piece>, b: seq<Piece>, log: seq<Entry>, i: nat, n: nat)
    requires Counts(a) && i <= |log| && Covers(b, log[i..], n)
    ensures Counts(a + b) && Sources(a + b) == Sources(a) + log[i..i + n]
  {
    SourcesAppend(a, b);
    assert log[i..][..n] == log[i..i + n];
  }

  /** A run adds to the blocks' sources exactly the next entries, as many as it made blocks for. */
  lemma {:induction false} RunAdds(ps: seq<Piece>, offset: nat, log: seq<Entry>, reply: nat -> Reply, era: Reply)
    requires Counts(ps)
    ensures var i := StartOffset(offset, log); var n := Entries(Made(log[i..], reply));
            && i + n <= |log| && Counts(RunPieces(ps, offset, log, reply, era))
            && Sources(RunPieces(ps, offset, log, reply, era)) == Sources(ps) + log[i..i + n]
  {
    hide Made, Compress, NewPieces, Covers;
    var i := StartOffset(offset, log);
    var k := Made(log[i..], reply);
    if k == 0 {
      assert log[i..i] == [];
      Q.Nothing(Sources(ps));
    } else {
      var fresher := NewPieces(log[i..], reply, k);
      NewPiecesCover(log[i..], reply, k);
      AppendPieces(ps, fresher, log, i, Entries(k));
      CompressKeeps(ps + fresher, era);
    }
  }

  lemma {:induction false} NoChunk(entries: seq<Entry>, reply: nat -> Reply)
    requires |entries| < BLOCK_SIZE
    ensures Made(entries, reply) == 0
  {
    assert Chunks(|entries|) == 0;
  }

  lemma {:induction false} OffsetShape(offset: nat, log: seq<Entry>, reply: nat -> Reply)
    requires offset <= |log|
    ensures RunOffset(offset, log, reply) == offset + Entries(Made(log[offset..], reply))
  {
    if |log[offset..]| < BLOCK_SIZE {
      NoChunk(log[offset..], reply);
    }
  }

  /** As long as the log only grows, each run keeps the blocks covering exactly the entries
      before the stored offset. */
  lemma {:induction false} RunCovers(ps: seq<Piece>, offset: nat, before: seq<Entry>, log: seq<Entry>,
                                     reply: nat -> Reply, era: Reply)
    requires Covers(ps, before, offset) && before <= log
    ensures Covers(RunPieces(ps, offset, log, reply, era), log, RunOffset(offset, log, reply))
  {
    RunAdds(ps, offset, log, reply, era);
    OffsetShape(offset, log, reply);
    var n := Entries(Made(log[offset..], reply));
    assert before[..offset] == log[..offset];
    assert log[..offset] + log[offset..offset + n] == log[..offset + n];
  }

  /** When the log was rotated the offset starts over while the blocks stay: from then on the
      counts add up to the offset exactly if there was nothing stored before. */
  lemma {:induction false} RotationBreaksSum(ps: seq<Piece>, offset: nat, log: seq<Entry>, reply: nat -> Reply,
                                             era: Reply)
    requires Counts(ps) && offset > |log| >= BLOCK_SIZE
    ensures Counted(BlocksOf(RunPieces(ps, offset, log, reply, era))) == RunOffset(offset, log, reply)
            <==> Counted(BlocksOf(ps)) == 0
  {
    RunAdds(ps, offset, log, reply, era);
    CountedIsLength(ps);
    CountedIsLength(RunPieces(ps, offset, log, reply, era));
  }

  // ---- All runs ----

  /** A run's view: the log as it found it, and what its LLM calls came to. */
  datatype Run = Run(log: seq<Entry>, reply: nat -> Reply, era: Reply)

  function LogAfter(runs: seq<Run>, n: nat): seq<Entry>
    requires n <= |runs|
  {
    if n == 0 then [] else runs[n - 1].log
  }

  /** Every run finds the log of each earlier run, with entries appended. */
  predicate LogGrows(runs: seq<Run>) {
    forall i, j | 0 <= i < j < |runs| :: runs[i].log <= runs[j].log
  }

  function OffsetAfter(runs: seq<Run>, n: nat): nat
    requires n <= |runs|
  {
    if n == 0 then 0 else RunOffset(OffsetAfter(runs, n - 1), runs[n - 1].log, runs[n - 1].reply)
  }

  function PiecesAfter(runs: seq<Run>, n: nat): seq<Piece>
    requires n <= |runs|
  {
    if n == 0 then []
    else RunPieces(PiecesAfter(runs, n - 1), OffsetAfter(runs, n - 1), runs[n - 1].log,
                   runs[n - 1].reply, runs[n - 1].era)
  }

  ghost predicate CoveredAfter(runs: seq<Run>, n: nat)
    requires n <= |runs|
  {
    Covers(PiecesAfter(runs, n), LogAfter(runs, n), OffsetAfter(runs, n))
  }

  lemma {:induction false} CoveredStep(runs: seq<Run>, n: nat)
    requires 0 < n <= |runs| && LogAfter(runs, n - 1) <= runs[n - 1].log && CoveredAfter(runs, n - 1)
    ensures CoveredAfter(runs, n)
  {
    var run := runs[n - 1];
    RunCovers(PiecesAfter(runs, n - 1), OffsetAfter(runs, n - 1), LogAfter(runs, n - 1), run.log, run.reply, run.era);
  }

  lemma {:induction false} CoveredAlways(runs: seq<Run>, n: nat)
    requires n <= |runs| && LogGrows(runs)
    ensures CoveredAfter(runs, n)
  {
    if n == 0 {
      assert Sources([]) == [];
    } else {
      CoveredAlways(runs, n - 1);
      CoveredStep(runs, n);
    }
  }

  /** Conservation: from empty files, over any runs on a growing log and any pattern of failed
      summaries and eras, the blocks cover exactly the entries before the offset, so their
      message counts add up to it. */
  lemma {:induction false} Conserved(runs: seq<Run>, n: nat)
    requires n <= |runs| && LogGrows(runs)
    ensures Covers(PiecesAfter(runs, n), LogAfter(runs, n), OffsetAfter(runs, n))
    ensures Counted(BlocksOf(PiecesAfter(runs, n))) == OffsetAfter(runs, n)
  {
    CoveredAlways(runs, n);
    CountedIsLength(PiecesAfter(runs, n));
  }

  // ---- The stored state ----

  function Costs(reply: nat -> Reply, n: nat): real {
    if n == 0 then 0.0 else Costs(reply, n - 1) + reply(n - 1).cost
  }

  /** The cost of the chunks tried: those summarised and the one that failed, if any. */
  function ChunkCosts(reply: nat -> Reply, chunks: nat): real {
    var k := Leading(Succeeds(reply), chunks);
    Costs(reply, if k < chunks then k + 1 else k)
  }

  /** What is reported for new entries: nothing without a block or any cost. The cost of an era
      call counts only if its text was usable. */
  function Reported(stored: nat, entries: seq<Entry>, reply: nat -> Reply, era: Reply): Option<real> {
    var k, cost := Made(entries, reply), ChunkCosts(reply, Chunks(|entries|));
    if k == 0 then (if cost > 0.0 then Some(cost) else None)
    else Some(cost + if stored + k > MAX_SUMMARY_BLOCKS && Usable(era) then era.cost else 0.0)
  }

  /** What a run reports: nothing without a full chunk. */
  function RunUsage(stored: nat, offset: nat, log: seq<Entry>, reply: nat -> Reply, era: Reply): Option<real> {
    var entries := log[StartOffset(offset, log)..];
    if |entries| < BLOCK_SIZE then None else Reported(stored, entries, reply, era)
  }

  /** An era call is made when new blocks come on top of enough stored ones. */
  predicate EraAsked(stored: nat, entries: seq<Entry>, reply: nat -> Reply) {
    var k := Made(entries, reply);
    k > 0 && stored + k > MAX_SUMMARY_BLOCKS
  }

  /** The cost of all calls of a run. */
  function AllCosts(stored: nat, offset: nat, log: seq<Entry>, reply: nat -> Reply, era: Reply): real {
    var entries := log[StartOffset(offset, log)..];
    ChunkCosts(reply, Chunks(|entries|)) + if EraAsked(stored, entries, reply) then era.cost else 0.0
  }

  /** The cost a run reports is that of all its calls exactly unless an era call failed that cost
      something, or a run without a block had a negative cost. */
  lemma {:induction false} CostReportedIff(stored: nat, offset: nat, log: seq<Entry>, reply: nat -> Reply, era: Reply)
    ensures var entries := log[StartOffset(offset, log)..];
            var reported := RunUsage(stored, offset, log, reply, era);
            (if reported.Some? then reported.value else 0.0) == AllCosts(stored, offset, log, reply, era)
            <==> && !(EraAsked(stored, entries, reply) && !Usable(era) && era.cost != 0.0)
                 && !(Made(entries, reply) == 0 && ChunkCosts(reply, Chunks(|entries|)) < 0.0)
  {
    hide Made, Usable, Leading, Succeeds;
    var entries := log[StartOffset(offset, log)..];
    if |entries| < BLOCK_SIZE {
      NoChunk(entries, reply);
      NoCosts(reply);
    }
  }

  function Costing(cost: real): nat -> Reply {
    (i: nat) => Reply("x", cost)
  }

  /** For instance: ten blocks are stored, a new one comes, and the era call returns nothing for its
      cost of 1. Two calls cost 2 together, and the run reports 1. */
  lemma {:induction false} EraCostLost(log: seq<Entry>)
    requires |log| == BLOCK_SIZE
    ensures var reply, era := Costing(1.0), Reply("", 1.0);
            && RunUsage(MAX_SUMMARY_BLOCKS, 0, log, reply, era) == Some(1.0)
            && AllCosts(MAX_SUMMARY_BLOCKS, 0, log, reply, era) == 2.0
  {
    var reply := Costing(1.0);
    assert |reply(0).text| == 1;
    assert log[0..] == log && Chunks(|log|) == 1;
    assert Leading(Succeeds(reply), 0) == 0 && Succeeds(reply)(0) && Leading(Succeeds(reply), 1) == 1;
    assert Costs(reply, 0) == 0.0 && Costs(reply, 1) == 1.0;
  }

  lemma {:induction false} NoCosts(reply: nat -> Reply)
    ensures ChunkCosts(reply, 0) == 0.0
  {
  }

  /** What storing the new blocks beside the old ones leaves. */
  lemma {:induction false} StoredBlocks(ps: seq<Piece>, entries: seq<Entry>, reply: nat -> Reply, k: nat, era: Reply)
    requires Counts(ps) && Entries(k) <= |entries|
    ensures var all := ps + NewPieces(entries, reply, k);
            && BlocksOf(ps) + BlocksOf(NewPieces(entries, reply, k)) == BlocksOf(all)
            && Counts(Compress(all, era)) && BlocksOf(Compress(all, era)) == CompressedBlocks(BlocksOf(all), era)
  {
    hide Compress, CompressedBlocks, NewPieces, Sources;
    var all := ps + NewPieces(entries, reply, k);
    NewPiecesCover(entries, reply, k);
    assert Counts(all);
    CompressKeeps(all, era);
    BlocksOfCompress(all, era);
  }

  /** The chunk loop: summaries until the first one that fails. */
  method SummarizeChunks(entries: seq<Entry>, reply: nat -> Reply)
    returns (fresher: seq<Block>, processed: nat, cost: real)
    ensures var k := Made(entries, reply);
            && fresher == BlocksOf(NewPieces(entries, reply, k)) && processed == Entries(k)
            && cost == ChunkCosts(reply, Chunks(|entries|))
  {
    ghost var ok := Succeeds(reply);
    fresher, processed, cost := [], 0, 0.0;
    for i := 0 to Chunks(|entries|)
      invariant Leading(ok, i) == i && processed == Entries(i) && cost == Costs(reply, i)
      invariant Entries(i) <= |entries| && fresher == BlocksOf(NewPieces(entries, reply, i))
    {
      var chunk := Chunk(entries, i);
      var r := reply(i);
      cost := cost + r.cost;
      assert ok(i) == Usable(r);
      if !Usable(r) {
        LeadingStops(ok, i, Chunks(|entries|));
        return;
      }
      assert BlocksOf(NewPieces(entries, reply, i + 1)) == fresher + [BlockFor(chunk, r)];
      fresher, processed := fresher + [BlockFor(chunk, r)], processed + |chunk|;
    }
  }

  lemma {:induction false} LeadingPrefix(ok: nat -> bool, k: nat, i: nat)
    requires i == Leading(ok, i) && k <= i
    ensures k < i ==> ok(k)
  {
  }

  lemma {:induction false} LeadingStops(ok: nat -> bool, i: nat, n: nat)
    requires i < n && i == Leading(ok, i) && !ok(i)
    ensures Leading(ok, n) == i
  {
    var k := Leading(ok, n);
    assert k <= i;
    LeadingPrefix(ok, k, i);
  }

  /** The era step on the stored blocks; a failed era's cost is not reported. */
  method CompressStored(stored: seq<Block>, era: Reply) returns (merged: seq<Block>, cost: real)
    ensures merged == CompressedBlocks(stored, era)
    ensures cost == if |stored| > MAX_SUMMARY_BLOCKS && Usable(era) then era.cost else 0.0
  {
    if |stored| <= MAX_SUMMARY_BLOCKS || !Usable(era) {
      return stored, 0.0;
    }
    var c := EraCount(|stored|);
    var count := 0;
    for i := 0 to c
      invariant count == Counted(stored[..i])
    {
      assert stored[..i + 1][..i] == stored[..i];
      count := count + stored[i].count;
    }
    merged, cost := [Block(true, count, era.text)] + stored[c..], era.cost;
  }

  class Consolidator {
    var blocks: seq<Block>
    var offset: nat
    ghost var pieces: seq<Piece>

    ghost predicate Valid()
      reads this
    {
      Counts(pieces) && blocks == BlocksOf(pieces)
    }

    constructor ()
      ensures Valid() && pieces == [] && offset == 0
    {
      blocks, offset, pieces := [], 0, [];
    }

    /** The part of a run that has enough new entries. */
    method Process(start: nat, entries: seq<Entry>, reply: nat -> Reply, era: Reply) returns (usage: Option<real>)
      requires Valid()
      modifies this
      ensures Valid() && offset == start + Entries(Made(entries, reply))
      ensures pieces == Extended(old(pieces), entries, reply, era)
      ensures usage == Reported(|old(blocks)|, entries, reply, era)
    {
      hide Compress, CompressedBlocks, NewPieces, ChunkCosts, Made;
      var fresher, processed, cost := SummarizeChunks(entries, reply);
      ghost var k := Made(entries, reply);
      offset := start + processed;
      if fresher == [] {
        assert k == 0;
        return if cost > 0.0 then Some(cost) else None;
      }
      ghost var all := pieces + NewPieces(entries, reply, k);
      StoredBlocks(pieces, entries, reply, k, era);
      var merged, eraCost := CompressStored(blocks + fresher, era);
      blocks, pieces := merged, Compress(all, era);
      usage := Some(cost + eraCost);
    }

    /** _run_block_consolidation */
    method Consolidate(log: seq<Entry>, reply: nat -> Reply, era: Reply) returns (usage: Option<real>)
      requires Valid()
      modifies this
      ensures Valid()
      ensures pieces == RunPieces(old(pieces), old(offset), log, reply, era)
      ensures offset == RunOffset(old(offset), log, reply)
      ensures usage == RunUsage(|old(blocks)|, old(offset), log, reply, era)
    {
      var start := if offset > |log| then 0 else offset;
      var entries := log[start..];
      if |entries| < BLOCK_SIZE {
        NoChunk(entries, reply);
        return None;
      }
      usage := Process(start, entries, reply, era);
    }
  }
}
