/** Greedy packing of review sections into chunks (chunk_sections in ouroboros/review.py). */
module Chunking {
  import Q = Sequences

  const NOTHING := "(No reviewable content found.)"

  datatype Section = Section(path: string, content: string)

  /** estimate_tokens */
  function Tokens(s: string): (n: nat)
    ensures n >= 1 && |s| <= 4 * n
  {
    if (|s| + 3) / 4 < 1 then 1 else (|s| + 3) / 4
  }

  function Cap(requested: int): (cap: nat)
    ensures 20000 <= cap <= 120000
  {
    if requested > 120000 then 120000 else if requested < 20000 then 20000 else requested
  }

  /** The part a section becomes. */
  function PartText(s: Section): string {
    "\n## FILE: " + s.path + "\n" + s.content + "\n"
  }

  function Size(s: Section): (n: nat)
    ensures n >= 1
  {
    Tokens(PartText(s))
  }

  /** The sections that have content. */
  function Parts(sections: seq<Section>): seq<Section> {
    if sections == [] then []
    else
      var last := sections[|sections| - 1];
      if last.content == "" then Parts(sections[..|sections| - 1]) else Parts(sections[..|sections| - 1]) + [last]
  }

  function Weight(parts: seq<Section>): nat {
    if parts == [] then 0 else Weight(parts[..|parts| - 1]) + Size(parts[|parts| - 1])
  }

  function Flatten(groups: seq<seq<Section>>): seq<Section> {
    if groups == [] then [] else Flatten(groups[..|groups| - 1]) + groups[|groups| - 1]
  }

  /** The text of a chunk. */
  function ChunkText(parts: seq<Section>): string {
    if parts == [] then ""
    else if |parts| == 1 then PartText(parts[0])
    else PartText(parts[0]) + "\n" + ChunkText(parts[1..])
  }

  /** A group is within the cap unless it is a single part. */
  predicate Fits(g: seq<Section>, cap: nat) {
    g != [] && (Weight(g) <= cap || |g| == 1)
  }

  /** Group i starts with a part that did not fit into the one before. */
  predicate StartsLate(groups: seq<seq<Section>>, i: nat, cap: nat)
    requires 1 <= i < |groups|
  {
    groups[i] != [] && Weight(groups[i - 1]) + Size(groups[i][0]) > cap
  }

  predicate Packed(groups: seq<seq<Section>>, cap: nat) {
    && (forall i | 0 <= i < |groups| :: Fits(groups[i], cap))
    && forall i | 1 <= i < |groups| :: StartsLate(groups, i, cap)
  }

  // ---- Small steps ----

  lemma {:induction false} WeightStep(parts: seq<Section>, part: Section)
    ensures Weight(parts + [part]) == Weight(parts) + Size(part)
  {
    assert (parts + [part])[..|parts|] == parts;
  }

  lemma {:induction false} WeightOne(part: Section)
    ensures Weight([part]) == Size(part)
  {
    WeightStep([], part);
    assert [] + [part] == [part];
  }

  lemma {:induction false} FlattenStep(groups: seq<seq<Section>>, g: seq<Section>)
    ensures Flatten(groups + [g]) == Flatten(groups) + g
  {
    assert (groups + [g])[..|groups|] == groups;
  }

  lemma {:induction false} PartsStep(sections: seq<Section>, i: nat)
    requires i < |sections|
    ensures Parts(sections[..i + 1])
         == if sections[i].content == "" then Parts(sections[..i]) else Parts(sections[..i]) + [sections[i]]
  {
    assert sections[..i + 1][..i] == sections[..i];
  }

  lemma {:induction false} PackedMore(groups: seq<seq<Section>>, g: seq<Section>, cap: nat)
    requires Packed(groups, cap) && Fits(g, cap)
    requires groups != [] ==> Weight(groups[|groups| - 1]) + Size(g[0]) > cap
    ensures Packed(groups + [g], cap)
  {
    var after := groups + [g];
    forall i | 1 <= i < |after|
      ensures StartsLate(after, i, cap)
    {
      if i < |groups| {
        assert StartsLate(groups, i, cap);
      }
    }
  }

  lemma {:induction false} PackedPrefix(groups: seq<seq<Section>>, cap: nat, n: nat)
    requires Packed(groups, cap) && n <= |groups|
    ensures Packed(groups[..n], cap)
  {
    forall i | 1 <= i < n
      ensures StartsLate(groups[..n], i, cap)
    {
      assert StartsLate(groups, i, cap);
    }
  }

  lemma {:induction false} PackedRest(groups: seq<seq<Section>>, cap: nat)
    requires Packed(groups, cap) && groups != []
    ensures Packed(groups[1..], cap)
  {
    forall i | 1 <= i < |groups| - 1
      ensures StartsLate(groups[1..], i, cap)
    {
      assert StartsLate(groups, i + 1, cap);
    }
  }

  // ---- chunk_sections ----

  /** The groups so far, with the one being filled. */
  function WithOpen(groups: seq<seq<Section>>, current: seq<Section>): seq<seq<Section>> {
    if current == [] then groups else groups + [current]
  }

  /** One more part that fits into the group being filled, or starts the first one. */
  lemma {:induction false} Extend(groups: seq<seq<Section>>, current: seq<Section>, part: Section, cap: nat)
    requires Packed(WithOpen(groups, current), cap)
    requires if current == [] then groups == [] else Weight(current) + Size(part) <= cap
    ensures Packed(WithOpen(groups, current + [part]), cap)
  {
    WeightStep(current, part);
    if current != [] {
      var all := WithOpen(groups, current);
      PackedPrefix(all, cap, |groups|);
      assert all[..|groups|] == groups;
      if groups != [] {
        assert StartsLate(all, |groups|, cap);
      }
    }
    PackedMore(groups, current + [part], cap);
  }

  predicate Texts(chunks: seq<string>, groups: seq<seq<Section>>) {
    |chunks| == |groups| && forall i | 0 <= i < |groups| :: chunks[i] == ChunkText(groups[i])
  }

  lemma {:induction false} TextsStep(chunks: seq<string>, groups: seq<seq<Section>>, g: seq<Section>)
    requires Texts(chunks, groups)
    ensures Texts(chunks + [ChunkText(g)], groups + [g])
  {
  }

  /** What the loop knows after the parts seen so far. */
  predicate Packing(groups: seq<seq<Section>>, current: seq<Section>, parts: seq<Section>, cap: nat) {
    (current == [] ==> groups == []) && Packed(WithOpen(groups, current), cap) && Flatten(groups) + current == parts
  }

  lemma {:induction false} PackingStep(groups: seq<seq<Section>>, current: seq<Section>, parts: seq<Section>,
                                       part: Section, cap: nat)
    requires Packing(groups, current, parts, cap)
    ensures if current != [] && Weight(current) + Size(part) > cap
            then Packing(groups + [current], [part], parts + [part], cap)
            else Packing(groups, current + [part], parts + [part], cap)
  {
    if current != [] && Weight(current) + Size(part) > cap {
      FlattenStep(groups, current);
      WeightOne(part);
      PackedMore(groups + [current], [part], cap);
    } else {
      Extend(groups, current, part, cap);
      assert Flatten(groups) + (current + [part]) == parts + [part];
    }
  }

  lemma {:induction false} PackingStart(cap: nat)
    ensures Packing([], [], [], cap) && Weight([]) == 0
  {
  }

  lemma {:induction false} PackingEnd(groups: seq<seq<Section>>, current: seq<Section>, parts: seq<Section>, cap: nat)
    requires Packing(groups, current, parts, cap)
    ensures var all := WithOpen(groups, current);
            Packed(all, cap) && Flatten(all) == parts && (current == [] ==> groups == [])
  {
    FlattenStep(groups, current);
    Q.Nothing(Flatten(groups));
  }

  /** The chunks are the texts of a greedy packing of all parts, in order. */
  method ChunkSections(sections: seq<Section>, requested: int) returns (chunks: seq<string>, groups: seq<seq<Section>>)
    ensures Packed(groups, Cap(requested)) && Flatten(groups) == Parts(sections)
    ensures if groups == [] then chunks == [NOTHING] else Texts(chunks, groups)
  {
    PackingStart(Cap(requested));
    hide PartText, ChunkText, Packing, Weight;
    var cap := Cap(requested);
    var current: seq<Section>, tokens := [], 0;
    chunks, groups := [], [];
    for i := 0 to |sections|
      invariant tokens == Weight(current)
      invariant Packing(groups, current, Parts(sections[..i]), cap)
      invariant Texts(chunks, groups)
    {
      PartsStep(sections, i);
      if sections[i].content != "" {
        var part := sections[i];
        var size := Tokens(PartText(part));
        PackingStep(groups, current, Parts(sections[..i]), part, cap);
        if current != [] && tokens + size > cap {
          TextsStep(chunks, groups, current);
          chunks, groups := chunks + [ChunkText(current)], groups + [current];
          current, tokens := [], 0;
        }
        WeightStep(current, part);
        Q.Nothing([part]);
        current, tokens := current + [part], tokens + size;
      }
    }
    Q.TakeAll(sections);
    PackingEnd(groups, current, Parts(sections), cap);
    if current != [] {
      TextsStep(chunks, groups, current);
      chunks, groups := chunks + [ChunkText(current)], groups + [current];
    }
    if chunks == [] {
      chunks := [NOTHING];
    }
  }

  // ---- What a packing is good for ----

  function Total(groups: seq<seq<Section>>): nat {
    if groups == [] then 0 else Total(groups[..|groups| - 1]) + Weight(groups[|groups| - 1])
  }

  lemma {:induction false} WeightAppend(a: seq<Section>, b: seq<Section>)
    ensures Weight(a + b) == Weight(a) + Weight(b)
  {
    if b == [] {
      assert a + b == a;
    } else {
      WeightAppend(a, b[..|b| - 1]);
      assert (a + b)[..|a + b| - 1] == a + b[..|b| - 1];
    }
  }

  lemma {:induction false} WeightHead(g: seq<Section>)
    requires g != []
    ensures Weight(g) == Size(g[0]) + Weight(g[1..])
  {
    assert g == [g[0]] + g[1..];
    WeightAppend([g[0]], g[1..]);
    WeightOne(g[0]);
  }

  lemma {:induction false} WeightPositive(parts: seq<Section>)
    ensures Weight(parts) >= |parts|
  {
    if parts != [] {
      WeightPositive(parts[..|parts| - 1]);
    }
  }

  lemma {:induction false} TotalIsWeight(groups: seq<seq<Section>>)
    ensures Total(groups) == Weight(Flatten(groups))
  {
    if groups != [] {
      TotalIsWeight(groups[..|groups| - 1]);
      WeightAppend(Flatten(groups[..|groups| - 1]), groups[|groups| - 1]);
    }
  }

  /** Two neighbours together exceed the cap. */
  lemma {:induction false} NeighboursExceed(groups: seq<seq<Section>>, cap: nat, i: nat)
    requires Packed(groups, cap) && 1 <= i < |groups|
    ensures Weight(groups[i - 1]) + Weight(groups[i]) > cap
  {
    assert StartsLate(groups, i, cap);
    WeightHead(groups[i]);
  }

  lemma {:induction false} OneMoreCap(n: nat, cap: nat, before: int, after: int)
    requires n * cap + before <= after
    ensures (n + 1) * cap + before <= after + cap
  {
  }

  lemma {:induction false} TwiceTotal(groups: seq<seq<Section>>, cap: nat)
    requires Packed(groups, cap) && groups != []
    ensures (|groups| - 1) * cap + Weight(groups[|groups| - 1]) <= 2 * Total(groups)
  {
    var n := |groups| - 1;
    var last := Weight(groups[n]);
    if n == 0 {
      assert groups[..0] == [] && Total([]) == 0;
    } else {
      var init := groups[..n];
      PackedPrefix(groups, cap, n);
      TwiceTotal(init, cap);
      NeighboursExceed(groups, cap, n);
      var previous := Weight(init[n - 1]);
      assert previous + last > cap;
      OneMoreCap(n - 1, cap, previous, 2 * Total(init));
    }
  }

  /** The number of chunks is below 2 * total / cap + 1. */
  lemma {:induction false} FewChunks(groups: seq<seq<Section>>, cap: nat)
    requires Packed(groups, cap) && groups != []
    ensures (|groups| - 1) * cap < 2 * Weight(Flatten(groups))
  {
    TwiceTotal(groups, cap);
    TotalIsWeight(groups);
    WeightPositive(groups[|groups| - 1]);
    assert Fits(groups[|groups| - 1], cap);
  }

  // ---- The packing is determined ----

  lemma {:induction false} FlattenAppend(a: seq<seq<Section>>, b: seq<seq<Section>>)
    ensures Flatten(a + b) == Flatten(a) + Flatten(b)
  {
    if b == [] {
      Q.Nothing(a);
      Q.Nothing(Flatten(a));
    } else {
      var n := |b| - 1;
      FlattenAppend(a, b[..n]);
      Q.AppendLast(a, b);
      Q.Associate(Flatten(a), Flatten(b[..n]), b[n]);
    }
  }

  lemma {:induction false} FlattenHead(groups: seq<seq<Section>>)
    requires groups != []
    ensures Flatten(groups) == groups[0] + Flatten(groups[1..])
  {
    Q.SplitFirst(groups);
    FlattenAppend([groups[0]], groups[1..]);
    FlattenStep([], groups[0]);
    Q.Nothing([groups[0]]);
    Q.Nothing(groups[0]);
  }

  /** A group with the part that did not fit into it exceeds the cap, and so does whatever
      starts with both. */
  lemma {:induction false} OverfullPrefix(g: seq<Section>, closed: seq<Section>, part: Section, cap: nat)
    requires closed != [] && Weight(closed) + Size(part) > cap
    requires |closed| < |g| && g[..|closed|] == closed && g[|closed|] == part
    ensures !Fits(g, cap)
  {
    var n := |closed|;
    assert g == g[..n + 1] + g[n + 1..] && g[..n + 1] == closed + [part];
    WeightAppend(g[..n + 1], g[n + 1..]);
    WeightStep(closed, part);
  }

  /** The first group of a packing cannot be shorter than that of another one. */
  lemma {:induction false} FirstGroupLongest(a: seq<seq<Section>>, b: seq<seq<Section>>, cap: nat)
    requires Packed(a, cap) && Packed(b, cap) && a != [] && b != [] && Flatten(a) == Flatten(b)
    ensures |a[0]| >= |b[0]|
  {
    FlattenHead(a);
    FlattenHead(b);
    var all, n := Flatten(a), |a[0]|;
    assert Fits(a[0], cap) && Fits(b[0], cap);
    if n < |b[0]| {
      assert all[..n] == a[0] && b[0][..n] == all[..n] && all[n] == b[0][n];
      if |a| > 1 {
        assert StartsLate(a, 1, cap);
        FlattenHead(a[1..]);
        assert all[n] == a[1][0];
        OverfullPrefix(b[0], a[0], a[1][0], cap);
      }
    }
  }

  lemma {:induction false} SameFirst(a: seq<seq<Section>>, b: seq<seq<Section>>)
    requires a != [] && b != [] && Flatten(a) == Flatten(b) && |a[0]| == |b[0]|
    ensures a[0] == b[0] && Flatten(a[1..]) == Flatten(b[1..])
  {
    FlattenHead(a);
    FlattenHead(b);
    var all, n := Flatten(a), |a[0]|;
    assert all[..n] == a[0] && all[..n] == b[0] && all[n..] == Flatten(a[1..]) && all[n..] == Flatten(b[1..]);
  }

  lemma {:induction false} EmptyFlatten(groups: seq<seq<Section>>, cap: nat)
    requires Packed(groups, cap) && Flatten(groups) == []
    ensures groups == []
  {
    if groups != [] {
      FlattenHead(groups);
    }
  }

  /** There is only one packing of given parts. */
  lemma {:induction false} PackingIsUnique(a: seq<seq<Section>>, b: seq<seq<Section>>, cap: nat)
    requires Packed(a, cap) && Packed(b, cap) && Flatten(a) == Flatten(b)
    ensures a == b
  {
    if a == [] {
      EmptyFlatten(b, cap);
    } else if b == [] {
      EmptyFlatten(a, cap);
    } else {
      FirstGroupLongest(a, b, cap);
      FirstGroupLongest(b, a, cap);
      SameFirst(a, b);
      PackedRest(a, cap);
      PackedRest(b, cap);
      PackingIsUnique(a[1..], b[1..], cap);
      assert a == [a[0]] + a[1..] && b == [b[0]] + b[1..];
    }
  }

  // ---- The chunk as sent ----

  lemma {:induction false} ChunkLength(parts: seq<Section>)
    requires parts != []
    ensures |ChunkText(parts)| <= 4 * Weight(parts) + |parts| - 1
  {
    WeightHead(parts);
    if |parts| > 1 {
      ChunkLength(parts[1..]);
    }
  }

  /** The cap is on the sum of the parts' estimates. The line breaks that join them are not
      counted: a chunk's own estimate can exceed that sum, by at most a quarter of its parts. */
  lemma {:induction false} ChunkTokens(parts: seq<Section>)
    requires parts != []
    ensures Tokens(ChunkText(parts)) <= Weight(parts) + (|parts| + 2) / 4
  {
    ChunkLength(parts);
    WeightPositive(parts);
  }
}
