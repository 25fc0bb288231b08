/** Sealing and compaction together. run_llm_loop compacts before it seals, so a compaction
    meets the message sealed in the round before as a block list, and a warning at the start of
    its text no longer protects its round. */
module SealedCompaction {
  import opened Options
  import opened Transcript
  import opened Rounds
  import opened Compaction
  import opened Sealing
  import Q = Sequences
  import T = Text

  /** Compaction picks the same rounds in both transcripts. */
  predicate SameChoice(a: seq<Message>, b: seq<Message>, keep: int) {
    |RoundsOf(a)| == |RoundsOf(b)|
    && forall j | 0 <= j < |RoundsOf(a)| :: Compactable(RoundsOf(a), keep, j) == Compactable(RoundsOf(b), keep, j)
  }

  /** One more round after sealing, what a compaction sees and what it would see without the seal. */
  ghost predicate SealSafe(keep: int) {
    forall ms, next | Paired(ms) && IsRound(next) && Paired(next) ::
      SameChoice(Sealed(ms, KEEP_ACTIVE, MIN_PREFIX_TOKENS) + next, Unsealed(ms) + next, keep)
  }

  // ---- Where the seal is ----

  lemma {:induction false} CallThenResult(ms: seq<Message>, i: nat)
    requires Paired(ms) && i < |ms| && Opens(ms[i])
    ensures i + 1 < |ms| && ms[i + 1].Tool?
  {
    if Opens(ms[0]) {
      var n := |ms[0].calls|;
      forall k | 1 <= k < 1 + n
        ensures ms[k].Tool?
      {
        assert ms[1..1 + n][k - 1].Tool?;
      }
      if i > 0 {
        CallThenResult(ms[1 + n..], i - 1 - n);
      }
    } else {
      CallThenResult(ms[1..], i - 1);
    }
  }

  /** Every round has a tool result, so there are no more rounds than results. */
  lemma {:induction false} NoMoreRoundsThanResults(ms: seq<Message>, i: nat)
    requires Paired(ms) && i <= |ms|
    ensures |StartsFrom(ms, i)| <= ToolsFrom(ms, i)
    decreases |ms| - i
  {
    if i < |ms| {
      NoMoreRoundsThanResults(ms, i + 1);
      if Opens(ms[i]) {
        CallThenResult(ms, i);
        NoMoreRoundsThanResults(ms, i + 2);
      }
    }
  }

  lemma {:induction false} StartsBySkeleton(a: seq<Message>, b: seq<Message>, i: nat)
    requires |a| == |b| && i <= |a| && forall k | 0 <= k < |a| :: SameSkeleton(a[k], b[k])
    ensures StartsFrom(a, i) == StartsFrom(b, i)
    decreases |a| - i
  {
    if i < |a| {
      StartsBySkeleton(a, b, i + 1);
      assert SameSkeleton(a[i], b[i]);
    }
  }

  lemma {:induction false} StartsAppend(a: seq<Message>, b: seq<Message>, i: nat)
    requires i <= |a|
    ensures |StartsFrom(a + b, i)| == |StartsFrom(a, i)| + |StartsFrom(b, 0)|
    decreases |a| - i
  {
    if i < |a| {
      StartsAppend(a, b, i + 1);
    } else {
      StartsShift(a, b, 0);
    }
  }

  lemma {:induction false} StartsShift(a: seq<Message>, b: seq<Message>, i: nat)
    requires i <= |b|
    ensures |StartsFrom(a + b, |a| + i)| == |StartsFrom(b, i)|
    decreases |b| - i
  {
    if i < |b| {
      StartsShift(a, b, i + 1);
    }
  }

  /** All but the last |StartsFrom(ms, i)| starts lie before i. */
  lemma {:induction false} StartsBefore(ms: seq<Message>, from: nat, i: nat, k: nat)
    requires from <= i <= |ms| && k + |StartsFrom(ms, i)| < |StartsFrom(ms, from)|
    ensures StartsFrom(ms, from)[k] < i
    decreases i - from
  {
    if from < i {
      if Opens(ms[from]) {
        if k > 0 {
          StartsBefore(ms, from + 1, i, k - 1);
        }
      } else {
        StartsBefore(ms, from + 1, i, k);
      }
    }
  }

  lemma {:induction false} RoundCount(ms: seq<Message>)
    ensures |RoundsOf(ms)| == |StartsFrom(ms, 0)|
  {
    StartsFit(ms, 0);
    Q.TakeAll(ms);
  }

  lemma {:induction false} OneStart(next: seq<Message>)
    requires IsRound(next)
    ensures |StartsFrom(next, 0)| == 1
  {
    OneRound(next);
    RoundCount(next);
  }

  lemma {:induction false} UnsealedSkeleton(ms: seq<Message>)
    ensures |Unsealed(ms)| == |ms| && forall k | 0 <= k < |ms| :: SameSkeleton(ms[k], Unsealed(ms)[k])
  {
  }

  /** At most six rounds start behind the seal: five results follow it in its own transcript,
      and one round was added. */
  lemma {:induction false} SealIsRecent(ms: seq<Message>, next: seq<Message>, c: nat)
    requires Paired(ms) && IsRound(next) && Boundary(ms, KEEP_ACTIVE, MIN_PREFIX_TOKENS) == Some(c)
    ensures |StartsFrom(Unsealed(ms) + next, c + 1)| <= KEEP_ACTIVE + 1
  {
    hide Boundary, Unsealed, Paired, IsRound, StartsFrom, ToolsFrom, SameSkeleton;
    KeepBehind(ms, KEEP_ACTIVE, MIN_PREFIX_TOKENS);
    NoMoreRoundsThanResults(ms, c + 1);
    UnsealedSkeleton(ms);
    StartsBySkeleton(ms, Unsealed(ms), c + 1);
    StartsAppend(Unsealed(ms), next, c + 1);
    OneStart(next);
  }

  lemma {:induction false} EqualBefore(a: seq<Message>, b: seq<Message>, c: nat, j: nat)
    requires |a| == |b| && c < |a| && a[..c] == b[..c] && StartsFrom(a, 0) == StartsFrom(b, 0)
    requires j + |StartsFrom(a, c + 1)| + 1 < |StartsFrom(a, 0)|
    requires !Opens(a[c])
    ensures |RoundsOf(a)| == |StartsFrom(a, 0)| == |RoundsOf(b)| && RoundsOf(a)[j] == RoundsOf(b)[j]
  {
    var st := StartsFrom(a, 0);
    StartsFit(a, 0);
    StartsFit(b, 0);
    assert a[0..] == a && b[0..] == b;
    StartsBefore(a, 0, c + 1, j + 1);
    assert FitsAt(a, st, RoundsOf(a), j) && FitsAt(b, st, RoundsOf(b), j);
    assert a[st[j]..st[j + 1]] == a[..c][st[j]..st[j + 1]];
    assert b[st[j]..st[j + 1]] == b[..c][st[j]..st[j + 1]];
  }

  lemma {:induction false} SealedPrefix(ms: seq<Message>, next: seq<Message>, c: nat)
    requires Boundary(ms, KEEP_ACTIVE, MIN_PREFIX_TOKENS) == Some(c)
    ensures var a, b := Sealed(ms, KEEP_ACTIVE, MIN_PREFIX_TOKENS) + next, Unsealed(ms) + next;
            && |a| == |b| && c < |a| && b[..c] == a[..c] && !Opens(b[c])
            && StartsFrom(b, 0) == StartsFrom(a, 0)
  {
    hide StartsFrom, PlainText, TextLength, ToolPlaces;
    var a, b := Sealed(ms, KEEP_ACTIVE, MIN_PREFIX_TOKENS) + next, Unsealed(ms) + next;
    forall i | 0 <= i < |b|
      ensures SameSkeleton(b[i], a[i])
    {
      if i < |ms| {
        SealKeepsText(ms, KEEP_ACTIVE, MIN_PREFIX_TOKENS, i);
      }
    }
    StartsBySkeleton(b, a, 0);
  }

  /** A round that ends before the seal is the same in both transcripts. */
  lemma {:induction false} OldRoundsSame(ms: seq<Message>, next: seq<Message>, c: nat, j: nat)
    requires Paired(ms) && IsRound(next) && Boundary(ms, KEEP_ACTIVE, MIN_PREFIX_TOKENS) == Some(c)
    ensures var a, b := Sealed(ms, KEEP_ACTIVE, MIN_PREFIX_TOKENS) + next, Unsealed(ms) + next;
            |RoundsOf(a)| == |RoundsOf(b)| && (j + KEEP_ACTIVE + 2 < |RoundsOf(a)| ==> RoundsOf(a)[j] == RoundsOf(b)[j])
  {
    hide Sealed, Unsealed, Boundary, RoundsOf, Paired;
    var a, b := Sealed(ms, KEEP_ACTIVE, MIN_PREFIX_TOKENS) + next, Unsealed(ms) + next;
    SealedPrefix(ms, next, c);
    SealIsRecent(ms, next, c);
    RoundCount(a);
    RoundCount(b);
    if j + KEEP_ACTIVE + 2 < |RoundsOf(a)| {
      EqualBefore(b, a, c, j);
    }
  }

  lemma {:induction false} SafeFromSeven(ms: seq<Message>, next: seq<Message>, keep: int)
    requires Paired(ms) && IsRound(next) && keep >= KEEP_ACTIVE + 2
    ensures SameChoice(Sealed(ms, KEEP_ACTIVE, MIN_PREFIX_TOKENS) + next, Unsealed(ms) + next, keep)
  {
    var boundary := Boundary(ms, KEEP_ACTIVE, MIN_PREFIX_TOKENS);
    if boundary.Some? {
      SafeBefore(ms, next, keep, boundary.value);
    }
  }

  lemma {:induction false} SafeBefore(ms: seq<Message>, next: seq<Message>, keep: int, c: nat)
    requires Paired(ms) && IsRound(next) && keep >= KEEP_ACTIVE + 2
             && Boundary(ms, KEEP_ACTIVE, MIN_PREFIX_TOKENS) == Some(c)
    ensures SameChoice(Sealed(ms, KEEP_ACTIVE, MIN_PREFIX_TOKENS) + next, Unsealed(ms) + next, keep)
  {
    hide Sealed, Unsealed, Boundary, RoundsOf, Protected, Paired;
    var a, b := Sealed(ms, KEEP_ACTIVE, MIN_PREFIX_TOKENS) + next, Unsealed(ms) + next;
    OldRoundsSame(ms, next, c, 0);
    forall j | 0 <= j < |RoundsOf(a)|
      ensures Compactable(RoundsOf(a), keep, j) == Compactable(RoundsOf(b), keep, j)
    {
      OldRoundsSame(ms, next, c, j);
    }
  }

  // ---- Below seven ----

  const SEARCH := Call("c", "web_search", "{}")

  function Exchange(c: Content): seq<Message> {
    [Assistant(Text(""), [SEARCH]), Tool("c", c)]
  }

  function Chatter(k: nat): seq<Message> {
    if k == 0 then [] else Exchange(Text("ok")) + Chatter(k - 1)
  }

  lemma {:induction false} ExchangeFacts(c: Content)
    ensures Paired(Exchange(c)) && IsRound(Exchange(c)) && RoundsOf(Exchange(c)) == [Exchange(c)]
    ensures Protected(Exchange(c)) == T.At(Printed(c), WARNING, 0)
  {
    var x := Exchange(c);
    assert x[1..2] == [x[1]] && x[2..] == [];
    OneRound(x);
    assert !ProtectedAt(x, 0);
    assert LookBack(x, 1, "c") == NameIn([SEARCH], "c") == "web_search";
    assert ProtectedAt(x, 1) == T.At(Printed(c), WARNING, 0);
  }

  lemma {:induction false} ChatterRounds(k: nat)
    ensures Paired(Chatter(k)) && |RoundsOf(Chatter(k))| == k && (k > 0 ==> Opens(Chatter(k)[0]))
  {
    if k == 0 {
      assert RoundsOf([]) == [];
    } else {
      ChatterRounds(k - 1);
      ExchangeFacts(Text("ok"));
      PairedAppend(Exchange(Text("ok")), Chatter(k - 1));
      Concatenate(Exchange(Text("ok")), Chatter(k - 1));
    }
  }

  lemma {:induction false} ChatterPlaces(k: nat)
    ensures |ToolPlaces(Chatter(k))| == k
  {
    if k > 0 {
      ChatterPlaces(k - 1);
      PlacesAppend(Exchange(Text("ok")), Chatter(k - 1));
      ExchangePlaces(Text("ok"));
    }
  }

  lemma {:induction false} ChatterPlain(k: nat)
    ensures forall i | 0 <= i < |Chatter(k)| :: Plain(Chatter(k)[i]) == Chatter(k)[i]
  {
    if k > 0 {
      ChatterPlain(k - 1);
    }
  }

  lemma {:induction false} ExchangePlaces(c: Content)
    ensures ToolPlaces(Exchange(c)) == [1]
  {
    var x := Exchange(c);
    assert x[..1] == [x[0]] && x[..1][..0] == [];
    assert ToolPlaces([]) == [] && ToolPlaces(x[..1]) == [];
  }

  lemma {:induction false} PlacesAppend(a: seq<Message>, b: seq<Message>)
    ensures |ToolPlaces(a + b)| == |ToolPlaces(a)| + |ToolPlaces(b)|
  {
    if b == [] {
      assert a + b == a;
    } else {
      PlacesAppend(a, b[..|b| - 1]);
      assert (a + b)[..|a + b| - 1] == a + b[..|b| - 1];
    }
  }

  /** A long warning and five more exchanges: the warning is what gets sealed. */
  function Warned(text: string): seq<Message> {
    Exchange(Text(text)) + Chatter(KEEP_ACTIVE)
  }

  lemma {:induction false} WarnedCandidate(text: string)
    ensures Candidate(Warned(text), KEEP_ACTIVE) == Some(1)
  {
    var x := Exchange(Text(text));
    ChatterPlaces(KEEP_ACTIVE);
    PlacesAppend(x, Chatter(KEEP_ACTIVE));
    ExchangePlaces(Text(text));
    PlacesGrow(x, Chatter(KEEP_ACTIVE));
    assert ToolPlaces(Warned(text))[0] == ToolPlaces(x)[0];
  }

  lemma {:induction false} WarnedBoundary(text: string)
    requires |text| >= 4 * MIN_PREFIX_TOKENS
    ensures Boundary(Warned(text), KEEP_ACTIVE, MIN_PREFIX_TOKENS) == Some(1)
  {
    var x := Exchange(Text(text));
    WarnedCandidate(text);
    assert Warned(text)[..2] == x && x[..1] == [x[0]] && x[..1][..0] == [];
    assert TextLength([]) == 0 && TextLength(x[..1]) == 0 && TextLength(x) == |text|;
  }

  lemma {:induction false} WarnedPlain(text: string)
    ensures Paired(Warned(text)) && Unsealed(Warned(text)) == Warned(text)
  {
    ChatterRounds(KEEP_ACTIVE);
    ChatterPlain(KEEP_ACTIVE);
    ExchangeFacts(Text(text));
    PairedAppend(Exchange(Text(text)), Chatter(KEEP_ACTIVE));
  }

  lemma {:induction false} WarnedSealed(text: string)
    requires |text| >= 4 * MIN_PREFIX_TOKENS
    ensures Sealed(Warned(text), KEEP_ACTIVE, MIN_PREFIX_TOKENS)
            == Exchange(Blocks([TextBlock(text, true)])) + Chatter(KEEP_ACTIVE)
  {
    WarnedBoundary(text);
    WarnedPlain(text);
    SealSecond(text, Chatter(KEEP_ACTIVE));
  }

  lemma {:induction false} SealSecond(text: string, more: seq<Message>)
    ensures var ms := Exchange(Text(text)) + more;
            ms[1 := SealOne(ms[1])] == Exchange(Blocks([TextBlock(text, true)])) + more
  {
  }

  lemma {:induction false} FirstOfSeven(c: Content, keep: int)
    requires 1 <= keep <= KEEP_ACTIVE + 1
    ensures var rounds := RoundsOf(Exchange(c) + Chatter(KEEP_ACTIVE) + Exchange(Text("ok")));
            |rounds| == KEEP_ACTIVE + 2 && Compactable(rounds, keep, 0) == !T.At(Printed(c), WARNING, 0)
  {
    var x, more, last := Exchange(c), Chatter(KEEP_ACTIVE), Exchange(Text("ok"));
    ExchangeFacts(c);
    ExchangeFacts(Text("ok"));
    ChatterRounds(KEEP_ACTIVE);
    Concatenate(x, more);
    Concatenate(x + more, last);
  }

  lemma {:induction false} OtherStart(s: string, prefix: string)
    requires s != "" && prefix != "" && s[0] != prefix[0]
    ensures !T.At(s, prefix, 0)
  {
    if |prefix| <= |s| {
      assert s[0..|prefix|][0] == s[0];
    }
  }

  lemma {:induction false} SealedPrintsBracket(text: string)
    ensures !T.At(Printed(Blocks([TextBlock(text, true)])), WARNING, 0)
  {
    var printed := Printed(Blocks([TextBlock(text, true)]));
    assert printed[0] == '[' && WARNING[0] == '\U{26A0}';
    OtherStart(printed, WARNING);
  }

  lemma {:induction false} UnsafeBelowSeven(keep: int, text: string)
    requires 1 <= keep <= KEEP_ACTIVE + 1 && |text| >= 4 * MIN_PREFIX_TOKENS && T.At(text, WARNING, 0)
    ensures !SameChoice(Sealed(Warned(text), KEEP_ACTIVE, MIN_PREFIX_TOKENS) + Exchange(Text("ok")),
                        Unsealed(Warned(text)) + Exchange(Text("ok")), keep)
  {
    hide Sealed, Unsealed, Chatter, Compactable, RoundsOf;
    WarnedSealed(text);
    WarnedPlain(text);
    FirstOfSeven(Text(text), keep);
    FirstOfSeven(Blocks([TextBlock(text, true)]), keep);
    SealedPrintsBracket(text);
  }

  function LongWarning(): (text: string)
    ensures |text| >= 4 * MIN_PREFIX_TOKENS && T.At(text, WARNING, 0)
  {
    var text := WARNING + seq(4 * MIN_PREFIX_TOKENS, i => 'x');
    assert text[0..|WARNING|] == WARNING;
    text
  }

  /** The seal leaves compaction's choice of rounds alone exactly when at least seven recent
      rounds are kept. With fewer (the compact_context tool asks for 6 unless told otherwise, and
      allows 2) a round protected by a warning can lose its protection and be summarised. */
  lemma {:induction false} SealSafeIff(keep: int)
    requires keep >= 1
    ensures SealSafe(keep) <==> keep >= KEEP_ACTIVE + 2
  {
    if keep >= KEEP_ACTIVE + 2 {
      forall ms, next | Paired(ms) && IsRound(next) && Paired(next)
        ensures SameChoice(Sealed(ms, KEEP_ACTIVE, MIN_PREFIX_TOKENS) + next, Unsealed(ms) + next, keep)
      {
        SafeFromSeven(ms, next, keep);
      }
    } else {
      var text := LongWarning();
      UnsafeBelowSeven(keep, text);
      WarnedPlain(text);
      ExchangeFacts(Text("ok"));
    }
  }
}
