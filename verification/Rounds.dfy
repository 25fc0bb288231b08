/** How a transcript falls into tool rounds: what comes before the first one, and then one
    stretch of messages per assistant message with tool calls. */
module Rounds {
  import Q = Sequences
  import opened Transcript

  /** The messages before the first round. */
  function HeadOf(ms: seq<Message>): seq<Message> {
    if ms == [] || Opens(ms[0]) then [] else [ms[0]] + HeadOf(ms[1..])
  }

  /** The rounds: each runs up to the next message that opens one. */
  function RoundsOf(ms: seq<Message>): seq<seq<Message>> {
    if ms == [] then []
    else if Opens(ms[0]) then [[ms[0]] + HeadOf(ms[1..])] + RoundsOf(ms[1..])
    else RoundsOf(ms[1..])
  }

  predicate IsRound(r: seq<Message>) {
    r != [] && Opens(r[0]) && forall i | 1 <= i < |r| :: !Opens(r[i])
  }

  lemma {:induction false} HeadFacts(ms: seq<Message>)
    ensures var n := |HeadOf(ms)|;
            n <= |ms| && HeadOf(ms) == ms[..n] && NoneOpens(HeadOf(ms)) && (n < |ms| ==> Opens(ms[n]))
  {
    if ms != [] && !Opens(ms[0]) {
      HeadFacts(ms[1..]);
    }
  }

  lemma {:induction false} RoundsAreRounds(ms: seq<Message>)
    ensures forall j | 0 <= j < |RoundsOf(ms)| :: IsRound(RoundsOf(ms)[j])
  {
    if ms != [] {
      RoundsAreRounds(ms[1..]);
      HeadFacts(ms[1..]);
    }
  }

  function Flatten(rs: seq<seq<Message>>): seq<Message> {
    if rs == [] then [] else rs[0] + Flatten(rs[1..])
  }

  predicate NoneOpens(ms: seq<Message>) {
    forall i | 0 <= i < |ms| :: !Opens(ms[i])
  }

  lemma {:induction false} FlattenCons(r: seq<Message>, rs: seq<seq<Message>>)
    ensures Flatten([r] + rs) == r + Flatten(rs)
  {
    Q.Cons(r, rs);
  }

  /** The head and the rounds partition the transcript. */
  lemma {:induction false} Partition(ms: seq<Message>)
    ensures ms == HeadOf(ms) + Flatten(RoundsOf(ms))
  {
    if ms == [] {
    } else {
      var rest := ms[1..];
      Partition(rest);
      Q.SplitFirst(ms);
      Q.Associate([ms[0]], HeadOf(rest), Flatten(RoundsOf(rest)));
      if Opens(ms[0]) {
        FlattenCons([ms[0]] + HeadOf(rest), RoundsOf(rest));
        Q.Nothing(ms);
      }
    }
  }

  lemma {:induction false} SkipClosed(a: seq<Message>, b: seq<Message>)
    requires NoneOpens(a)
    ensures HeadOf(a + b) == a + HeadOf(b) && RoundsOf(a + b) == RoundsOf(b)
  {
    if a == [] {
      Q.Nothing(b);
      Q.Nothing(HeadOf(b));
    } else {
      SkipClosed(a[1..], b);
      Q.AppendFirst(a, b);
      Q.SplitFirst(a);
      Q.Associate([a[0]], a[1..], HeadOf(b));
    }
  }

  /** Rounds that begin behind a do not reach back into it. */
  lemma {:induction false} Concatenate(a: seq<Message>, b: seq<Message>)
    requires b == [] || Opens(b[0])
    ensures HeadOf(a + b) == HeadOf(a) && RoundsOf(a + b) == RoundsOf(a) + RoundsOf(b)
  {
    if a == [] {
      Q.Nothing(b);
      Q.Nothing(RoundsOf(b));
    } else {
      Concatenate(a[1..], b);
      Q.AppendFirst(a, b);
      if Opens(a[0]) {
        Q.Associate([[a[0]] + HeadOf(a[1..])], RoundsOf(a[1..]), RoundsOf(b));
      }
    }
  }

  lemma {:induction false} OneRound(r: seq<Message>)
    requires IsRound(r)
    ensures RoundsOf(r) == [r] && HeadOf(r) == []
  {
    SkipClosed(r[1..], []);
    assert r[1..] + [] == r[1..];
    assert RoundsOf([]) == [];
    assert r == [r[0]] + r[1..];
  }

  /** Flattening rounds and cutting up again gives the same rounds. */
  lemma {:induction false} RoundsOfFlatten(rs: seq<seq<Message>>)
    requires forall j | 0 <= j < |rs| :: IsRound(rs[j])
    ensures RoundsOf(Flatten(rs)) == rs && HeadOf(Flatten(rs)) == []
    ensures Flatten(rs) == [] || Opens(Flatten(rs)[0])
  {
    if rs != [] {
      RoundsOfFlatten(rs[1..]);
      OneRound(rs[0]);
      Concatenate(rs[0], Flatten(rs[1..]));
      assert rs == [rs[0]] + rs[1..];
    }
  }

  lemma {:induction false} ResultsOpenNothing(results: seq<Message>, calls: seq<Call>)
    requires Answers(results, calls)
    ensures NoneOpens(results)
  {
    forall i | 0 <= i < |results|
      ensures !Opens(results[i])
    {
      assert results[i].Tool?;
    }
  }

  /** What follows the results of a first round. */
  lemma {:induction false} AfterRound(m: Message, results: seq<Message>, rest: seq<Message>)
    requires Opens(m) && Answers(results, m.calls)
    ensures HeadOf([m] + (results + rest)) == []
    ensures RoundsOf([m] + (results + rest)) == [[m] + results + HeadOf(rest)] + RoundsOf(rest)
  {
    ResultsOpenNothing(results, m.calls);
    SkipClosed(results, rest);
    Q.Cons(m, results + rest);
    Q.Associate([m], results, HeadOf(rest));
  }

  predicate AllPaired(rs: seq<seq<Message>>) {
    forall j | 0 <= j < |rs| :: Paired(rs[j])
  }

  lemma {:induction false} PairedRoundPieces(m: Message, results: seq<Message>, rest: seq<Message>)
    requires Opens(m) && Answers(results, m.calls) && Paired(HeadOf(rest)) && AllPaired(RoundsOf(rest))
    ensures var ms := [m] + (results + rest); Paired(HeadOf(ms)) && AllPaired(RoundsOf(ms))
  {
    AfterRound(m, results, rest);
    PairedRound(m, results);
    PairedAppend([m] + results, HeadOf(rest));
  }

  lemma {:induction false} PairedCons(m: Message, ms: seq<Message>)
    requires !Opens(m) && !m.Tool? && Paired(ms)
    ensures Paired([m] + ms)
  {
    Q.Cons(m, ms);
  }

  /** In a well paired transcript the head and every round are well paired by themselves. */
  lemma {:induction false} PairedPieces(ms: seq<Message>)
    requires Paired(ms)
    ensures Paired(HeadOf(ms)) && AllPaired(RoundsOf(ms))
  {
    if ms == [] {
    } else if Opens(ms[0]) {
      var n := |ms[0].calls|;
      PairedPieces(ms[1 + n..]);
      PairedRoundPieces(ms[0], ms[1..1 + n], ms[1 + n..]);
      assert ms == [ms[0]] + (ms[1..1 + n] + ms[1 + n..]);
    } else {
      PairedPieces(ms[1..]);
      PairedCons(ms[0], HeadOf(ms[1..]));
    }
  }

  // ---- Positions ----

  /** The places from i on where rounds start. */
  function StartsFrom(ms: seq<Message>, i: nat): (st: seq<nat>)
    requires i <= |ms|
    ensures forall j | 0 <= j < |st| :: i <= st[j] < |ms|
    decreases |ms| - i
  {
    if i == |ms| then [] else (if Opens(ms[i]) then [i] else []) + StartsFrom(ms, i + 1)
  }

  function Bound(ms: seq<Message>, st: seq<nat>, j: nat): nat {
    if j < |st| then st[j] else |ms|
  }

  predicate Fits(ms: seq<Message>, st: seq<nat>, rs: seq<seq<Message>>) {
    |st| == |rs| && forall j | 0 <= j < |rs| :: FitsAt(ms, st, rs, j)
  }

  predicate FitsAt(ms: seq<Message>, st: seq<nat>, rs: seq<seq<Message>>, j: nat)
    requires j < |st| == |rs|
  {
    st[j] < Bound(ms, st, j + 1) <= |ms| && rs[j] == ms[st[j]..Bound(ms, st, j + 1)]
  }

  lemma {:induction false} FitsCons(ms: seq<Message>, i: nat, st: seq<nat>, rs: seq<seq<Message>>)
    requires Fits(ms, st, rs) && i < Bound(ms, st, 0) <= |ms|
    ensures Fits(ms, [i] + st, [ms[i..Bound(ms, st, 0)]] + rs)
  {
    var st', rs' := [i] + st, [ms[i..Bound(ms, st, 0)]] + rs;
    forall j | 0 <= j < |rs'|
      ensures FitsAt(ms, st', rs', j)
    {
      if j > 0 {
        assert FitsAt(ms, st, rs, j - 1);
      }
    }
  }

  /** The j-th round lies between the j-th start and the next one. */
  lemma {:induction false} StartsFit(ms: seq<Message>, i: nat)
    requires i <= |ms|
    ensures Fits(ms, StartsFrom(ms, i), RoundsOf(ms[i..]))
    ensures HeadOf(ms[i..]) == ms[i..Bound(ms, StartsFrom(ms, i), 0)]
    decreases |ms| - i
  {
    if i < |ms| {
      StartsFit(ms, i + 1);
      Q.DropStep(ms, i);
      var st, b := StartsFrom(ms, i + 1), Bound(ms, StartsFrom(ms, i + 1), 0);
      Q.SliceStep(ms, i, b);
      Q.Nothing(st);
      if Opens(ms[i]) {
        FitsCons(ms, i, st, RoundsOf(ms[i + 1..]));
      }
    }
  }
}
