/** The few Python string operations the modelled code relies on. */
module Text {

  /** True of the characters that Python's str.strip() removes. */
  predicate IsSpace(c: char) {
    var n := c as int;
    || 0x09 <= n <= 0x0D
    || 0x1C <= n <= 0x20
    || n == 0x85 || n == 0xA0 || n == 0x1680
    || 0x2000 <= n <= 0x200A
    || n == 0x2028 || n == 0x2029 || n == 0x202F || n == 0x205F || n == 0x3000
  }

  /** pat occurs in s at position i. */
  predicate At(s: string, pat: string, i: int) {
    0 <= i && i + |pat| <= |s| && s[i..i + |pat|] == pat
  }

  ghost predicate Contains(s: string, pat: string) {
    exists i :: At(s, pat, i)
  }

  /** Position of the first occurrence at or after `from`, or -1 (str.find). */
  function FindFrom(s: string, pat: string, from: nat): (r: int)
    ensures r == -1 ==> forall j | from <= j :: !At(s, pat, j)
    ensures r != -1 ==> from <= r && At(s, pat, r) && forall j | from <= j < r :: !At(s, pat, j)
    decreases |s| - from
  {
    if from + |pat| > |s| then -1
    else if s[from..from + |pat|] == pat then from
    else if from == |s| then -1
    else FindFrom(s, pat, from + 1)
  }

  function Find(s: string, pat: string): int {
    FindFrom(s, pat, 0)
  }

  /** Position of the last occurrence at or before `upto`, or -1 (str.rfind). */
  function FindLastUpTo(s: string, pat: string, upto: int): (r: int)
    requires upto <= |s|
    ensures r == -1 ==> forall j | j <= upto :: !At(s, pat, j)
    ensures r != -1 ==> r <= upto && At(s, pat, r) && forall j | r < j <= upto :: !At(s, pat, j)
    decreases upto + 1
  {
    if upto < 0 then -1
    else if At(s, pat, upto) then upto
    else FindLastUpTo(s, pat, upto - 1)
  }

  function FindLast(s: string, pat: string): int {
    FindLastUpTo(s, pat, |s|)
  }

  lemma {:induction false} ContainsIffFind(s: string, pat: string)
    ensures Contains(s, pat) <==> Find(s, pat) != -1
  {
    if i :| At(s, pat, i) {
      assert !(Find(s, pat) == -1);
    }
  }

  /** A position is the first occurrence as soon as it is one and none precedes it. */
  lemma {:induction false} FindIs(s: string, pat: string, i: nat)
    requires At(s, pat, i) && forall j | 0 <= j < i :: !At(s, pat, j)
    ensures Find(s, pat) == i
  {
    var r := Find(s, pat);
    assert r != -1;
  }

  lemma {:induction false} FindLastIs(s: string, pat: string, i: nat)
    requires At(s, pat, i) && forall j | i < j <= |s| :: !At(s, pat, j)
    ensures FindLast(s, pat) == i
  {
    var r := FindLast(s, pat);
    assert r != -1;
  }

  function StripLeft(s: string): (r: string)
    ensures |r| <= |s| && r == s[|s| - |r|..]
    ensures r != "" ==> !IsSpace(r[0])
  {
    if s != "" && IsSpace(s[0]) then StripLeft(s[1..]) else s
  }

  function StripRight(s: string): (r: string)
    ensures |r| <= |s| && r == s[..|r|]
    ensures r != "" ==> !IsSpace(r[|r| - 1])
    ensures forall i | |r| <= i < |s| :: IsSpace(s[i])
  {
    if s != "" && IsSpace(s[|s| - 1]) then StripRight(s[..|s| - 1]) else s
  }

  /** str.strip() */
  function Strip(s: string): (r: string)
    ensures |r| <= |s|
    ensures Stripped(r)
  {
    StripLeft(StripRight(s))
  }

  /** No white space at either end: what strip() returns and leaves unchanged. */
  predicate Stripped(s: string) {
    s != "" ==> !IsSpace(s[0]) && !IsSpace(s[|s| - 1])
  }

  lemma {:induction false} StripFixes(s: string)
    requires Stripped(s)
    ensures Strip(s) == s
  {
  }

  /** Trailing white space goes away and nothing else does. */
  lemma {:induction false} StripTrailing(s: string, tail: string)
    requires Stripped(s) && forall i | 0 <= i < |tail| :: IsSpace(tail[i])
    ensures Strip(s + tail) == s
    decreases |tail|
  {
    if tail == "" {
      assert s + tail == s;
    } else {
      assert (s + tail)[..|s + tail| - 1] == s + tail[..|tail| - 1];
      StripTrailing(s, tail[..|tail| - 1]);
      assert StripRight(s + tail) == StripRight(s + tail[..|tail| - 1]);
    }
  }

  /** s.split(sep, 1)[0] */
  function Before(s: string, sep: string): string {
    var i := Find(s, sep);
    if i == -1 then s else s[..i]
  }

  /** s.split(sep) for a non-empty separator. */
  function SplitAll(s: string, sep: string): (parts: seq<string>)
    requires sep != ""
    ensures |parts| >= 1
    decreases |s|
  {
    var i := Find(s, sep);
    if i == -1 then [s] else [s[..i]] + SplitAll(s[i + |sep|..], sep)
  }

  /** sep.join(parts) */
  function Join(parts: seq<string>, sep: string): string {
    if parts == [] then ""
    else if |parts| == 1 then parts[0]
    else parts[0] + sep + Join(parts[1..], sep)
  }

  function Count(s: string, c: char): nat {
    if s == "" then 0 else (if s[0] == c then 1 else 0) + Count(s[1..], c)
  }

  lemma {:induction false} CountAppend(a: string, b: string, c: char)
    ensures Count(a + b, c) == Count(a, c) + Count(b, c)
  {
    if a == "" {
      assert a + b == b;
    } else {
      assert (a + b)[1..] == a[1..] + b;
      CountAppend(a[1..], b, c);
    }
  }

  lemma {:induction false} CountSplit(s: string, i: nat, c: char)
    requires i <= |s|
    ensures Count(s, c) == Count(s[..i], c) + Count(s[i..], c)
  {
    assert s == s[..i] + s[i..];
    CountAppend(s[..i], s[i..], c);
  }

  lemma {:induction false} StripLeftCount(s: string, c: char)
    requires !IsSpace(c)
    ensures Count(StripLeft(s), c) == Count(s, c)
  {
    if s != "" && IsSpace(s[0]) {
      StripLeftCount(s[1..], c);
    }
  }

  lemma {:induction false} StripRightCount(s: string, c: char)
    requires !IsSpace(c)
    ensures Count(StripRight(s), c) == Count(s, c)
  {
    if s != "" && IsSpace(s[|s| - 1]) {
      var n := |s| - 1;
      StripRightCount(s[..n], c);
      CountSplit(s, n, c);
      assert s[n..] == [s[n]];
      assert Count([s[n]], c) == 0;
    }
  }

  /** strip() removes white space only. */
  lemma {:induction false} StripCount(s: string, c: char)
    requires !IsSpace(c)
    ensures Count(Strip(s), c) == Count(s, c)
  {
    StripRightCount(s, c);
    StripLeftCount(StripRight(s), c);
  }
}
