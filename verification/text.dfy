/** The Python string operations the services rely on, on `string` (a sequence
    of Unicode scalar values, which is what a Python `str` indexes):
    `strip`, ASCII `lower`, `replace`, `split` on one separator, `find`/`rfind`
    of one character, `in` and `startswith`. */
module Text {

  /** Python's `str.isspace` set, which is what `str.strip()` removes. */
  predicate IsSpace(c: char) {
    || ('\t' <= c <= '\r')
    || ('\U{1C}' <= c <= ' ')
    || c == '\U{85}' || c == '\U{A0}' || c == '\U{1680}'
    || ('\U{2000}' <= c <= '\U{200A}')
    || c == '\U{2028}' || c == '\U{2029}' || c == '\U{202F}' || c == '\U{205F}'
    || c == '\U{3000}'
  }

  predicate NoSpaceAtEnds(s: string) {
    |s| == 0 || (!IsSpace(s[0]) && !IsSpace(s[|s| - 1]))
  }

  predicate AllSpace(s: string) {
    forall i :: 0 <= i < |s| ==> IsSpace(s[i])
  }

  /** `s` occurs in `t` at some position. */
  predicate IsInfix(s: string, t: string) {
    exists i, j :: 0 <= i <= j <= |t| && t[i..j] == s
  }

  function TrimLeft(s: string): (r: string)
    ensures |r| <= |s| && r == s[|s| - |r|..]
    ensures AllSpace(s[..|s| - |r|])
    ensures |r| == 0 || !IsSpace(r[0])
    decreases |s|
  {
    if |s| > 0 && IsSpace(s[0]) then
      var r := TrimLeft(s[1..]);
      SliceOfSuffix(s, 1, |s| - 1 - |r|);
      r
    else s
  }

  function TrimRight(s: string): (r: string)
    ensures |r| <= |s| && r == s[..|r|]
    ensures AllSpace(s[|r|..])
    ensures |r| == 0 || !IsSpace(r[|r| - 1])
    decreases |s|
  {
    if |s| > 0 && IsSpace(s[|s| - 1]) then
      var r := TrimRight(s[..|s| - 1]);
      SliceOfPrefix(s, |s| - 1, |r|);
      r
    else s
  }

  /** Python's `s.strip()`: leading and trailing whitespace removed. */
  function Strip(s: string): (r: string)
    ensures NoSpaceAtEnds(r)
    ensures |r| <= |s|
  {
    TrimRight(TrimLeft(s))
  }

  /** What strip removes is whitespace only, and what it keeps is one slice. */
  lemma StripIsSlice(s: string) returns (i: nat)
    ensures i + |Strip(s)| <= |s|
    ensures Strip(s) == s[i..i + |Strip(s)|]
    ensures AllSpace(s[..i]) && AllSpace(s[i + |Strip(s)|..])
  {
    var l := TrimLeft(s);
    i := |s| - |l|;
    TrimsCompose(s, l, TrimRight(l), i);
  }

  /** A whitespace prefix cut off, then a whitespace suffix cut off the rest. */
  lemma TrimsCompose(s: string, l: string, r: string, i: nat)
    requires i <= |s| && l == s[i..] && AllSpace(s[..i])
    requires |r| <= |l| && r == l[..|r|] && AllSpace(l[|r|..])
    ensures i + |r| <= |s| && r == s[i..i + |r|]
    ensures AllSpace(s[..i]) && AllSpace(s[i + |r|..])
  {
    SliceOfSuffix(s, i, |r|);
    assert s[i + |r|..] == l[|r|..];
  }

  lemma SliceOfPrefix<T>(s: seq<T>, n: nat, k: nat)
    requires k <= n <= |s|
    ensures s[..n][..k] == s[..k]
    ensures s[..n][k..] == s[k..n]
  {
  }

  lemma SliceOfSuffix<T>(s: seq<T>, i: nat, k: nat)
    requires i + k <= |s|
    ensures s[i..][..k] == s[i..i + k]
    ensures s[i..][k..] == s[i + k..]
  {
  }

  lemma StripIdempotent(s: string)
    ensures Strip(Strip(s)) == Strip(s)
  {
    var r := Strip(s);
    assert TrimLeft(r) == r;
    assert TrimRight(r) == r;
  }

  /** Only characters of the input survive stripping. */
  lemma StripKeepsChars(s: string, c: char)
    requires c !in s
    ensures c !in Strip(s)
  {
    var r := Strip(s);
    var i := StripIsSlice(s);
    assert forall k :: 0 <= k < |r| ==> r[k] == s[i + k];
  }

  lemma StripEmptyIffAllSpace(s: string)
    ensures Strip(s) == "" <==> AllSpace(s)
  {
    var r := Strip(s);
    var i := StripIsSlice(s);
    if r == "" {
      forall k | 0 <= k < |s| ensures IsSpace(s[k]) {
        if k < i { assert s[..i][k] == s[k]; } else { assert s[i..][k - i] == s[k]; }
      }
    } else {
      assert r[0] == s[i];
    }
  }

  function LowerChar(c: char): char {
    if 'A' <= c <= 'Z' then (c as int + 32) as char else c
  }

  /** Python's `s.lower()` restricted to ASCII letters; other characters are kept. */
  function Lower(s: string): (r: string)
    ensures |r| == |s|
    ensures forall i :: 0 <= i < |s| ==> r[i] == LowerChar(s[i])
  {
    seq(|s|, i requires 0 <= i < |s| => LowerChar(s[i]))
  }

  predicate IsLowerAscii(s: string) {
    forall i :: 0 <= i < |s| ==> 'a' <= s[i] <= 'z'
  }

  function StartsWith(s: string, prefix: string): bool {
    |prefix| <= |s| && s[..|prefix|] == prefix
  }

  /** Python's `sub in s`, scanning from the left. */
  function Contains(s: string, sub: string): bool
    decreases |s|
  {
    if |s| < |sub| then false
    else if s[..|sub|] == sub then true
    else Contains(s[1..], sub)
  }

  lemma {:induction false} ContainsIsInfix(s: string, sub: string)
    ensures Contains(s, sub) <==> IsInfix(sub, s)
    decreases |s|
  {
    if |s| < |sub| {
    } else if s[..|sub|] == sub {
      assert s[0..|sub|] == sub;
    } else {
      ContainsIsInfix(s[1..], sub);
      if IsInfix(sub, s) {
        InfixNotAtStart(s, sub);
      }
      if IsInfix(sub, s[1..]) {
        var i, j :| 0 <= i <= j <= |s| - 1 && s[1..][i..j] == sub;
        assert s[i + 1..j + 1] == sub;
      }
    }
  }

  lemma InfixNotAtStart(s: string, sub: string)
    requires |sub| <= |s| && s[..|sub|] != sub
    requires IsInfix(sub, s)
    ensures IsInfix(sub, s[1..])
  {
    var i, j :| 0 <= i <= j <= |s| && s[i..j] == sub;
    assert |s[i..j]| == |sub|;
    assert i > 0;
    assert s[1..][i - 1..j - 1] == sub;
  }

  /** Python's `s.find(c)` for one character: -1 when absent, else the first index. */
  function Find(s: string, c: char): (i: int)
    ensures -1 <= i < |s|
    ensures i == -1 <==> c !in s
    ensures i >= 0 ==> s[i] == c && c !in s[..i]
    decreases |s|
  {
    if |s| == 0 then -1
    else if s[0] == c then 0
    else
      var j := Find(s[1..], c);
      if j == -1 then -1 else j + 1
  }

  /** Python's `s.rfind(c)` for one character: -1 when absent, else the last index. */
  function RFind(s: string, c: char): (i: int)
    ensures -1 <= i < |s|
    ensures i == -1 <==> c !in s
    ensures i >= 0 ==> s[i] == c && c !in s[i + 1..]
    decreases |s|
  {
    if |s| == 0 then -1
    else if s[|s| - 1] == c then |s| - 1
    else
      var j := RFind(s[..|s| - 1], c);
      RFindStep(s, c, j);
      j
  }

  /** The last occurrence in `s` is the last one in `s` without its final
      character, when that character is not the one sought. */
  lemma RFindStep(s: string, c: char, j: int)
    requires |s| > 0 && s[|s| - 1] != c
    requires -1 <= j < |s| - 1
    requires j == -1 <==> c !in s[..|s| - 1]
    requires j >= 0 ==> s[..|s| - 1][j] == c && c !in s[..|s| - 1][j + 1..]
    ensures j == -1 <==> c !in s
    ensures j >= 0 ==> s[j] == c && c !in s[j + 1..]
  {
    var init := s[..|s| - 1];
    assert s == init + [s[|s| - 1]];
    if j >= 0 {
      assert s[j + 1..] == init[j + 1..] + [s[|s| - 1]];
    }
  }

  // ---------------------------------------------------------------------------
  // replace

  /** Python's `s.replace(p, r)` for a non-empty pattern: every occurrence,
      found left to right without overlap, is replaced. */
  function Replace(s: string, p: string, r: string): (res: string)
    requires |p| > 0
    ensures forall c :: c in res ==> c in s || c in r
    decreases |s|
  {
    if |s| < |p| then s
    else if s[..|p|] == p then
      var rest := Replace(s[|p|..], p, r);
      assert forall c :: c in s[|p|..] ==> c in s;
      r + rest
    else
      var rest := Replace(s[1..], p, r);
      assert forall c :: c in s[1..] ==> c in s;
      [s[0]] + rest
  }

  /** A one-character pattern no longer occurs once replaced by text without it. */
  lemma {:induction false} ReplaceRemovesChar(s: string, c: char, r: string)
    requires c !in r
    ensures c !in Replace(s, [c], r)
    decreases |s|
  {
    if |s| >= 1 {
      ReplaceRemovesChar(s[1..], c, r);
      assert s[..1] == [c] <==> s[0] == c;
    }
  }

  /** A pattern that does not occur leaves the text unchanged. */
  lemma {:induction false} ReplaceAbsent(s: string, p: string, r: string)
    requires |p| > 0
    requires !IsInfix(p, s)
    ensures Replace(s, p, r) == s
    decreases |s|
  {
    if |s| >= |p| {
      assert s[0..|p|] == s[..|p|];
      assert forall i, j :: 0 <= i <= j <= |s| - 1 ==> s[1..][i..j] == s[i + 1..j + 1];
      ReplaceAbsent(s[1..], p, r);
    }
  }

  /** The adjacent pair `a b` never occurs in `s`. */
  predicate NoPair(s: string, a: char, b: char) {
    forall i :: 0 <= i < |s| - 1 ==> !(s[i] == a && s[i + 1] == b)
  }

  lemma NoPairConcat(x: string, y: string, a: char, b: char)
    requires NoPair(x, a, b) && NoPair(y, a, b)
    requires |x| == 0 || |y| == 0 || !(x[|x| - 1] == a && y[0] == b)
    ensures NoPair(x + y, a, b)
  {
    var s := x + y;
    forall i | 0 <= i < |s| - 1
      ensures !(s[i] == a && s[i + 1] == b)
    {
      if i < |x| - 1 {
        assert s[i] == x[i] && s[i + 1] == x[i + 1];
      } else if i == |x| - 1 {
      } else {
        assert s[i] == y[i - |x|] && s[i + 1] == y[i - |x| + 1];
      }
    }
  }

  lemma NoPairSlice(s: string, i: int, j: int, a: char, b: char)
    requires 0 <= i <= j <= |s|
    requires NoPair(s, a, b)
    ensures NoPair(s[i..j], a, b)
  {
    var t := s[i..j];
    forall k | 0 <= k < |t| - 1
      ensures !(t[k] == a && t[k + 1] == b)
    {
      assert t[k] == s[i + k] && t[k + 1] == s[i + k + 1];
    }
  }

  /** With a non-empty replacement, the output starts with the input's or the
      replacement's first character. */
  lemma {:induction false} ReplaceFirstChar(s: string, p: string, r: string)
    requires |p| > 0 && |r| > 0 && |s| > 0
    ensures |Replace(s, p, r)| > 0
    ensures Replace(s, p, r)[0] == s[0] || Replace(s, p, r)[0] == r[0]
  {
  }

  /** Replacing with text that neither contains `a b`, starts with `b` nor ends
      with `a` cannot create the pair `a b`. */
  lemma {:induction false} ReplaceKeepsNoPair(s: string, p: string, r: string, a: char, b: char)
    requires |p| > 0 && |r| > 0
    requires NoPair(s, a, b) && NoPair(r, a, b)
    requires r[0] != b && r[|r| - 1] != a
    ensures NoPair(Replace(s, p, r), a, b)
    decreases |s|
  {
    if |s| < |p| {
    } else if s[..|p|] == p {
      NoPairSlice(s, |p|, |s|, a, b);
      ReplaceKeepsNoPair(s[|p|..], p, r, a, b);
      NoPairConcat(r, Replace(s[|p|..], p, r), a, b);
    } else {
      NoPairSlice(s, 1, |s|, a, b);
      ReplaceKeepsNoPair(s[1..], p, r, a, b);
      var rest := Replace(s[1..], p, r);
      if |rest| > 0 {
        ReplaceFirstChar(s[1..], p, r);
        assert s[0] == a ==> s[1] != b;
      }
      NoPairConcat([s[0]], rest, a, b);
    }
  }

  /** Replacing the pattern `a b` itself by text that neither contains the pair,
      starts with `b` nor ends with `a` removes every occurrence of the pair. */
  lemma {:induction false} ReplaceRemovesPair(s: string, a: char, b: char, r: string)
    requires |r| > 0 && NoPair(r, a, b)
    requires r[0] != b && r[|r| - 1] != a
    ensures NoPair(Replace(s, [a, b], r), a, b)
    decreases |s|
  {
    var p := [a, b];
    if |s| < 2 {
    } else if s[..2] == p {
      ReplaceRemovesPair(s[2..], a, b, r);
      NoPairConcat(r, Replace(s[2..], p, r), a, b);
    } else {
      ReplaceRemovesPair(s[1..], a, b, r);
      var rest := Replace(s[1..], p, r);
      if |rest| > 0 {
        ReplaceFirstChar(s[1..], p, r);
      }
      NoPairConcat([s[0]], rest, a, b);
    }
  }

  // ---------------------------------------------------------------------------
  // split on one separator

  /** Python's `s.split(d)` for a one-character separator. */
  function Split(s: string, d: char): (parts: seq<string>)
    ensures |parts| >= 1
    ensures forall i :: 0 <= i < |parts| ==> d !in parts[i]
    decreases |s|
  {
    if |s| == 0 then [""]
    else
      var rest := Split(s[1..], d);
      if s[0] == d then [""] + rest
      else [[s[0]] + rest[0]] + rest[1..]
  }

  /** Python's `d.join(parts)`. */
  function Join(parts: seq<string>, d: char): string
    requires |parts| >= 1
    decreases |parts|
  {
    if |parts| == 1 then parts[0] else parts[0] + [d] + Join(parts[1..], d)
  }

  /** Each part followed by the separator: what a loop of `acc += part + d` builds. */
  function JoinTerminated(parts: seq<string>, d: char): string
    decreases |parts|
  {
    if |parts| == 0 then "" else parts[0] + [d] + JoinTerminated(parts[1..], d)
  }

  lemma {:induction false} SplitJoin(s: string, d: char)
    ensures Join(Split(s, d), d) == s
    decreases |s|
  {
    if |s| > 0 {
      SplitJoin(s[1..], d);
      var rest := Split(s[1..], d);
      if s[0] != d && |rest| > 1 {
        assert rest == [rest[0]] + rest[1..];
      }
    }
  }

  lemma {:induction false} JoinTerminatedIsJoin(parts: seq<string>, d: char)
    requires |parts| >= 1
    ensures JoinTerminated(parts, d) == Join(parts, d) + [d]
    decreases |parts|
  {
    if |parts| > 1 {
      JoinTerminatedIsJoin(parts[1..], d);
    }
  }

  /** Terminating the first k parts gives a prefix of terminating them all. */
  lemma {:induction false} JoinTerminatedPrefix(parts: seq<string>, k: nat, d: char)
    requires k <= |parts|
    ensures JoinTerminated(parts[..k], d) <= JoinTerminated(parts, d)
    decreases k
  {
    if k > 0 {
      assert parts[..k][1..] == parts[1..][..k - 1];
      JoinTerminatedPrefix(parts[1..], k - 1, d);
    }
  }

  lemma {:induction false} JoinTerminatedAppend(parts: seq<string>, x: string, d: char)
    ensures JoinTerminated(parts + [x], d) == JoinTerminated(parts, d) + x + [d]
    decreases |parts|
  {
    if |parts| > 0 {
      assert (parts + [x])[1..] == parts[1..] + [x];
      JoinTerminatedAppend(parts[1..], x, d);
    }
  }

  /** Text without the separator is a single part. */
  lemma {:induction false} SplitNoSeparator(s: string, d: char)
    requires d !in s
    ensures Split(s, d) == [s]
    decreases |s|
  {
    if |s| > 0 {
      SplitNoSeparator(s[1..], d);
      assert [s[0]] + s[1..] == s;
    }
  }

  /** A separator-free head splits off as the first part. */
  lemma {:induction false} SplitAfterHead(a: string, b: string, d: char)
    requires d !in a
    ensures Split(a + [d] + b, d) == [a] + Split(b, d)
    decreases |a|
  {
    if |a| == 0 {
      assert a + [d] + b == [d] + b;
      assert ([d] + b)[1..] == b;
    } else {
      assert (a + [d] + b)[1..] == a[1..] + [d] + b;
      assert (a + [d] + b)[0] == a[0];
      SplitAfterHead(a[1..], b, d);
      assert [a[0]] + a[1..] == a;
    }
  }

  /** The segment after the last separator: Python's `s.split(d)[-1]`. */
  function LastSegment(s: string, d: char): (r: string)
    ensures d !in r
  {
    var parts := Split(s, d);
    parts[|parts| - 1]
  }

  /** The last segment of two separator-free words joined by the separator is
      the second word. */
  lemma LastSegmentOfPair(a: string, b: string, d: char)
    requires d !in a && d !in b
    ensures LastSegment(a + [d] + b, d) == b
  {
    SplitAfterHead(a, b, d);
    SplitNoSeparator(b, d);
  }

  /** The first part of a split runs up to the first separator or the end. */
  lemma {:induction false} FirstSegment(s: string, d: char)
    ensures var p := Split(s, d)[0];
            |p| <= |s| && s[..|p|] == p && (|p| == |s| || s[|p|] == d)
    decreases |s|
  {
    if |s| > 0 && s[0] != d {
      FirstSegment(s[1..], d);
    }
  }
}
