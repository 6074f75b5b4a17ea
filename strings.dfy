/**
 * The JavaScript string built-ins the extension relies on (`includes`,
 * `indexOf`, `split`, `join`, `replace` with a string pattern, `trim`), over
 * `seq<char>`, together with lexicographic order, which stands for
 * `localeCompare`.
 */
module Strings {

  /** `s` occurs in `t` starting at index `i`. */
  predicate OccursAt(t: string, s: string, i: nat) {
    i + |s| <= |t| && t[i..i + |s|] == s
  }

  /** The first index at or after `from` where `s` occurs in `t`, or -1 (`indexOf`). */
  function IndexOfFrom(t: string, s: string, from: nat): (r: int)
    ensures r == -1 || (from <= r && OccursAt(t, s, r))
    ensures r == -1 ==> forall i :: from <= i ==> !OccursAt(t, s, i)
    ensures r >= 0 ==> forall i :: from <= i < r ==> !OccursAt(t, s, i)
    decreases |t| - from
  {
    if from + |s| > |t| then -1
    else if OccursAt(t, s, from) then from
    else IndexOfFrom(t, s, from + 1)
  }

  function IndexOf(t: string, s: string): int {
    IndexOfFrom(t, s, 0)
  }

  /** `t.includes(s)`, equivalently `t.indexOf(s) > -1`. */
  predicate Contains(t: string, s: string) {
    IndexOf(t, s) >= 0
  }

  lemma ContainsIff(t: string, s: string)
    ensures Contains(t, s) <==> exists i :: OccursAt(t, s, i)
  {
    if exists i :: OccursAt(t, s, i) {
      var i :| OccursAt(t, s, i);
      assert IndexOfFrom(t, s, 0) != -1;
    }
  }

  lemma ContainsInfix(a: string, s: string, b: string)
    ensures Contains(a + s + b, s)
  {
    assert (a + s + b)[|a|..|a| + |s|] == s;
    assert OccursAt(a + s + b, s, |a|);
    ContainsIff(a + s + b, s);
  }

  /** The index of the first `c` in `s`, or -1 (`s.indexOf(c)`). */
  function FirstIndex(s: string, c: char): (r: int)
    ensures -1 <= r < |s|
    ensures r >= 0 ==> s[r] == c
  {
    if |s| == 0 then -1
    else if s[0] == c then 0
    else
      var k := FirstIndex(s[1..], c);
      if k == -1 then -1 else k + 1
  }

  /** No `c` comes before the index found, and -1 means there is none at all. */
  lemma {:induction false} FirstIndexFirst(s: string, c: char)
    ensures FirstIndex(s, c) >= 0 ==> c !in s[..FirstIndex(s, c)]
    ensures FirstIndex(s, c) == -1 <==> c !in s
  {
    if |s| > 0 && s[0] != c {
      FirstIndexFirst(s[1..], c);
      var k := FirstIndex(s[1..], c);
      if k >= 0 {
        assert s[..k + 1] == [s[0]] + s[1..][..k];
      } else {
        assert s == [s[0]] + s[1..];
      }
    }
  }

  lemma FirstIndexAfter(a: string, c: char, b: string)
    requires c !in a
    ensures FirstIndex(a + [c] + b, c) == |a|
  {
    var s := a + [c] + b;
    FirstIndexFirst(s, c);
    assert s[|a|] == c;
    assert s[..|a|] == a;
  }

  /** `s.split(c)` for a one-character separator. */
  function Split(s: string, c: char): (r: seq<string>)
    ensures |r| >= 1
    decreases |s|
  {
    var i := FirstIndex(s, c);
    if i < 0 then [s] else [s[..i]] + Split(s[i + 1..], c)
  }

  /** The first step of `split`: everything up to the first separator, then the rest split. */
  lemma SplitStep(s: string, c: char)
    requires FirstIndex(s, c) >= 0
    ensures Split(s, c) == [s[..FirstIndex(s, c)]] + Split(s[FirstIndex(s, c) + 1..], c)
  {
  }

  /** No part of a split holds the separator. */
  lemma {:induction false} SplitParts(s: string, c: char)
    ensures forall k :: 0 <= k < |Split(s, c)| ==> c !in Split(s, c)[k]
    decreases |s|
  {
    FirstIndexFirst(s, c);
    var i := FirstIndex(s, c);
    if i >= 0 {
      SplitParts(s[i + 1..], c);
      SplitStep(s, c);
    }
  }

  /** `parts.join(sep)`. */
  function Join(parts: seq<string>, sep: string): string {
    if |parts| == 0 then ""
    else if |parts| == 1 then parts[0]
    else parts[0] + sep + Join(parts[1..], sep)
  }

  lemma JoinCons(head: string, tail: seq<string>, sep: string)
    requires |tail| >= 1
    ensures Join([head] + tail, sep) == head + sep + Join(tail, sep)
  {
    assert ([head] + tail)[1..] == tail;
  }

  /** Joining what `split` produced, with the same separator, restores the string. */
  lemma {:induction false} JoinSplit(s: string, c: char)
    ensures Join(Split(s, c), [c]) == s
    decreases |s|
  {
    var i := FirstIndex(s, c);
    if i >= 0 {
      JoinSplit(s[i + 1..], c);
      JoinSplitStep(s, c);
    } else {
      assert Split(s, c) == [s];
    }
  }

  lemma JoinSplitStep(s: string, c: char)
    requires FirstIndex(s, c) >= 0
    requires Join(Split(s[FirstIndex(s, c) + 1..], c), [c]) == s[FirstIndex(s, c) + 1..]
    ensures Join(Split(s, c), [c]) == s
  {
    var i := FirstIndex(s, c);
    SplitStep(s, c);
    Around(s, i, c);
    JoinAfterSplit(s, c, s[..i], s[i + 1..], Split(s[i + 1..], c));
  }

  /** A string is the part before an index, the character there, and the part after. */
  lemma Around(s: string, i: nat, c: char)
    requires i < |s| && s[i] == c
    ensures s == s[..i] + [c] + s[i + 1..]
  {
  }

  lemma JoinAfterSplit(s: string, c: char, pre: string, rest: string, tail: seq<string>)
    requires Split(s, c) == [pre] + tail && |tail| >= 1
    requires Join(tail, [c]) == rest
    requires s == pre + [c] + rest
    ensures Join(Split(s, c), [c]) == s
  {
    JoinCons(pre, tail, [c]);
  }

  /** Splitting a join of separator-free, non-empty list gives the list back. */
  lemma {:induction false} SplitJoin(parts: seq<string>, c: char)
    requires |parts| >= 1
    requires forall k :: 0 <= k < |parts| ==> c !in parts[k]
    ensures Split(Join(parts, [c]), c) == parts
    decreases |parts|
  {
    if |parts| == 1 {
      FirstIndexFirst(parts[0], c);
    } else {
      var s := Join(parts, [c]);
      var tail := Join(parts[1..], [c]);
      assert s == parts[0] + [c] + tail;
      FirstIndexAfter(parts[0], c, tail);
      SplitStep(s, c);
      assert s[..|parts[0]|] == parts[0];
      assert s[|parts[0]| + 1..] == tail;
      SplitJoin(parts[1..], c);
      assert parts == [parts[0]] + parts[1..];
    }
  }

  /**
   * The last element of `s.split(c)`, that is, what follows the last `c`;
   * `LastPartIsLast` ties it to `Split`.
   */
  function LastPart(s: string, c: char): string
    decreases |s|
  {
    var i := FirstIndex(s, c);
    if i < 0 then s else LastPart(s[i + 1..], c)
  }

  /** `LastPart` is the last element of `Split`. */
  lemma {:induction false} LastPartIsLast(s: string, c: char)
    ensures LastPart(s, c) == Split(s, c)[|Split(s, c)| - 1]
    decreases |s|
  {
    var i := FirstIndex(s, c);
    if i >= 0 {
      var rest := s[i + 1..];
      LastPartIsLast(rest, c);
      var tail := Split(rest, c);
      assert Split(s, c) == [s[..i]] + tail;
      LastOfCons(s[..i], tail);
    }
  }

  /** The first `c` of a string that has one stays the first after anything is appended. */
  lemma FirstIndexPrefix(p: string, c: char, q: string)
    requires c in p
    ensures FirstIndex(p + q, c) == FirstIndex(p, c)
  {
    if p[0] != c {
      assert (p + q)[1..] == p[1..] + q;
      FirstIndexPrefix(p[1..], c, q);
    }
  }

  /** The last part of `p + c + t`, when `t` holds no `c`, is `t`. */
  lemma {:induction false} LastPartAfter(p: string, c: char, t: string)
    requires c !in t
    ensures LastPart(p + [c] + t, c) == t
    decreases |p|
  {
    FirstIndexFirst(p, c);
    if c in p {
      var i := FirstIndex(p, c);
      CutAtFirst(p, c, t, i);
      LastPartAfter(p[i + 1..], c, t);
    } else {
      CutAtSeparator(p, c, t);
    }
  }

  /** Cutting `p + c + t` at a first `c` inside `p`. */
  lemma CutAtFirst(p: string, c: char, t: string, i: int)
    requires c in p && i == FirstIndex(p, c)
    ensures 0 <= i < |p| && FirstIndex(p + [c] + t, c) == i
    ensures (p + [c] + t)[i + 1..] == p[i + 1..] + [c] + t
  {
    FirstIndexFirst(p, c);
    FirstIndexPrefix(p, c, [c] + t);
    assert p + [c] + t == p + ([c] + t);
  }

  /** Without a `c` in `p`, the last part of `p + c + t` is that of `t`, which is `t` itself. */
  lemma CutAtSeparator(p: string, c: char, t: string)
    requires c !in p && c !in t
    ensures LastPart(p + [c] + t, c) == t
  {
    var s := p + [c] + t;
    FirstIndexAfter(p, c, t);
    assert s[|p| + 1..] == t;
    FirstIndexFirst(t, c);
  }

  /** The last element of a sequence with something put in front is the last element of the rest. */
  lemma LastOfCons<T>(x: T, t: seq<T>)
    requires |t| >= 1
    ensures ([x] + t)[|[x] + t| - 1] == t[|t| - 1]
  {
  }

  /** The last part holds no `c`. */
  lemma {:induction false} LastPartClean(s: string, c: char)
    ensures c !in LastPart(s, c)
    decreases |s|
  {
    FirstIndexFirst(s, c);
    var i := FirstIndex(s, c);
    if i >= 0 {
      LastPartClean(s[i + 1..], c);
    }
  }

  /** The last part is a suffix, preceded by a `c` unless it is the whole string. */
  lemma {:induction false} LastPartSuffix(s: string, c: char)
    ensures |LastPart(s, c)| <= |s| && s[|s| - |LastPart(s, c)|..] == LastPart(s, c)
    ensures |LastPart(s, c)| < |s| ==> s[|s| - |LastPart(s, c)| - 1] == c
    decreases |s|
  {
    var i := FirstIndex(s, c);
    if i >= 0 {
      var rest := s[i + 1..];
      LastPartSuffix(rest, c);
      SuffixStep(s, c, i, rest, LastPart(rest, c));
    }
  }

  /** A suffix of what follows a `c` at `i`, preceded by `c` or all of it, is such a suffix of the whole. */
  lemma SuffixStep(s: string, c: char, i: nat, rest: string, l: string)
    requires i < |s| && s[i] == c && rest == s[i + 1..]
    requires |l| <= |rest| && rest[|rest| - |l|..] == l
    requires |l| < |rest| ==> rest[|rest| - |l| - 1] == c
    ensures |l| < |s| && s[|s| - |l|..] == l && s[|s| - |l| - 1] == c
  {
    var k := |rest| - |l|;
    assert |s| - |l| == i + 1 + k;
    forall j | 0 <= j < |l| ensures rest[k..][j] == s[i + 1 + k..][j] {
      assert rest[k + j] == s[i + 1 + k + j];
    }
    assert rest[k..] == s[i + 1 + k..];
    if k > 0 {
      assert rest[k - 1] == s[i + k];
    }
  }

  /** `t.replace(pattern, replacement)` with a string pattern: only the first occurrence is replaced. */
  function ReplaceFirst(t: string, pattern: string, replacement: string): (r: string)
    ensures IndexOf(t, pattern) == -1 ==> r == t
    ensures IndexOf(t, pattern) >= 0 ==>
      var i := IndexOf(t, pattern);
      r == t[..i] + replacement + t[i + |pattern|..]
  {
    var i := IndexOf(t, pattern);
    if i < 0 then t else t[..i] + replacement + t[i + |pattern|..]
  }

  /** A string that starts with `pattern` loses exactly that prefix. */
  lemma ReplaceLeadingPrefix(pattern: string, rest: string, replacement: string)
    ensures ReplaceFirst(pattern + rest, pattern, replacement) == replacement + rest
  {
    var t := pattern + rest;
    assert OccursAt(t, pattern, 0) by { assert t[..|pattern|] == pattern; }
    assert t[|pattern|..] == rest;
  }

  /** The characters `String.prototype.trim` removes: white space and line terminators. */
  predicate IsWhiteSpace(c: char) {
    c == ' ' || c == '\t' || c == '\n' || c == '\r' || c == '\U{000B}' || c == '\U{000C}'
    || c == '\U{00A0}' || c == '\U{1680}' || ('\U{2000}' <= c <= '\U{200A}')
    || c == '\U{2028}' || c == '\U{2029}' || c == '\U{202F}' || c == '\U{205F}'
    || c == '\U{3000}' || c == '\U{FEFF}'
  }

  function TrimStart(s: string): (r: string)
    ensures |r| <= |s| && r == s[|s| - |r|..]
    ensures |r| > 0 ==> !IsWhiteSpace(r[0])
    ensures forall k :: 0 <= k < |s| - |r| ==> IsWhiteSpace(s[k])
  {
    if |s| > 0 && IsWhiteSpace(s[0]) then TrimStart(s[1..]) else s
  }

  function TrimEnd(s: string): (r: string)
    ensures |r| <= |s| && r == s[..|r|]
    ensures |r| > 0 ==> !IsWhiteSpace(r[|r| - 1])
    ensures forall k :: |r| <= k < |s| ==> IsWhiteSpace(s[k])
  {
    if |s| > 0 && IsWhiteSpace(s[|s| - 1]) then TrimEnd(s[..|s| - 1]) else s
  }

  /** `s.trim()`: the longest infix that neither starts nor ends with white space. */
  function Trim(s: string): (r: string)
    ensures |r| > 0 ==> !IsWhiteSpace(r[0]) && !IsWhiteSpace(r[|r| - 1])
  {
    TrimEnd(TrimStart(s))
  }

  /** Lexicographic order on character codes; it stands for `localeCompare`. */
  predicate LexLess(a: string, b: string) {
    if |a| == 0 then |b| > 0
    else if |b| == 0 then false
    else if a[0] != b[0] then a[0] < b[0]
    else LexLess(a[1..], b[1..])
  }

  lemma {:induction false} LexLessIrreflexive(a: string)
    ensures !LexLess(a, a)
  {
    if |a| > 0 {
      LexLessIrreflexive(a[1..]);
    }
  }

  lemma {:induction false} LexLessAsymmetric(a: string, b: string)
    requires LexLess(a, b)
    ensures !LexLess(b, a)
  {
    if |a| > 0 && |b| > 0 && a[0] == b[0] {
      LexLessAsymmetric(a[1..], b[1..]);
    }
  }

  lemma {:induction false} LexLessTransitive(a: string, b: string, c: string)
    requires LexLess(a, b) && LexLess(b, c)
    ensures LexLess(a, c)
  {
    if |a| > 0 && |b| > 0 && |c| > 0 && a[0] == b[0] && b[0] == c[0] {
      LexLessTransitive(a[1..], b[1..], c[1..]);
    }
  }

  lemma {:induction false} LexLessTotal(a: string, b: string)
    requires a != b
    ensures LexLess(a, b) || LexLess(b, a)
  {
    if |a| > 0 && |b| > 0 && a[0] == b[0] {
      assert a == [a[0]] + a[1..] && b == [b[0]] + b[1..];
      LexLessTotal(a[1..], b[1..]);
    }
  }

  predicate LexLe(a: string, b: string) {
    a == b || LexLess(a, b)
  }

  predicate SortedStrings(s: seq<string>) {
    forall i, j :: 0 <= i < j < |s| ==> LexLe(s[i], s[j])
  }

  function InsertString(s: seq<string>, x: string): (r: seq<string>)
    requires SortedStrings(s)
    ensures SortedStrings(r)
    ensures multiset(r) == multiset(s) + multiset{x}
  {
    if |s| == 0 then [x]
    else if LexLe(x, s[0]) then
      InsertFront(s, x);
      [x] + s
    else
      var rest := InsertString(s[1..], x);
      InsertAfterHead(s, x, rest);
      [s[0]] + rest
  }

  lemma InsertFront(s: seq<string>, x: string)
    requires SortedStrings(s) && |s| > 0 && LexLe(x, s[0])
    ensures SortedStrings([x] + s)
  {
    forall j | 0 <= j < |s| ensures LexLe(x, s[j]) {
      if x != s[0] && s[0] != s[j] { LexLessTransitive(x, s[0], s[j]); }
    }
  }

  lemma InsertAfterHead(s: seq<string>, x: string, rest: seq<string>)
    requires SortedStrings(s) && |s| > 0 && !LexLe(x, s[0])
    requires SortedStrings(rest) && multiset(rest) == multiset(s[1..]) + multiset{x}
    ensures SortedStrings([s[0]] + rest)
    ensures multiset([s[0]] + rest) == multiset(s) + multiset{x}
  {
    LexLessTotal(x, s[0]);
    assert s == [s[0]] + s[1..];
    forall j | 0 <= j < |rest| ensures LexLe(s[0], rest[j]) {
      assert rest[j] in multiset(rest);
      if rest[j] != x {
        assert rest[j] in multiset(s[1..]);
        var k :| 0 <= k < |s[1..]| && s[1..][k] == rest[j];
        assert s[k + 1] == rest[j];
      }
    }
  }

  /**
   * Sorting by `localeCompare` (read here as lexicographic order): stable sorting with a total
   * order gives the unique sorted permutation.
   */
  function SortStrings(s: seq<string>): (r: seq<string>)
    ensures SortedStrings(r)
    ensures multiset(r) == multiset(s)
  {
    if |s| == 0 then []
    else
      assert s == s[..|s| - 1] + [s[|s| - 1]];
      InsertString(SortStrings(s[..|s| - 1]), s[|s| - 1])
  }
}
