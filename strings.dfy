/**
 * String primitives of JavaScript that the comment pipeline relies on:
 * `String.prototype.replace` with a string pattern (first occurrence only),
 * global replacement of a literal pattern (`/lit/g`), removal of lazily
 * matched tags (`/<open.*?close/g`), `trim`, `join` and `reverse`.
 * Regular expressions are written out as explicit left-to-right scanners.
 */
module Strings {
  import opened Wrappers

  predicate StartsWith(s: string, p: string) {
    |p| <= |s| && s[..|p|] == p
  }

  predicate EndsWith(s: string, p: string) {
    |p| <= |s| && s[|s| - |p|..] == p
  }

  /** `p` occurs in `s` starting at index `i`. */
  predicate OccursAt(s: string, p: string, i: nat) {
    i + |p| <= |s| && s[i..i + |p|] == p
  }

  ghost predicate Contains(s: string, p: string) {
    exists i: nat :: OccursAt(s, p, i)
  }

  lemma OccursAtTail(s: string, p: string, j: nat)
    requires |s| > 0
    ensures OccursAt(s, p, j + 1) <==> OccursAt(s[1..], p, j)
  {
    if j + 1 + |p| <= |s| {
      assert s[j + 1..j + 1 + |p|] == s[1..][j..j + |p|];
    }
  }

  lemma OccursAtZero(s: string, p: string)
    ensures OccursAt(s, p, 0) <==> StartsWith(s, p)
  {
  }

  /** A string that does not contain `p` has no suffix containing it. */
  lemma NotContainsTail(s: string, p: string)
    requires |s| > 0 && !Contains(s, p)
    ensures !Contains(s[1..], p)
    ensures !StartsWith(s, p)
  {
    forall j: nat | OccursAt(s[1..], p, j)
      ensures false
    {
      OccursAtTail(s, p, j);
    }
    OccursAtZero(s, p);
  }

  // ---------------------------------------------------------------------------
  // indexOf / replace with a string pattern

  /** `s.indexOf(p)`: the leftmost occurrence of `p`, if any. */
  function IndexOf(s: string, p: string): (r: Option<nat>)
    ensures r.Some? ==> OccursAt(s, p, r.value)
    ensures r.Some? ==> forall j: nat :: j < r.value ==> !OccursAt(s, p, j)
    ensures r.None? ==> forall j: nat :: !OccursAt(s, p, j)
    decreases |s|
  {
    if StartsWith(s, p) then
      Some(0)
    else if s == [] then
      None
    else
      match IndexOf(s[1..], p)
      case None =>
        assert forall j: nat :: OccursAt(s, p, j + 1) <==> OccursAt(s[1..], p, j) by {
          forall j: nat ensures OccursAt(s, p, j + 1) <==> OccursAt(s[1..], p, j) { OccursAtTail(s, p, j); }
        }
        assert forall j: nat :: !OccursAt(s, p, j) by {
          forall j: nat ensures !OccursAt(s, p, j) {
            if j > 0 { OccursAtTail(s, p, j - 1); }
          }
        }
        None
      case Some(k) =>
        OccursAtTail(s, p, k);
        assert forall j: nat :: j < k + 1 ==> !OccursAt(s, p, j) by {
          forall j: nat | j < k + 1 ensures !OccursAt(s, p, j) {
            if j > 0 { OccursAtTail(s, p, j - 1); }
          }
        }
        Some(k + 1)
  }

  /**
   * `s.replace(p, repl)` with a string pattern: only the leftmost occurrence
   * is replaced; without an occurrence the string is returned unchanged.
   * (`$` patterns in `repl` are not interpreted; see README.)
   */
  function ReplaceFirst(s: string, p: string, repl: string): (r: string)
    ensures (forall j: nat :: !OccursAt(s, p, j)) ==> r == s
    ensures forall i: nat :: OccursAt(s, p, i) && (forall j: nat :: j < i ==> !OccursAt(s, p, j))
              ==> r == s[..i] + repl + s[i + |p|..]
  {
    match IndexOf(s, p)
    case None => s
    case Some(i) =>
      assert forall i': nat :: OccursAt(s, p, i') && (forall j: nat :: j < i' ==> !OccursAt(s, p, j)) ==> i' == i by {
        forall i': nat | OccursAt(s, p, i') && (forall j: nat :: j < i' ==> !OccursAt(s, p, j)) ensures i' == i {
        }
      }
      s[..i] + repl + s[i + |p|..]
  }

  // ---------------------------------------------------------------------------
  // global replacement of a literal pattern: s.replace(/lit/g, repl)

  function ReplaceAll(s: string, p: string, repl: string): (r: string)
    requires |p| > 0
    decreases |s|
  {
    if s == [] then []
    else if StartsWith(s, p) then repl + ReplaceAll(s[|p|..], p, repl)
    else [s[0]] + ReplaceAll(s[1..], p, repl)
  }

  /** A string without an occurrence of the pattern passes through unchanged. */
  lemma {:induction false} ReplaceAllAbsent(s: string, p: string, repl: string)
    requires |p| > 0 && !Contains(s, p)
    ensures ReplaceAll(s, p, repl) == s
    decreases |s|
  {
    if s != [] {
      NotContainsTail(s, p);
      ReplaceAllAbsent(s[1..], p, repl);
    }
  }

  /** A prefix that does not contain the pattern's first character is copied as it is. */
  lemma {:induction false} ReplaceAllPlainPrefix(a: string, b: string, p: string, repl: string)
    requires |p| > 0 && p[0] !in a
    ensures ReplaceAll(a + b, p, repl) == a + ReplaceAll(b, p, repl)
    decreases |a|
  {
    if a != [] {
      assert (a + b)[0] == a[0];
      if |p| <= |a + b| {
        assert (a + b)[..|p|][0] == a[0];
      }
      assert !StartsWith(a + b, p);
      assert (a + b)[1..] == a[1..] + b;
      assert p[0] !in a[1..] by { assert forall c :: c in a[1..] ==> c in a; }
      ReplaceAllPlainPrefix(a[1..], b, p, repl);
      calc {
        ReplaceAll(a + b, p, repl);
        [a[0]] + ReplaceAll(a[1..] + b, p, repl);
        [a[0]] + (a[1..] + ReplaceAll(b, p, repl));
        { assert a == [a[0]] + a[1..]; }
        a + ReplaceAll(b, p, repl);
      }
    } else {
      assert a + b == b;
    }
  }

  /** Replacing every occurrence of a character by text without it removes the character. */
  lemma {:induction false} ReplaceAllRemoves(s: string, c: char, repl: string)
    requires c !in repl
    ensures c !in ReplaceAll(s, [c], repl)
    decreases |s|
  {
    if s != [] {
      ReplaceAllRemoves(s[1..], c, repl);
      if !StartsWith(s, [c]) {
        assert s[..1] == [s[0]];
      }
    }
  }

  /**
   * Replacing `p` by `q` and then `q` by `p` gives the text back, provided
   * the text never contains the first character of `q` (the placeholder).
   */
  lemma {:induction false} ReplaceAllRoundTrip(s: string, p: string, q: string)
    requires |p| > 0 && |q| > 0 && q[0] !in s
    ensures ReplaceAll(ReplaceAll(s, p, q), q, p) == s
    decreases |s|
  {
    if s == [] {
    } else if StartsWith(s, p) {
      var rest := ReplaceAll(s[|p|..], p, q);
      assert StartsWith(q + rest, q);
      assert (q + rest)[|q|..] == rest;
      ReplaceAllRoundTrip(s[|p|..], p, q);
      assert s == p + s[|p|..];
    } else {
      ReplaceAllPlainPrefix([s[0]], ReplaceAll(s[1..], p, q), q, p);
      ReplaceAllRoundTrip(s[1..], p, q);
      assert s == [s[0]] + s[1..];
    }
  }

  // ---------------------------------------------------------------------------
  // lazily matched tags: s.replace(/<open>.*?<close>/g, repl)

  /** The characters that JavaScript's `.` does not match. */
  predicate IsLineTerminator(c: char) {
    c == '\n' || c == '\r' || c == '\U{2028}' || c == '\U{2029}'
  }

  /**
   * Where `.*?close` first succeeds on `s`: the smallest `j` at which
   * `close` starts, with no line terminator before it.
   */
  function LazyClose(s: string, close: string): (r: Option<nat>)
    ensures r.Some? ==> OccursAt(s, close, r.value)
    ensures r.Some? ==> forall k :: 0 <= k < r.value ==> !IsLineTerminator(s[k])
    decreases |s|
  {
    if StartsWith(s, close) then Some(0)
    else if s == [] || IsLineTerminator(s[0]) then None
    else
      match LazyClose(s[1..], close)
      case None => None
      case Some(j) =>
        OccursAtTail(s, close, j);
        Some(j + 1)
  }

  /** Length of the lazy match `open.*?close` at the start of `s`, 0 if none. */
  function LazyMatchLen(s: string, open: string, close: string): (n: nat)
    requires |open| > 0
    ensures n == 0 || (|open| <= n <= |s| && StartsWith(s, open))
  {
    if !StartsWith(s, open) then 0
    else
      match LazyClose(s[|open|..], close)
      case None => 0
      case Some(j) => |open| + j + |close|
  }

  function ReplaceLazy(s: string, open: string, close: string, repl: string): (r: string)
    requires |open| > 0
    decreases |s|
  {
    if s == [] then []
    else
      var n := LazyMatchLen(s, open, close);
      if n > 0 then repl + ReplaceLazy(s[n..], open, close, repl)
      else [s[0]] + ReplaceLazy(s[1..], open, close, repl)
  }

  /** Text in which the opening of the tag pattern never occurs passes through unchanged. */
  lemma {:induction false} ReplaceLazyAbsent(s: string, open: string, close: string, repl: string)
    requires |open| > 0 && !Contains(s, open)
    ensures ReplaceLazy(s, open, close, repl) == s
    decreases |s|
  {
    if s != [] {
      NotContainsTail(s, open);
      ReplaceLazyAbsent(s[1..], open, close, repl);
    }
  }

  /** Removing matches never lengthens the text. */
  lemma {:induction false} ReplaceLazyShrinks(s: string, open: string, close: string)
    requires |open| > 0
    ensures |ReplaceLazy(s, open, close, "")| <= |s|
    decreases |s|
  {
    if s != [] {
      var n := LazyMatchLen(s, open, close);
      if n > 0 {
        ReplaceLazyShrinks(s[n..], open, close);
      } else {
        ReplaceLazyShrinks(s[1..], open, close);
      }
    }
  }

  // ---------------------------------------------------------------------------
  // trim

  /** ECMAScript WhiteSpace and LineTerminator code points, which `trim` removes. */
  predicate IsJsWhiteSpace(c: char) {
    c == '\t' || c == '\U{000B}' || c == '\U{000C}' || c == ' ' || c == '\U{00A0}' || c == '\U{FEFF}'
    || c == '\U{1680}' || ('\U{2000}' <= c <= '\U{200A}') || c == '\U{202F}' || c == '\U{205F}' || c == '\U{3000}'
    || IsLineTerminator(c)
  }

  function TrimStart(s: string): (r: string)
    ensures |r| <= |s| && r == s[|s| - |r|..]
    ensures r == [] || !IsJsWhiteSpace(r[0])
    ensures forall k :: 0 <= k < |s| - |r| ==> IsJsWhiteSpace(s[k])
  {
    if s != [] && IsJsWhiteSpace(s[0]) then TrimStart(s[1..]) else s
  }

  function TrimEnd(s: string): (r: string)
    ensures |r| <= |s| && r == s[..|r|]
    ensures r == [] || !IsJsWhiteSpace(r[|r| - 1])
    ensures forall k :: |r| <= k < |s| ==> IsJsWhiteSpace(s[k])
  {
    if s != [] && IsJsWhiteSpace(s[|s| - 1]) then TrimEnd(s[..|s| - 1]) else s
  }

  predicate AllWhiteSpace(t: string) {
    forall k :: 0 <= k < |t| ==> IsJsWhiteSpace(t[k])
  }

  /** `s` is `r` at index `i`, surrounded by white space only. */
  ghost predicate TrimmedAt(s: string, r: string, i: nat) {
    i + |r| <= |s| && s[i..i + |r|] == r && AllWhiteSpace(s[..i]) && AllWhiteSpace(s[i + |r|..])
  }

  /** The trimmed text sits in `s` right after the leading white space. */
  lemma TrimWitness(s: string)
    ensures TrimmedAt(s, TrimEnd(TrimStart(s)), |s| - |TrimStart(s)|)
  {
    var a := TrimStart(s);
    var r := TrimEnd(a);
    var i := |s| - |a|;
    assert s[i..] == a;
    assert AllWhiteSpace(s[..i]) by {
      forall k | 0 <= k < i
        ensures IsJsWhiteSpace(s[..i][k])
      {
        assert s[..i][k] == s[k];
      }
    }
    assert s[i..i + |r|] == r by {
      assert s[i..i + |r|] == a[..|r|];
    }
    var t := s[i + |r|..];
    assert AllWhiteSpace(t) by {
      forall k | 0 <= k < |t|
        ensures IsJsWhiteSpace(t[k])
      {
        assert t[k] == a[|r| + k];
      }
    }
    assert TrimmedAt(s, r, i);
  }

  /**
   * `s.trim()`: `s` is the result surrounded by white space only, and the
   * result neither starts nor ends with white space.
   */
  function Trim(s: string): (r: string)
    ensures exists i: nat :: TrimmedAt(s, r, i)
    ensures r == [] || (!IsJsWhiteSpace(r[0]) && !IsJsWhiteSpace(r[|r| - 1]))
  {
    TrimWitness(s);
    TrimEnd(TrimStart(s))
  }

  // ---------------------------------------------------------------------------
  // arrays

  /** `list.join(sep)`. */
  function Join(parts: seq<string>, sep: string): (r: string) {
    if parts == [] then ""
    else if |parts| == 1 then parts[0]
    else parts[0] + sep + Join(parts[1..], sep)
  }

  /** `list.reverse()` as a value. */
  function Reverse<T>(s: seq<T>): (r: seq<T>)
    ensures |r| == |s|
    ensures forall k :: 0 <= k < |s| ==> r[k] == s[|s| - 1 - k]
  {
    if s == [] then [] else Reverse(s[1..]) + [s[0]]
  }

  lemma StartsWithConcat(p: string, r: string)
    ensures StartsWith(p + r, p) && (p + r)[|p|..] == r
  {
    assert (p + r)[..|p|] == p;
  }

  lemma StartsWithTrans(a: string, b: string, c: string)
    requires StartsWith(a, b) && StartsWith(b, c)
    ensures StartsWith(a, c)
  {
    assert a[..|c|] == b[..|c|];
  }

  lemma StartsWithExtend(s: string, p: string, t: string)
    requires StartsWith(s, p)
    ensures StartsWith(s + t, p)
  {
    assert (s + t)[..|p|] == s[..|p|];
  }

  lemma ContainsAppendLeft(a: string, b: string, t: string)
    requires Contains(b, t)
    ensures Contains(a + b, t)
  {
    var i: nat :| OccursAt(b, t, i);
    assert (a + b)[|a| + i..|a| + i + |t|] == b[i..i + |t|];
    assert OccursAt(a + b, t, |a| + i);
  }

  lemma ContainsAppendRight(a: string, b: string, t: string)
    requires Contains(a, t)
    ensures Contains(a + b, t)
  {
    var i: nat :| OccursAt(a, t, i);
    assert (a + b)[i..i + |t|] == a[i..i + |t|];
    assert OccursAt(a + b, t, i);
  }

  lemma ContainsSelf(t: string)
    ensures Contains(t, t)
  {
    assert OccursAt(t, t, 0);
  }

  /** An occurrence inside the middle part is an occurrence in the whole. */
  lemma ContainsInner(a: string, m: string, b: string, t: string)
    requires Contains(m, t)
    ensures Contains(a + m + b, t)
  {
    var i: nat :| OccursAt(m, t, i);
    var s := a + m + b;
    assert s[|a| + i..|a| + i + |t|] == m[i..i + |t|];
    assert OccursAt(s, t, |a| + i);
  }

  /** A text without the first character of a pattern does not contain the pattern. */
  lemma NoFirstCharNoContains(s: string, p: string)
    requires |p| > 0 && p[0] !in s
    ensures !Contains(s, p)
  {
    forall i: nat ensures !OccursAt(s, p, i) {
      if i + |p| <= |s| {
        assert s[i..i + |p|][0] == s[i];
      }
    }
  }

  /** Every part of a joined list occurs in the joined text. */
  lemma {:induction false} JoinHolds(parts: seq<string>, sep: string, i: nat)
    requires i < |parts|
    ensures Contains(Join(parts, sep), parts[i])
    decreases i
  {
    if |parts| == 1 {
      assert OccursAt(parts[0], parts[0], 0);
    } else if i == 0 {
      StartsWithConcat(parts[0], sep + Join(parts[1..], sep));
      ConcatAssoc(parts[0], sep, Join(parts[1..], sep));
      assert OccursAt(Join(parts, sep), parts[0], 0);
    } else {
      JoinHolds(parts[1..], sep, i - 1);
      assert parts[1..][i - 1] == parts[i];
      ContainsInner(parts[0] + sep, Join(parts[1..], sep), [], parts[i]);
      assert parts[0] + sep + Join(parts[1..], sep) + [] == Join(parts, sep);
    }
  }

  lemma ConcatAssoc<T>(a: seq<T>, b: seq<T>, c: seq<T>)
    ensures a + (b + c) == (a + b) + c
  {
  }

  lemma ReverseInvolution<T>(s: seq<T>)
    ensures Reverse(Reverse(s)) == s
  {
  }

  lemma ReversePermutes<T>(s: seq<T>)
    ensures multiset(Reverse(s)) == multiset(s)
  {
    if s != [] {
      ReversePermutes(s[1..]);
      assert s == [s[0]] + s[1..];
    }
  }
}
