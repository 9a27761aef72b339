/** Character classes, case mapping and string scanning on ASCII text, the way
    Python's `str` methods and `re` character classes behave on it. Frames are
    decoded as ASCII before they are parsed, so nothing else reaches them. */
module Ascii {
  import opened Wrappers

  /** `str.isspace()` and the regex class `\s` restricted to ASCII: tab, line
      feed, vertical tab, form feed, carriage return, the four separators
      0x1C-0x1F and the space. */
  predicate IsSpace(c: char) {
    (9 <= c as int <= 13) || (28 <= c as int <= 32)
  }

  /** The regex class `\d` on ASCII. */
  predicate IsDigit(c: char) {
    '0' <= c <= '9'
  }

  /** The regex class `\w` on ASCII: letters, digits and the underscore. */
  predicate IsWordChar(c: char) {
    ('a' <= c <= 'z') || ('A' <= c <= 'Z') || IsDigit(c) || c == '_'
  }

  function Upper(c: char): char {
    if 'a' <= c <= 'z' then (c as int - 32) as char else c
  }

  function Lower(c: char): char {
    if 'A' <= c <= 'Z' then (c as int + 32) as char else c
  }

  /** `str.upper()` */
  function UpperStr(s: string): (r: string)
    ensures |r| == |s| && forall k :: 0 <= k < |s| ==> r[k] == Upper(s[k])
  {
    seq(|s|, k requires 0 <= k < |s| => Upper(s[k]))
  }

  /** `str.lower()` */
  function LowerStr(s: string): (r: string)
    ensures |r| == |s| && forall k :: 0 <= k < |s| ==> r[k] == Lower(s[k])
  {
    seq(|s|, k requires 0 <= k < |s| => Lower(s[k]))
  }

  /** The end of the run of characters satisfying `f` that starts at `i`:
      the longest stretch `s[i..j]` of such characters. */
  function RunEnd(s: string, i: nat, f: char -> bool): (j: nat)
    requires i <= |s|
    ensures i <= j <= |s|
    ensures forall k :: i <= k < j ==> f(s[k])
    ensures j == |s| || !f(s[j])
    decreases |s| - i
  {
    if i < |s| && f(s[i]) then RunEnd(s, i + 1, f) else i
  }

  /** A run of `f` characters covering `s[i..e]` ends at or after `e`. */
  lemma {:induction false} RunEndCovers(s: string, i: nat, e: nat, f: char -> bool)
    requires i <= e <= |s|
    requires forall k :: i <= k < e ==> f(s[k])
    ensures e <= RunEnd(s, i, f)
    decreases e - i
  {
    if i < e {
      RunEndCovers(s, i + 1, e, f);
    }
  }

  /** A run of `f` characters that stops at `e` ends exactly there. */
  lemma RunEndExact(s: string, i: nat, e: nat, f: char -> bool)
    requires i <= e <= |s|
    requires forall k :: i <= k < e ==> f(s[k])
    requires e == |s| || !f(s[e])
    ensures RunEnd(s, i, f) == e
  {
    RunEndCovers(s, i, e, f);
  }

  /** The number of characters satisfying `f` at the end of `s`. */
  function TrailingRun(s: string, f: char -> bool): (n: nat)
    ensures n <= |s|
    ensures forall k :: |s| - n <= k < |s| ==> f(s[k])
    ensures n == |s| || !f(s[|s| - n - 1])
    decreases |s|
  {
    if |s| > 0 && f(s[|s| - 1]) then TrailingRun(s[..|s| - 1], f) + 1 else 0
  }

  /** `str.strip()`: the text without leading and trailing whitespace. */
  function Strip(s: string): (r: string)
    ensures |r| <= |s|
    ensures r == [] || (!IsSpace(r[0]) && !IsSpace(r[|r| - 1]))
    ensures exists i, j :: 0 <= i <= j <= |s| && r == s[i..j]
    ensures r == [] <==> forall k :: 0 <= k < |s| ==> IsSpace(s[k])
  {
    var i := RunEnd(s, 0, IsSpace);
    var t := s[i..];
    var n := TrailingRun(t, IsSpace);
    var r := t[..|t| - n];
    assert r == s[i..|s| - n];
    r
  }

  function StartsWith(s: string, prefix: string): bool {
    |prefix| <= |s| && s[..|prefix|] == prefix
  }

  /** `p` occurs in `s` starting at index `k`. */
  predicate OccursAt(s: string, p: string, k: nat) {
    k + |p| <= |s| && s[k..k + |p|] == p
  }

  /** `s.find(p, from)`: the first index at or after `from` where `p` occurs. */
  function Find(s: string, p: string, from: nat): (r: Option<nat>)
    requires from <= |s|
    ensures r.Some? ==> from <= r.value && OccursAt(s, p, r.value)
    ensures r.Some? ==> forall k :: from <= k < r.value ==> !OccursAt(s, p, k)
    ensures r.None? ==> forall k :: from <= k ==> !OccursAt(s, p, k)
    decreases |s| - from
  {
    if from + |p| > |s| then None
    else if s[from..from + |p|] == p then Some(from)
    else Find(s, p, from + 1)
  }

  /** `p in s` for strings. */
  function Contains(s: string, p: string): bool {
    Find(s, p, 0).Some?
  }

  /** A text that starts with `p` contains it. */
  lemma ContainsAtStart(s: string, p: string)
    requires StartsWith(s, p)
    ensures Contains(s, p)
  {
  }

  /** A text in which the first character of `p` never occurs early enough
      to start a copy of `p` does not contain it. */
  lemma NotContains(s: string, p: string)
    requires |p| > 0
    requires forall k :: 0 <= k && k + |p| <= |s| ==> s[k] != p[0]
    ensures !Contains(s, p)
  {
    forall k | 0 <= k ensures !OccursAt(s, p, k) {
      if k + |p| <= |s| {
        assert s[k..k + |p|][0] == s[k];
      }
    }
  }

  /** Texts whose first characters differ do not start alike. */
  lemma NotStartsWith(s: string, p: string)
    requires |s| > 0 && |p| > 0 && s[0] != p[0]
    ensures !StartsWith(s, p)
  {
    if |p| <= |s| {
      assert s[..|p|][0] == s[0];
    }
  }

  /** Case-insensitive comparison of `s` at `i` with an upper-case `word`,
      as a regex compiled with IGNORECASE compares a literal. */
  predicate MatchesAt(s: string, i: nat, word: string) {
    i + |word| <= |s| && forall k :: 0 <= k < |word| ==> Upper(s[i + k]) == word[k]
  }

  /** The first position `k` in `[from, end)` where `f` has an answer, with
      that answer: the leftmost-match rule of a regex search or of a
      first-match loop. */
  function FirstSome<T>(from: nat, end: nat, f: nat -> Option<T>): (r: Option<(nat, T)>)
    ensures r.Some? ==> from <= r.value.0 < end && f(r.value.0) == Some(r.value.1)
    ensures r.Some? ==> forall k :: from <= k < r.value.0 ==> f(k).None?
    ensures r.None? ==> forall k :: from <= k < end ==> f(k).None?
    decreases end - from
  {
    if from >= end then None
    else match f(from)
      case Some(x) => Some((from, x))
      case None => FirstSome(from + 1, end, f)
  }

  /** The first element of `xs` at or after `from` for which `f` has an
      answer, with its index and that answer. */
  function FirstMapped<T, U>(xs: seq<T>, f: T -> Option<U>, from: nat): (r: Option<(nat, U)>)
    ensures r.Some? ==> from <= r.value.0 < |xs| && f(xs[r.value.0]) == Some(r.value.1)
    ensures r.Some? ==> forall k :: from <= k < r.value.0 ==> f(xs[k]).None?
    ensures r.None? ==> forall k :: from <= k < |xs| ==> f(xs[k]).None?
    decreases |xs| - from
  {
    if from >= |xs| then None
    else match f(xs[from])
      case Some(y) => Some((from, y))
      case None => FirstMapped(xs, f, from + 1)
  }
}
