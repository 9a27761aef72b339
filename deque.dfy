/** `collections.deque(maxlen=cap)`: appending to a full deque drops the
    oldest element from the left end. */
module Deque {

  /** The deque after `append(x)`. */
  function Append<T>(s: seq<T>, x: T, cap: nat): (r: seq<T>)
    requires |s| <= cap
    ensures |s| < cap ==> r == s + [x]
    ensures |s| == cap ==> r == (s + [x])[1..]
  {
    if |s| < cap then s + [x] else (s + [x])[1..]
  }

  /** After an append the deque holds the most recent `min(cap, |s| + 1)`
      elements of `s + [x]`, oldest first, and never more than `cap`. */
  lemma AppendKeepsNewest<T>(s: seq<T>, x: T, cap: nat)
    requires |s| <= cap
    ensures var r := Append(s, x, cap);
            |r| == (if |s| < cap then |s| + 1 else cap)
            && r == (s + [x])[|s| + 1 - |r|..]
            && (cap > 0 ==> r[|r| - 1] == x)
  {
  }

  /** The appended element is the newest one. */
  lemma AppendLast<T>(s: seq<T>, x: T, cap: nat)
    requires |s| <= cap && cap > 0
    ensures |Append(s, x, cap)| > 0 && Append(s, x, cap)[|Append(s, x, cap)| - 1] == x
  {
    AppendKeepsNewest(s, x, cap);
  }
}
